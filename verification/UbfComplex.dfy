/** The ownership-aware operations on UBFs, as the library performs them on the native heap. Each is
    proved to change the heap exactly as UbfEdits describes, to refuse exactly what it must, and to free
    nothing twice. */
module UbfComplex {
  import opened Xatmi
  import opened UbfFields
  import opened UbfHeap
  import opened UbfForest
  import opened UbfTrees
  import opened UbfOwnership
  import opened UbfEdits

  datatype UbfError = BNOTPRES | BEINVAL | BMALLOC | BNOSPACE | BTYPERR
  datatype Result<+T> = Ok(value: T) | Err(error: UbfError)

  /** A value for one occurrence: data, a VIEW, or a buffer of the caller to own or to copy inline. */
  datatype UbfValue = Plain(bytes: seq<int>) | Viewed(name: string, bytes: seq<int>) | OwnedPtr(buf: Addr) | OwnedUbf(ubf: Addr)

  const I32_MAX: int := 0x7FFF_FFFF

  /** The room an occurrence takes. Only whether a buffer is full depends on it. */
  function Size(s: seq<Occ<Val>>): nat
    decreases s
  {
    if s == [] then 0 else SizeOf(s[0]) + Size(s[1..])
  }

  function SizeOf(o: Occ<Val>): nat
    decreases o
  {
    match o.val
    case DataVal(b) => 8 + |b|
    case ViewVal(n, b) => 8 + |n| + |b|
    case PtrVal(_) => 16
    case UbfVal(c) => 8 + Size(c)
  }

  /** Addresses are allocated upwards, contents are well formed, and no stored address is from the future. */
  ghost predicate Sane(h: Heap, caps: map<Addr, nat>, next: Addr) {
    && NULL < next
    && forall a :: a in h ==> SaneAt(h[a], a, caps, next)
  }

  ghost predicate SaneAt(b: Buf, a: Addr, caps: map<Addr, nat>, next: Addr) {
    && NULL < a < next && a in caps && caps[a] > 0
    && Proper(OccsOf(b)) && Known(Owned(b), next)
  }

  ghost predicate Known(us: seq<Addr>, next: Addr) {
    forall u :: u in us ==> u < next
  }

  lemma SanePut(h: Heap, caps: map<Addr, nat>, next: Addr, r: Addr, f: FieldId, i: nat, v: Val)
    requires Sane(h, caps, next) && r in h && h[r].UbfBuf? && ProperOcc(Occ(f, v)) && Known(TargetsIn(Occ(f, v)), next)
    ensures Sane(h[r := UbfBuf(Put(h[r].occs, f, i, v, Gap(f.kind)))], caps, next)
  {
    var s := Put(h[r].occs, f, i, v, Gap(f.kind));
    PutProper(h[r].occs, f, i, v);
    PutTargets(h[r].occs, f, i, v);
    forall u | u in Targets(s) ensures u < next {
      assert u in multiset(Targets(s)) + multiset(At(h[r].occs, f, i));
      assert u in multiset(Targets(h[r].occs)) || u in multiset(TargetsIn(Occ(f, v)));
      assert u in Owned(h[r]) || u in TargetsIn(Occ(f, v));
    }
    assert SaneAt(UbfBuf(s), r, caps, next);
  }

  lemma SaneDel(h: Heap, caps: map<Addr, nat>, next: Addr, r: Addr, f: FieldId, i: nat)
    requires Sane(h, caps, next) && r in h && h[r].UbfBuf?
    ensures Sane(h[r := UbfBuf(Del(h[r].occs, f, i))], caps, next)
  {
    var s := Del(h[r].occs, f, i);
    DelProper(h[r].occs, f, i);
    DelTargets(h[r].occs, f, i);
    forall u | u in Targets(s) ensures u < next {
      assert u in multiset(Targets(s)) + multiset(At(h[r].occs, f, i));
      assert u in multiset(Targets(h[r].occs));
      assert u in Owned(h[r]);
    }
    assert SaneAt(UbfBuf(s), r, caps, next);
  }

  /** The buffers of the caller `us` are trees of their own. */
  ghost predicate Trees(h: Heap, us: seq<Addr>, n: nat) {
    Complete(h, us, n) && Single(Unfold(h, us, n))
  }

  /** Freeing a root leaves the others as they were. */
  lemma FreeFirst(h: Heap, us: seq<Addr>, n: nat)
    requires us != [] && Trees(h, us, n)
    ensures us[0] in h && Free(h, [us[0]]) == Some(h - Elems(Unfold(h, [us[0]], n)))
    ensures var k := h - Elems(Unfold(h, [us[0]], n));
            && Trees(k, us[1..], n)
            && k - Elems(Unfold(k, us[1..], n)) == h - Elems(Unfold(h, us, n))
  {
    var x, y := Unfold(h, [us[0]], n), Unfold(h, us[1..], n);
    assert us == [us[0]] + us[1..];
    UnfoldAppend(h, [us[0]], us[1..], n);
    SumElems(x, y, {});
    FreeExactly(h, [us[0]], n);
    MeetsLive(h, us[1..], n);
    var k := h - Elems(x);
    forall a | a in y ensures a in k && k[a] == h[a] { assert a in Elems(y); }
    Frame(h, k, us[1..], n);
    TwoSteps(h, Elems(x), Elems(y));
  }

  lemma NextRoot(roots: seq<Addr>, k: nat)
    requires k < |roots|
    ensures roots[k..] != [] && roots[k..][0] == roots[k] && roots[k..][1..] == roots[k + 1..]
    ensures roots[..k + 1] == roots[..k] + [roots[k]]
  {
  }

  lemma TwoSteps(h: Heap, x: set<Addr>, y: set<Addr>)
    ensures h - x - y == h - (x + y)
  {
  }

  /** Of `s`, the first `k` occurrences have been checked and `met` is what is seen by now. */
  ghost predicate Tallied(h: Heap, s: seq<Occ<Val>>, seen: set<Addr>, met: set<Addr>, n: nat, k: nat) {
    && k <= |s|
    && (Clean(h, s, seen, n) <==> Clean(h, s[k..], met, n))
    && met + Elems(Met(h, s[k..])) == seen + Elems(Met(h, s))
  }

  lemma TallyOne(h: Heap, s: seq<Occ<Val>>, seen: set<Addr>, met: set<Addr>, n: nat, k: nat)
    requires k < |s| && n > 0 && Tallied(h, s, seen, met, n, k)
    ensures !CleanIn(h, s[k], met, n) ==> !Clean(h, s, seen, n)
    ensures CleanIn(h, s[k], met, n) ==> Tallied(h, s, seen, met + Elems(MetIn(h, s[k])), n, k + 1)
  {
    assert s[k..][0] == s[k] && s[k..][1..] == s[k + 1..];
    CleanCons(h, s[k..], met, n);
  }

  lemma TallyEnds(h: Heap, s: seq<Occ<Val>>, seen: set<Addr>, met: set<Addr>, n: nat)
    requires n > 0 && Tallied(h, s, seen, met, n, |s|)
    ensures Clean(h, s, seen, n) && met == seen + Elems(Met(h, s))
  {
    assert s[|s|..] == [];
    NothingMet(h, met, n);
  }

  lemma NothingMet(h: Heap, seen: set<Addr>, n: nat)
    requires n > 0
    ensures Clean(h, [], seen, n) && Elems(Met(h, [])) == {}
  {
  }

  class UbfContext {
    var heap: Heap
    var caps: map<Addr, nat>
    var next: Addr
    var allocs: nat      // how many allocations will still succeed

    ghost predicate Valid()
      reads this
    {
      Sane(heap, caps, next)
    }

    ghost predicate IsUbf(r: Addr)
      reads this
    {
      r in heap && heap[r].UbfBuf?
    }

    constructor ()
      ensures Valid() && heap == map[]
    {
      heap, caps, next, allocs := map[], map[], 1, 0;
    }

    // ----- native operations

    method TpAlloc(b: Buf, capacity: nat) returns (r: Result<Addr>)
      requires Valid() && capacity > 0 && OccsOf(b) == []
      modifies this
      ensures Valid() && next >= old(next) && allocs <= old(allocs)
      ensures r.Err? ==> r == Err(BMALLOC) && old(allocs) == 0 && heap == old(heap) && next == old(next) && caps == old(caps)
      ensures r.Ok? ==> r.value == old(next) && next == old(next) + 1 && heap == old(heap)[r.value := b]
                        && caps == old(caps)[r.value := capacity]
    {
      if allocs == 0 { return Err(BMALLOC); }
      heap, caps, allocs, next, r := heap[next := b], caps[next := capacity], allocs - 1, next + 1, Ok(next);
    }

    /** The cascading free. Freeing anything twice is not allowed. */
    method TpFree(a: Addr)
      requires Valid() && Free(heap, [a]).Some?
      modifies `heap
      ensures Some(heap) == Free(old(heap), [a]) && Valid()
    {
      FreeShrinks(heap, [a]);
      heap := Free(heap, [a]).value;
    }

    method Bchg(r: Addr, f: FieldId, i: nat, v: Val) returns (e: Option<UbfError>)
      requires Valid() && IsUbf(r) && ProperOcc(Occ(f, v)) && Known(TargetsIn(Occ(f, v)), next)
      modifies `heap
      ensures var s := Put(old(heap)[r].occs, f, i, v, Gap(f.kind));
              if Size(s) <= caps[r] then e == None && heap == old(heap)[r := UbfBuf(s)]
              else e == Some(BNOSPACE) && heap == old(heap)
      ensures Valid()
    {
      var s := Put(heap[r].occs, f, i, v, Gap(f.kind));
      if Size(s) > caps[r] { return Some(BNOSPACE); }
      SanePut(heap, caps, next, r, f, i, v);
      heap := heap[r := UbfBuf(s)];
      e := None;
    }

    method Bdel(r: Addr, f: FieldId, i: nat) returns (e: Option<UbfError>)
      requires Valid() && IsUbf(r)
      modifies `heap
      ensures Get(old(heap)[r].occs, f, i).None? ==> e == Some(BNOTPRES) && heap == old(heap)
      ensures Get(old(heap)[r].occs, f, i).Some? ==> e == None && heap == old(heap)[r := UbfBuf(Del(old(heap)[r].occs, f, i))]
      ensures Valid()
    {
      if Get(heap[r].occs, f, i).None? { return Some(BNOTPRES); }
      SaneDel(heap, caps, next, r, f, i);
      heap := heap[r := UbfBuf(Del(heap[r].occs, f, i))];
      e := None;
    }

    // ----- the library

    method GrowBuffer(r: Addr) returns (e: Option<UbfError>)
      requires Valid() && r in heap
      modifies `caps, `allocs
      ensures Valid() && caps.Keys == old(caps).Keys && allocs <= old(allocs)
      ensures e == None ==> caps == old(caps)[r := 2 * old(caps)[r]]
      ensures e != None ==> e == Some(BMALLOC) && old(allocs) == 0 && caps == old(caps)
    {
      if allocs == 0 { return Some(BMALLOC); }
      caps, allocs, e := caps[r := caps[r] * 2], allocs - 1, None;
    }

    /** Write one occurrence, growing the buffer as long as it is full. */
    method PutNative(r: Addr, f: FieldId, i: nat, v: Val, realloc: bool) returns (e: Option<UbfError>)
      requires Valid() && IsUbf(r) && ProperOcc(Occ(f, v)) && Known(TargetsIn(Occ(f, v)), next)
      modifies `heap, `caps, `allocs
      ensures Valid() && caps.Keys == old(caps).Keys && allocs <= old(allocs) && (!realloc ==> caps == old(caps))
      ensures e == None ==> heap == old(heap)[r := UbfBuf(Put(old(heap)[r].occs, f, i, v, Gap(f.kind)))]
      ensures e != None ==> heap == old(heap) && e == Some(if realloc then BMALLOC else BNOSPACE)
                            && Size(Put(old(heap)[r].occs, f, i, v, Gap(f.kind))) > old(caps)[r]
                            && (realloc ==> allocs == 0)
    {
      ghost var need := Size(Put(heap[r].occs, f, i, v, Gap(f.kind)));
      while true
        invariant heap == old(heap) && Valid() && caps.Keys == old(caps).Keys && allocs <= old(allocs)
        invariant caps[r] >= old(caps)[r] && (caps != old(caps) ==> need > old(caps)[r] && realloc)
        decreases if need > caps[r] then need - caps[r] else 0
      {
        e := Bchg(r, f, i, v);
        if e == None || !realloc { return; }
        e := GrowBuffer(r);
        if e != None { return; }
      }
    }

    /** Free detached roots, each once. */
    method FreeRoots(roots: seq<Addr>, ghost n: nat)
      requires Valid() && Trees(heap, roots, n)
      modifies `heap
      ensures Valid() && heap == old(heap) - Elems(Unfold(old(heap), roots, n))
    {
      StartsDistinct(heap, roots, n);
      var freed: set<Addr> := {};
      var k := 0;
      while k < |roots|
        invariant 0 <= k <= |roots| && Valid() && Trees(heap, roots[k..], n)
        invariant forall u :: u in freed <==> u in roots[..k]
        invariant heap - Elems(Unfold(heap, roots[k..], n)) == old(heap) - Elems(Unfold(old(heap), roots, n))
      {
        var root := roots[k];
        NextRoot(roots, k);
        FreeFirst(heap, roots[k..], n);
        if root != NULL && root !in freed {
          freed := freed + {root};
          TpFree(root);
        }
        k := k + 1;
      }
      assert Unfold(heap, roots[k..], n) == multiset{} && heap - {} == heap;
    }

    /** The pointer targets of a UBF, through its inline children. */
    method CollectRoots(s: seq<Occ<Val>>, roots: seq<Addr>, depth: nat) returns (r: Result<seq<Addr>>)
      ensures r.Ok? <==> depth <= LEVELS && Shallow(s, LEVELS + 1 - depth)
      ensures r == if r.Ok? then Ok(roots + Targets(s)) else Err(BEINVAL)
      decreases LEVELS + 1 - depth, 0
    {
      if depth > LEVELS { return Err(BEINVAL); }
      var got, k := roots, 0;
      while k < |s|
        invariant 0 <= k <= |s|
        invariant Shallow(s, LEVELS + 1 - depth) <==> Shallow(s[k..], LEVELS + 1 - depth)
        invariant got + Targets(s[k..]) == roots + Targets(s)
      {
        assert s[k..][0] == s[k] && s[k..][1..] == s[k + 1..];
        match s[k].val {
          case PtrVal(a) => if a != NULL { got := got + [a]; }
          case UbfVal(c) =>
            r := CollectRoots(c, got, depth + 1);
            if r.Err? { return; }
            got := r.value;
          case _ =>
        }
        k := k + 1;
      }
      assert s[k..] == [] && got + [] == got;
      r := Ok(got);
    }

    /** The targets one occurrence owns. */
    method OwnedFieldRoots(r: Addr, f: FieldId, i: nat) returns (roots: Result<seq<Addr>>)
      requires Valid() && IsUbf(r)
      ensures roots.Ok? <==> Searchable(Get(heap[r].occs, f, i))
      ensures roots == if roots.Ok? then Ok(At(heap[r].occs, f, i)) else Err(BEINVAL)
    {
      var v := Get(heap[r].occs, f, i);
      if v == None { return Ok([]); }
      GetProper(heap[r].occs, f, i);
      match f.kind {
        case PtrField => roots := Ok(if v.value.target == NULL then [] else [v.value.target]);
        case UbfField =>
          roots := CollectRoots(v.value.occs, [], 0);
          assert [] + Targets(v.value.occs) == Targets(v.value.occs);
        case _ => roots := Ok([]);
      }
    }

    /** Refuse shared targets, cycles, dead targets and more than 128 levels. Accepts exactly the clean
        graphs, and returns every address met. */
    method UniqueTargets(s: seq<Occ<Val>>, seen: set<Addr>, depth: nat) returns (r: Result<set<Addr>>)
      requires Valid()
      ensures r.Ok? <==> depth < LEVELS && Clean(heap, s, seen, LEVELS - depth)
      ensures r.Ok? ==> r.value == seen + Elems(Met(heap, s))
      ensures r.Err? ==> r.error == BEINVAL || r.error == BMALLOC
      decreases if depth < LEVELS then LEVELS - depth else 0, 1
    {
      if depth >= LEVELS { return Err(BEINVAL); }
      var met, k := seen, 0;
      assert s[0..] == s;
      while k < |s|
        invariant 0 <= k <= |s| && Tallied(heap, s, seen, met, LEVELS - depth, k)
      {
        TallyOne(heap, s, seen, met, LEVELS - depth, k);
        r := UniqueTarget(s[k], met, depth);
        if r.Err? { return; }
        met, k := r.value, k + 1;
      }
      TallyEnds(heap, s, seen, met, LEVELS - depth);
      r := Ok(met);
    }

    /** One occurrence of that traversal. */
    method UniqueTarget(o: Occ<Val>, seen: set<Addr>, depth: nat) returns (r: Result<set<Addr>>)
      requires Valid() && depth < LEVELS
      ensures r.Ok? <==> CleanIn(heap, o, seen, LEVELS - depth)
      ensures r.Ok? ==> r.value == seen + Elems(MetIn(heap, o))
      ensures r.Err? ==> r.error == BEINVAL || r.error == BMALLOC
      decreases LEVELS - depth, 0
    {
      match o.val {
        case PtrVal(a) =>
          if a == NULL {
            CleanPlain(heap, o, seen, LEVELS - depth);
            return Ok(seen);
          }
          CleanPtr(heap, o.field, a, seen, LEVELS - depth);
          if a in seen { return Err(BEINVAL); }
          if a !in heap { return Err(BMALLOC); }
          if !heap[a].UbfBuf? {
            MetNone(heap, OccsOf(heap[a]));
            return Ok(seen + {a});
          }
          r := UniqueTargets(heap[a].occs, seen + {a}, depth + 1);
        case UbfVal(c) =>
          CleanInline(heap, o.field, c, seen, LEVELS - depth);
          r := UniqueTargets(c, seen, depth + 1);
        case _ =>
          CleanPlain(heap, o, seen, LEVELS - depth);
          r := Ok(seen);
      }
    }

    /** Sound and complete: accepts exactly the trees. */
    method EnsureOwnedTree(r: Addr) returns (e: Option<UbfError>)
      requires Valid() && IsUbf(r)
      ensures e == None <==> OwnedTree(heap, r)
      ensures e != None ==> e == Some(BEINVAL) || e == Some(BMALLOC)
    {
      var met := UniqueTargets(heap[r].occs, {r}, 0);
      e := if met.Ok? then None else Some(met.error);
    }

    /** Delete an occurrence and free what it owned. */
    method BdelOwned(r: Addr, f: FieldId, i: nat) returns (e: Option<UbfError>)
      requires Valid() && IsUbf(r)
      modifies `heap
      ensures Valid()
      ensures e == None <==> Get(old(heap)[r].occs, f, i).Some? && MayReplace(old(heap), r, f, i)
      ensures heap == if e == None then AfterDelete(old(heap), r, f, i) else old(heap)
    {
      var roots := OwnedFieldRoots(r, f, i);
      if roots.Err? { return Some(roots.error); }
      if roots.value != [] {
        e := EnsureOwnedTree(r);
        if e != None { return; }
      }
      e := Bdel(r, f, i);
      if e != None { return; }
      ReleaseRoots(old(heap), r, f, i, heap[r].occs, roots.value);
    }

    /** Overwrite an occurrence with the NULL placeholder of its kind, in place. */
    method PutNullComplex(r: Addr, f: FieldId, i: nat, realloc: bool) returns (e: Option<UbfError>)
      requires Valid() && IsUbf(r)
      modifies this
      ensures Valid() && next == old(next) && caps.Keys == old(caps).Keys
      ensures allocs <= old(allocs) && (!realloc ==> caps == old(caps))
      ensures e == None ==> MayReplace(old(heap), r, f, i) && HasNull(f)
                            && heap == AfterPut(old(heap), r, f, i, Gap(f.kind))
      ensures e != None ==> heap == old(heap)
      ensures e != None ==> !MayReplace(old(heap), r, f, i) || !HasNull(f)
                            || Full(NoRoom(old(heap), old(caps), r, f, i, Gap(f.kind)), realloc, allocs)
    {
      var roots := OwnedFieldRoots(r, f, i);
      if roots.Err? { return Some(roots.error); }
      if roots.value != [] {
        e := EnsureOwnedTree(r);
        if e != None { return; }
      }
      if !HasNull(f) { return Some(BTYPERR); }
      e := PutNative(r, f, i, Gap(f.kind), realloc);
      if e != None { return; }
      ReleaseRoots(old(heap), r, f, i, heap[r].occs, roots.value);
    }

    /** Copy a UBF of the caller inline, consuming it. With `transfer`, its targets move along; without, a
        child that has pointers is refused. Either way the caller's child is gone afterwards: its shell
        alone on success, with all it owns on failure, provided it can be dropped at all, sharing nothing
        within itself. */
    method EmbedUbf(r: Addr, f: FieldId, i: nat, child: Addr, realloc: bool, transfer: bool, ghost n: nat) returns (e: Option<UbfError>)
      requires Valid() && IsUbf(r) && IsUbf(child) && child != r
      requires child !in Gone(heap, r, f, i)
      modifies this
      ensures Valid() && next == old(next) && caps.Keys == old(caps).Keys
      ensures allocs <= old(allocs) && (!realloc ==> caps == old(caps))
      ensures e == None ==> MayReplace(old(heap), r, f, i) && MayEmbed(old(heap), f, child, transfer)
                            && heap == AfterEmbed(old(heap), r, f, i, child)
      ensures e != None && Trees(old(heap), [child], n) ==> heap == old(heap) - Elems(Unfold(old(heap), [child], n))
      ensures e != None ==> !MayReplace(old(heap), r, f, i) || !MayEmbed(old(heap), f, child, transfer)
                            || Full(NoRoom(old(heap), old(caps), r, f, i, UbfVal(old(heap)[child].occs)), realloc, allocs)
    {
      ghost var h := heap;
      var previous;
      e, previous := TryEmbed(r, f, i, child, realloc, transfer);
      if e != None { DropOwner(child, n); }
      else { FinishEmbed(h, r, f, i, child, previous); }
    }

    /** Clear the shell of a child that gave its pointers away, free it, and free what was overwritten. */
    method FinishEmbed(ghost h: Heap, r: Addr, f: FieldId, i: nat, child: Addr, previous: seq<Addr>)
      requires Valid() && MayReplace(h, r, f, i) && child in h && h[child].UbfBuf? && child != r && child !in Gone(h, r, f, i)
      requires heap == h[r := UbfBuf(Put(h[r].occs, f, i, UbfVal(h[child].occs), Gap(f.kind)))]
      requires previous == At(h[r].occs, f, i)
      modifies `heap
      ensures Valid() && heap == AfterEmbed(h, r, f, i, child)
    {
      if HasPointer(heap[child].occs) { heap := heap[child := UbfBuf([])]; }
      else { NoPointersNoTargets(heap[child].occs); }
      DropShell(h, r, f, i, child, heap[r].occs, previous);
    }

    method DropShell(ghost h: Heap, r: Addr, f: FieldId, i: nat, child: Addr, ghost s: seq<Occ<Val>>, previous: seq<Addr>)
      requires Valid() && MayReplace(h, r, f, i) && child != r && child !in Gone(h, r, f, i)
      requires Wiped(h, r, s, child, heap) && previous == At(h[r].occs, f, i)
      modifies `heap
      ensures Valid() && heap == Edited(h, r, s, Gone(h, r, f, i) + {child})
    {
      EmbedShell(h, r, f, i, child, s, heap);
      TpFree(child);
      FreeRoots(previous, LEVELS);
    }

    /** The embedding up to the native write; nothing is consumed yet. */
    method TryEmbed(r: Addr, f: FieldId, i: nat, child: Addr, realloc: bool, transfer: bool) returns (e: Option<UbfError>, previous: seq<Addr>)
      requires Valid() && IsUbf(r) && IsUbf(child)
      modifies `heap, `caps, `allocs
      ensures Valid() && caps.Keys == old(caps).Keys
      ensures allocs <= old(allocs) && (!realloc ==> caps == old(caps))
      ensures e == None ==> MayReplace(old(heap), r, f, i) && MayEmbed(old(heap), f, child, transfer)
                            && heap == old(heap)[r := UbfBuf(Put(old(heap)[r].occs, f, i, UbfVal(old(heap)[child].occs), Gap(f.kind)))]
      ensures e == None ==> previous == At(old(heap)[r].occs, f, i)
      ensures e != None ==> heap == old(heap)
      ensures e != None ==> !MayReplace(old(heap), r, f, i) || !MayEmbed(old(heap), f, child, transfer)
                            || Full(NoRoom(old(heap), old(caps), r, f, i, UbfVal(old(heap)[child].occs)), realloc, allocs)
    {
      if f.kind != UbfField { return Some(BTYPERR), []; }
      if HasPointer(heap[child].occs) && !transfer { return Some(BEINVAL), []; }
      var roots := OwnedFieldRoots(r, f, i);
      if roots.Err? { return Some(roots.error), []; }
      previous := roots.value;
      if previous != [] {
        e := EnsureOwnedTree(r);
        if e != None { return; }
      }
      e := PutNative(r, f, i, UbfVal(heap[child].occs), realloc);
    }

    /** Remove a pointer occurrence and hand its target to the caller. */
    method BextractPtr(r: Addr, f: FieldId, i: nat) returns (target: Result<Addr>)
      requires Valid() && IsUbf(r)
      modifies `heap
      ensures Valid()
      ensures target.Ok? <==> HoldsPointer(Get(old(heap)[r].occs, f, i)) && OwnedTree(old(heap), r)
      ensures target.Ok? ==> At(old(heap)[r].occs, f, i) == [target.value]
                             && heap == old(heap)[r := UbfBuf(Del(old(heap)[r].occs, f, i))]
      ensures target.Err? ==> heap == old(heap)
    {
      var v := Get(heap[r].occs, f, i);
      if v != None { GetProper(heap[r].occs, f, i); }
      if f.kind != PtrField { return Err(BTYPERR); }
      if v == None || v.value.target == NULL { return Err(BNOTPRES); }
      var e := EnsureOwnedTree(r);
      if e != None { return Err(e.value); }
      e := Bdel(r, f, i);
      target := Ok(v.value.target);
    }

    /** Write or append a value. A buffer of the caller is consumed in every outcome: stored on success,
        freed with all it owns on failure. What the written occurrence owned before is freed. */
    method WriteValue(r: Addr, f: FieldId, i: nat, v: UbfValue, realloc: bool, add: bool, ghost n: nat) returns (e: Option<UbfError>)
      requires Valid() && IsUbf(r) && Consumable(heap, r, v)
      requires v.OwnedUbf? ==> v.ubf !in Gone(heap, r, f, Position(heap, r, f, i, add))
      modifies this
      ensures Valid() && next == old(next) && caps.Keys == old(caps).Keys
      ensures allocs <= old(allocs) && (!realloc ==> caps == old(caps))
      ensures e == None ==> Accepts(old(heap), f, v) && MayReplace(old(heap), r, f, Position(old(heap), r, f, i, add))
                            && heap == AfterWrite(old(heap), r, f, Position(old(heap), r, f, i, add), v)
      ensures e != None && Trees(old(heap), Consumed(v), n) ==> heap == old(heap) - Elems(Unfold(old(heap), Consumed(v), n))
      ensures e != None ==> !Accepts(old(heap), f, v) || !MayReplace(old(heap), r, f, Position(old(heap), r, f, i, add))
                            || Full(NoRoom(old(heap), old(caps), r, f, Position(old(heap), r, f, i, add), Stored(old(heap), v)), realloc, allocs)
                            || (add && |Column(old(heap)[r].occs, f)| > I32_MAX)
    {
      if (f.kind == PtrField) != v.OwnedPtr? || (add && |Column(heap[r].occs, f)| > I32_MAX) {
        DropValue(v, n);
        return Some(if (f.kind == PtrField) != v.OwnedPtr? then BTYPERR else BEINVAL);
      }
      var occ := if add then |Column(heap[r].occs, f)| else i;
      match v {
        case OwnedUbf(c) => e := EmbedUbf(r, f, occ, c, realloc, false, n);
        case Viewed(name, bytes) =>
          e := WritePlain(r, f, occ, ViewVal(name, bytes), realloc);
          if e == None { PlainWrite(old(heap), r, f, occ, v); } else { NothingMinus(heap); }
        case Plain(bytes) =>
          e := WritePlain(r, f, occ, DataVal(bytes), realloc);
          if e == None { PlainWrite(old(heap), r, f, occ, v); } else { NothingMinus(heap); }
        case OwnedPtr(a) =>
          AddedIsNew(heap[r].occs, f);
          e := WritePtr(r, f, occ, a, realloc, add, n);
      }
    }

    /** The write of data or of a VIEW; the native layer refuses a field of another kind. */
    method WritePlain(r: Addr, f: FieldId, i: nat, v: Val, realloc: bool) returns (e: Option<UbfError>)
      requires Valid() && IsUbf(r) && (v.DataVal? || v.ViewVal?)
      modifies `heap, `caps, `allocs
      ensures Valid() && caps.Keys == old(caps).Keys
      ensures allocs <= old(allocs) && (!realloc ==> caps == old(caps))
      ensures e == None ==> f.kind == (if v.DataVal? then DataField else ViewField)
                            && heap == old(heap)[r := UbfBuf(Put(old(heap)[r].occs, f, i, v, Gap(f.kind)))]
      ensures e != None ==> heap == old(heap)
      ensures e != None ==> f.kind != (if v.DataVal? then DataField else ViewField) || Full(NoRoom(old(heap), old(caps), r, f, i, v), realloc, allocs)
    {
      if f.kind != (if v.DataVal? then DataField else ViewField) { return Some(BTYPERR); }
      e := PutNative(r, f, i, v, realloc);
    }

    /** The write of a pointer: the loop checks ownership again after each growth. */
    method WritePtr(r: Addr, f: FieldId, i: nat, a: Addr, realloc: bool, add: bool, ghost n: nat) returns (e: Option<UbfError>)
      requires Valid() && IsUbf(r) && f.kind == PtrField && a in heap
      requires add ==> Get(heap[r].occs, f, i) == None
      modifies `heap, `caps, `allocs
      ensures Valid() && caps.Keys == old(caps).Keys
      ensures allocs <= old(allocs) && (!realloc ==> caps == old(caps))
      ensures e == None ==> MayReplace(old(heap), r, f, i) && heap == AfterPut(old(heap), r, f, i, PtrVal(a))
      ensures e != None && Trees(old(heap), [a], n) ==> heap == old(heap) - Elems(Unfold(old(heap), [a], n))
      ensures e != None ==> !MayReplace(old(heap), r, f, i) || Full(NoRoom(old(heap), old(caps), r, f, i, PtrVal(a)), realloc, allocs)
    {
      e := StorePtr(r, f, i, a, realloc, add);
      if e != None { DropOwner(a, n); }
    }

    method StorePtr(r: Addr, f: FieldId, i: nat, a: Addr, realloc: bool, add: bool) returns (e: Option<UbfError>)
      requires Valid() && IsUbf(r) && f.kind == PtrField && a in heap
      requires add ==> Get(heap[r].occs, f, i) == None
      modifies `heap, `caps, `allocs
      ensures Valid() && caps.Keys == old(caps).Keys
      ensures allocs <= old(allocs) && (!realloc ==> caps == old(caps))
      ensures e == None ==> MayReplace(old(heap), r, f, i) && heap == AfterPut(old(heap), r, f, i, PtrVal(a))
      ensures e != None ==> heap == old(heap)
      ensures e != None ==> !MayReplace(old(heap), r, f, i) || Full(NoRoom(old(heap), old(caps), r, f, i, PtrVal(a)), realloc, allocs)
    {
      var previous := if add then None else Get(heap[r].occs, f, i);
      if Get(heap[r].occs, f, i) != None { GetProper(heap[r].occs, f, i); }
      var occupied := previous != None && previous.value.target != NULL;
      e := PutChecked(r, f, i, PtrVal(a), realloc, occupied);
      if e == None {
        ReleaseRoots(old(heap), r, f, i, heap[r].occs, if occupied then [previous.value.target] else []);
      }
    }

    /** The write loop: when a target is about to be replaced, ownership is checked before every attempt. */
    method PutChecked(r: Addr, f: FieldId, i: nat, v: Val, realloc: bool, check: bool) returns (e: Option<UbfError>)
      requires Valid() && IsUbf(r) && ProperOcc(Occ(f, v)) && Known(TargetsIn(Occ(f, v)), next)
      modifies `heap, `caps, `allocs
      ensures Valid() && caps.Keys == old(caps).Keys
      ensures allocs <= old(allocs) && (!realloc ==> caps == old(caps))
      ensures e == None ==> (check ==> OwnedTree(old(heap), r))
                            && heap == old(heap)[r := UbfBuf(Put(old(heap)[r].occs, f, i, v, Gap(f.kind)))]
      ensures e != None ==> heap == old(heap)
      ensures e != None ==> (check && !OwnedTree(old(heap), r)) || Full(NoRoom(old(heap), old(caps), r, f, i, v), realloc, allocs)
    {
      while true
        invariant heap == old(heap) && Valid() && caps.Keys == old(caps).Keys && caps[r] >= old(caps)[r]
        invariant allocs <= old(allocs) && (caps != old(caps) ==> NoRoom(heap, old(caps), r, f, i, v) && realloc)
        decreases Shortfall(heap, caps, r, f, i, v)
      {
        if check {
          e := EnsureOwnedTree(r);
          if e != None { return; }
        }
        e := Bchg(r, f, i, v);
        if e == None || !realloc { return; }
        e := GrowBuffer(r);
        if e != None { return; }
      }
    }

    /** After an edit of the heap `h`, free what the edited occurrence owned. */
    method ReleaseRoots(ghost h: Heap, r: Addr, f: FieldId, i: nat, ghost s: seq<Occ<Val>>, roots: seq<Addr>)
      requires Valid() && MayReplace(h, r, f, i) && heap == h[r := UbfBuf(s)] && roots == At(h[r].occs, f, i)
      modifies `heap
      ensures Valid() && heap == Edited(h, r, s, Gone(h, r, f, i))
    {
      GoneSafe(h, r, f, i, UbfBuf(s));
      FreeRoots(roots, LEVELS);
    }

    /** Dropping a value that was not stored. */
    method DropValue(v: UbfValue, ghost n: nat)
      requires Valid()
      modifies `heap
      ensures Valid()
      ensures Trees(old(heap), Consumed(v), n) ==> heap == old(heap) - Elems(Unfold(old(heap), Consumed(v), n))
    {
      match v {
        case OwnedPtr(a) => DropOwner(a, n);
        case OwnedUbf(c) => DropOwner(c, n);
        case _ => NothingMinus(heap);
      }
    }

    /** Dropping a buffer of the caller. If it shares something within itself the native free would meet a
        buffer twice; what becomes of the heap then is not said. */
    method DropOwner(a: Addr, ghost n: nat)
      requires Valid()
      modifies `heap
      ensures Valid()
      ensures Trees(old(heap), [a], n) ==> heap == old(heap) - Elems(Unfold(old(heap), [a], n))
    {
      if Trees(heap, [a], n) { FreeExactly(heap, [a], n); }
      if Free(heap, [a]).Some? { TpFree(a); }
    }

    /** Delete the last of `total` occurrences. */
    method DeleteLast(r: Addr, f: FieldId, total: nat) returns (e: Option<UbfError>)
      requires Valid() && IsUbf(r) && |Column(heap[r].occs, f)| == total > 0
      modifies `heap
      ensures Valid() && IsUbf(r)
      ensures e == None <==> MayReplace(old(heap), r, f, total - 1)
      ensures e == None ==> heap == AfterDelete(old(heap), r, f, total - 1) && |Column(heap[r].occs, f)| == total - 1
      ensures e != None ==> heap == old(heap)
    {
      GetColumn(heap[r].occs, f, total - 1);
      e := BdelOwned(r, f, total - 1);
      if e == None { LastDeleted(old(heap), r, f, total); }
    }

    /** Delete the occurrences of a field from `first` on, last first. */
    method ClearFrom(r: Addr, f: FieldId, first: int) returns (e: Option<UbfError>)
      requires Valid() && IsUbf(r)
      modifies `heap
      ensures Valid() && IsUbf(r)
      ensures e == None ==> first >= 0 && ClearedTo(old(heap), heap, r, f, Least(first, |Column(old(heap)[r].occs, f)|))
      ensures e != None && first >= 0 ==>
                exists k: nat :: first < k && ClearedTo(old(heap), heap, r, f, k) && !MayReplace(heap, r, f, k - 1)
      ensures first < 0 ==> e == Some(BEINVAL) && heap == old(heap)
    {
      if first < 0 { return Some(BEINVAL); }
      var total: nat := |Column(heap[r].occs, f)|;
      while total > first
        invariant Valid() && IsUbf(r) && |Column(heap[r].occs, f)| == total
        invariant Least(first, total) == Least(first, |Column(old(heap)[r].occs, f)|)
        invariant ClearedTo(old(heap), heap, r, f, total)
        decreases total
      {
        ghost var h := heap;
        e := DeleteLast(r, f, total);
        if e != None { return; }
        ClearedStep(old(heap), h, heap, r, f, total);
        total := total - 1;
      }
      e := None;
    }
  }

  function Least(first: int, total: nat): int {
    if first < total then first else total
  }

  predicate HasPointer(s: seq<Occ<Val>>)
    decreases s
  {
    s != [] && (HasPointerIn(s[0]) || HasPointer(s[1..]))
  }

  /** A NULL pointer is one too. */
  predicate HasPointerIn(o: Occ<Val>)
    decreases o
  {
    match o.val
    case PtrVal(_) => true
    case UbfVal(c) => HasPointer(c)
    case _ => false
  }

  lemma {:induction false} NoPointersNoTargets(s: seq<Occ<Val>>)
    requires !HasPointer(s)
    ensures Targets(s) == []
    decreases s
  {
    if s != [] {
      NoPointersIn(s[0]);
      NoPointersNoTargets(s[1..]);
    }
  }

  lemma {:induction false} NoPointersIn(o: Occ<Val>)
    requires !HasPointerIn(o)
    ensures TargetsIn(o) == []
    decreases o
  {
    if o.val.UbfVal? { NoPointersNoTargets(o.val.occs); }
  }

  /** Only PTR and VIEW occurrences have a NULL placeholder. */
  predicate HasNull(f: FieldId) {
    f.kind == PtrField || f.kind == ViewField
  }

  ghost predicate HoldsPointer(v: Option<Val>) {
    v.Some? && v.value.PtrVal? && v.value.target != NULL
  }

  ghost predicate NoRoom(h: Heap, caps: map<Addr, nat>, r: Addr, f: FieldId, i: nat, v: Val) {
    r in h && r in caps && Size(Put(OccsOf(h[r]), f, i, v, Gap(f.kind))) > caps[r]
  }

  /** The buffer is full, and cannot or must not grow. */
  ghost predicate Full(noRoom: bool, realloc: bool, left: nat) {
    noRoom && (realloc ==> left == 0)
  }

  ghost function Shortfall(h: Heap, caps: map<Addr, nat>, r: Addr, f: FieldId, i: nat, v: Val): nat {
    if NoRoom(h, caps, r, f, i, v) then Size(Put(OccsOf(h[r]), f, i, v, Gap(f.kind))) - caps[r] else 0
  }

  ghost predicate MayEmbed(h: Heap, f: FieldId, child: Addr, transfer: bool) {
    f.kind == UbfField && child in h && (transfer || !HasPointer(OccsOf(h[child])))
  }

  ghost function AfterEmbed(h: Heap, r: Addr, f: FieldId, i: nat, child: Addr): Heap
    requires r in h && child in h
  {
    Edited(h, r, Put(OccsOf(h[r]), f, i, UbfVal(OccsOf(h[child])), Gap(f.kind)), Gone(h, r, f, i) + {child})
  }

  /** The heap after the native write, with the shell cleared if it had pointers. */
  ghost predicate Wiped(h: Heap, r: Addr, s: seq<Occ<Val>>, child: Addr, k: Heap) {
    && (k == h[r := UbfBuf(s)] || k == h[r := UbfBuf(s)][child := UbfBuf([])])
    && child in k && Owned(k[child]) == []
  }

  lemma FreeShell(k: Heap, child: Addr)
    requires child in k && Owned(k[child]) == []
    ensures Free(k, [child]) == Some(k - {child})
  {
    assert [] + [child][1..] == [];
    assert Free(k - {child}, []) == Some(k - {child});
  }

  lemma WithoutShell(h: Heap, r: Addr, s: seq<Occ<Val>>, child: Addr, k: Heap, gone: set<Addr>)
    requires Wiped(h, r, s, child, k) && child != r
    ensures k - {child} == h[r := UbfBuf(s)] - {child}
    ensures k - {child} - gone == Edited(h, r, s, gone + {child})
  {
  }

  /** After the native write the shell owns nothing any more, or never did, and what was overwritten can
      be freed without it. */
  lemma EmbedShell(h: Heap, r: Addr, f: FieldId, i: nat, child: Addr, s: seq<Occ<Val>>, k: Heap)
    requires MayReplace(h, r, f, i) && child != r && child !in Gone(h, r, f, i) && Wiped(h, r, s, child, k)
    ensures Free(k, [child]) == Some(k - {child})
    ensures Trees(k - {child}, At(h[r].occs, f, i), LEVELS)
    ensures k - {child} - Elems(Unfold(k - {child}, At(h[r].occs, f, i), LEVELS)) == Edited(h, r, s, Gone(h, r, f, i) + {child})
  {
    var out := At(h[r].occs, f, i);
    FreeShell(k, child);
    WithoutShell(h, r, s, child, k, Gone(h, r, f, i));
    GoneSafe(h, r, f, i, UbfBuf(s));
    assert child !in Unfold(h[r := UbfBuf(s)], out, LEVELS);
    Shrink(h[r := UbfBuf(s)], child, out, LEVELS);
  }

  /** The occurrence a write addresses. */
  function Position(h: Heap, r: Addr, f: FieldId, i: nat, add: bool): nat {
    if add && r in h then |Column(OccsOf(h[r]), f)| else i
  }

  ghost function Consumed(v: UbfValue): seq<Addr> {
    match v case OwnedPtr(a) => [a] case OwnedUbf(c) => [c] case _ => []
  }

  /** A buffer handed over is live, and not the buffer written to. */
  ghost predicate Consumable(h: Heap, r: Addr, v: UbfValue) {
    && (v.OwnedPtr? ==> v.buf in h)
    && (v.OwnedUbf? ==> v.ubf in h && h[v.ubf].UbfBuf? && v.ubf != r)
  }

  ghost predicate Accepts(h: Heap, f: FieldId, v: UbfValue) {
    match v
    case Plain(_) => f.kind == DataField
    case Viewed(_, _) => f.kind == ViewField
    case OwnedPtr(_) => f.kind == PtrField
    case OwnedUbf(c) => MayEmbed(h, f, c, false)
  }

  ghost function Stored(h: Heap, v: UbfValue): Val {
    match v
    case Plain(b) => DataVal(b)
    case Viewed(n, b) => ViewVal(n, b)
    case OwnedPtr(a) => PtrVal(a)
    case OwnedUbf(c) => UbfVal(if c in h then OccsOf(h[c]) else [])
  }

  ghost function AfterWrite(h: Heap, r: Addr, f: FieldId, i: nat, v: UbfValue): Heap
    requires r in h
  {
    Edited(h, r, Put(OccsOf(h[r]), f, i, Stored(h, v), Gap(f.kind)),
           Gone(h, r, f, i) + (if v.OwnedUbf? then {v.ubf} else {}))
  }

  /** Data and VIEW occurrences own nothing, so writing them is always allowed and frees nothing. */
  lemma PlainWrite(h: Heap, r: Addr, f: FieldId, i: nat, v: UbfValue)
    requires r in h && h[r].UbfBuf? && Proper(h[r].occs) && f.kind in {DataField, ViewField} && !v.OwnedUbf?
    ensures MayReplace(h, r, f, i)
    ensures AfterWrite(h, r, f, i, v) == h[r := UbfBuf(Put(h[r].occs, f, i, Stored(h, v), Gap(f.kind)))]
  {
    if Get(h[r].occs, f, i).Some? { GetProper(h[r].occs, f, i); }
    assert At(h[r].occs, f, i) == [];
    NothingMinus(h[r := UbfBuf(Put(h[r].occs, f, i, Stored(h, v), Gap(f.kind)))]);
  }

  lemma NothingMinus(h: Heap)
    ensures h - ({} + {}) == h && h - Elems(multiset{}) == h
  {
    assert Elems(multiset{}) == {};
  }

  lemma AddedIsNew(s: seq<Occ<Val>>, f: FieldId)
    ensures Get(s, f, |Column(s, f)|) == None
  {
    GetColumn(s, f, |Column(s, f)|);
  }

  lemma LastDeleted(h: Heap, r: Addr, f: FieldId, total: nat)
    requires total > 0 && MayReplace(h, r, f, total - 1) && |Column(h[r].occs, f)| == total > 0
    ensures var k := AfterDelete(h, r, f, total - 1);
            r in k && k[r].UbfBuf? && |Column(k[r].occs, f)| == total - 1
  {
    GoneSafe(h, r, f, total - 1, UbfBuf(Del(h[r].occs, f, total - 1)));
    DelColumn(h[r].occs, f, total - 1, f);
  }

  /** The heap after deleting the occurrences `first` to `total - 1`, last first. */
  ghost function Cleared(h: Heap, r: Addr, f: FieldId, total: nat, first: nat): Heap
    decreases if total > first then total - first else 0
  {
    if first >= total || r !in h then h
    else
      var k := Cleared(h, r, f, total, first + 1);
      if r in k then AfterDelete(k, r, f, first) else k
  }

  /** Each of those deletions was allowed. */
  ghost predicate Clearable(h: Heap, r: Addr, f: FieldId, total: nat, first: nat)
    decreases if total > first then total - first else 0
  {
    first >= total || (Clearable(h, r, f, total, first + 1) && MayReplace(Cleared(h, r, f, total, first + 1), r, f, first))
  }

  /** Of `h`, the occurrences from `k` on have been deleted, and nothing else. */
  ghost predicate ClearedTo(h: Heap, now: Heap, r: Addr, f: FieldId, k: int) {
    && r in h && 0 <= k <= |Column(OccsOf(h[r]), f)| && r in now
    && now == Cleared(h, r, f, |Column(OccsOf(h[r]), f)|, k) && Clearable(h, r, f, |Column(OccsOf(h[r]), f)|, k)
  }

  lemma ClearedStep(h: Heap, was: Heap, now: Heap, r: Addr, f: FieldId, k: int)
    requires k > 0 && ClearedTo(h, was, r, f, k) && MayReplace(was, r, f, k - 1) && now == AfterDelete(was, r, f, k - 1) && r in now
    ensures ClearedTo(h, now, r, f, k - 1)
  {
  }

  lemma {:induction false} FreeShrinks(h: Heap, us: seq<Addr>)
    requires Free(h, us).Some?
    ensures forall a :: a in Free(h, us).value ==> a in h && Free(h, us).value[a] == h[a]
    decreases |h|, |us|
  {
    if us != [] { FreeShrinks(h - {us[0]}, Owned(h[us[0]]) + us[1..]); }
  }
}
