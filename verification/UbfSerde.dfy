/** The structure mappings as they run: on a buffer of the native heap, through the ownership-aware
    operations of UbfComplex. A write that succeeds does to the buffer's value what SerdeModel says; one that
    fails has a reason: the value is not of the type, an edit may not be made, or memory has run out; and
    whether it succeeds or not, every live buffer keeps exactly one owner and the program's other buffers
    are untouched. */
module UbfSerde {
  import opened Xatmi
  import opened UbfFields
  import opened UbfHeap
  import opened UbfForest
  import opened UbfTrees
  import opened UbfOwnership
  import opened UbfEdits
  import opened UbfComplex
  import opened SerdeModel
  import opened SerdeHeap
  import opened SerdeRoundTrip
  import opened SerdeTyping
  import opened SerdeSteps
  import SerdeDepth

  /** The program holds `r`, which has the value `t`, and the buffers `rest`. */
  ghost predicate Holding(h: Heap, r: Addr, rest: seq<Addr>, t: UbfTree) {
    Forest(h, [r] + rest) && Shows(h, r, t)
  }

  /** A write to `r` took the heap from `h` to `k`: it kept the forest and the other buffers, and if there
      was no error the value is `result`'s. */
  ghost predicate Wrote(h: Heap, k: Heap, r: Addr, rest: seq<Addr>, e: Option<UbfError>, result: Result<UbfTree>) {
    && Forest(k, [r] + rest) && Kept(h, k, rest)
    && (e == None ==> result.Ok? && Shows(k, r, result.value))
  }

  /** Memory is only used up, and the capacities of the program's buffers `us` change only if buffers may grow. */
  ghost predicate Spends(us: seq<Addr>, caps: map<Addr, nat>, now: map<Addr, nat>, left: nat, left': nat, realloc: bool) {
    left' <= left && forall a :: a in us && a in caps ==> a in now && (!realloc ==> now[a] == caps[a])
  }

  lemma SpendsOn(us: seq<Addr>, caps: map<Addr, nat>, now: map<Addr, nat>, later: map<Addr, nat>, l0: nat, l1: nat, l2: nat, realloc: bool)
    requires Spends(us, caps, now, l0, l1, realloc) && Spends(us, now, later, l1, l2, realloc)
    ensures Spends(us, caps, later, l0, l2, realloc)
    ensures forall r :: r in us && r in caps ==> Limit(now, r, realloc) == Limit(caps, r, realloc)
  {
  }

  lemma SpendsRest(c: Addr, us: seq<Addr>, caps: map<Addr, nat>, now: map<Addr, nat>, left: nat, left': nat, realloc: bool)
    requires Spends([c] + us, caps, now, left, left', realloc)
    ensures Spends(us, caps, now, left, left', realloc)
  {
  }

  lemma OwnersLive(h: Heap, us: seq<Addr>)
    requires Forest(h, us)
    ensures forall a :: a in us ==> a in h
  {
    var n: nat :| Whole(h, us, n);
    forall a | a in us ensures a in h {
      var i :| 0 <= i < |us| && us[i] == a;
      MeetsStarts(h, us, n, i);
      MeetsLive(h, us, n);
    }
  }

  /** The room there is in a buffer that must not grow. */
  ghost function Limit(caps: map<Addr, nat>, r: Addr, realloc: bool): Option<nat> {
    if realloc || r !in caps then None else Some(caps[r])
  }

  /** The reasons for which a write of `v` to occurrence `i` can have failed. */
  ghost predicate Excused(t: UbfTree, f: FieldId, i: nat, v: TreeVal, cap: Option<nat>, left: nat) {
    !MayPut(t, f, i, v, cap) || left == 0
  }

  /** The native layer's reasons, as the value shows them. */
  lemma ExcusedShown(h: Heap, caps: map<Addr, nat>, r: Addr, rest: seq<Addr>, t: UbfTree, f: FieldId, i: nat, v: Val, n: nat, realloc: bool, left: nat)
    requires Holding(h, r, rest, t) && r in caps && FitsIn(h, v, n)
    requires !MayReplace(h, r, f, i) || Full(NoRoom(h, caps, r, f, i, v), realloc, left)
    ensures Excused(t, f, i, TreeIn(h, v, n), Limit(caps, r, realloc), left)
  {
    MayGoShown(h, r, rest, t, f, i);
    RoomShown(h, caps, r, t, f, i, v, n);
  }

  lemma OwnerLive(h: Heap, r: Addr, rest: seq<Addr>)
    requires Forest(h, [r] + rest)
    ensures r in h
  {
    var n: nat :| Whole(h, [r] + rest, n);
    UnfoldAppend(h, [r], rest, n);
  }

  lemma NothingWrote(h: Heap, r: Addr, rest: seq<Addr>, e: UbfError, result: Result<UbfTree>)
    requires Forest(h, [r] + rest)
    ensures Wrote(h, h, r, rest, Some(e), result)
  {
    KeptSame(h, [r], rest);
  }

  lemma WroteThen(h: Heap, k: Heap, m: Heap, r: Addr, rest: seq<Addr>, e: Option<UbfError>, first: Result<UbfTree>, result: Result<UbfTree>)
    requires Wrote(h, k, r, rest, None, first) && Wrote(k, m, r, rest, e, result)
    ensures Wrote(h, m, r, rest, e, result)
  {
    KeptAgain(h, k, m, rest);
  }

  lemma PlainWrote(h: Heap, k: Heap, r: Addr, rest: seq<Addr>, t: UbfTree, f: FieldId, i: nat, v: UbfValue, e: Option<UbfError>)
    requires Holding(h, r, rest, t) && Sorted(h[r].occs) && (v.Plain? || v.Viewed?)
    requires if e == None then MayReplace(h, r, f, i) && k == AfterWrite(h, r, f, i, v) else k == h - Elems(Unfold(h, [], 0))
    ensures Wrote(h, k, r, rest, e, PutAt(t, f, i, if v.Plain? then TData(v.bytes) else TView(v.name, v.bytes)))
  {
    if e == None {
      PlainShows(h, r, f, i, Stored(h, v), rest, t);
      assert Gone(h, r, f, i) + {} == Gone(h, r, f, i);
    } else {
      NothingMinus(h);
      KeptSame(h, [r], rest);
    }
  }

  /** Write data or an inline VIEW. */
  method WriteSimple(ctx: UbfContext, r: Addr, f: FieldId, occ: int, v: UbfValue, realloc: bool, ghost rest: seq<Addr>, ghost t: UbfTree)
    returns (e: Option<UbfError>)
    requires ctx.Valid() && Holding(ctx.heap, r, rest, t) && (v.Plain? || v.Viewed?)
    modifies ctx
    ensures ctx.Valid()
    ensures Wrote(old(ctx.heap), ctx.heap, r, rest, e, PutAt(t, f, occ, if v.Plain? then TData(v.bytes) else TView(v.name, v.bytes)))
    ensures e == None ==> Accepts(old(ctx.heap), f, v)
    ensures Spends([r] + rest, old(ctx.caps), ctx.caps, old(ctx.allocs), ctx.allocs, realloc)
    ensures e != None ==> occ < 0 || f.kind != (if v.Plain? then DataField else ViewField)
                          || Excused(t, f, occ, if v.Plain? then TData(v.bytes) else TView(v.name, v.bytes), Limit(old(ctx.caps), r, realloc), ctx.allocs)
  {
    if occ < 0 {
      NothingWrote(ctx.heap, r, rest, BEINVAL, PutAt(t, f, occ, if v.Plain? then TData(v.bytes) else TView(v.name, v.bytes)));
      return Some(BEINVAL);
    }
    assert SaneAt(ctx.heap[r], r, ctx.caps, ctx.next);
    e := ctx.WriteValue(r, f, occ, v, realloc, false, 0);
    PlainWrote(old(ctx.heap), ctx.heap, r, rest, t, f, occ, v, e);
    if e != None && Accepts(old(ctx.heap), f, v) {
      ExcusedShown(old(ctx.heap), old(ctx.caps), r, rest, t, f, occ, Stored(old(ctx.heap), v), 1, realloc, ctx.allocs);
    }
  }

  lemma DropWrote(h: Heap, r: Addr, c: Addr, rest: seq<Addr>, t: UbfTree, e: UbfError, result: Result<UbfTree>) returns (n: nat)
    requires Forest(h, [c] + ([r] + rest)) && Shows(h, r, t)
    ensures Trees(h, [c], n) && c in h && c != r
    ensures var k := h - Elems(Unfold(h, [c], n));
            Free(h, [c]) == Some(k) && Wrote(h, k, r, rest, Some(e), result) && Kept(h, k, [r] + rest)
  {
    n := DropKeeps(h, c, [r] + rest);
    OwnerLive(h, c, [r] + rest);
    KeptRest(h, h - Elems(Unfold(h, [c], n)), r, rest);
    var m: nat :| Whole(h, [c] + ([r] + rest), m);
    WholeSingle(h, [c] + ([r] + rest), m);
    StartsDistinct(h, [c] + ([r] + rest), m);
    assert ([c] + ([r] + rest))[0] == c && ([c] + ([r] + rest))[1] == r;
  }

  lemma TargetWrote(h: Heap, r: Addr, f: FieldId, i: nat, c: Addr, rest: seq<Addr>, t: UbfTree, b: TreeBuf, n: nat)
    requires MayReplace(h, r, f, i) && Forest(h, [c] + ([r] + rest)) && Sorted(h[r].occs) && Shows(h, r, t)
    requires c != NULL && c in h && (h[c].UbfBuf? ==> Fits(h, h[c].occs, n)) && TreeBufOf(h, h[c], n + 1) == b
    ensures Wrote(h, AfterWrite(h, r, f, i, OwnedPtr(c)), r, rest, None, PutAt(t, f, i, TRef(b)))
  {
    PtrShows(h, r, f, i, c, rest, t, b, n);
    assert Gone(h, r, f, i) + {} == Gone(h, r, f, i);
  }

  /** Give the program's buffer `c` to a pointer occurrence. */
  method StoreTarget(ctx: UbfContext, r: Addr, f: FieldId, occ: nat, c: Addr, realloc: bool,
                     ghost rest: seq<Addr>, ghost t: UbfTree, ghost b: TreeBuf, ghost n: nat) returns (e: Option<UbfError>)
    requires ctx.Valid() && Forest(ctx.heap, [c] + ([r] + rest)) && Shows(ctx.heap, r, t) && c in ctx.heap
    requires (ctx.heap[c].UbfBuf? ==> Fits(ctx.heap, ctx.heap[c].occs, n)) && TreeBufOf(ctx.heap, ctx.heap[c], n + 1) == b
    modifies ctx
    ensures ctx.Valid() && Wrote(old(ctx.heap), ctx.heap, r, rest, e, PutAt(t, f, occ, TRef(b)))
    ensures Spends([r] + rest, old(ctx.caps), ctx.caps, old(ctx.allocs), ctx.allocs, realloc)
    ensures e != None ==> f.kind != PtrField || Excused(t, f, occ, TRef(b), Limit(old(ctx.caps), r, realloc), ctx.allocs)
  {
    ghost var h := ctx.heap;
    ghost var m := DropWrote(h, r, c, rest, t, BEINVAL, PutAt(t, f, occ, TRef(b)));
    assert SaneAt(h[r], r, ctx.caps, ctx.next) && SaneAt(h[c], c, ctx.caps, ctx.next);
    e := ctx.WriteValue(r, f, occ, OwnedPtr(c), realloc, false, m);
    if e == None { TargetWrote(h, r, f, occ, c, rest, t, b, n); }
    else if f.kind == PtrField { TargetExcused(h, old(ctx.caps), r, f, occ, c, rest, t, b, n, realloc, ctx.allocs); }
  }

  lemma TargetExcused(h: Heap, caps: map<Addr, nat>, r: Addr, f: FieldId, i: nat, c: Addr, rest: seq<Addr>, t: UbfTree, b: TreeBuf, n: nat,
                      realloc: bool, left: nat)
    requires Forest(h, [c] + ([r] + rest)) && Shows(h, r, t) && r in caps && c != NULL && c in h
    requires (h[c].UbfBuf? ==> Fits(h, h[c].occs, n)) && TreeBufOf(h, h[c], n + 1) == b
    requires !MayReplace(h, r, f, i) || Full(NoRoom(h, caps, r, f, i, PtrVal(c)), realloc, left)
    ensures Excused(t, f, i, TRef(b), Limit(caps, r, realloc), left)
  {
    SwapOwners(h, c, r, rest);
    ExcusedShown(h, caps, r, [c] + rest, t, f, i, PtrVal(c), n + 1, realloc, left);
  }

  lemma {:induction false} SamePointers(h: Heap, s: seq<Occ<Val>>, n: nat)
    requires Fits(h, s, n)
    ensures TreeHasPointer(Tree(h, s, n)) <==> HasPointer(s)
    decreases n, |s|
  {
    if s != [] {
      TreeCons(h, s, n);
      var t := Tree(h, s, n);
      assert t[1..] == Tree(h, s[1..], n);
      SamePointers(h, s[1..], n);
      match s[0].val
      case UbfVal(c) => SamePointers(h, c, n - 1);
      case _ =>
    }
  }

  lemma NoPointersShown(h: Heap, c: Addr, u: UbfTree)
    requires Shows(h, c, u) && !HasPointer(h[c].occs)
    ensures !TreeHasPointer(u)
  {
    var n: nat :| ShowsAt(h, h[c].occs, u, n);
    SamePointers(h, h[c].occs, n);
  }

  lemma InlineWrote(h: Heap, r: Addr, f: FieldId, i: nat, c: Addr, rest: seq<Addr>, t: UbfTree, u: UbfTree)
    requires MayReplace(h, r, f, i) && Forest(h, [c] + ([r] + rest)) && Sorted(h[r].occs) && Shows(h, r, t) && Shows(h, c, u)
    requires !HasPointer(h[c].occs)
    ensures !TreeHasPointer(u)
    ensures Wrote(h, AfterWrite(h, r, f, i, OwnedUbf(c)), r, rest, None, PutAt(t, f, i, TUbf(u)))
  {
    NoPointersShown(h, c, u);
    EmbedShows(h, r, f, i, c, rest, t, u);
    assert AfterWrite(h, r, f, i, OwnedUbf(c)) == AfterEmbed(h, r, f, i, c);
  }

  method BchgUbf(ctx: UbfContext, r: Addr, f: FieldId, occ: nat, c: Addr, realloc: bool, ghost n: nat) returns (e: Option<UbfError>)
    requires ctx.Valid() && ctx.IsUbf(r) && ctx.IsUbf(c) && c != r && Trees(ctx.heap, [c], n) && c !in Gone(ctx.heap, r, f, occ)
    modifies ctx
    ensures ctx.Valid()
    ensures e == None ==> MayReplace(old(ctx.heap), r, f, occ) && !HasPointer(old(ctx.heap)[c].occs)
                          && ctx.heap == AfterWrite(old(ctx.heap), r, f, occ, OwnedUbf(c))
    ensures e != None ==> ctx.heap == old(ctx.heap) - Elems(Unfold(old(ctx.heap), [c], n))
    ensures ctx.allocs <= old(ctx.allocs) && ctx.caps.Keys == old(ctx.caps).Keys && (!realloc ==> ctx.caps == old(ctx.caps))
    ensures e != None ==> f.kind != UbfField || HasPointer(old(ctx.heap)[c].occs) || !MayReplace(old(ctx.heap), r, f, occ)
                          || Full(NoRoom(old(ctx.heap), old(ctx.caps), r, f, occ, UbfVal(old(ctx.heap)[c].occs)), realloc, ctx.allocs)
  {
    e := ctx.WriteValue(r, f, occ, OwnedUbf(c), realloc, false, n);
  }

  /** Copy the program's UBF `c` inline, consuming it. */
  method StoreInline(ctx: UbfContext, r: Addr, f: FieldId, occ: nat, c: Addr, realloc: bool,
                     ghost rest: seq<Addr>, ghost t: UbfTree, ghost u: UbfTree) returns (e: Option<UbfError>)
    requires ctx.Valid() && Forest(ctx.heap, [c] + ([r] + rest)) && Shows(ctx.heap, r, t) && Shows(ctx.heap, c, u)
    modifies ctx
    ensures ctx.Valid()
    ensures Wrote(old(ctx.heap), ctx.heap, r, rest, e, if TreeHasPointer(u) then Err(BEINVAL) else PutAt(t, f, occ, TUbf(u)))
    ensures Spends([r] + rest, old(ctx.caps), ctx.caps, old(ctx.allocs), ctx.allocs, realloc)
    ensures e != None ==> f.kind != UbfField || TreeHasPointer(u) || Excused(t, f, occ, TUbf(u), Limit(old(ctx.caps), r, realloc), ctx.allocs)
  {
    ghost var h := ctx.heap;
    ghost var result: Result<UbfTree> := if TreeHasPointer(u) then Err(BEINVAL) else PutAt(t, f, occ, TUbf(u));
    ghost var m := DropWrote(h, r, c, rest, t, BEINVAL, result);
    assert SaneAt(h[r], r, ctx.caps, ctx.next);
    ChildNotGone(h, r, f, occ, c, rest);
    e := BchgUbf(ctx, r, f, occ, c, realloc, m);
    if e == None { InlineWrote(h, r, f, occ, c, rest, t, u); }
    else if f.kind == UbfField { InlineExcused(h, old(ctx.caps), r, f, occ, c, rest, t, u, realloc, ctx.allocs); }
  }

  lemma InlineExcused(h: Heap, caps: map<Addr, nat>, r: Addr, f: FieldId, i: nat, c: Addr, rest: seq<Addr>, t: UbfTree, u: UbfTree,
                      realloc: bool, left: nat)
    requires Forest(h, [c] + ([r] + rest)) && Shows(h, r, t) && Shows(h, c, u) && r in caps
    requires HasPointer(h[c].occs) || !MayReplace(h, r, f, i) || Full(NoRoom(h, caps, r, f, i, UbfVal(h[c].occs)), realloc, left)
    ensures TreeHasPointer(u) || Excused(t, f, i, TUbf(u), Limit(caps, r, realloc), left)
  {
    var n: nat :| ShowsAt(h, h[c].occs, u, n);
    if HasPointer(h[c].occs) { SamePointers(h, h[c].occs, n); }
    else {
      SwapOwners(h, c, r, rest);
      ExcusedShown(h, caps, r, [c] + rest, t, f, i, UbfVal(h[c].occs), n + 1, realloc, left);
    }
  }

  /** What an occurrence of `r` owns is not the program's own buffer `c`. */
  lemma ChildNotGone(h: Heap, r: Addr, f: FieldId, i: nat, c: Addr, rest: seq<Addr>)
    requires Forest(h, [c] + ([r] + rest)) && r in h
    ensures c !in Gone(h, r, f, i)
  {
    var m: nat :| Whole(h, [c] + ([r] + rest), m);
    WholeSingle(h, [c] + ([r] + rest), m);
    var at := At(OccsOf(h[r]), f, i);
    if Get(OccsOf(h[r]), f, i).Some? {
      assert [c] + [] + ([r] + rest) == [c] + ([r] + rest);
      RestOf(h, c, [], [r] + rest, m);
      AtComplete(h, r, f, i, rest, m);
      AnyFuel(h, at, m, LEVELS);
    } else {
      assert Unfold(h, [], LEVELS) == multiset{};
    }
  }

  /** With less fuel than needed the unfolding shows less, never more. */
  lemma {:induction false} LessFuel(h: Heap, us: seq<Addr>, n: nat, m: nat)
    requires n <= m
    ensures forall a :: a in Unfold(h, us, n) ==> a in Unfold(h, us, m)
    decreases n, |us|
  {
    if us != [] {
      LessFuel(h, us[1..], n, m);
      LessBelow(h, us[0], n, m);
    }
  }

  lemma LessBelow(h: Heap, a: Addr, n: nat, m: nat)
    requires n <= m
    ensures forall b :: b in Below(h, a, n) ==> b in Below(h, a, m)
    decreases n, 0
  {
    if n > 0 && a in h { LessFuel(h, Owned(h[a]), n - 1, m - 1); }
  }

  lemma AnyFuel(h: Heap, us: seq<Addr>, n: nat, m: nat)
    requires Complete(h, us, n)
    ensures forall a :: a in Unfold(h, us, m) ==> a in Unfold(h, us, n)
  {
    if m <= n { LessFuel(h, us, m, n); } else { MoreFuel(h, us, n, m); }
  }

  lemma AtComplete(h: Heap, r: Addr, f: FieldId, i: nat, rest: seq<Addr>, m: nat)
    requires Complete(h, [r] + rest, m) && r in h && Get(OccsOf(h[r]), f, i).Some?
    ensures Complete(h, At(OccsOf(h[r]), f, i), m)
    ensures forall a :: a in Unfold(h, At(OccsOf(h[r]), f, i), m) ==> a in Unfold(h, [r] + rest, m)
  {
    var s := OccsOf(h[r]);
    UnfoldAppend(h, [r], rest, m);
    UnfoldOne(h, r, m);
    MoreFuel(h, Owned(h[r]), m - 1, m);
    TargetsAround(s, f, i);
    Reorder(h, Targets(s), Others(s, f, i) + At(s, f, i), m);
    UnfoldAppend(h, Others(s, f, i), At(s, f, i), m);
  }

  /** Clear the occurrences of a field from `first` on. */
  method ClearSuffix(ctx: UbfContext, r: Addr, f: FieldId, first: int, ghost rest: seq<Addr>, ghost t: UbfTree) returns (e: Option<UbfError>)
    requires ctx.Valid() && Holding(ctx.heap, r, rest, t)
    modifies ctx
    ensures ctx.Valid() && Wrote(old(ctx.heap), ctx.heap, r, rest, e, if first < 0 then Err(BEINVAL) else Ok(Trimmed(t, f, first)))
    ensures ctx.caps == old(ctx.caps) && ctx.allocs == old(ctx.allocs)
    ensures e != None ==> first < 0 || !MayTrim(t, f, first)
  {
    ghost var h := ctx.heap;
    assert SaneAt(h[r], r, ctx.caps, ctx.next);
    ShowsSorted(h, r, t);
    e := ctx.ClearFrom(r, f, first);
    if first < 0 {
      NothingWrote(h, r, rest, BEINVAL, Err(BEINVAL));
    } else if e == None {
      ClearShows(h, r, f, |Column(t, f)|, Least(first, |Column(t, f)|), rest, t);
    } else {
      ghost var k: nat :| first < k && ClearedTo(h, ctx.heap, r, f, k) && !MayReplace(ctx.heap, r, f, k - 1);
      ClearStopped(h, ctx.heap, r, f, first, k, rest, t);
    }
  }

  /** Where the clearing stopped, and that the value shows it. */
  lemma ClearStopped(h: Heap, now: Heap, r: Addr, f: FieldId, first: nat, k: nat, rest: seq<Addr>, t: UbfTree)
    requires Holding(h, r, rest, t) && |Column(t, f)| == |Column(OccsOf(h[r]), f)|
    requires first < k && ClearedTo(h, now, r, f, k) && !MayReplace(now, r, f, k - 1)
    ensures Forest(now, [r] + rest) && Kept(h, now, rest) && !MayTrim(t, f, first)
  {
    ClearShows(h, r, f, |Column(t, f)|, k, rest, t);
    NotTrimmed(now, r, rest, t, f, first, k);
  }

  lemma NotTrimmed(now: Heap, r: Addr, rest: seq<Addr>, t: UbfTree, f: FieldId, first: nat, k: nat)
    requires Holding(now, r, rest, Trimmed(t, f, k)) && first < k <= |Column(t, f)| && !MayReplace(now, r, f, k - 1)
    ensures !MayTrim(t, f, first)
  {
    MayGoShown(now, r, rest, Trimmed(t, f, k), f, k - 1);
    assert !MayTrimTo(t, f, k - 1);
  }

  /** Write a value of type `ty`, by the strategy its type selects. It fails only if `v` is not of that type,
      an edit may not be made, or memory has run out. */
  method WriteField(ctx: UbfContext, env: Env, r: Addr, f: FieldId, occ: int, ty: Ty, v: Value, element: bool, realloc: bool,
                    ghost rest: seq<Addr>, ghost t: UbfTree) returns (e: Option<UbfError>)
    requires ctx.Valid() && Holding(ctx.heap, r, rest, t)
    modifies ctx
    ensures ctx.Valid() && Wrote(old(ctx.heap), ctx.heap, r, rest, e, Write(env, t, f, occ, ty, v, element))
    ensures Spends([r] + rest, old(ctx.caps), ctx.caps, old(ctx.allocs), ctx.allocs, realloc)
    ensures e != None ==> !Typed(env, ty, f.kind, occ, v, element) || ctx.allocs == 0
                          || !Smooth(env, t, f, occ, ty, v, element, Limit(old(ctx.caps), r, realloc))
    decreases v, 1
  {
    ghost var result := Write(env, t, f, occ, ty, v, element);
    NothingWrote(ctx.heap, r, rest, BEINVAL, result);
    if !Checked(ty, f, occ) { return Some(if occ < 0 then BEINVAL else BTYPERR); }
    match ty {
      case Leaf => e := WriteScalar(ctx, env, r, f, occ, v, element, realloc, rest, t);
      case Viewed(view, how) => e := WriteViewField(ctx, env, r, f, occ, view, how, v, element, realloc, rest, t);
      case Struct(name, how) =>
        if !v.VStruct? || name !in env { return Some(BEINVAL); }
        e := WriteChild(ctx, env, r, f, occ, name, how, v, element, realloc, rest, t);
      case Opt(of) =>
        e := WriteOptional(ctx, env, r, f, occ, of, v, element, realloc, rest, t);
      case _ => e := WriteCollection(ctx, env, r, f, occ, ty, v, element, realloc, rest, t);
    }
  }

  method WriteScalar(ctx: UbfContext, env: Env, r: Addr, f: FieldId, occ: int, v: Value, element: bool, realloc: bool,
                     ghost rest: seq<Addr>, ghost t: UbfTree) returns (e: Option<UbfError>)
    requires ctx.Valid() && Holding(ctx.heap, r, rest, t)
    modifies ctx
    ensures ctx.Valid() && Wrote(old(ctx.heap), ctx.heap, r, rest, e, Write(env, t, f, occ, Leaf, v, element))
    ensures Spends([r] + rest, old(ctx.caps), ctx.caps, old(ctx.allocs), ctx.allocs, realloc)
    ensures e != None ==> !Typed(env, Leaf, f.kind, occ, v, element) || ctx.allocs == 0
                          || !Smooth(env, t, f, occ, Leaf, v, element, Limit(old(ctx.caps), r, realloc))
  {
    if !v.VData? {
      NothingWrote(ctx.heap, r, rest, BTYPERR, Write(env, t, f, occ, Leaf, v, element));
      return Some(BTYPERR);
    }
    e := WriteSimple(ctx, r, f, occ, Plain(v.bytes), realloc, rest, t);
  }

  method WriteViewField(ctx: UbfContext, env: Env, r: Addr, f: FieldId, occ: int, view: string, how: How, v: Value, element: bool, realloc: bool,
                        ghost rest: seq<Addr>, ghost t: UbfTree) returns (e: Option<UbfError>)
    requires ctx.Valid() && Holding(ctx.heap, r, rest, t) && Checked(SerdeModel.Viewed(view, how), f, occ)
    modifies ctx
    ensures ctx.Valid() && Wrote(old(ctx.heap), ctx.heap, r, rest, e, Write(env, t, f, occ, SerdeModel.Viewed(view, how), v, element))
    ensures Spends([r] + rest, old(ctx.caps), ctx.caps, old(ctx.allocs), ctx.allocs, realloc)
    ensures e != None ==> !Typed(env, SerdeModel.Viewed(view, how), f.kind, occ, v, element) || ctx.allocs == 0
                          || !Smooth(env, t, f, occ, SerdeModel.Viewed(view, how), v, element, Limit(old(ctx.caps), r, realloc))
  {
    if !v.VView? || view == "" {
      NothingWrote(ctx.heap, r, rest, BEINVAL, Write(env, t, f, occ, SerdeModel.Viewed(view, how), v, element));
      return Some(BEINVAL);
    }
    e := WriteView(ctx, r, f, occ, view, how, v.bytes, realloc, rest, t);
  }

  method WriteCollection(ctx: UbfContext, env: Env, r: Addr, f: FieldId, occ: int, ty: Ty, v: Value, element: bool, realloc: bool,
                         ghost rest: seq<Addr>, ghost t: UbfTree) returns (e: Option<UbfError>)
    requires ctx.Valid() && Holding(ctx.heap, r, rest, t) && (ty.Vec? || ty.Arr?) && Checked(ty, f, occ)
    modifies ctx
    ensures ctx.Valid() && Wrote(old(ctx.heap), ctx.heap, r, rest, e, Write(env, t, f, occ, ty, v, element))
    ensures Spends([r] + rest, old(ctx.caps), ctx.caps, old(ctx.allocs), ctx.allocs, realloc)
    ensures e != None ==> !Typed(env, ty, f.kind, occ, v, element) || ctx.allocs == 0
                          || !Smooth(env, t, f, occ, ty, v, element, Limit(old(ctx.caps), r, realloc))
    decreases v, 0
  {
    NothingWrote(ctx.heap, r, rest, BEINVAL, Write(env, t, f, occ, ty, v, element));
    match ty {
      case Vec(of) =>
        if !v.VSeq? || !IsSingle(of) || Occurrence(occ, |v.items|).Err? { return Some(BEINVAL); }
        e := WriteList(ctx, env, r, f, occ, of, v.items, realloc, rest, t);
      case Arr(of, n) =>
        if !v.VSeq? || |v.items| != n || !IsSingle(of) || Occurrence(occ, n).Err? { return Some(BEINVAL); }
        e := WriteElements(ctx, env, r, f, occ, of, v.items, realloc, rest, t);
    }
  }

  method WriteOptional(ctx: UbfContext, env: Env, r: Addr, f: FieldId, occ: int, of: Ty, v: Value, element: bool, realloc: bool,
                       ghost rest: seq<Addr>, ghost t: UbfTree) returns (e: Option<UbfError>)
    requires ctx.Valid() && Holding(ctx.heap, r, rest, t) && Checked(Opt(of), f, occ)
    modifies ctx
    ensures ctx.Valid() && Wrote(old(ctx.heap), ctx.heap, r, rest, e, Write(env, t, f, occ, Opt(of), v, element))
    ensures Spends([r] + rest, old(ctx.caps), ctx.caps, old(ctx.allocs), ctx.allocs, realloc)
    ensures e != None ==> !Typed(env, Opt(of), f.kind, occ, v, element) || ctx.allocs == 0
                          || !Smooth(env, t, f, occ, Opt(of), v, element, Limit(old(ctx.caps), r, realloc))
    decreases v, 0
  {
    if occ < 0 || !IsSingle(of) || of.Opt? {
      NothingWrote(ctx.heap, r, rest, BEINVAL, Err(BEINVAL));
      return Some(BEINVAL);
    }
    match v {
      case VSome(x) => e := WriteField(ctx, env, r, f, occ, of, x, element, realloc, rest, t);
      case VNone => e := WriteAbsent(ctx, r, f, occ, of, element, realloc, rest, t);
      case _ =>
        NothingWrote(ctx.heap, r, rest, BEINVAL, Err(BEINVAL));
        e := Some(BEINVAL);
    }
  }

  /** An absent value: in a collection it keeps its place, elsewhere it clears what was there and beyond. */
  method WriteAbsent(ctx: UbfContext, r: Addr, f: FieldId, occ: nat, of: Ty, element: bool, realloc: bool, ghost rest: seq<Addr>, ghost t: UbfTree)
    returns (e: Option<UbfError>)
    requires ctx.Valid() && Holding(ctx.heap, r, rest, t)
    modifies ctx
    ensures ctx.Valid()
    ensures Wrote(old(ctx.heap), ctx.heap, r, rest, e,
                  if element && Mapped(of) then (if IsSingle(Opt(of)) then PutAt(t, f, occ, TreeGap(f.kind)) else Err(BEINVAL))
                  else Ok(Trimmed(t, f, occ)))
    ensures Spends([r] + rest, old(ctx.caps), ctx.caps, old(ctx.allocs), ctx.allocs, realloc)
    ensures e != None ==> if element && Mapped(of)
                          then !IsSingle(Opt(of)) || !HasNull(f) || Excused(t, f, occ, TreeGap(f.kind), Limit(old(ctx.caps), r, realloc), ctx.allocs)
                          else !MayTrim(t, f, occ)
  {
    if element && Mapped(of) {
      if !IsSingle(Opt(of)) {
        NothingWrote(ctx.heap, r, rest, BEINVAL, Err(BEINVAL));
        return Some(BEINVAL);
      }
      e := WriteNull(ctx, r, f, occ, realloc, rest, t);
    } else {
      e := ClearSuffix(ctx, r, f, occ, rest, t);
    }
  }

  /** The elements of a vector, and then what was there beyond them is cleared. */
  method WriteList(ctx: UbfContext, env: Env, r: Addr, f: FieldId, occ: nat, of: Ty, items: seq<Value>, realloc: bool,
                   ghost rest: seq<Addr>, ghost t: UbfTree) returns (e: Option<UbfError>)
    requires ctx.Valid() && Holding(ctx.heap, r, rest, t)
    modifies ctx
    ensures ctx.Valid()
    ensures Wrote(old(ctx.heap), ctx.heap, r, rest, e,
                  match WriteItems(env, t, f, occ, of, items) case Err(x) => Err(x) case Ok(u) => Ok(Trimmed(u, f, occ + |items|)))
    ensures Spends([r] + rest, old(ctx.caps), ctx.caps, old(ctx.allocs), ctx.allocs, realloc)
    ensures e != None ==> !TypedItems(env, of, f.kind, occ, items) || ctx.allocs == 0
                          || !SmoothItems(env, t, f, occ, of, items, Limit(old(ctx.caps), r, realloc))
                          || (WriteItems(env, t, f, occ, of, items).Ok? && !MayTrim(WriteItems(env, t, f, occ, of, items).value, f, occ + |items|))
    decreases items, 2
  {
    ghost var first := WriteItems(env, t, f, occ, of, items);
    e := WriteElements(ctx, env, r, f, occ, of, items, realloc, rest, t);
    if e == None {
      ghost var h := ctx.heap;
      e := ClearSuffix(ctx, r, f, occ + |items|, rest, first.value);
      WroteThen(old(ctx.heap), h, ctx.heap, r, rest, e, first, Ok(Trimmed(first.value, f, occ + |items|)));
    }
  }

  method WriteView(ctx: UbfContext, r: Addr, f: FieldId, occ: nat, view: string, how: How, bytes: seq<int>, realloc: bool,
                   ghost rest: seq<Addr>, ghost t: UbfTree) returns (e: Option<UbfError>)
    requires ctx.Valid() && Holding(ctx.heap, r, rest, t)
    modifies ctx
    ensures ctx.Valid()
    ensures Wrote(old(ctx.heap), ctx.heap, r, rest, e, PutAt(t, f, occ, ViewIn(view, bytes, how)))
    ensures Spends([r] + rest, old(ctx.caps), ctx.caps, old(ctx.allocs), ctx.allocs, realloc)
    ensures e != None ==> f.kind != KindOf(SerdeModel.Viewed(view, how))
                          || Excused(t, f, occ, ViewIn(view, bytes, how), Limit(old(ctx.caps), r, realloc), ctx.allocs)
  {
    if how == Inline {
      e := WriteSimple(ctx, r, f, occ, UbfComplex.Viewed(view, bytes), realloc, rest, t);
    } else {
      e := WriteViewPtr(ctx, r, f, occ, view, bytes, realloc, rest, t);
    }
  }

  method WriteViewPtr(ctx: UbfContext, r: Addr, f: FieldId, occ: nat, view: string, bytes: seq<int>, realloc: bool,
                      ghost rest: seq<Addr>, ghost t: UbfTree) returns (e: Option<UbfError>)
    requires ctx.Valid() && Holding(ctx.heap, r, rest, t)
    modifies ctx
    ensures ctx.Valid() && Wrote(old(ctx.heap), ctx.heap, r, rest, e, PutAt(t, f, occ, ViewIn(view, bytes, Pointer)))
    ensures Spends([r] + rest, old(ctx.caps), ctx.caps, old(ctx.allocs), ctx.allocs, realloc)
    ensures e != None ==> f.kind != PtrField || Excused(t, f, occ, ViewIn(view, bytes, Pointer), Limit(old(ctx.caps), r, realloc), ctx.allocs)
  {
    ghost var h, caps, allocs := ctx.heap, ctx.caps, ctx.allocs;
    OwnersLive(h, [r] + rest);
    assert SaneAt(h[r], r, caps, ctx.next) && forall a :: a in [r] + rest ==> SaneAt(h[a], a, caps, ctx.next);
    var c := ctx.TpAlloc(RawBuf("VIEW", view, bytes), 1 + |bytes|);
    if c.Err? {
      NothingWrote(h, r, rest, BMALLOC, PutAt(t, f, occ, ViewIn(view, bytes, Pointer)));
      return Some(BMALLOC);
    }
    Allocated(h, r, rest, t, c.value, RawBuf("VIEW", view, bytes));
    ghost var k, caps1, allocs1 := ctx.heap, ctx.caps, ctx.allocs;
    e := StoreTarget(ctx, r, f, occ, c.value, realloc, rest, t, TRawBuf("VIEW", view, bytes), 1);
    KeptThenWrote(h, k, ctx.heap, r, rest, e, PutAt(t, f, occ, ViewIn(view, bytes, Pointer)));
    SpendsOn([r] + rest, caps, caps1, ctx.caps, allocs, allocs1, ctx.allocs, realloc);
  }

  lemma Allocated(h: Heap, r: Addr, rest: seq<Addr>, t: UbfTree, c: Addr, b: Buf)
    requires Holding(h, r, rest, t) && c !in h && Owned(b) == []
    ensures Forest(h[c := b], [c] + ([r] + rest)) && Shows(h[c := b], r, t) && Kept(h, h[c := b], [r] + rest) && Kept(h, h[c := b], rest)
    ensures b == UbfBuf([]) ==> Holding(h[c := b], c, [r] + rest, [])
  {
    AllocKeeps(h, [r] + rest, c, b);
    KeptShows(h, h[c := b], r, rest, t);
    KeptRest(h, h[c := b], r, rest);
  }

  lemma KeptThenWrote(h: Heap, k: Heap, m: Heap, r: Addr, rest: seq<Addr>, e: Option<UbfError>, result: Result<UbfTree>)
    requires Kept(h, k, rest) && Wrote(k, m, r, rest, e, result)
    ensures Wrote(h, m, r, rest, e, result)
  {
    KeptAgain(h, k, m, rest);
  }

  /** A structure of its own: built in a new buffer, which then becomes the occurrence's. */
  method WriteChild(ctx: UbfContext, env: Env, r: Addr, f: FieldId, occ: int, name: string, how: How, v: Value, element: bool, realloc: bool,
                    ghost rest: seq<Addr>, ghost t: UbfTree) returns (e: Option<UbfError>)
    requires ctx.Valid() && Holding(ctx.heap, r, rest, t) && name in env && v.VStruct?
    requires Checked(Struct(name, how), f, occ)
    modifies ctx
    ensures ctx.Valid() && Wrote(old(ctx.heap), ctx.heap, r, rest, e, Write(env, t, f, occ, Struct(name, how), v, element))
    ensures Spends([r] + rest, old(ctx.caps), ctx.caps, old(ctx.allocs), ctx.allocs, realloc)
    ensures e != None ==> !Typed(env, Struct(name, how), f.kind, occ, v, element) || ctx.allocs == 0
                          || !Smooth(env, t, f, occ, Struct(name, how), v, element, Limit(old(ctx.caps), r, realloc))
    decreases v, 0
  {
    ghost var h, result, cap := ctx.heap, Write(env, t, f, occ, Struct(name, how), v, element), Limit(ctx.caps, r, realloc);
    ghost var caps, allocs := ctx.caps, ctx.allocs;
    ChildReasons(env, t, f, occ, name, how, v, element, cap);
    assert SaneAt(h[r], r, caps, ctx.next);
    var c := BuildChild(ctx, env, r, name, v.fields, realloc, rest, t);
    ghost var m, caps1, allocs1 := ctx.heap, ctx.caps, ctx.allocs;
    if c.Err? { return Some(c.error); }
    e := StoreChild(ctx, r, f, occ, c.value, how, realloc, rest, t, WriteFields(env, [], env[name], v.fields).value);
    SpendsOn([r] + rest, caps, caps1, ctx.caps, allocs, allocs1, ctx.allocs, realloc);
    KeptThenWrote(h, m, ctx.heap, r, rest, e, result);
  }

  /** Build the child in a buffer of the program's own; if that fails, nothing is left of it. */
  method BuildChild(ctx: UbfContext, env: Env, r: Addr, name: string, fields: seq<Value>, realloc: bool, ghost rest: seq<Addr>, ghost t: UbfTree)
    returns (c: Result<Addr>)
    requires ctx.Valid() && Holding(ctx.heap, r, rest, t) && name in env
    modifies ctx
    ensures ctx.Valid() && Spends([r] + rest, old(ctx.caps), ctx.caps, old(ctx.allocs), ctx.allocs, realloc) && Kept(old(ctx.heap), ctx.heap, rest)
    ensures c.Ok? ==> WriteFields(env, [], env[name], fields).Ok? && Forest(ctx.heap, [c.value] + ([r] + rest)) && Shows(ctx.heap, r, t)
                      && Shows(ctx.heap, c.value, WriteFields(env, [], env[name], fields).value)
    ensures c.Err? ==> Forest(ctx.heap, [r] + rest)
    ensures c.Err? ==> !TypedFields(env, env[name], fields) || ctx.allocs == 0
                       || !SmoothFields(env, [], env[name], fields, ChildRoom(Limit(old(ctx.caps), r, realloc)))
    decreases fields, 2
  {
    ghost var h, caps, allocs := ctx.heap, ctx.caps, ctx.allocs;
    KeptSame(h, [r], rest);
    c := NewChild(ctx, r, realloc, rest, t);
    if c.Err? { return; }
    ghost var k, caps1, allocs1 := ctx.heap, ctx.caps, ctx.allocs;
    var e := WriteStructure(ctx, env, c.value, env[name], fields, realloc, [r] + rest, []);
    ghost var m := ctx.heap;
    ChildApartFrom(h, k, m, r, rest, t);
    SpendsRest(c.value, [r] + rest, caps1, ctx.caps, allocs1, ctx.allocs, realloc);
    SpendsOn([r] + rest, caps, caps1, ctx.caps, allocs, allocs1, ctx.allocs, realloc);
    if e != None {
      DropChild(ctx, c.value, r, rest, t, h);
      return Err(e.value);
    }
  }

  method NewChild(ctx: UbfContext, ghost r: Addr, ghost realloc: bool, ghost rest: seq<Addr>, ghost t: UbfTree) returns (c: Result<Addr>)
    requires ctx.Valid() && Holding(ctx.heap, r, rest, t)
    modifies ctx
    ensures ctx.Valid() && Spends([r] + rest, old(ctx.caps), ctx.caps, old(ctx.allocs), ctx.allocs, realloc)
    ensures c.Ok? ==> Holding(ctx.heap, c.value, [r] + rest, []) && Kept(old(ctx.heap), ctx.heap, [r] + rest)
                      && Limit(ctx.caps, c.value, realloc) == ChildRoom(Limit(old(ctx.caps), r, realloc))
    ensures c.Err? ==> ctx.heap == old(ctx.heap) && ctx.allocs == 0
  {
    ghost var h := ctx.heap;
    OwnersLive(h, [r] + rest);
    assert SaneAt(h[r], r, ctx.caps, ctx.next) && forall a :: a in [r] + rest ==> SaneAt(h[a], a, ctx.caps, ctx.next);
    c := ctx.TpAlloc(UbfBuf([]), CHILD);
    if c.Ok? { Allocated(h, r, rest, t, c.value, UbfBuf([])); }
  }

  /** Drop an unfinished child. */
  method DropChild(ctx: UbfContext, c: Addr, ghost r: Addr, ghost rest: seq<Addr>, ghost t: UbfTree, ghost h: Heap)
    requires ctx.Valid() && Forest(ctx.heap, [c] + ([r] + rest)) && Shows(ctx.heap, r, t) && Kept(h, ctx.heap, rest)
    modifies ctx`heap
    ensures ctx.Valid() && Forest(ctx.heap, [r] + rest) && Kept(h, ctx.heap, rest)
  {
    ghost var m := ctx.heap;
    ghost var n := DropWrote(m, r, c, rest, t, BEINVAL, Err(BEINVAL));
    ctx.TpFree(c);
    KeptAgain(h, m, ctx.heap, rest);
  }

  lemma ChildApartFrom(h: Heap, k: Heap, m: Heap, r: Addr, rest: seq<Addr>, t: UbfTree)
    requires Kept(h, k, [r] + rest) && Kept(k, m, [r] + rest) && Shows(h, r, t)
    ensures Shows(m, r, t) && Kept(h, m, rest)
  {
    KeptAgain(h, k, m, [r] + rest);
    KeptShows(h, m, r, rest, t);
    KeptRest(h, m, r, rest);
  }

  /** Why writing a child structure can fail, once there is memory: its own fields, or its place. */
  lemma ChildReasons(env: Env, t: UbfTree, f: FieldId, occ: int, name: string, how: How, v: Value, element: bool, cap: Option<nat>)
    requires name in env && v.VStruct? && Checked(Struct(name, how), f, occ)
    ensures var child := WriteFields(env, [], env[name], v.fields);
            child.Ok? ==> Write(env, t, f, occ, Struct(name, how), v, element)
                          == if how == Inline && TreeHasPointer(child.value) then Err(BEINVAL) else PutAt(t, f, occ, ChildIn(child.value, how))
    ensures TypedFields(env, env[name], v.fields) <==> WriteFields(env, [], env[name], v.fields).Ok?
    ensures Typed(env, Struct(name, how), f.kind, occ, v, element) ==>
              && TypedFields(env, env[name], v.fields) && f.kind == KindOf(Struct(name, how))
              && (how == Inline ==> !TreeHasPointer(WriteFields(env, [], env[name], v.fields).value))
    ensures Smooth(env, t, f, occ, Struct(name, how), v, element, cap) ==>
              && SmoothFields(env, [], env[name], v.fields, ChildRoom(cap))
              && var child := WriteFields(env, [], env[name], v.fields);
                 child.Ok? ==> MayPut(t, f, occ, ChildIn(child.value, how), cap)
  {
    FieldsSucceed(env, [], env[name], v.fields);
    if WriteFields(env, [], env[name], v.fields).Ok? { PointersInside(env, env[name], v.fields); }
  }

  /** Give the child built in `c` to the occurrence. */
  method StoreChild(ctx: UbfContext, r: Addr, f: FieldId, occ: nat, c: Addr, how: How, realloc: bool,
                    ghost rest: seq<Addr>, ghost t: UbfTree, ghost child: UbfTree) returns (e: Option<UbfError>)
    requires ctx.Valid() && Forest(ctx.heap, [c] + ([r] + rest)) && Shows(ctx.heap, r, t) && Shows(ctx.heap, c, child)
    modifies ctx
    ensures ctx.Valid()
    ensures Wrote(old(ctx.heap), ctx.heap, r, rest, e,
                  if how == Inline && TreeHasPointer(child) then Err(BEINVAL) else PutAt(t, f, occ, ChildIn(child, how)))
    ensures Spends([r] + rest, old(ctx.caps), ctx.caps, old(ctx.allocs), ctx.allocs, realloc)
    ensures e != None ==> f.kind != KindOf(Struct("", how)) || (how == Inline && TreeHasPointer(child))
                          || Excused(t, f, occ, ChildIn(child, how), Limit(old(ctx.caps), r, realloc), ctx.allocs)
  {
    if how == Pointer {
      ghost var n: nat :| ShowsAt(ctx.heap, ctx.heap[c].occs, child, n);
      e := StoreTarget(ctx, r, f, occ, c, realloc, rest, t, TUbfBuf(child), n);
    } else {
      e := StoreInline(ctx, r, f, occ, c, realloc, rest, t, child);
    }
  }

  /** The NULL placeholder of an absent element. */
  method WriteNull(ctx: UbfContext, r: Addr, f: FieldId, occ: nat, realloc: bool, ghost rest: seq<Addr>, ghost t: UbfTree) returns (e: Option<UbfError>)
    requires ctx.Valid() && Holding(ctx.heap, r, rest, t)
    modifies ctx
    ensures ctx.Valid() && Wrote(old(ctx.heap), ctx.heap, r, rest, e, PutAt(t, f, occ, TreeGap(f.kind)))
    ensures Spends([r] + rest, old(ctx.caps), ctx.caps, old(ctx.allocs), ctx.allocs, realloc)
    ensures e != None ==> !HasNull(f) || Excused(t, f, occ, TreeGap(f.kind), Limit(old(ctx.caps), r, realloc), ctx.allocs)
  {
    ghost var h := ctx.heap;
    assert SaneAt(h[r], r, ctx.caps, ctx.next);
    e := ctx.PutNullComplex(r, f, occ, realloc);
    if e == None {
      PlainShows(h, r, f, occ, Gap(f.kind), rest, t);
    } else {
      NothingWrote(h, r, rest, e.value, PutAt(t, f, occ, TreeGap(f.kind)));
      if HasNull(f) { ExcusedShown(h, old(ctx.caps), r, rest, t, f, occ, Gap(f.kind), 1, realloc, ctx.allocs); }
    }
  }

  /** One more write after those that succeeded; if it fails, so does the whole. */
  lemma OneMore(h: Heap, was: Heap, now: Heap, r: Addr, rest: seq<Addr>, e: Option<UbfError>, u: UbfTree, next: Result<UbfTree>, result: Result<UbfTree>)
    requires Wrote(h, was, r, rest, None, Ok(u)) && Wrote(was, now, r, rest, e, next)
    ensures e != None ==> Wrote(h, now, r, rest, e, result)
    ensures e == None ==> next.Ok? && Wrote(h, now, r, rest, None, Ok(next.value)) && Shows(now, r, next.value)
  {
    KeptAgain(h, was, now, rest);
  }

  lemma ItemsFrom(env: Env, t: UbfTree, f: FieldId, occ: int, of: Ty, items: seq<Value>, k: nat)
    requires k < |items|
    ensures var next := Write(env, t, f, occ + k, of, items[k], true);
            WriteItems(env, t, f, occ + k, of, items[k..])
              == if next.Err? then Err(next.error) else WriteItems(env, next.value, f, occ + (k + 1), of, items[k + 1..])
  {
    assert items[k..][0] == items[k] && items[k..][1..] == items[k + 1..];
  }

  lemma FieldsFrom(env: Env, t: UbfTree, descs: seq<Desc>, fields: seq<Value>, k: nat)
    requires k < |fields| == |descs|
    ensures var next := Write(env, t, descs[k].field, descs[k].occ, descs[k].ty, fields[k], false);
            WriteFields(env, t, descs[k..], fields[k..])
              == if next.Err? then Err(next.error) else WriteFields(env, next.value, descs[k + 1..], fields[k + 1..])
  {
    assert fields[k..][0] == fields[k] && fields[k..][1..] == fields[k + 1..];
    assert descs[k..][0] == descs[k] && descs[k..][1..] == descs[k + 1..];
  }

  /** The elements of a collection, one after the other. */
  method WriteElements(ctx: UbfContext, env: Env, r: Addr, f: FieldId, occ: int, of: Ty, items: seq<Value>, realloc: bool,
                       ghost rest: seq<Addr>, ghost t: UbfTree) returns (e: Option<UbfError>)
    requires ctx.Valid() && Holding(ctx.heap, r, rest, t)
    modifies ctx
    ensures ctx.Valid() && Wrote(old(ctx.heap), ctx.heap, r, rest, e, WriteItems(env, t, f, occ, of, items))
    ensures Spends([r] + rest, old(ctx.caps), ctx.caps, old(ctx.allocs), ctx.allocs, realloc)
    ensures e != None ==> !TypedItems(env, of, f.kind, occ, items) || ctx.allocs == 0
                          || !SmoothItems(env, t, f, occ, of, items, Limit(old(ctx.caps), r, realloc))
    decreases items, 1
  {
    ghost var h, u, result, cap := ctx.heap, t, WriteItems(env, t, f, occ, of, items), Limit(ctx.caps, r, realloc);
    ghost var caps, allocs := ctx.caps, ctx.allocs;
    ElementsStart(env, h, r, rest, t, f, occ, of, items);
    assert SaneAt(h[r], r, caps, ctx.next) && items[0..] == items;
    e := None;
    var k := 0;
    while k < |items|
      invariant 0 <= k <= |items| && e == None && ctx.Valid() && Midway(env, h, ctx.heap, r, rest, u, result, f, occ, of, items, k)
      invariant Spends([r] + rest, caps, ctx.caps, allocs, ctx.allocs, realloc) && StillSmooth(env, t, u, f, occ, of, items, k, cap)
    {
      e, u := WriteElement(ctx, env, r, f, occ, of, items, k, realloc, rest, h, t, u, result, cap, caps, allocs);
      if e != None { return; }
      k := k + 1;
    }
    ElementsEnd(env, h, ctx.heap, r, rest, u, result, f, occ, of, items);
  }

  /** If all the elements' edits can be made, so can those of the elements that are left. */
  ghost predicate StillSmooth(env: Env, t: UbfTree, u: UbfTree, f: FieldId, occ: int, of: Ty, items: seq<Value>, k: nat, cap: Option<nat>) {
    k <= |items| && (SmoothItems(env, t, f, occ, of, items, cap) ==> SmoothItems(env, u, f, occ + k, of, items[k..], cap))
  }

  lemma SmoothFrom(env: Env, t: UbfTree, u: UbfTree, f: FieldId, occ: int, of: Ty, items: seq<Value>, k: nat, cap: Option<nat>)
    requires k < |items| && StillSmooth(env, t, u, f, occ, of, items, k, cap)
    ensures SmoothItems(env, t, f, occ, of, items, cap) ==> Smooth(env, u, f, occ + k, of, items[k], true, cap)
    ensures var next := Write(env, u, f, occ + k, of, items[k], true);
            next.Ok? ==> StillSmooth(env, t, next.value, f, occ, of, items, k + 1, cap)
  {
    assert items[k..][0] == items[k] && items[k..][1..] == items[k + 1..];
    assert occ + k + 1 == occ + (k + 1);
  }

  /** `k` elements are written, the value so far is `u`, and writing the others to it gives `result`. */
  ghost predicate Midway(env: Env, h: Heap, now: Heap, r: Addr, rest: seq<Addr>, u: UbfTree, result: Result<UbfTree>,
                         f: FieldId, occ: int, of: Ty, items: seq<Value>, k: nat) {
    k <= |items| && Wrote(h, now, r, rest, None, Ok(u)) && result == WriteItems(env, u, f, occ + k, of, items[k..])
  }

  lemma ElementsStart(env: Env, h: Heap, r: Addr, rest: seq<Addr>, t: UbfTree, f: FieldId, occ: int, of: Ty, items: seq<Value>)
    requires Holding(h, r, rest, t)
    ensures Midway(env, h, h, r, rest, t, WriteItems(env, t, f, occ, of, items), f, occ, of, items, 0)
  {
    KeptSame(h, [r], rest);
    assert items[0..] == items;
  }

  lemma ElementsEnd(env: Env, h: Heap, now: Heap, r: Addr, rest: seq<Addr>, u: UbfTree, result: Result<UbfTree>,
                    f: FieldId, occ: int, of: Ty, items: seq<Value>)
    requires Midway(env, h, now, r, rest, u, result, f, occ, of, items, |items|)
    ensures Wrote(h, now, r, rest, None, result)
  {
  }

  /** The next element. `caps` and `allocs` are those before the first. */
  method WriteElement(ctx: UbfContext, env: Env, r: Addr, f: FieldId, occ: int, of: Ty, items: seq<Value>, k: nat, realloc: bool,
                      ghost rest: seq<Addr>, ghost h: Heap, ghost t: UbfTree, ghost u: UbfTree, ghost result: Result<UbfTree>,
                      ghost cap: Option<nat>, ghost caps: map<Addr, nat>, ghost allocs: nat)
    returns (e: Option<UbfError>, ghost next: UbfTree)
    requires ctx.Valid() && k < |items| && Midway(env, h, ctx.heap, r, rest, u, result, f, occ, of, items, k)
    requires r in caps && cap == Limit(caps, r, realloc)
    requires Spends([r] + rest, caps, ctx.caps, allocs, ctx.allocs, realloc) && StillSmooth(env, t, u, f, occ, of, items, k, cap)
    modifies ctx
    ensures ctx.Valid() && Spends([r] + rest, caps, ctx.caps, allocs, ctx.allocs, realloc)
    ensures e == None ==> Midway(env, h, ctx.heap, r, rest, next, result, f, occ, of, items, k + 1)
                          && StillSmooth(env, t, next, f, occ, of, items, k + 1, cap)
    ensures e != None ==> Wrote(h, ctx.heap, r, rest, e, result)
    ensures e != None ==> !TypedItems(env, of, f.kind, occ, items) || ctx.allocs == 0 || !SmoothItems(env, t, f, occ, of, items, cap)
    decreases items, 0
  {
    ghost var was, written := ctx.heap, Write(env, u, f, occ + k, of, items[k], true);
    ghost var caps1, allocs1 := ctx.caps, ctx.allocs;
    e := WriteField(ctx, env, r, f, occ + k, of, items[k], true, realloc, rest, u);
    SpendsOn([r] + rest, caps, caps1, ctx.caps, allocs, allocs1, ctx.allocs, realloc);
    ItemsFrom(env, u, f, occ, of, items, k);
    SmoothFrom(env, t, u, f, occ, of, items, k, cap);
    OneMore(h, was, ctx.heap, r, rest, e, u, written, result);
    next := if e == None then written.value else u;
  }

  /** A structure, field by field. */
  method WriteStructure(ctx: UbfContext, env: Env, r: Addr, descs: seq<Desc>, fields: seq<Value>, realloc: bool,
                        ghost rest: seq<Addr>, ghost t: UbfTree) returns (e: Option<UbfError>)
    requires ctx.Valid() && Holding(ctx.heap, r, rest, t)
    modifies ctx
    ensures ctx.Valid() && Wrote(old(ctx.heap), ctx.heap, r, rest, e, WriteFields(env, t, descs, fields))
    ensures Spends([r] + rest, old(ctx.caps), ctx.caps, old(ctx.allocs), ctx.allocs, realloc)
    ensures e != None ==> !TypedFields(env, descs, fields) || ctx.allocs == 0
                          || !SmoothFields(env, t, descs, fields, Limit(old(ctx.caps), r, realloc))
    decreases fields, 1
  {
    ghost var h, u, result, cap := ctx.heap, t, WriteFields(env, t, descs, fields), Limit(ctx.caps, r, realloc);
    ghost var caps, allocs := ctx.caps, ctx.allocs;
    KeptSame(h, [r], rest);
    if |descs| != |fields| { return Some(BEINVAL); }
    FieldsStart(env, h, r, rest, t, descs, fields, cap);
    assert SaneAt(h[r], r, caps, ctx.next);
    e := None;
    var k := 0;
    while k < |fields|
      invariant 0 <= k <= |fields| && e == None && ctx.Valid()
      invariant FieldsMidway(env, h, ctx.heap, r, rest, t, u, result, descs, fields, k, cap)
      invariant Spends([r] + rest, caps, ctx.caps, allocs, ctx.allocs, realloc)
    {
      e, u := WriteMember(ctx, env, r, descs, fields, k, realloc, rest, h, t, u, result, cap, caps, allocs);
      if e != None { return; }
      k := k + 1;
    }
  }

  /** `k` fields are written, the value so far is `u`, and writing the others to it gives `result`; if all the
      edits can be made, so can those of the fields that are left. */
  ghost predicate FieldsMidway(env: Env, h: Heap, now: Heap, r: Addr, rest: seq<Addr>, t: UbfTree, u: UbfTree, result: Result<UbfTree>,
                               descs: seq<Desc>, fields: seq<Value>, k: nat, cap: Option<nat>) {
    && k <= |fields| == |descs| && Wrote(h, now, r, rest, None, Ok(u))
    && result == WriteFields(env, u, descs[k..], fields[k..])
    && (SmoothFields(env, t, descs, fields, cap) ==> SmoothFields(env, u, descs[k..], fields[k..], cap))
  }

  lemma FieldsStart(env: Env, h: Heap, r: Addr, rest: seq<Addr>, t: UbfTree, descs: seq<Desc>, fields: seq<Value>, cap: Option<nat>)
    requires Holding(h, r, rest, t) && |descs| == |fields|
    ensures FieldsMidway(env, h, h, r, rest, t, t, WriteFields(env, t, descs, fields), descs, fields, 0, cap)
  {
    KeptSame(h, [r], rest);
    assert descs[0..] == descs && fields[0..] == fields;
  }

  lemma SmoothFieldsFrom(env: Env, t: UbfTree, descs: seq<Desc>, fields: seq<Value>, k: nat, cap: Option<nat>)
    requires k < |fields| == |descs|
    ensures SmoothFields(env, t, descs[k..], fields[k..], cap) ==>
              && Smooth(env, t, descs[k].field, descs[k].occ, descs[k].ty, fields[k], false, cap)
              && var u := Write(env, t, descs[k].field, descs[k].occ, descs[k].ty, fields[k], false);
                 u.Ok? ==> SmoothFields(env, u.value, descs[k + 1..], fields[k + 1..], cap)
  {
    assert fields[k..][0] == fields[k] && fields[k..][1..] == fields[k + 1..];
    assert descs[k..][0] == descs[k] && descs[k..][1..] == descs[k + 1..];
  }

  /** The next field. `caps` and `allocs` are those before the first. */
  method WriteMember(ctx: UbfContext, env: Env, r: Addr, descs: seq<Desc>, fields: seq<Value>, k: nat, realloc: bool,
                     ghost rest: seq<Addr>, ghost h: Heap, ghost t: UbfTree, ghost u: UbfTree, ghost result: Result<UbfTree>,
                     ghost cap: Option<nat>, ghost caps: map<Addr, nat>, ghost allocs: nat)
    returns (e: Option<UbfError>, ghost next: UbfTree)
    requires ctx.Valid() && k < |fields| && FieldsMidway(env, h, ctx.heap, r, rest, t, u, result, descs, fields, k, cap)
    requires r in caps && cap == Limit(caps, r, realloc) && Spends([r] + rest, caps, ctx.caps, allocs, ctx.allocs, realloc)
    modifies ctx
    ensures ctx.Valid() && Spends([r] + rest, caps, ctx.caps, allocs, ctx.allocs, realloc)
    ensures e == None ==> FieldsMidway(env, h, ctx.heap, r, rest, t, next, result, descs, fields, k + 1, cap)
    ensures e != None ==> Wrote(h, ctx.heap, r, rest, e, result)
    ensures e != None ==> !TypedFields(env, descs, fields) || ctx.allocs == 0 || !SmoothFields(env, t, descs, fields, cap)
    decreases fields, 0
  {
    var d := descs[k];
    ghost var was, written := ctx.heap, Write(env, u, d.field, d.occ, d.ty, fields[k], false);
    ghost var caps1, allocs1 := ctx.caps, ctx.allocs;
    e := WriteField(ctx, env, r, d.field, d.occ, d.ty, fields[k], false, realloc, rest, u);
    SpendsOn([r] + rest, caps, caps1, ctx.caps, allocs, allocs1, ctx.allocs, realloc);
    FieldsFrom(env, u, descs, fields, k);
    SmoothFieldsFrom(env, u, descs, fields, k, cap);
    OneMore(h, was, ctx.heap, r, rest, e, u, written, result);
    next := if e == None then written.value else u;
  }

  /** What a structure write makes of the value `t`: the value `u` in which every occurrence the structure
      does not map is as it was, gaps below a window filled, and which reads back as the structure exactly
      if its children nest at most 128 levels. */
  ghost predicate MapsTo(env: Env, t: UbfTree, descs: seq<Desc>, fields: seq<Value>, u: UbfTree) {
    && (forall g, k: nat :: Unmapped(descs, fields, g, k) ==> StaysOrFillsGap(t, u, g, k))
    && (ReadFields(env, u, descs, LEVELS) == Ok(fields) <==> NestAll(fields) <= LEVELS)
  }

  /** `ubf_write` of a mapped structure, into a buffer that may hold anything already. Whenever it reports
      success the buffer has the value the mapping says: what is not mapped is untouched, and reading gives
      the structure back. It fails only if a field has no value of its type, an edit may not be made, or
      memory has run out; while nothing nests deeper than 128 levels and buffers may grow, every edit may be
      made. In every outcome each live buffer has one owner, what the write replaced has been
      freed, and the program's other buffers are as they were. */
  method UbfWrite(ctx: UbfContext, env: Env, r: Addr, name: string, fields: seq<Value>, realloc: bool,
                  ghost rest: seq<Addr>, ghost t: UbfTree) returns (e: Option<UbfError>)
    requires ctx.Valid() && Holding(ctx.heap, r, rest, t) && name in env && NoOverlaps(env)
    modifies ctx
    ensures ctx.Valid() && Forest(ctx.heap, [r] + rest) && Kept(old(ctx.heap), ctx.heap, rest)
    ensures e == None ==> WriteFields(env, t, env[name], fields).Ok? && Shows(ctx.heap, r, WriteFields(env, t, env[name], fields).value)
    ensures e == None ==> MapsTo(env, t, env[name], fields, WriteFields(env, t, env[name], fields).value)
    ensures e == None ==> TypedFields(env, env[name], fields)
    ensures e != None ==> !TypedFields(env, env[name], fields) || ctx.allocs == 0
                          || !SmoothFields(env, t, env[name], fields, Limit(old(ctx.caps), r, realloc))
    ensures realloc && TypedFields(env, env[name], fields) && TreeFits(t, LEVELS) && NestAll(fields) < LEVELS ==> e == None || ctx.allocs == 0
  {
    FieldsSucceed(env, t, env[name], fields);
    if TreeFits(t, LEVELS) && NestAll(fields) < LEVELS { SerdeDepth.FieldsSmooth(env, t, env[name], fields, LEVELS); }
    assert SaneAt(ctx.heap[r], r, ctx.caps, ctx.next);
    ShowsSorted(ctx.heap, r, t);
    e := WriteStructure(ctx, env, r, env[name], fields, realloc, rest, t);
    if e == None { WriteMaps(env, t, name, fields); }
  }

  lemma WriteMaps(env: Env, t: UbfTree, name: string, fields: seq<Value>)
    requires NoOverlaps(env) && name in env && Sorted(t) && WriteFields(env, t, env[name], fields).Ok?
    ensures MapsTo(env, t, env[name], fields, WriteFields(env, t, env[name], fields).value)
  {
    var u := WriteFields(env, t, env[name], fields).value;
    StructureRoundTrip(env, t, name, fields);
    forall g, k: nat | Unmapped(env[name], fields, g, k) ensures StaysOrFillsGap(t, u, g, k) {
      UnmappedStay(env, t, env[name], fields, g, k);
    }
  }
}
