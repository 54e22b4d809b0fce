/** Deep copying of a UBF: any graph of buffers, shared or cyclic, in; a tree of fresh buffers with the
    same value out, or nothing at all. */
module UbfClone {
  import opened Xatmi
  import opened UbfFields
  import opened UbfHeap
  import opened UbfForest
  import opened UbfTrees
  import opened UbfOwnership
  import opened UbfEdits
  import opened UbfComplex

  // ----- the active path

  /** The address of a UBF header: a buffer, or an inline child found by the occurrences that lead to it. */
  datatype Node = Node(base: Addr, steps: seq<nat>)

  ghost function Follow(s: seq<Occ<Val>>, steps: seq<nat>): Option<seq<Occ<Val>>>
    decreases |steps|
  {
    if steps == [] then Some(s)
    else
      var up := Follow(s, steps[..|steps| - 1]);
      var k := steps[|steps| - 1];
      if up.Some? && k < |up.value| && up.value[k].val.UbfVal? then Some(up.value[k].val.occs) else None
  }

  ghost function NodeAt(h: Heap, at: Node): Option<seq<Occ<Val>>> {
    if at.base in h && h[at.base].UbfBuf? then Follow(h[at.base].occs, at.steps) else None
  }

  ghost predicate FitsNode(h: Heap, at: Node, d: nat) {
    NodeAt(h, at).Some? && Fits(h, NodeAt(h, at).value, d)
  }

  /** `low` lies `len` levels below `up`. */
  ghost predicate Leads(h: Heap, up: Node, low: Node, len: nat) {
    forall d: nat :: FitsNode(h, up, d) ==> d > len && FitsNode(h, low, d - len)
  }

  ghost predicate Chain(h: Heap, path: set<Node>, at: Node) {
    forall p :: p in path ==> exists len: nat :: len > 0 && Leads(h, p, at, len)
  }

  /** What lies below itself has no bounded depth. */
  lemma {:induction false} LoopNeverFits(h: Heap, at: Node, len: nat, d: nat)
    requires len > 0 && Leads(h, at, at, len)
    ensures !FitsNode(h, at, d)
    decreases d
  {
    if FitsNode(h, at, d) { LoopNeverFits(h, at, len, d - len); }
  }

  lemma ChainDown(h: Heap, path: set<Node>, at: Node, low: Node)
    requires Chain(h, path, at) && Leads(h, at, low, 1)
    ensures Chain(h, path + {at}, low)
  {
    forall p | p in path + {at} ensures exists len: nat :: len > 0 && Leads(h, p, low, len) {
      if p == at { assert 1 > 0 && Leads(h, at, low, 1); }
      else {
        var len: nat :| len > 0 && Leads(h, p, at, len);
        forall d: nat | FitsNode(h, p, d) ensures d > len + 1 && FitsNode(h, low, d - (len + 1)) {
          assert FitsNode(h, at, d - len);
          assert FitsNode(h, low, d - len - 1);
        }
        assert len + 1 > 0 && Leads(h, p, low, len + 1);
      }
    }
  }

  lemma StepDown(h: Heap, at: Node, k: nat)
    requires NodeAt(h, at).Some? && k < |NodeAt(h, at).value|
    ensures match NodeAt(h, at).value[k].val
            case PtrVal(a) => a in h && a != NULL && h[a].UbfBuf? ==> NodeAt(h, Node(a, [])) == Some(h[a].occs) && Leads(h, at, Node(a, []), 1)
            case UbfVal(c) => NodeAt(h, Node(at.base, at.steps + [k])) == Some(c) && Leads(h, at, Node(at.base, at.steps + [k]), 1)
            case _ => true
  {
    var s := NodeAt(h, at).value;
    assert (at.steps + [k])[..|at.steps|] == at.steps;
    forall d: nat | Fits(h, s, d) ensures FitsIn(h, s[k].val, d) { FitsAll(h, s, d); }
  }

  // ----- copies

  ghost predicate Grown(h: Heap, k: Heap) {
    forall a :: a in h ==> a in k && k[a] == h[a]
  }

  /** The heap `k` is `h` with a tree of fresh buffers under `q`, a copy of the buffer `b` of `src` down to
      `n` levels below it. */
  ghost predicate Cloned(src: Heap, b: Buf, h: Heap, k: Heap, q: Addr, n: nat) {
    && Grown(h, k) && q in k && q !in h
    && k[q].UbfBuf? == b.UbfBuf?
    && (k[q].UbfBuf? ==> Fits(k, k[q].occs, n))
    && TreeBufOf(k, k[q], n + 1) == TreeBufOf(src, b, n + 1)
    && Trees(k, [q], n + 1)
    && Elems(Unfold(k, [q], n + 1)) == k.Keys - h.Keys
  }

  /** In the middle of copying: `c` holds a copy of the occurrences `s`. */
  ghost predicate Copying(src: Heap, s: seq<Occ<Val>>, h: Heap, k: Heap, c: Addr, n: nat) {
    && Grown(h, k) && c in k && c !in h && k[c].UbfBuf?
    && SameFields(k[c].occs, s)
    && Fits(k, k[c].occs, n) && Tree(k, k[c].occs, n) == Tree(src, s, n)
    && Single(Unfold(k, Targets(k[c].occs), n)) && c !in Unfold(k, Targets(k[c].occs), n)
    && Elems(Unfold(k, Targets(k[c].occs), n)) + {c} == k.Keys - h.Keys
  }

  lemma CopyStarts(src: Heap, h: Heap, k: Heap, c: Addr, n: nat)
    requires c !in h && k == h[c := UbfBuf([])] && n > 0
    ensures Copying(src, [], h, k, c, n)
  {
    assert Elems(multiset{}) == {};
  }

  lemma CopyEnds(src: Heap, s: seq<Occ<Val>>, h: Heap, k: Heap, c: Addr, n: nat)
    requires Copying(src, s, h, k, c, n)
    ensures Cloned(src, UbfBuf(s), h, k, c, n)
  {
    FitsComplete(k, k[c].occs, n);
    UnfoldOne(k, c, n + 1);
    OneElem(c);
    SumElems(multiset{c}, Unfold(k, Targets(k[c].occs), n), {});
  }

  /** A value ready to be stored: its buffers are exactly the fresh ones of `k` over `h`. */
  ghost predicate Ready(src: Heap, o: Occ<Val>, h: Heap, k: Heap, v: Val, n: nat) {
    && Grown(h, k) && FitsIn(k, v, n) && TreeIn(k, v, n) == TreeIn(src, o.val, n)
    && Single(Unfold(k, TargetsIn(Occ(o.field, v)), n))
    && Elems(Unfold(k, TargetsIn(Occ(o.field, v)), n)) !! h.Keys
  }

  /** The next occurrence has been stored: the heap `k2` has what `k` had and what the value brought. */
  ghost predicate Stores(k: Heap, k1: Heap, k2: Heap, c: Addr, o: Occ<Val>, v: Val, n: nat)
    requires c in k && k[c].UbfBuf?
  {
    && c in k2 && k2[c] == UbfBuf(k[c].occs + [Occ(o.field, v)])
    && (forall a :: a in k && a != c ==> a in k2 && k2[a] == k[a])
    && (forall a :: a in Unfold(k1, TargetsIn(Occ(o.field, v)), n) ==> a in k1 && a in k2 && k2[a] == k1[a])
    && k2.Keys == k.Keys + Elems(Unfold(k1, TargetsIn(Occ(o.field, v)), n))
  }

  lemma CopyKept(src: Heap, s: seq<Occ<Val>>, h: Heap, k: Heap, k2: Heap, c: Addr, n: nat)
    requires Copying(src, s, h, k, c, n)
    requires forall a :: a in k && a != c ==> a in k2 && k2[a] == k[a]
    ensures var t := k[c].occs;
            && Fits(k2, t, n) && Tree(k2, t, n) == Tree(src, s, n)
            && Complete(k2, Targets(t), n) && Unfold(k2, Targets(t), n) == Unfold(k, Targets(t), n)
  {
    var t := k[c].occs;
    FitsComplete(k, t, n);
    MeetsLive(k, Targets(t), n);
    TreeFrame(k, k2, t, n);
    Frame(k, k2, Targets(t), n);
  }

  lemma CopyReads(src: Heap, s: seq<Occ<Val>>, k2: Heap, t: seq<Occ<Val>>, o: Occ<Val>, w: Occ<Val>, n: nat)
    requires Fits(k2, t, n) && Tree(k2, t, n) == Tree(src, s, n) && w.field == o.field
    requires FitsIn(k2, w.val, n) && TreeIn(k2, w.val, n) == TreeIn(src, o.val, n)
    ensures Fits(k2, t + [w], n) && Tree(k2, t + [w], n) == Tree(src, s + [o], n)
  {
    FitsAppend(k2, t, [w], n);
    FitsCons(k2, w, [], n);
    assert [w] + [] == [w];
    TreeAppend(k2, t, [w], n);
    TreeAppend(src, s, [o], n);
    assert Tree(k2, [w], n) == Tree(src, [o], n);
  }

  lemma CopyNext(src: Heap, s: seq<Occ<Val>>, h: Heap, k: Heap, k1: Heap, k2: Heap, c: Addr, o: Occ<Val>, v: Val, n: nat)
    requires Copying(src, s, h, k, c, n) && Ready(src, o, k, k1, v, n) && Stores(k, k1, k2, c, o, v, n)
    ensures Copying(src, s + [o], h, k2, c, n)
  {
    var t, w := k[c].occs, Occ(o.field, v);
    CopyKept(src, s, h, k, k2, c, n);
    TreeInFrame(k1, k2, w, n);
    CopyReads(src, s, k2, t, o, w, n);
    FitsInComplete(k1, w, n);
    Frame(k1, k2, TargetsIn(w), n);
    TargetsAppend(t, [w]);
    TargetsOfOne(w);
    UnfoldAppend(k2, Targets(t), TargetsIn(w), n);
    CopyCounts(h, k, k2, c, Unfold(k, Targets(t), n), Unfold(k1, TargetsIn(w), n));
  }

  lemma CopyCounts(h: Heap, k: Heap, k2: Heap, c: Addr, x: multiset<Addr>, y: multiset<Addr>)
    requires c in k && c !in h && h.Keys <= k.Keys
    requires Single(x) && c !in x && Elems(x) + {c} == k.Keys - h.Keys
    requires Single(y) && Elems(y) !! k.Keys && k2.Keys == k.Keys + Elems(y)
    ensures Single(x + y) && c !in x + y && Elems(x + y) + {c} == k2.Keys - h.Keys
  {
    SumElems(x, y, {});
    assert c !in Elems(y);
  }

  lemma PtrReady(src: Heap, o: Occ<Val>, h: Heap, k: Heap, q: Addr, n: nat)
    requires o.val.PtrVal? && o.val.target != NULL && o.val.target in src && q != NULL && n > 0
    requires Cloned(src, src[o.val.target], h, k, q, n - 1)
    ensures Ready(src, o, h, k, PtrVal(q), n)
  {
  }

  lemma UbfReady(src: Heap, o: Occ<Val>, h: Heap, k: Heap, q: Addr, n: nat)
    requires o.val.UbfVal? && n > 0 && Cloned(src, UbfBuf(o.val.occs), h, k, q, n - 1)
    ensures Ready(src, o, h, k, UbfVal(OccsOf(k[q])), n)
    ensures q !in Unfold(k, Owned(k[q]), n) && k.Keys == h.Keys + {q} + Elems(Unfold(k, Owned(k[q]), n))
  {
    RootApart(k, q, n);
    MoreFuel(k, Owned(k[q]), n - 1, n);
  }

  lemma RootApart(k: Heap, q: Addr, n: nat)
    requires Trees(k, [q], n)
    ensures q in k && n > 0 && Complete(k, Owned(k[q]), n - 1)
    ensures var m := Unfold(k, Owned(k[q]), n - 1);
            q !in m && Single(m) && Elems(Unfold(k, [q], n)) == {q} + Elems(m)
  {
    UnfoldOne(k, q, n);
    OneElem(q);
    SumElems(multiset{q}, Unfold(k, Owned(k[q]), n - 1), {});
  }

  lemma PlainReady(src: Heap, o: Occ<Val>, h: Heap, n: nat)
    requires n > 0 && (o.val.DataVal? || o.val.ViewVal? || o.val == PtrVal(NULL))
    ensures Ready(src, o, h, h, o.val, n) && Unfold(h, TargetsIn(o), n) == multiset{}
    ensures FitsIn(src, o.val, n)
  {
  }

  /** The copy is written in field order, so every write appends. */
  lemma WriteAppends(s: seq<Occ<Val>>, k: nat, t: seq<Occ<Val>>, v: Val)
    requires Sorted(s) && k < |s| && SameFields(t, s[..k])
    ensures var f, i := s[k].field, |Column(s[..k], s[k].field)|;
            Get(t, f, i) == None && Put(t, f, i, v, Gap(f.kind)) == t + [Occ(f, v)]
  {
    var f := s[k].field;
    SameCount(t, s[..k], f, 0);
    var w := t + [Occ(f, v)];
    forall i, j | 0 <= i < j < |w| ensures !Before(w[j].field, w[i].field) {
      assert w[i].field == s[i].field && w[j].field == s[j].field;
    }
    PutAtEnd(t, f, v, Gap(f.kind));
    GetColumn(t, f, |Column(t, f)|);
  }

  lemma NothingGone(h: Heap, r: Addr, f: FieldId, i: nat, s: seq<Occ<Val>>, q: Addr)
    requires r in h && h[r].UbfBuf? && Get(h[r].occs, f, i) == None
    ensures MayReplace(h, r, f, i) && Gone(h, r, f, i) == {}
    ensures Edited(h, r, s, {}) == h[r := UbfBuf(s)] && Edited(h, r, s, {} + {q}) == h[r := UbfBuf(s)] - {q}
  {
    assert At(h[r].occs, f, i) == [];
    assert {} + {q} == {q};
  }

  lemma PtrStores(k: Heap, k1: Heap, c: Addr, o: Occ<Val>, q: Addr, n: nat)
    requires c in k && k[c].UbfBuf? && Grown(k, k1) && q in k1 && q != NULL && n > 0 && Complete(k1, [q], n)
    requires k1.Keys - k.Keys == Elems(Unfold(k1, [q], n))
    ensures Stores(k, k1, k1[c := UbfBuf(k[c].occs + [Occ(o.field, PtrVal(q))])], c, o, PtrVal(q), n)
  {
    MeetsLive(k1, [q], n);
  }

  lemma UbfStores(k: Heap, k1: Heap, c: Addr, o: Occ<Val>, q: Addr, n: nat)
    requires c in k && k[c].UbfBuf? && Grown(k, k1) && q in k1 && q !in k && k1[q].UbfBuf? && n > 0
    requires Complete(k1, Owned(k1[q]), n) && q !in Unfold(k1, Owned(k1[q]), n)
    requires k1.Keys == k.Keys + {q} + Elems(Unfold(k1, Owned(k1[q]), n)) && Elems(Unfold(k1, Owned(k1[q]), n)) !! k.Keys
    ensures Stores(k, k1, k1[c := UbfBuf(k[c].occs + [Occ(o.field, UbfVal(k1[q].occs))])] - {q}, c, o, UbfVal(k1[q].occs), n)
  {
    var v := UbfVal(k1[q].occs);
    var k2 := k1[c := UbfBuf(k[c].occs + [Occ(o.field, v)])] - {q};
    assert TargetsIn(Occ(o.field, v)) == Owned(k1[q]);
    MeetsLive(k1, Owned(k1[q]), n);
    forall a | a in Unfold(k1, Owned(k1[q]), n) ensures a in k2 && k2[a] == k1[a] { assert a in Elems(Unfold(k1, Owned(k1[q]), n)); }
  }

  lemma PlainStores(k: Heap, c: Addr, o: Occ<Val>, n: nat)
    requires c in k && k[c].UbfBuf? && TargetsIn(o) == []
    ensures Stores(k, k, k[c := UbfBuf(k[c].occs + [o])], c, o, o.val, n)
  {
    assert Elems(Unfold(k, [], n)) == {};
    assert Occ(o.field, o.val) == o;
  }

  // ----- the copying

  ghost function Room(path: set<Node>): nat {
    if |path| < LEVELS then LEVELS - |path| else 0
  }

  /** `src` is the heap as it was when copying began, below `base`; everything newer lies above. */
  ghost predicate Source(src: Heap, base: Addr, h: Heap) {
    && Grown(src, h)
    && (forall a :: a in h ==> a in src || a >= base)
    && (forall a :: a in src ==> Known(Owned(src[a]), base) && Proper(OccsOf(src[a])))
  }

  ghost predicate Newer(h: Heap, k: Heap, from: Addr) {
    forall a :: a in k ==> a in h || a >= from
  }

  lemma StillSource(src: Heap, base: Addr, h: Heap, k: Heap, from: Addr)
    requires Source(src, base, h) && Grown(h, k) && Newer(h, k, from) && base <= from
    ensures Source(src, base, k)
  {
  }

  lemma {:induction false} TargetsAt(s: seq<Occ<Val>>, k: nat)
    requires k < |s|
    ensures forall a :: a in TargetsIn(s[k]) ==> a in Targets(s)
  {
    if k > 0 { TargetsAt(s[1..], k - 1); }
  }

  /** Dropping an unfinished copy takes the heap back to what it was. */
  lemma Undo(src: Heap, s: seq<Occ<Val>>, h: Heap, k: Heap, c: Addr, n: nat)
    requires Copying(src, s, h, k, c, n)
    ensures Free(k, [c]) == Some(h)
  {
    CopyEnds(src, s, h, k, c, n);
    FreeExactly(k, [c], n + 1);
    UndoClone(h, k, Elems(Unfold(k, [c], n + 1)));
  }

  lemma UndoClone(h: Heap, k: Heap, fresh': set<Addr>)
    requires Grown(h, k) && fresh' == k.Keys - h.Keys
    ensures k - fresh' == h
  {
  }

  method CloneUbf(ctx: UbfContext, ghost src: Heap, ghost base: Addr, s: seq<Occ<Val>>, at: Node, path: set<Node>)
    returns (r: Result<Addr>, after: set<Node>)
    requires ctx.Valid() && Source(src, base, ctx.heap) && base <= ctx.next
    requires Proper(s) && Known(Targets(s), base) && NodeAt(src, at) == Some(s) && Chain(src, path, at)
    modifies ctx
    ensures ctx.Valid() && old(ctx.next) <= ctx.next && Newer(old(ctx.heap), ctx.heap, old(ctx.next))
    ensures after == path
    ensures r.Ok? ==> Fits(src, s, Room(path)) && Cloned(src, UbfBuf(s), old(ctx.heap), ctx.heap, r.value, Room(path))
    ensures r.Err? ==> ctx.heap == old(ctx.heap) && (ctx.allocs == 0 || !Fits(src, s, Room(path)))
    decreases if |path| < LEVELS then LEVELS - |path| else 0, 2
  {
    if |path| >= LEVELS { return Err(BEINVAL), path; }
    if at in path {
      ghost var len: nat :| len > 0 && Leads(src, at, at, len);
      LoopNeverFits(src, at, len, Room(path));
      return Err(BEINVAL), path;
    }
    var inside := path + {at};
    r := CopyOccurrences(ctx, src, base, s, at, path, inside);
    after := inside - {at};
    assert after == path;
  }

  lemma FitsNext(h: Heap, s: seq<Occ<Val>>, k: nat, n: nat)
    requires k < |s| && n > 0
    ensures s[..k] + [s[k]] == s[..k + 1]
    ensures Fits(h, s[..k + 1], n) <==> Fits(h, s[..k], n) && FitsIn(h, s[k].val, n)
    ensures Fits(h, s, n) ==> FitsIn(h, s[k].val, n)
  {
    FitsAppend(h, s[..k], [s[k]], n);
    FitsCons(h, s[k], [], n);
    assert [s[k]] + [] == [s[k]];
    FitsAll(h, s, n);
    assert s[..k + 1] == s[..k] + [s[k]];
  }

  method CopyOccurrences(ctx: UbfContext, ghost src: Heap, ghost base: Addr, s: seq<Occ<Val>>, at: Node, ghost path: set<Node>, inside: set<Node>)
    returns (r: Result<Addr>)
    requires ctx.Valid() && Source(src, base, ctx.heap) && base <= ctx.next
    requires Proper(s) && Known(Targets(s), base) && NodeAt(src, at) == Some(s) && Chain(src, path, at)
    requires |path| < LEVELS && at !in path && inside == path + {at}
    modifies ctx
    ensures ctx.Valid() && old(ctx.next) <= ctx.next && Newer(old(ctx.heap), ctx.heap, old(ctx.next))
    ensures r.Ok? ==> Fits(src, s, Room(path)) && Cloned(src, UbfBuf(s), old(ctx.heap), ctx.heap, r.value, Room(path))
    ensures r.Err? ==> ctx.heap == old(ctx.heap) && (ctx.allocs == 0 || !Fits(src, s, Room(path)))
    decreases LEVELS - |path|, 1, 1
  {
    ghost var h, n := ctx.heap, Room(path);
    r := ctx.TpAlloc(UbfBuf([]), if Size(s) < 256 then 256 else Size(s));
    if r.Err? { return; }
    var c := r.value;
    MidwayStarts(src, s, h, ctx.heap, c, n, old(ctx.next));
    var k := 0;
    while k < |s|
      invariant 0 <= k <= |s| && ctx.Valid() && old(ctx.next) <= ctx.next
      invariant Midway(src, s, k, h, ctx.heap, c, n, old(ctx.next))
    {
      var e := CopyNextOccurrence(ctx, src, base, h, s, k, at, path, inside, c, old(ctx.next));
      if e != None { return Err(e.value); }
      k := k + 1;
    }
    MidwayEnds(src, s, h, ctx.heap, c, n, old(ctx.next));
    r := Ok(c);
  }

  /** The first `k` occurrences are copied, and fit. */
  ghost predicate Midway(src: Heap, s: seq<Occ<Val>>, k: nat, h: Heap, now: Heap, c: Addr, n: nat, from: Addr) {
    && k <= |s| && Newer(h, now, from)
    && Copying(src, s[..k], h, now, c, n) && Fits(src, s[..k], n)
  }

  lemma MidwayStarts(src: Heap, s: seq<Occ<Val>>, h: Heap, now: Heap, c: Addr, n: nat, from: Addr)
    requires c !in h && now == h[c := UbfBuf([])] && n > 0 && from <= c
    ensures Midway(src, s, 0, h, now, c, n, from)
  {
    CopyStarts(src, h, now, c, n);
  }

  lemma MidwayEnds(src: Heap, s: seq<Occ<Val>>, h: Heap, now: Heap, c: Addr, n: nat, from: Addr)
    requires Midway(src, s, |s|, h, now, c, n, from)
    ensures Fits(src, s, n) && Cloned(src, UbfBuf(s), h, now, c, n) && Newer(h, now, from)
  {
    assert s[..|s|] == s;
    CopyEnds(src, s, h, now, c, n);
  }

  lemma MidwayNext(src: Heap, s: seq<Occ<Val>>, k: nat, h: Heap, was: Heap, now: Heap, c: Addr, n: nat, from: Addr, next: Addr)
    requires k < |s| && n > 0 && Midway(src, s, k, h, was, c, n, from) && from <= next && Newer(was, now, next)
    requires FitsIn(src, s[k].val, n) && Copying(src, s[..k] + [s[k]], h, now, c, n)
    ensures Midway(src, s, k + 1, h, now, c, n, from)
  {
    FitsNext(src, s, k, n);
  }

  method CopyNextOccurrence(ctx: UbfContext, ghost src: Heap, ghost base: Addr, ghost h: Heap, s: seq<Occ<Val>>, k: nat, at: Node,
                            ghost path: set<Node>, inside: set<Node>, c: Addr, ghost from: Addr) returns (e: Option<UbfError>)
    requires ctx.Valid() && Source(src, base, h) && base <= from <= ctx.next
    requires Proper(s) && Known(Targets(s), base) && NodeAt(src, at) == Some(s) && Chain(src, path, at) && k < |s|
    requires |path| < LEVELS && at !in path && inside == path + {at}
    requires Midway(src, s, k, h, ctx.heap, c, Room(path), from)
    modifies ctx
    ensures ctx.Valid() && old(ctx.next) <= ctx.next
    ensures e == None ==> Midway(src, s, k + 1, h, ctx.heap, c, Room(path), from)
    ensures e != None ==> ctx.heap == h && (ctx.allocs == 0 || !Fits(src, s, Room(path)))
    decreases LEVELS - |path|, 1, 0
  {
    ghost var was, next := ctx.heap, ctx.next;
    e := CopyOccurrence(ctx, src, base, h, s, k, at, path, inside, c);
    if e != None {
      FitsNext(src, s, k, Room(path));
      Abandon(ctx, src, s[..k], h, c, Room(path));
    } else {
      MidwayNext(src, s, k, h, was, ctx.heap, c, Room(path), from, next);
    }
  }

  method Abandon(ctx: UbfContext, ghost src: Heap, ghost s: seq<Occ<Val>>, ghost h: Heap, c: Addr, ghost n: nat)
    requires ctx.Valid() && Copying(src, s, h, ctx.heap, c, n)
    modifies ctx`heap
    ensures ctx.Valid() && ctx.heap == h
  {
    Undo(src, s, h, ctx.heap, c, n);
    ctx.TpFree(c);
  }

  /** Copy one occurrence to the end of the copy `c`. */
  method CopyOccurrence(ctx: UbfContext, ghost src: Heap, ghost base: Addr, ghost h: Heap, s: seq<Occ<Val>>, k: nat, at: Node,
                        ghost path: set<Node>, inside: set<Node>, c: Addr) returns (e: Option<UbfError>)
    requires ctx.Valid() && Source(src, base, h) && Newer(h, ctx.heap, base) && base <= ctx.next
    requires Proper(s) && Known(Targets(s), base) && NodeAt(src, at) == Some(s) && Chain(src, path, at) && k < |s|
    requires |path| < LEVELS && at !in path && inside == path + {at}
    requires Copying(src, s[..k], h, ctx.heap, c, Room(path))
    modifies ctx
    ensures ctx.Valid() && old(ctx.next) <= ctx.next && Newer(old(ctx.heap), ctx.heap, old(ctx.next))
    ensures e == None ==> FitsIn(src, s[k].val, Room(path)) && Copying(src, s[..k] + [s[k]], h, ctx.heap, c, Room(path))
    ensures e != None ==> ctx.heap == old(ctx.heap) && (ctx.allocs == 0 || !FitsIn(src, s[k].val, Room(path)))
    decreases LEVELS - |path|, 0
  {
    ghost var n := Room(path);
    ghost var heap := ctx.heap;
    var o, i := s[k], |Column(s[..k], s[k].field)|;
    ProperAt(s, k);
    TargetsAt(s, k);
    StepDown(src, at, k);
    StillSource(src, base, h, heap, base);
    assert |inside| == |path| + 1 && Room(inside) == n - 1;
    match o.val {
      case UbfVal(u) =>
        var low := Node(at.base, at.steps + [k]);
        ChainDown(src, path, at, low);
        var q, _ := CloneUbf(ctx, src, base, u, low, inside);
        if q.Err? { return Some(q.error); }
        e := StoreUbf(ctx, src, s, k, h, heap, c, q.value, n);
      case PtrVal(a) =>
        if a == NULL {
          e := StorePlain(ctx, src, s, k, h, c, n);
        } else {
          assert a in TargetsIn(o);
          if a in src && src[a].UbfBuf? { ChainDown(src, path, at, Node(a, [])); }
          var q := CloneBuffer(ctx, src, base, a, inside);
          if q.Err? { return Some(q.error); }
          e := StorePtr(ctx, src, s, k, h, heap, c, q.value, n);
        }
      case _ => e := StorePlain(ctx, src, s, k, h, c, n);
    }
  }

  /** Copy a pointer target of any type. */
  method CloneBuffer(ctx: UbfContext, ghost src: Heap, ghost base: Addr, a: Addr, path: set<Node>) returns (r: Result<Addr>)
    requires ctx.Valid() && Source(src, base, ctx.heap) && base <= ctx.next && NULL < a < base && |path| <= LEVELS
    requires a in src && src[a].UbfBuf? ==> NodeAt(src, Node(a, [])) == Some(src[a].occs) && Chain(src, path, Node(a, []))
    modifies ctx
    ensures ctx.Valid() && old(ctx.next) <= ctx.next && Newer(old(ctx.heap), ctx.heap, old(ctx.next))
    ensures r.Ok? ==> FitsIn(src, PtrVal(a), Room(path) + 1) && Cloned(src, src[a], old(ctx.heap), ctx.heap, r.value, Room(path))
                      && r.value != NULL
    ensures r.Err? ==> ctx.heap == old(ctx.heap) && (ctx.allocs == 0 || !FitsIn(src, PtrVal(a), Room(path) + 1))
    decreases if |path| < LEVELS then LEVELS - |path| else 0, 3
  {
    if a !in ctx.heap { return Err(BMALLOC); }
    var b := ctx.heap[a];
    if b.UbfBuf? {
      var copy, _ := CloneUbf(ctx, src, base, b.occs, Node(a, []), path);
      return copy;
    }
    r := ctx.TpAlloc(b, if |b.bytes| == 0 then 1 else |b.bytes|);
    if r.Ok? { RawCloned(src, b, old(ctx.heap), ctx.heap, r.value, Room(path)); }
  }

  lemma RawCloned(src: Heap, b: Buf, h: Heap, k: Heap, q: Addr, n: nat)
    requires b.RawBuf? && q !in h && k == h[q := b]
    ensures Cloned(src, b, h, k, q, n)
  {
    UnfoldOne(k, q, n + 1);
    OneElem(q);
    assert Unfold(k, Owned(k[q]), n) == multiset{} && multiset{q} + multiset{} == multiset{q};
  }

  method StorePlain(ctx: UbfContext, ghost src: Heap, s: seq<Occ<Val>>, k: nat, ghost h: Heap, c: Addr, ghost n: nat) returns (e: Option<UbfError>)
    requires ctx.Valid() && Proper(s) && k < |s| && n > 0 && Copying(src, s[..k], h, ctx.heap, c, n)
    requires s[k].val.DataVal? || s[k].val.ViewVal? || s[k].val == PtrVal(NULL)
    modifies ctx
    ensures ctx.Valid() && ctx.next == old(ctx.next) && Newer(old(ctx.heap), ctx.heap, old(ctx.next))
    ensures e == None ==> FitsIn(src, s[k].val, n) && Copying(src, s[..k] + [s[k]], h, ctx.heap, c, n)
    ensures e != None ==> ctx.heap == old(ctx.heap) && ctx.allocs == 0
  {
    ghost var heap := ctx.heap;
    var o, i := s[k], |Column(s[..k], s[k].field)|;
    ProperAt(s, k);
    WriteAppends(s, k, heap[c].occs, o.val);
    e := ctx.PutNative(c, o.field, i, o.val, true);
    if e == None {
      PlainReady(src, o, heap, n);
      PlainStores(heap, c, o, n);
      CopyNext(src, s[..k], h, heap, heap, ctx.heap, c, o, o.val, n);
    }
  }

  /** `bchg` of a new pointer occurrence. */
  method BchgPtr(ctx: UbfContext, c: Addr, f: FieldId, i: nat, q: Addr, ghost n: nat) returns (e: Option<UbfError>)
    requires ctx.Valid() && ctx.IsUbf(c) && f.kind == PtrField && Get(ctx.heap[c].occs, f, i) == None
    requires q in ctx.heap && Trees(ctx.heap, [q], n)
    modifies ctx
    ensures ctx.Valid() && ctx.next == old(ctx.next)
    ensures e == None ==> ctx.heap == AfterWrite(old(ctx.heap), c, f, i, OwnedPtr(q))
    ensures e != None ==> ctx.heap == old(ctx.heap) - Elems(Unfold(old(ctx.heap), [q], n)) && ctx.allocs == 0
  {
    NothingGone(ctx.heap, c, f, i, [], q);
    e := ctx.WriteValue(c, f, i, OwnedPtr(q), true, false, n);
  }

  method StorePtr(ctx: UbfContext, ghost src: Heap, s: seq<Occ<Val>>, k: nat, ghost h: Heap, ghost heap: Heap, c: Addr, q: Addr, ghost n: nat) returns (e: Option<UbfError>)
    requires ctx.Valid() && Proper(s) && k < |s| && n > 0 && Copying(src, s[..k], h, heap, c, n)
    requires s[k].val.PtrVal? && s[k].val.target != NULL && s[k].val.target in src && q != NULL
    requires Cloned(src, src[s[k].val.target], heap, ctx.heap, q, n - 1)
    modifies ctx
    ensures ctx.Valid() && ctx.next == old(ctx.next) && Newer(old(ctx.heap), ctx.heap, old(ctx.next))
    ensures e == None ==> Copying(src, s[..k] + [s[k]], h, ctx.heap, c, n)
    ensures e != None ==> ctx.heap == heap && ctx.allocs == 0
  {
    ghost var k1 := ctx.heap;
    var o, i := s[k], |Column(s[..k], s[k].field)|;
    ProperAt(s, k);
    WriteAppends(s, k, heap[c].occs, PtrVal(q));
    NothingGone(k1, c, o.field, i, heap[c].occs + [Occ(o.field, PtrVal(q))], q);
    assert AfterWrite(k1, c, o.field, i, OwnedPtr(q)) == k1[c := UbfBuf(heap[c].occs + [Occ(o.field, PtrVal(q))])];
    e := BchgPtr(ctx, c, o.field, i, q, n);
    if e == None {
      PtrReady(src, o, heap, k1, q, n);
      PtrStores(heap, k1, c, o, q, n);
      CopyNext(src, s[..k], h, heap, k1, ctx.heap, c, o, PtrVal(q), n);
    } else {
      UndoClone(heap, k1, Elems(Unfold(k1, [q], n)));
    }
  }

  method StoreUbf(ctx: UbfContext, ghost src: Heap, s: seq<Occ<Val>>, k: nat, ghost h: Heap, ghost heap: Heap, c: Addr, q: Addr, ghost n: nat) returns (e: Option<UbfError>)
    requires ctx.Valid() && Proper(s) && k < |s| && n > 0 && Copying(src, s[..k], h, heap, c, n)
    requires s[k].val.UbfVal? && Cloned(src, UbfBuf(s[k].val.occs), heap, ctx.heap, q, n - 1)
    modifies ctx
    ensures ctx.Valid() && ctx.next == old(ctx.next) && Newer(old(ctx.heap), ctx.heap, old(ctx.next))
    ensures e == None ==> Copying(src, s[..k] + [s[k]], h, ctx.heap, c, n)
    ensures e != None ==> ctx.heap == heap && ctx.allocs == 0
  {
    ghost var k1 := ctx.heap;
    var o, i := s[k], |Column(s[..k], s[k].field)|;
    ProperAt(s, k);
    WriteAppends(s, k, heap[c].occs, UbfVal(k1[q].occs));
    NothingGone(k1, c, o.field, i, heap[c].occs + [Occ(o.field, UbfVal(k1[q].occs))], q);
    e := ctx.EmbedUbf(c, o.field, i, q, true, true, n);
    if e == None {
      UbfReady(src, o, heap, k1, q, n);
      FitsComplete(k1, k1[q].occs, n - 1);
      MoreFuel(k1, Owned(k1[q]), n - 1, n);
      UbfStores(heap, k1, c, o, q, n);
      CopyNext(src, s[..k], h, heap, k1, ctx.heap, c, o, UbfVal(k1[q].occs), n);
    } else {
      UndoClone(heap, k1, Elems(Unfold(k1, [q], n)));
    }
  }

  // ----- the whole operation

  lemma SaneIsSource(h: Heap, caps: map<Addr, nat>, next: Addr, r: Addr)
    requires Sane(h, caps, next) && r in h
    ensures Source(h, next, h) && Proper(OccsOf(h[r])) && Known(Owned(h[r]), next)
  {
    forall a | a in h ensures Known(Owned(h[a]), next) && Proper(OccsOf(h[a])) { assert SaneAt(h[a], a, caps, next); }
  }

  /** The check before ownership-changing edits accepts every copy. */
  lemma CopyIsOwnedTree(src: Heap, b: Buf, h: Heap, k: Heap, q: Addr)
    requires Cloned(src, b, h, k, q, LEVELS) && b.UbfBuf?
    ensures OwnedTree(k, q)
  {
    FitsComplete(k, k[q].occs, LEVELS);
    UnfoldOne(k, q, LEVELS + 1);
    OneElem(q);
    SumElems(multiset{q}, Unfold(k, Owned(k[q]), LEVELS), {});
  }

  /** A deep copy belongs to the program, and everything else stays with its owner. */
  lemma CopyKeepsForest(src: Heap, b: Buf, h: Heap, k: Heap, q: Addr, owners: seq<Addr>, n: nat)
    requires Cloned(src, b, h, k, q, n) && Forest(h, owners)
    ensures Forest(k, [q] + owners)
  {
    var m: nat :| Whole(h, owners, m);
    GrownFrame(h, k, owners, m, m + n + 1);
    MoreFuel(k, [q], n + 1, m + n + 1);
    UnfoldAppend(k, [q], owners, m + n + 1);
    CountFresh(Unfold(k, [q], n + 1), h.Keys, k.Keys);
    assert Whole(k, [q] + owners, m + n + 1);
  }

  lemma GrownFrame(h: Heap, k: Heap, us: seq<Addr>, n: nat, m: nat)
    requires Grown(h, k) && Complete(h, us, n) && n <= m
    ensures Complete(k, us, m) && Unfold(k, us, m) == Unfold(h, us, n)
  {
    MeetsLive(h, us, n);
    Frame(h, k, us, n);
    MoreFuel(k, us, n, m);
  }

  lemma CountFresh(x: multiset<Addr>, old': set<Addr>, now: set<Addr>)
    requires Single(x) && Elems(x) == now - old' && old' <= now
    ensures x + multiset(old') == multiset(now)
  {
    forall a ensures x[a] + multiset(old')[a] == multiset(now)[a] {
      assert a in x <==> a in Elems(x);
    }
  }

  /** Succeeds exactly when no path from `r` is longer than 128 levels or meets a dead target, memory
      permitting: in particular for no cyclic graph. The copy has the value of the original, consists of
      fresh buffers, each met once, and is accepted as an owned tree; nothing else changes. A failure
      leaves the heap as it was. */
  method DeepClone(ctx: UbfContext, r: Addr) returns (copy: Result<Addr>)
    requires ctx.Valid() && ctx.IsUbf(r)
    modifies ctx
    ensures ctx.Valid()
    ensures copy.Ok? ==> Fits(old(ctx.heap), old(ctx.heap)[r].occs, LEVELS)
    ensures copy.Ok? ==> Cloned(old(ctx.heap), old(ctx.heap)[r], old(ctx.heap), ctx.heap, copy.value, LEVELS)
    ensures copy.Ok? ==> OwnedTree(ctx.heap, copy.value)
    ensures copy.Err? ==> ctx.heap == old(ctx.heap) && (ctx.allocs == 0 || !Fits(ctx.heap, ctx.heap[r].occs, LEVELS))
  {
    SaneIsSource(ctx.heap, ctx.caps, ctx.next, r);
    ghost var h := ctx.heap;
    var after;
    copy, after := CloneUbf(ctx, ctx.heap, ctx.next, ctx.heap[r].occs, Node(r, []), {});
    if copy.Ok? { CopyIsOwnedTree(h, h[r], h, ctx.heap, copy.value); }
  }

  /** A buffer on a cycle is never copied: it fits no depth. */
  lemma {:induction false} CycleNeverFits(h: Heap, r: Addr, cycle: seq<Addr>, d: nat)
    requires |cycle| > 1 && cycle[0] == r == cycle[|cycle| - 1]
    requires forall i :: 0 <= i < |cycle| ==> cycle[i] in h && h[cycle[i]].UbfBuf?
    requires forall i :: 0 <= i < |cycle| - 1 ==> Points(h[cycle[i]].occs, cycle[i + 1])
    ensures !Fits(h, h[r].occs, d)
    decreases d
  {
    if Fits(h, h[r].occs, d) {
      DownPath(h, cycle, |cycle| - 1, d);
      CycleNeverFits(h, r, cycle, d - (|cycle| - 1));
    }
  }

  /** A PTR occurrence names `a`. */
  ghost predicate Points(s: seq<Occ<Val>>, a: Addr) {
    a != NULL && exists i :: 0 <= i < |s| && s[i].val == PtrVal(a)
  }

  lemma {:induction false} DownPath(h: Heap, path: seq<Addr>, k: nat, d: nat)
    requires k < |path| && forall i :: 0 <= i < |path| ==> path[i] in h && h[path[i]].UbfBuf?
    requires forall i :: 0 <= i < |path| - 1 ==> Points(h[path[i]].occs, path[i + 1])
    requires Fits(h, h[path[0]].occs, d)
    ensures d > k && Fits(h, h[path[k]].occs, d - k)
  {
    if k > 0 {
      DownPath(h, path, k - 1, d);
      var s := h[path[k - 1]].occs;
      assert Points(s, path[k]);
      var i :| 0 <= i < |s| && s[i].val == PtrVal(path[k]);
      FitsAll(h, s, d - (k - 1));
      assert FitsIn(h, s[i].val, d - (k - 1));
    }
  }

  /** Copy the target of a pointer occurrence, which stays where it is. */
  method ClonePointerTarget(ctx: UbfContext, r: Addr, f: FieldId, i: nat) returns (copy: Result<Addr>)
    requires ctx.Valid() && ctx.IsUbf(r)
    modifies ctx
    ensures ctx.Valid()
    ensures copy.Ok? ==> HoldsPointer(Get(old(ctx.heap)[r].occs, f, i))
    ensures copy.Ok? ==> var a := Get(old(ctx.heap)[r].occs, f, i).value.target;
              FitsIn(old(ctx.heap), PtrVal(a), LEVELS + 1) && Cloned(old(ctx.heap), old(ctx.heap)[a], old(ctx.heap), ctx.heap, copy.value, LEVELS)
    ensures copy.Err? ==> ctx.heap == old(ctx.heap)
    ensures copy.Err? && HoldsPointer(Get(ctx.heap[r].occs, f, i)) && ctx.allocs > 0 ==>
              !FitsIn(ctx.heap, PtrVal(Get(ctx.heap[r].occs, f, i).value.target), LEVELS + 1)
  {
    ghost var h := ctx.heap;
    var v := Get(ctx.heap[r].occs, f, i);
    SaneIsSource(h, ctx.caps, ctx.next, r);
    if v.Some? { GetProper(h[r].occs, f, i); }
    if f.kind != PtrField { return Err(BTYPERR); }
    if v.None? || v.value.target == NULL { return Err(BNOTPRES); }
    Splice(h[r].occs, f, i);
    SpliceTargets(Cut(h[r].occs, f, i).0, [], Occ(f, v.value), Cut(h[r].occs, f, i).1);
    assert Cut(h[r].occs, f, i).0 + [] == Cut(h[r].occs, f, i).0;
    assert v.value.target in Owned(h[r]);
    copy := CloneBuffer(ctx, h, ctx.next, v.value.target, {});
  }
}
