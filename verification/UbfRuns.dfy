/** Whole programs of edits: a heap, the buffers the program holds, and any sequence of operations on
    them, each as UbfComplex and UbfClone perform it, whether it succeeds or fails. */
module UbfRuns {
  import opened Xatmi
  import opened UbfFields
  import opened UbfHeap
  import opened UbfForest
  import opened UbfTrees
  import opened UbfOwnership
  import opened UbfEdits
  import opened UbfComplex
  import opened UbfClone

  datatype State = State(heap: Heap, owners: seq<Addr>)

  /** What the operations do. `r` is the buffer edited; a consumed buffer is one of the program's. A
      failed operation that consumed a buffer is `Drops`; any other failure changes nothing. */
  datatype Edit =
    | Allocates(a: Addr, content: Buf)
    | Deletes(r: Addr, f: FieldId, i: nat)
    | Overwrites(r: Addr, f: FieldId, i: nat, v: Val)
    | GivesPtr(r: Addr, f: FieldId, i: nat, a: Addr)
    | Embeds(r: Addr, f: FieldId, i: nat, c: Addr)
    | Extracts(r: Addr, f: FieldId, i: nat)
    | Copies(r: Addr, q: Addr, k: Heap)
    | Drops(a: Addr)

  function Minus(owners: seq<Addr>, a: Addr): seq<Addr> {
    if owners == [] then [] else if owners[0] == a then owners[1..] else [owners[0]] + Minus(owners[1..], a)
  }

  ghost predicate Edits(s: State, r: Addr, f: FieldId, i: nat) {
    r in s.owners && MayReplace(s.heap, r, f, i) && Sorted(s.heap[r].occs)
  }

  /** When the operation succeeds in this way. */
  ghost predicate Can(s: State, e: Edit) {
    match e
    case Allocates(a, b) => a !in s.heap && OccsOf(b) == []
    case Deletes(r, f, i) => Edits(s, r, f, i)
    case Overwrites(r, f, i, v) => Edits(s, r, f, i) && TargetsIn(Occ(f, v)) == []
    case GivesPtr(r, f, i, a) => Edits(s, r, f, i) && a in Minus(s.owners, r) && a != NULL
    case Embeds(r, f, i, c) => Edits(s, r, f, i) && c in Minus(s.owners, r) && c in s.heap && s.heap[c].UbfBuf?
    case Extracts(r, f, i) => r in s.owners && OwnedTree(s.heap, r) && s.heap[r].UbfBuf? && |At(s.heap[r].occs, f, i)| == 1
    case Copies(r, q, k) => r in s.heap && Cloned(s.heap, s.heap[r], s.heap, k, q, LEVELS)
    case Drops(a) => a in s.owners
  }

  ghost function Done(s: State, e: Edit): State
    requires Can(s, e)
  {
    var h := s.heap;
    match e
    case Allocates(a, b) => State(h[a := b], [a] + s.owners)
    case Deletes(r, f, i) => State(AfterDelete(h, r, f, i), s.owners)
    case Overwrites(r, f, i, v) => State(AfterPut(h, r, f, i, v), s.owners)
    case GivesPtr(r, f, i, a) => State(AfterPut(h, r, f, i, PtrVal(a)), [r] + Minus(Minus(s.owners, r), a))
    case Embeds(r, f, i, c) => State(AfterEmbed(h, r, f, i, c), [r] + Minus(Minus(s.owners, r), c))
    case Extracts(r, f, i) => State(h[r := UbfBuf(Del(h[r].occs, f, i))], At(h[r].occs, f, i) + s.owners)
    case Copies(_, q, k) => State(k, [q] + s.owners)
    case Drops(a) => State(match Free(h, [a]) case Some(k) => k case None => h, Minus(s.owners, a))
  }

  lemma {:induction false} MinusFirst(owners: seq<Addr>, a: Addr)
    requires a in owners
    ensures multiset([a] + Minus(owners, a)) == multiset(owners)
  {
    if owners[0] != a {
      MinusFirst(owners[1..], a);
      assert owners == [owners[0]] + owners[1..];
      assert multiset([a] + ([owners[0]] + Minus(owners[1..], a))) == multiset([owners[0]] + ([a] + Minus(owners[1..], a)));
    } else {
      assert [a] + owners[1..] == owners;
    }
  }

  lemma Front(h: Heap, owners: seq<Addr>, r: Addr)
    requires Forest(h, owners) && r in owners
    ensures Forest(h, [r] + Minus(owners, r))
  {
    MinusFirst(owners, r);
    ReorderOwners(h, owners, [r] + Minus(owners, r));
  }

  lemma Back(h: Heap, owners: seq<Addr>, r: Addr)
    requires Forest(h, [r] + Minus(owners, r)) && r in owners
    ensures Forest(h, owners)
  {
    MinusFirst(owners, r);
    ReorderOwners(h, [r] + Minus(owners, r), owners);
  }

  lemma FrontTwo(h: Heap, owners: seq<Addr>, r: Addr, a: Addr)
    requires Forest(h, owners) && r in owners && a in Minus(owners, r)
    ensures Forest(h, [r] + [a] + Minus(Minus(owners, r), a))
  {
    var rest := Minus(owners, r);
    Front(h, owners, r);
    MinusFirst(rest, a);
    assert multiset([r] + [a] + Minus(rest, a)) == multiset{r} + multiset([a] + Minus(rest, a));
    assert multiset([r] + rest) == multiset{r} + multiset(rest);
    ReorderOwners(h, [r] + rest, [r] + [a] + Minus(rest, a));
  }

  lemma PlainEdit(s: State, r: Addr, f: FieldId, i: nat, t: seq<Occ<Val>>)
    requires Forest(s.heap, s.owners) && Edits(s, r, f, i)
    requires multiset(Owned(s.heap[r])) == multiset(Targets(t)) + multiset(At(s.heap[r].occs, f, i))
    ensures Forest(Edited(s.heap, r, t, Gone(s.heap, r, f, i)), s.owners)
  {
    var rest := Minus(s.owners, r);
    Front(s.heap, s.owners, r);
    NoneBetween(r, rest);
    KeepsForest(s.heap, r, f, i, t, [], rest);
    Back(Edited(s.heap, r, t, Gone(s.heap, r, f, i)), s.owners, r);
  }

  lemma NoneBetween(r: Addr, rest: seq<Addr>)
    ensures [r] + [] + rest == [r] + rest
  {
  }

  lemma GiveEdit(s: State, r: Addr, f: FieldId, i: nat, a: Addr)
    requires Forest(s.heap, s.owners) && Can(s, GivesPtr(r, f, i, a))
    ensures Forest(Done(s, GivesPtr(r, f, i, a)).heap, [r] + Minus(Minus(s.owners, r), a))
  {
    FrontTwo(s.heap, s.owners, r, a);
    PutTargets(s.heap[r].occs, f, i, PtrVal(a));
    KeepsForest(s.heap, r, f, i, Put(s.heap[r].occs, f, i, PtrVal(a), Gap(f.kind)), [a], Minus(Minus(s.owners, r), a));
  }

  lemma Swap(x: seq<Addr>, y: seq<Addr>, z: seq<Addr>)
    ensures multiset(x + y + z) == multiset(y + (x + z))
  {
  }

  lemma Congruent(x: seq<Addr>, y: seq<Addr>, z: seq<Addr>)
    requires multiset(y) == multiset(z)
    ensures multiset(x + y) == multiset(x + z)
  {
  }

  /** Without its shell, what the child owned is the program's. */
  lemma ShellDissolved(h: Heap, r: Addr, c: Addr, rest: seq<Addr>)
    requires Forest(h, [r] + [c] + rest) && c in h
    ensures r != c && Forest(h - {c}, [r] + Owned(h[c]) + rest)
  {
    Swap([r], [c], rest);
    ReorderOwners(h, [r] + [c] + rest, [c] + ([r] + rest));
    DistinctOwners(h, r, c, rest);
    Dissolve(h, c, [r] + rest);
    Swap([r], Owned(h[c]), rest);
    ReorderOwners(h - {c}, Owned(h[c]) + ([r] + rest), [r] + Owned(h[c]) + rest);
  }

  /** Embedding dissolves the child's shell and gives what it owned to the parent. */
  lemma EmbedEdit(s: State, r: Addr, f: FieldId, i: nat, c: Addr)
    requires Forest(s.heap, s.owners) && Can(s, Embeds(r, f, i, c))
    ensures Forest(AfterEmbed(s.heap, r, f, i, c), [r] + Minus(Minus(s.owners, r), c))
  {
    var h: Heap := s.heap;
    var rest := Minus(Minus(s.owners, r), c);
    FrontTwo(h, s.owners, r, c);
    ShellDissolved(h, r, c, rest);
    ChildApart(h, r, f, i, c, rest);
    var t := Put(h[r].occs, f, i, UbfVal(h[c].occs), Gap(f.kind));
    PutTargets(h[r].occs, f, i, UbfVal(h[c].occs));
    KeepsForest(h - {c}, r, f, i, t, Owned(h[c]), rest);
    TwoRemovals(h, r, c, t, Gone(h, r, f, i));
  }

  lemma TwoRemovals(h: Heap, r: Addr, c: Addr, t: seq<Occ<Val>>, gone: set<Addr>)
    requires r != c
    ensures Edited(h - {c}, r, t, gone) == Edited(h, r, t, gone + {c})
  {
  }

  lemma DistinctOwners(h: Heap, r: Addr, c: Addr, rest: seq<Addr>)
    requires Forest(h, [c] + ([r] + rest))
    ensures r != c
  {
    var n: nat :| Whole(h, [c] + ([r] + rest), n);
    WholeSingle(h, [c] + ([r] + rest), n);
    StartsDistinct(h, [c] + ([r] + rest), n);
    assert ([c] + ([r] + rest))[0] == c && ([c] + ([r] + rest))[1] == r;
  }

  /** Another buffer of the program lies outside the edited one, so the edit is the same without it. */
  lemma ChildApart(h: Heap, r: Addr, f: FieldId, i: nat, c: Addr, rest: seq<Addr>)
    requires MayReplace(h, r, f, i) && Forest(h, [r] + [c] + rest) && r != c && h[r].UbfBuf?
    ensures c !in Gone(h, r, f, i)
    ensures MayReplace(h - {c}, r, f, i) && Gone(h - {c}, r, f, i) == Gone(h, r, f, i)
  {
    var n: nat :| Whole(h, [r] + [c] + rest, n);
    RestOf(h, r, [c], rest, n);
    OwnersApart(h, r, c, rest, n);
    if At(h[r].occs, f, i) != [] {
      FitsComplete(h, h[r].occs, LEVELS);
      SameUnfold(h, Owned(h[r]), n - 1, LEVELS);
      StaysTree(h, r, c);
      StaysGone(h, r, f, i, c);
    } else {
      assert Unfold(h, [], LEVELS) == Unfold(h - {c}, [], LEVELS) == multiset{};
    }
  }

  lemma StaysTree(h: Heap, r: Addr, c: Addr)
    requires OwnedTree(h, r) && r != c && c !in Unfold(h, Owned(h[r]), LEVELS)
    ensures OwnedTree(h - {c}, r)
  {
    FitsComplete(h, OccsOf(h[r]), LEVELS);
    MeetsLive(h, Owned(h[r]), LEVELS);
    TreeFrame(h, h - {c}, OccsOf(h[r]), LEVELS);
    Shrink(h, c, Owned(h[r]), LEVELS);
  }

  lemma StaysGone(h: Heap, r: Addr, f: FieldId, i: nat, c: Addr)
    requires OwnedTree(h, r) && h[r].UbfBuf? && r != c && Get(h[r].occs, f, i).Some? && c !in Unfold(h, Owned(h[r]), LEVELS)
    ensures c !in Gone(h, r, f, i) && Gone(h - {c}, r, f, i) == Gone(h, r, f, i)
  {
    var s := h[r].occs;
    OneAndOthers(h, s, {r}, f, i);
    TargetsAround(s, f, i);
    Reorder(h, Targets(s), Others(s, f, i) + At(s, f, i), LEVELS);
    UnfoldAppend(h, Others(s, f, i), At(s, f, i), LEVELS);
    Shrink(h, c, At(s, f, i), LEVELS);
  }

  lemma OwnersApart(h: Heap, r: Addr, c: Addr, rest: seq<Addr>, n: nat)
    requires Whole(h, [r] + [c] + rest, n) && r in h && n > 0
    ensures c !in Unfold(h, Owned(h[r]), n - 1)
  {
    RestOf(h, r, [c], rest, n);
    UnfoldOne(h, c, n);
    var x := Unfold(h, Owned(h[r]), n - 1);
    assert c in Unfold(h, [c], n);
    Parts(multiset(h.Keys), r, x, Unfold(h, [c], n), Unfold(h, rest, n));
  }

  lemma DelExchanged(h: Heap, r: Addr, f: FieldId, i: nat)
    requires r in h && h[r].UbfBuf?
    ensures Exchanged(h[r], UbfBuf(Del(h[r].occs, f, i)), [], At(h[r].occs, f, i))
  {
    DelTargets(h[r].occs, f, i);
  }

  /** Handed-out buffers join the program's. */
  lemma BackWith(k: Heap, owners: seq<Addr>, r: Addr, out: seq<Addr>)
    requires r in owners && Forest(k, [r] + out + Minus(owners, r))
    ensures Forest(k, out + owners)
  {
    MinusFirst(owners, r);
    Swap([r], out, Minus(owners, r));
    Congruent(out, [r] + Minus(owners, r), owners);
    ReorderOwners(k, [r] + out + Minus(owners, r), out + owners);
  }

  lemma ExtractEdit(s: State, r: Addr, f: FieldId, i: nat)
    requires Forest(s.heap, s.owners) && Can(s, Extracts(r, f, i))
    ensures Forest(Done(s, Extracts(r, f, i)).heap, Done(s, Extracts(r, f, i)).owners)
  {
    var h: Heap := s.heap;
    var out := At(h[r].occs, f, i);
    Front(h, s.owners, r);
    DelExchanged(h, r, f, i);
    assert [r] + [] + Minus(s.owners, r) == [r] + Minus(s.owners, r);
    Rewire(h, r, UbfBuf(Del(h[r].occs, f, i)), [], out, Minus(s.owners, r));
    BackWith(h[r := UbfBuf(Del(h[r].occs, f, i))], s.owners, r, out);
  }

  lemma DropEdit(s: State, a: Addr)
    requires Forest(s.heap, s.owners) && a in s.owners
    ensures Free(s.heap, [a]).Some? && Forest(Free(s.heap, [a]).value, Minus(s.owners, a))
  {
    Front(s.heap, s.owners, a);
    var n: nat :| Whole(s.heap, [a] + Minus(s.owners, a), n);
    Discard(s.heap, [a], Minus(s.owners, a), n);
    assert Whole(s.heap - Elems(Unfold(s.heap, [a], n)), Minus(s.owners, a), n);
  }

  /** Every operation keeps the forest. */
  lemma StepKeepsForest(s: State, e: Edit)
    requires Forest(s.heap, s.owners) && Can(s, e)
    ensures Forest(Done(s, e).heap, Done(s, e).owners)
  {
    match e
    case Allocates(a, b) => Allocate(s.heap, s.owners, a, b);
    case Deletes(r, f, i) =>
      DelTargets(s.heap[r].occs, f, i);
      PlainEdit(s, r, f, i, Del(s.heap[r].occs, f, i));
    case Overwrites(r, f, i, v) =>
      PutTargets(s.heap[r].occs, f, i, v);
      PlainEdit(s, r, f, i, Put(s.heap[r].occs, f, i, v, Gap(f.kind)));
    case GivesPtr(r, f, i, a) => GiveEdit(s, r, f, i, a);
    case Embeds(r, f, i, c) => EmbedEdit(s, r, f, i, c);
    case Extracts(r, f, i) => ExtractEdit(s, r, f, i);
    case Copies(r, q, k) => CopyKeepsForest(s.heap, s.heap[r], s.heap, k, q, s.owners, LEVELS);
    case Drops(a) => DropEdit(s, a);
  }

  ghost predicate Goes(s: State, e: Edit, t: State) {
    Can(s, e) && t == Done(s, e)
  }

  /** Any run of operations from an empty heap. */
  ghost predicate Run(ss: seq<State>, es: seq<Edit>) {
    && |ss| == |es| + 1 && ss[0] == State(map[], [])
    && (forall i :: 0 <= i < |es| ==> Goes(ss[i], es[i], ss[i + 1]))
  }

  lemma {:induction false} RunKeepsForest(ss: seq<State>, es: seq<Edit>, k: nat)
    requires Run(ss, es) && k < |ss|
    ensures Forest(ss[k].heap, ss[k].owners)
  {
    if k == 0 {
      assert Whole(map[], [], 0);
    } else {
      RunKeepsForest(ss, es, k - 1);
      assert Goes(ss[k - 1], es[k - 1], ss[k]);
      StepKeepsForest(ss[k - 1], es[k - 1]);
    }
  }

  /** Over any run of edits, each live buffer has exactly one owner: the program holds it, or one PTR
      occurrence of one live buffer names it; every stored pointer is live; and dropping a buffer of the
      program frees nothing twice. */
  lemma OneOwnerAlways(ss: seq<State>, es: seq<Edit>, k: nat, b: Addr, c: Addr)
    requires Run(ss, es) && k < |ss| && b in ss[k].heap && c in ss[k].heap
    ensures Distinct(ss[k].owners) && Distinct(Owned(ss[k].heap[b]))
    ensures forall t :: t in Owned(ss[k].heap[b]) ==> t in ss[k].heap && t !in ss[k].owners
    ensures b != c ==> forall t :: t in Owned(ss[k].heap[b]) ==> t !in Owned(ss[k].heap[c])
    ensures forall a :: a in ss[k].owners ==> Free(ss[k].heap, [a]).Some?
  {
    RunKeepsForest(ss, es, k);
    OneOwnerEach(ss[k].heap, ss[k].owners, b, c);
    forall a | a in ss[k].owners ensures Free(ss[k].heap, [a]).Some? { DropEdit(ss[k], a); }
  }

  /** No buffer leaks: once the program holds nothing, nothing is live. */
  lemma NoLeak(ss: seq<State>, es: seq<Edit>, k: nat)
    requires Run(ss, es) && k < |ss| && ss[k].owners == []
    ensures ss[k].heap == map[]
  {
    RunKeepsForest(ss, es, k);
    var n: nat :| Whole(ss[k].heap, [], n);
    forall a ensures a !in ss[k].heap.Keys { assert multiset(ss[k].heap.Keys)[a] == 0; }
    assert ss[k].heap.Keys == {};
  }

  // ----- the operations are these edits

  /** The edit that a successful write of a value is. */
  function WriteEdit(r: Addr, f: FieldId, i: nat, v: UbfValue): Edit {
    match v
    case Plain(b) => Overwrites(r, f, i, DataVal(b))
    case Viewed(n, b) => Overwrites(r, f, i, ViewVal(n, b))
    case OwnedPtr(a) => GivesPtr(r, f, i, a)
    case OwnedUbf(c) => Embeds(r, f, i, c)
  }

  /** What `WriteValue` promises on success is that edit. */
  lemma WriteIsEdit(s: State, r: Addr, f: FieldId, i: nat, v: UbfValue)
    requires Edits(s, r, f, i) && Accepts(s.heap, f, v) && Consumable(s.heap, r, v)
    requires (v.OwnedPtr? ==> v.buf in Minus(s.owners, r) && v.buf != NULL) && (v.OwnedUbf? ==> v.ubf in Minus(s.owners, r))
    ensures Can(s, WriteEdit(r, f, i, v)) && Done(s, WriteEdit(r, f, i, v)).heap == AfterWrite(s.heap, r, f, i, v)
  {
    assert Gone(s.heap, r, f, i) + {} == Gone(s.heap, r, f, i);
  }

  /** What it promises on failure is the drop of the value. */
  lemma FailureIsDrop(s: State, c: Addr, n: nat)
    requires Forest(s.heap, s.owners) && c in s.owners && Trees(s.heap, [c], n)
    ensures Can(s, Drops(c)) && Done(s, Drops(c)).heap == s.heap - Elems(Unfold(s.heap, [c], n))
  {
    FreeExactly(s.heap, [c], n);
  }

  /** `BdelOwned` and `BextractPtr` on success. */
  lemma RemovalsAreEdits(s: State, r: Addr, f: FieldId, i: nat)
    requires r in s.owners && r in s.heap && s.heap[r].UbfBuf? && Sorted(s.heap[r].occs)
    ensures MayReplace(s.heap, r, f, i) ==> Can(s, Deletes(r, f, i)) && Done(s, Deletes(r, f, i)).heap == AfterDelete(s.heap, r, f, i)
    ensures HoldsPointer(Get(s.heap[r].occs, f, i)) && OwnedTree(s.heap, r) ==>
              Can(s, Extracts(r, f, i)) && Done(s, Extracts(r, f, i)).heap == s.heap[r := UbfBuf(Del(s.heap[r].occs, f, i))]
  {
  }

  /** `PutNullComplex` on success. */
  lemma NullIsEdit(s: State, r: Addr, f: FieldId, i: nat)
    requires Edits(s, r, f, i) && HasNull(f)
    ensures Can(s, Overwrites(r, f, i, Gap(f.kind))) && Done(s, Overwrites(r, f, i, Gap(f.kind))).heap == AfterPut(s.heap, r, f, i, Gap(f.kind))
  {
  }

  /** A stretch of a run. */
  ghost predicate Stretch(ss: seq<State>, es: seq<Edit>) {
    |ss| == |es| + 1 && forall i :: 0 <= i < |es| ==> Goes(ss[i], es[i], ss[i + 1])
  }

  /** A stretch of deletions from `s` to `t`. */
  ghost predicate DeletesFrom(ss: seq<State>, es: seq<Edit>, s: State, t: State) {
    Stretch(ss, es) && ss[0] == s && ss[|es|] == t && forall i :: 0 <= i < |es| ==> es[i].Deletes?
  }

  lemma DeletesOn(ss: seq<State>, es: seq<Edit>, s: State, t: State, e: Edit, u: State)
    requires DeletesFrom(ss, es, s, t) && e.Deletes? && Goes(t, e, u)
    ensures DeletesFrom(ss + [u], es + [e], s, u)
  {
    var us, fs := ss + [u], es + [e];
    forall i | 0 <= i < |fs| ensures Goes(us[i], fs[i], us[i + 1]) && fs[i].Deletes? {
      if i < |es| { assert Goes(ss[i], es[i], ss[i + 1]); }
    }
  }

  /** One occurrence more. */
  lemma ClearStepIsEdit(owners: seq<Addr>, h: Heap, r: Addr, f: FieldId, k: nat)
    requires r in owners && MayReplace(h, r, f, k) && Sorted(h[r].occs)
    ensures Goes(State(h, owners), Deletes(r, f, k), State(AfterDelete(h, r, f, k), owners))
    ensures SortedUbf(AfterDelete(h, r, f, k), r)
  {
    GoneSafe(h, r, f, k, UbfBuf(Del(h[r].occs, f, k)));
    DelSorted(h[r].occs, f, k);
  }

  ghost predicate SortedUbf(h: Heap, r: Addr) {
    r in h && h[r].UbfBuf? && Sorted(h[r].occs)
  }

  lemma ClearedNothing(s: State, now: Heap, r: Addr, f: FieldId)
    requires r in s.heap && SortedUbf(s.heap, r) && ClearedTo(s.heap, now, r, f, |Column(OccsOf(s.heap[r]), f)|)
    ensures DeletesFrom([s], [], s, State(now, s.owners)) && SortedUbf(now, r)
  {
  }

  lemma ClearedBefore(h: Heap, now: Heap, r: Addr, f: FieldId, k: nat) returns (before: Heap)
    requires ClearedTo(h, now, r, f, k) && k < |Column(OccsOf(h[r]), f)|
    ensures MayReplace(before, r, f, k) && now == AfterDelete(before, r, f, k) && ClearedTo(h, before, r, f, k + 1)
  {
    before := Cleared(h, r, f, |Column(OccsOf(h[r]), f)|, k + 1);
  }

  lemma OneDeletionMore(s: State, ss: seq<State>, es: seq<Edit>, h: Heap, r: Addr, f: FieldId, k: nat)
    requires DeletesFrom(ss, es, s, State(h, s.owners)) && r in s.owners && SortedUbf(h, r) && MayReplace(h, r, f, k)
    ensures var t := State(AfterDelete(h, r, f, k), s.owners);
            DeletesFrom(ss + [t], es + [Deletes(r, f, k)], s, t) && SortedUbf(t.heap, r)
  {
    ClearStepIsEdit(s.owners, h, r, f, k);
    DeletesOn(ss, es, s, State(h, s.owners), Deletes(r, f, k), State(AfterDelete(h, r, f, k), s.owners));
  }

  /** `ClearFrom`, whether it gets to the end or stops, is a sequence of deletions. */
  lemma {:induction false} ClearIsEdits(s: State, now: Heap, r: Addr, f: FieldId, k: nat) returns (ss: seq<State>, es: seq<Edit>)
    requires r in s.owners && r in s.heap && s.heap[r].UbfBuf? && Sorted(s.heap[r].occs) && ClearedTo(s.heap, now, r, f, k)
    ensures DeletesFrom(ss, es, s, State(now, s.owners))
    ensures SortedUbf(now, r)
    decreases |Column(s.heap[r].occs, f)| - k
  {
    var all := |Column(OccsOf(s.heap[r]), f)|;
    if k == all {
      ss, es := [s], [];
      ClearedNothing(s, now, r, f);
    } else {
      var before := ClearedBefore(s.heap, now, r, f, k);
      ss, es := ClearIsEdits(s, before, r, f, k + 1);
      OneDeletionMore(s, ss, es, before, r, f, k);
      ss, es := ss + [State(now, s.owners)], es + [Deletes(r, f, k)];
    }
  }
}
