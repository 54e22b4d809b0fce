/** What holds of a collection of script slots whatever the program does with it, and of a callback from
    the moment the provider lends its slots to the moment it has them back. */
module ScriptRuns {
  import opened Xatmi
  import opened ScriptModel

  /** Each live allocation is either in a slot or in the program's own hands (or the provider's), never
      both. */
  ghost predicate Accounted(w: World, outside: set<Ptr>) {
    w.heap.Keys == Held(w.s.ptrs) + outside && Held(w.s.ptrs) !! outside && NULL !in w.heap
  }

  /** Slots that are one provider slot always agree. */
  ghost predicate LinksAgree(s: Slots)
    requires Three(s)
  {
    forall i, j :: 0 <= i < 3 && 0 <= j < 3 && s.links[i] == s.links[j] ==> s.ptrs[i] == s.ptrs[j] && s.lens[i] == s.lens[j]
  }

  /** Links and availability as adoption set them up, or as a collection of the program's own has them. */
  ghost predicate WellLinked(s: Slots)
    requires Three(s)
  {
    if s.native.None? then s.links == [0, 1, 2] && s.enabled == [true, true, true]
    else
      var at := s.native.value;
      && (forall i :: 0 <= i < 3 ==> (s.enabled[i] <==> at[i].Some?))
      && (forall i :: 0 <= i < 3 && !s.enabled[i] ==> s.ptrs[i] == NULL)
      && (forall i, j :: 0 <= i < 3 && 0 <= j < 3 && i != j ==> (s.links[i] == s.links[j] <==> at[i].Some? && at[i] == at[j]))
  }

  /** The provider's slots mirror the collection. */
  ghost predicate Mirrored(w: World)
    requires Three(w.s)
  {
    w.s.native.Some? ==>
      forall i :: 0 <= i < 3 && w.s.native.value[i].Some? ==>
        && w.s.native.value[i].value in w.cells
        && w.cells[w.s.native.value[i].value] == Cell(w.s.ptrs[i], w.s.lens[i])
  }

  ghost predicate Good(w: World, outside: set<Ptr>) {
    Three(w.s) && w.s.owned && WellLinked(w.s) && LinksAgree(w.s) && Mirrored(w) && Accounted(w, outside)
  }

  /** Writing agreeing slots out mirrors them. */
  lemma SyncMirrors(w: World)
    requires Three(w.s) && WellLinked(w.s) && LinksAgree(w.s)
    ensures Mirrored(Sync(w))
  {
    if w.s.native.Some? {
      var at := w.s.native.value;
      var c0 := Synced(w.s, w.cells, 0);
      var c1 := Synced(w.s, w.cells, 1);
      var c2 := Synced(w.s, w.cells, 2);
      assert c1 == Put(w.cells, at[0], Cell(w.s.ptrs[0], w.s.lens[0]));
      assert c2 == Put(c1, at[1], Cell(w.s.ptrs[1], w.s.lens[1]));
      assert Synced(w.s, w.cells, 3) == Put(c2, at[2], Cell(w.s.ptrs[2], w.s.lens[2]));
    }
  }

  // ----- the operations

  /** Everything a program can do with a collection. A buffer given to `Set` is one of its own. `Edit`
      takes the buffer out, lets the program do as it likes, failing or unwinding included, and puts back
      what it made of it: the buffer `q`, of length `len`, in a heap that still has what the slots hold. */
  datatype Op =
    | Set(i: nat, buffer: Option<Cell>, foreign: bool)
    | Alias(d: nat, i: nat)
    | Take(i: nat)
    | Edit(i: nat, q: Ptr, len: nat, heap: Heap, outside: set<Ptr>)

  ghost predicate EditResult(w: World, e: Op)
    requires e.Edit?
  {
    && e.q != NULL && NULL !in e.heap
    && e.heap.Keys == Held(w.s.ptrs) + {e.q} + e.outside && e.q !in Held(w.s.ptrs) && e.q !in e.outside
    && Held(w.s.ptrs) !! e.outside
  }

  ghost predicate Possible(w: World, outside: set<Ptr>, e: Op)
    requires Three(w.s)
  {
    match e
    case Set(i, b, _) => i < 3 && (b.Some? ==> b.value.ptr in outside && b.value.len >= 0)
    case Alias(d, i) => d < 3 && i < 3
    case Take(i) => i < 3
    case Edit(i, _, _, _, _) => i < 3 && (w.s.ptrs[i] != NULL && Readable(w, i) ==> EditResult(Taken(w, i), e))
  }

  /** A refused buffer is dropped. */
  predicate Accepted(s: Slots, i: nat, b: Option<Cell>, foreign: bool)
    requires Three(s) && i < 3
  {
    s.enabled[i] && !foreign && (b.Some? ==> b.value.len <= I64_MAX)
  }

  /** The world after the operation, and what the program then holds outside. */
  ghost function After(w: World, outside: set<Ptr>, e: Op): (World, set<Ptr>)
    requires Three(w.s) && Possible(w, outside, e)
  {
    match e
    case Set(i, b, foreign) =>
      var given := if b.Some? then {b.value.ptr} else {};
      if Accepted(w.s, i, b, foreign)
      then (Replace(w, i, if b.Some? then b.value.ptr else NULL, if b.Some? then b.value.len else 0), outside - given)
      else (w.(heap := w.heap - given), outside - given)
    case Alias(d, i) => if w.s.enabled[d] then (Replace(w, d, w.s.ptrs[i], w.s.lens[i]), outside) else (w, outside)
    case Take(i) =>
      if w.s.ptrs[i] == NULL || !Readable(w, i) then (w, outside) else (Taken(w, i), outside + {w.s.ptrs[i]})
    case Edit(i, q, len, heap, outside') =>
      if w.s.ptrs[i] == NULL || !Readable(w, i) then (w, outside)
      else (Restored(Taken(w, i).(heap := heap), Aliases(w.s, i), q, len), outside')
  }

  lemma RelinkedAgrees(s: Slots, i: nat, p: Ptr, n: int)
    requires Three(s) && WellLinked(s) && LinksAgree(s) && i < 3 && (s.enabled[i] || p == NULL)
    ensures Three(Relinked(s, i, p, n)) && WellLinked(Relinked(s, i, p, n)) && LinksAgree(Relinked(s, i, p, n))
  {
  }

  /** Replacing frees the old allocation exactly when nothing refers to it any more. */
  lemma ReplaceGood(w: World, outside: set<Ptr>, i: nat, p: Ptr, n: int)
    requires Good(w, outside) && i < 3 && w.s.enabled[i] && (p == NULL || p in outside || p in Held(w.s.ptrs))
    ensures Good(Replace(w, i, p, n), outside - {p})
    ensures w.s.ptrs[i] != NULL ==> (w.s.ptrs[i] !in Replace(w, i, p, n).heap <==> w.s.ptrs[i] !in Replace(w, i, p, n).s.ptrs)
  {
    var s := Relinked(w.s, i, p, n);
    RelinkedAgrees(w.s, i, p, n);
    SyncMirrors(w.(s := s));
    var old' := w.s.ptrs[i];
    var u := Replace(w, i, p, n);
    assert s.ptrs[i] == p;
    forall q | q in Held(w.s.ptrs) ensures q in Held(s.ptrs) || q == old' {
      var k :| 0 <= k < 3 && w.s.ptrs[k] == q && q != NULL;
      if s.links[k] != s.links[i] { assert s.ptrs[k] == q; }
    }
    forall q | q in Held(s.ptrs) ensures q in Held(w.s.ptrs) || q == p {
      var k :| 0 <= k < 3 && s.ptrs[k] == q && q != NULL;
      if s.links[k] != s.links[i] { assert w.s.ptrs[k] == q; }
    }
    assert old' != NULL ==> (old' in s.ptrs <==> old' in Held(s.ptrs));
    assert p != NULL ==> p in Held(s.ptrs);
  }

  lemma AssignedHeld(s: Slots, i: nat, p: Ptr, n: int)
    requires Three(s) && i < 3 && s.ptrs[i] != NULL
    ensures Held(Assigned(s, Aliases(s, i), p, n).ptrs) == Held(s.ptrs) - {s.ptrs[i]} + (if p == NULL then {} else {p})
  {
    var u := Assigned(s, Aliases(s, i), p, n);
    assert u.ptrs[i] == p;
    forall q | q in Held(s.ptrs) - {s.ptrs[i]} ensures q in Held(u.ptrs) {
      var k :| 0 <= k < 3 && s.ptrs[k] == q && q != NULL;
      assert u.ptrs[k] == q;
    }
    forall q | q in Held(u.ptrs) ensures q in Held(s.ptrs) - {s.ptrs[i]} + (if p == NULL then {} else {p}) {
      var k :| 0 <= k < 3 && u.ptrs[k] == q && q != NULL;
      if !Aliases(s, i)[k] { assert s.ptrs[k] == q; }
    }
  }

  lemma TakenGood(w: World, outside: set<Ptr>, i: nat)
    requires Good(w, outside) && i < 3 && w.s.ptrs[i] != NULL
    ensures Good(Taken(w, i), outside + {w.s.ptrs[i]})
  {
    AssignedHeld(w.s, i, NULL, 0);
    ClearedAgrees(w.s, i);
    SyncMirrors(w.(s := Assigned(w.s, Aliases(w.s, i), NULL, 0)));
    assert w.s.ptrs[i] in Held(w.s.ptrs);
  }

  lemma ClearedAgrees(s: Slots, i: nat)
    requires Three(s) && WellLinked(s) && LinksAgree(s) && i < 3 && s.ptrs[i] != NULL
    ensures var u := Assigned(s, Aliases(s, i), NULL, 0); Three(u) && WellLinked(u) && LinksAgree(u)
  {
  }

  lemma EditGood(w: World, outside: set<Ptr>, e: Op)
    requires Good(w, outside) && e.Edit? && Possible(w, outside, e) && w.s.ptrs[e.i] != NULL && Readable(w, e.i)
    ensures Good(After(w, outside, e).0, After(w, outside, e).1)
  {
    var t, which := Taken(w, e.i), Aliases(w.s, e.i);
    var u := Assigned(t.s, which, e.q, e.len);
    TakenGood(w, outside, e.i);
    EditAgrees(w.s, e.i, e.q, e.len);
    AssignedHeld(w.s, e.i, e.q, e.len);
    AssignedHeld(w.s, e.i, NULL, 0);
    SyncMirrors(t.(heap := e.heap, s := u));
  }

  lemma EditAgrees(s: Slots, i: nat, q: Ptr, n: int)
    requires Three(s) && WellLinked(s) && LinksAgree(s) && i < 3 && s.ptrs[i] != NULL
    ensures var u := Assigned(Assigned(s, Aliases(s, i), NULL, 0), Aliases(s, i), q, n);
            u == Assigned(s, Aliases(s, i), q, n) && Three(u) && WellLinked(u) && LinksAgree(u)
  {
    assert Assigned(Assigned(s, Aliases(s, i), NULL, 0), Aliases(s, i), q, n) == Assigned(s, Aliases(s, i), q, n);
    AssignedAgrees(s, i, q, n);
  }

  lemma AssignedAgrees(s: Slots, i: nat, q: Ptr, n: int)
    requires Three(s) && WellLinked(s) && LinksAgree(s) && i < 3 && s.ptrs[i] != NULL
    ensures var u := Assigned(s, Aliases(s, i), q, n); Three(u) && WellLinked(u) && LinksAgree(u)
  {
  }

  /** An edit keeps the alias partition: two slots refer to the same allocation after it exactly if they
      did before. */
  lemma EditKeepsAliases(w: World, outside: set<Ptr>, e: Op, j: nat, k: nat)
    requires Good(w, outside) && e.Edit? && Possible(w, outside, e) && w.s.ptrs[e.i] != NULL && Readable(w, e.i)
    requires j < 3 && k < 3 && w.s.ptrs[j] != NULL && w.s.ptrs[k] != NULL
    ensures var u := After(w, outside, e).0.s.ptrs; w.s.ptrs[j] == w.s.ptrs[k] <==> u[j] == u[k]
  {
    var t := Taken(w, e.i);
    forall l | 0 <= l < 3 && w.s.ptrs[l] != NULL && w.s.ptrs[l] != w.s.ptrs[e.i] ensures w.s.ptrs[l] in Held(t.s.ptrs) {
      assert t.s.ptrs[l] == w.s.ptrs[l];
    }
  }

  /** Every operation keeps the invariant, whether it succeeds or not. */
  lemma StepGood(w: World, outside: set<Ptr>, e: Op)
    requires Good(w, outside) && Possible(w, outside, e)
    ensures Good(After(w, outside, e).0, After(w, outside, e).1)
  {
    match e
    case Set(i, b, foreign) =>
      if Accepted(w.s, i, b, foreign) {
        ReplaceGood(w, outside, i, if b.Some? then b.value.ptr else NULL, if b.Some? then b.value.len else 0);
        if b.None? { assert NULL !in outside; assert outside - {NULL} == outside - {}; }
      }
    case Alias(d, i) =>
      if w.s.enabled[d] {
        assert w.s.ptrs[i] != NULL ==> w.s.ptrs[i] in Held(w.s.ptrs);
        ReplaceGood(w, outside, d, w.s.ptrs[i], w.s.lens[i]);
        assert outside - {w.s.ptrs[i]} == outside;
      }
    case Take(i) => if w.s.ptrs[i] != NULL && Readable(w, i) { TakenGood(w, outside, i); }
    case Edit(i, _, _, _, _) => if w.s.ptrs[i] != NULL && Readable(w, i) { EditGood(w, outside, e); }
  }

  datatype State = State(w: World, outside: set<Ptr>)

  ghost predicate Goes(a: State, e: Op, b: State) {
    Three(a.w.s) && Possible(a.w, a.outside, e) && (b.w, b.outside) == After(a.w, a.outside, e)
  }

  ghost predicate Run(ss: seq<State>, es: seq<Op>) {
    |ss| == |es| + 1 && forall i :: 0 <= i < |es| ==> Goes(ss[i], es[i], ss[i + 1])
  }

  /** Over any run: the distinct pointers in the slots are exactly the allocations the collection owns,
      slots that are one provider slot agree, and the provider's slots mirror the collection. */
  lemma {:induction false} RunGood(ss: seq<State>, es: seq<Op>, k: nat)
    requires Run(ss, es) && Good(ss[0].w, ss[0].outside) && k < |ss|
    ensures Good(ss[k].w, ss[k].outside)
  {
    if k > 0 {
      RunGood(ss, es, k - 1);
      assert Goes(ss[k - 1], es[k - 1], ss[k]);
      StepGood(ss[k - 1].w, ss[k - 1].outside, es[k - 1]);
    }
  }

  /** Dropping the collection after any run frees each of its allocations, and nothing else; the provider's
      slots are null. */
  lemma DropFrees(w: World, outside: set<Ptr>)
    requires Good(w, outside)
    ensures var u := Dropped(w);
            && u.heap.Keys == outside && Held(u.s.ptrs) == {}
            && (w.s.native.Some? ==> forall i :: 0 <= i < 3 && w.s.native.value[i].Some? ==>
                  w.s.native.value[i].value in u.cells && u.cells[w.s.native.value[i].value] == Cell(NULL, 0))
  {
    SyncMirrors(w.(s := Emptied(w.s)));
  }

  // ----- the callback

  /** What the provider lends: each of its slots null or holding one of its live allocations. */
  ghost predicate Lent(at: seq<Option<nat>>, cells: map<nat, Cell>, heap: Heap, outside: set<Ptr>) {
    && |at| == 3 && (forall i :: 0 <= i < 3 && at[i].Some? ==> at[i].value in cells)
    && Accounted(World(Adopted(at, cells), cells, heap), outside)
  }

  /** The collection a callback receives is good from the start. */
  lemma AdoptionGood(at: seq<Option<nat>>, cells: map<nat, Cell>, heap: Heap, outside: set<Ptr>)
    requires Lent(at, cells, heap, outside)
    ensures Good(World(Adopted(at, cells), cells, heap), outside)
  {
  }

  /** A callback whose closure only sets, aliases, takes and edits can always give its slots back: they agree
      wherever they are one provider slot, and no slot is filled that was not supplied. */
  lemma AlwaysReturns(ss: seq<State>, es: seq<Op>, at: seq<Option<nat>>, k: nat)
    requires Run(ss, es) && k < |ss| && Lent(at, ss[0].w.cells, ss[0].w.heap, ss[0].outside)
    requires ss[0].w.s == Adopted(at, ss[0].w.cells)
    ensures Three(ss[k].w.s) && Returnable(ss[k].w.s, at)
  {
    AdoptionGood(at, ss[0].w.cells, ss[0].w.heap, ss[0].outside);
    RunGood(ss, es, k);
    SameProvider(ss, es, k);
  }

  lemma {:induction false} SameProvider(ss: seq<State>, es: seq<Op>, k: nat)
    requires Run(ss, es) && k < |ss|
    ensures ss[k].w.s.native == ss[0].w.s.native
  {
    if k > 0 {
      SameProvider(ss, es, k - 1);
      assert Goes(ss[k - 1], es[k - 1], ss[k]);
    }
  }

  /** What a closure may also do: run a script on its buffers, which may change any slot as the native
      layer sees fit, or replace the whole collection by one of its own. */
  datatype Act = Does(op: Op) | Executes(ptrs: seq<Ptr>, lens: seq<int>, heap: Heap, outside: set<Ptr>) | Swaps(own: Slots)

  ghost predicate May(w: World, outside: set<Ptr>, a: Act)
    requires Three(w.s)
  {
    match a
    case Does(op) => Possible(w, outside, op)
    case Executes(ptrs, lens, heap, outside') =>
      |ptrs| == |lens| == 3 && NULL !in heap && heap.Keys == Held(ptrs) + outside' && Held(ptrs) !! outside'
    case Swaps(own) => Three(own) && own.owned && own.native.None? && WellLinked(own) && Held(own.ptrs) <= outside
  }

  ghost function Acted(w: World, outside: set<Ptr>, a: Act): (World, set<Ptr>)
    requires Three(w.s) && May(w, outside, a)
  {
    match a
    case Does(op) => After(w, outside, op)
    case Executes(ptrs, lens, heap, outside') => (Sync(w.(s := w.s.(ptrs := ptrs, lens := lens), heap := heap)), outside')
    case Swaps(own) => (Dropped(w).(s := own), outside - Held(own.ptrs))
  }

  /** The provider's slot holds null or something the collection holds; once the collection has been
      replaced, null. */
  ghost predicate SlotsLive(w: World, at: seq<Option<nat>>) {
    && |at| == 3 && (w.s.native.Some? ==> w.s.native.value == at)
    && forall i :: 0 <= i < 3 && at[i].Some? ==>
         && at[i].value in w.cells
         && (w.cells[at[i].value].ptr == NULL || (w.s.native.Some? && w.cells[at[i].value].ptr in Held(w.s.ptrs)))
  }

  /** Nothing a slot or the program refers to is dead, and nothing has two owners. */
  ghost predicate Safe(w: World, outside: set<Ptr>, at: seq<Option<nat>>) {
    && Three(w.s) && w.s.owned && NULL !in w.heap
    && Held(w.s.ptrs) + outside <= w.heap.Keys && Held(w.s.ptrs) !! outside
    && SlotsLive(w, at)
  }

  lemma GoodIsSafe(w: World, outside: set<Ptr>, at: seq<Option<nat>>)
    requires Good(w, outside) && w.s.native == Some(at)
    ensures Safe(w, outside, at)
  {
    forall i | 0 <= i < 3 && at[i].Some? ensures w.cells[at[i].value].ptr == NULL || w.cells[at[i].value].ptr in Held(w.s.ptrs) {
      assert w.cells[at[i].value].ptr == w.s.ptrs[i];
    }
  }

  /** Whatever the slots hold, after writing them out the provider's slots hold some of it. */
  lemma SyncLive(w: World, at: seq<Option<nat>>)
    requires Three(w.s) && |at| == 3
    requires if w.s.native.Some? then w.s.native.value == at
             else forall i :: 0 <= i < 3 && at[i].Some? ==> at[i].value in w.cells && w.cells[at[i].value].ptr == NULL
    ensures SlotsLive(Sync(w), at)
  {
    var p := w.s.ptrs;
    forall k | 0 <= k < 3 ensures p[k] == NULL || p[k] in Held(p) {}
    if w.s.native.Some? {
      var c0 := Synced(w.s, w.cells, 0);
      var c1 := Synced(w.s, w.cells, 1);
      var c2 := Synced(w.s, w.cells, 2);
      assert c1 == Put(w.cells, at[0], Cell(p[0], w.s.lens[0]));
      assert c2 == Put(c1, at[1], Cell(p[1], w.s.lens[1]));
      assert Synced(w.s, w.cells, 3) == Put(c2, at[2], Cell(p[2], w.s.lens[2]));
    }
  }

  lemma ReplaceSafe(w: World, outside: set<Ptr>, at: seq<Option<nat>>, i: nat, p: Ptr, n: int)
    requires Safe(w, outside, at) && i < 3 && (p == NULL || p in outside || p in Held(w.s.ptrs))
    ensures Safe(Replace(w, i, p, n), outside - {p}, at)
  {
    var s := Relinked(w.s, i, p, n);
    SyncLive(w.(s := s), at);
    var old' := w.s.ptrs[i];
    forall q | q in Held(s.ptrs) ensures q in Held(w.s.ptrs) || q == p {
      var k :| 0 <= k < 3 && s.ptrs[k] == q && q != NULL;
      if s.links[k] != s.links[i] { assert w.s.ptrs[k] == q; }
    }
    assert old' != NULL ==> old' in Held(w.s.ptrs) && (old' in s.ptrs <==> old' in Held(s.ptrs));
  }

  lemma TakenSafe(w: World, outside: set<Ptr>, at: seq<Option<nat>>, i: nat)
    requires Safe(w, outside, at) && i < 3 && w.s.ptrs[i] != NULL
    ensures Safe(Taken(w, i), outside + {w.s.ptrs[i]}, at)
  {
    AssignedHeld(w.s, i, NULL, 0);
    SyncLive(w.(s := Assigned(w.s, Aliases(w.s, i), NULL, 0)), at);
    assert w.s.ptrs[i] in Held(w.s.ptrs);
  }

  lemma EditSafe(w: World, outside: set<Ptr>, at: seq<Option<nat>>, e: Op)
    requires Safe(w, outside, at) && e.Edit? && Possible(w, outside, e) && w.s.ptrs[e.i] != NULL && Readable(w, e.i)
    ensures Safe(After(w, outside, e).0, After(w, outside, e).1, at)
  {
    var t, which := Taken(w, e.i), Aliases(w.s, e.i);
    TakenSafe(w, outside, at, e.i);
    var u := Assigned(t.s, which, e.q, e.len);
    assert u == Assigned(w.s, which, e.q, e.len);
    AssignedHeld(w.s, e.i, e.q, e.len);
    AssignedHeld(w.s, e.i, NULL, 0);
    SyncLive(t.(heap := e.heap, s := u), at);
  }

  /** Whatever the closure does, running scripts and replacing the collection included, stays safe. */
  lemma ActSafe(w: World, outside: set<Ptr>, at: seq<Option<nat>>, a: Act)
    requires Safe(w, outside, at) && May(w, outside, a)
    ensures Safe(Acted(w, outside, a).0, Acted(w, outside, a).1, at)
  {
    match a
    case Does(Set(i, b, foreign)) =>
      if Accepted(w.s, i, b, foreign) {
        ReplaceSafe(w, outside, at, i, if b.Some? then b.value.ptr else NULL, if b.Some? then b.value.len else 0);
        if b.None? { assert outside - {NULL} == outside - {}; }
      }
    case Does(Alias(d, i)) =>
      if w.s.enabled[d] {
        assert w.s.ptrs[i] != NULL ==> w.s.ptrs[i] in Held(w.s.ptrs);
        ReplaceSafe(w, outside, at, d, w.s.ptrs[i], w.s.lens[i]);
        assert outside - {w.s.ptrs[i]} == outside;
      }
    case Does(Take(i)) => if w.s.ptrs[i] != NULL && Readable(w, i) { TakenSafe(w, outside, at, i); }
    case Does(Edit(i, q, len, heap, o)) => if w.s.ptrs[i] != NULL && Readable(w, i) { EditSafe(w, outside, at, a.op); }
    case Executes(ptrs, lens, heap, o) => SyncLive(w.(s := w.s.(ptrs := ptrs, lens := lens), heap := heap), at);
    case Swaps(own) => DroppedSlots(w, outside, at);
  }

  lemma DroppedSlots(w: World, outside: set<Ptr>, at: seq<Option<nat>>)
    requires Safe(w, outside, at)
    ensures var u := Dropped(w);
            && u.heap.Keys == w.heap.Keys - Held(w.s.ptrs) && Held(u.s.ptrs) == {}
            && forall i :: 0 <= i < 3 && at[i].Some? ==> at[i].value in u.cells && u.cells[at[i].value].ptr == NULL
  {
    SyncLive(w.(s := Emptied(w.s)), at);
  }

  ghost predicate Acts(a: State, e: Act, b: State) {
    Three(a.w.s) && May(a.w, a.outside, e) && (b.w, b.outside) == Acted(a.w, a.outside, e)
  }

  /** A callback: adoption, then whatever the closure does. */
  ghost predicate Callback(ss: seq<State>, es: seq<Act>, at: seq<Option<nat>>) {
    && |ss| == |es| + 1
    && Lent(at, ss[0].w.cells, ss[0].w.heap, ss[0].outside) && ss[0].w.s == Adopted(at, ss[0].w.cells)
    && forall i :: 0 <= i < |es| ==> Acts(ss[i], es[i], ss[i + 1])
  }

  lemma {:induction false} CallbackSafe(ss: seq<State>, es: seq<Act>, at: seq<Option<nat>>, k: nat)
    requires Callback(ss, es, at) && k < |ss|
    ensures Safe(ss[k].w, ss[k].outside, at)
  {
    if k == 0 {
      AdoptionGood(at, ss[0].w.cells, ss[0].w.heap, ss[0].outside);
      GoodIsSafe(ss[0].w, ss[0].outside, at);
    } else {
      CallbackSafe(ss, es, at, k - 1);
      assert Acts(ss[k - 1], es[k - 1], ss[k]);
      ActSafe(ss[k - 1].w, ss[k - 1].outside, at, es[k - 1]);
    }
  }

  /** The end of any callback. If the slots can go back, each provider slot holds null or a live allocation
      of the collection, every allocation of the collection is in a provider slot, and dropping the
      collection then frees nothing. If they cannot, because a provider slot would get two values or a
      missing one a buffer, everything the collection held is freed once and the provider's slots are
      null. */
  lemma HandOffSafe(ss: seq<State>, es: seq<Act>, at: seq<Option<nat>>, k: nat)
    requires Callback(ss, es, at) && k < |ss|
    ensures Three(ss[k].w.s)
    ensures Returnable(ss[k].w.s, at) ==>
              var u := Returned(ss[k].w, at);
              && u.heap == ss[k].w.heap && Dropped(u) == u
              && (forall i :: 0 <= i < 3 && at[i].Some? ==> at[i].value in u.cells && u.cells[at[i].value] == Cell(u.s.ptrs[i], u.s.lens[i]))
              && Provided(at, u.cells) == Held(u.s.ptrs) <= u.heap.Keys
    ensures !Returnable(ss[k].w.s, at) ==>
              var u := Dropped(ss[k].w);
              && u.heap.Keys == ss[k].w.heap.Keys - Held(ss[k].w.s.ptrs)
              && Provided(at, u.cells) == {}
              && forall i :: 0 <= i < 3 && at[i].Some? ==> at[i].value in u.cells && u.cells[at[i].value].ptr == NULL
  {
    var w := ss[k].w;
    CallbackSafe(ss, es, at, k);
    if Returnable(w.s, at) {
      ReturnWrites(w, at);
      ReturnedProvided(w, at);
    } else {
      DroppedSlots(w, ss[k].outside, at);
    }
  }

  /** The allocations in the provider's slots. */
  ghost function Provided(at: seq<Option<nat>>, cells: map<nat, Cell>): set<Ptr>
    requires |at| == 3
  {
    set i | 0 <= i < 3 && at[i].Some? && at[i].value in cells && cells[at[i].value].ptr != NULL :: cells[at[i].value].ptr
  }

  lemma ReturnedProvided(w: World, at: seq<Option<nat>>)
    requires Three(w.s) && |at| == 3 && Returnable(w.s, at)
    ensures Provided(at, Returned(w, at).cells) == Held(w.s.ptrs)
  {
    var cells := Returned(w, at).cells;
    ReturnWrites(w, at);
    forall p | p in Held(w.s.ptrs) ensures p in Provided(at, cells) {
      var i :| 0 <= i < 3 && w.s.ptrs[i] == p && p != NULL;
      assert at[i].Some? && cells[at[i].value].ptr == p;
    }
    forall p | p in Provided(at, cells) ensures p in Held(w.s.ptrs) {
      var i :| 0 <= i < 3 && at[i].Some? && at[i].value in cells && cells[at[i].value].ptr != NULL && cells[at[i].value].ptr == p;
      assert w.s.ptrs[i] == p;
    }
  }

  lemma ReturnWrites(w: World, at: seq<Option<nat>>)
    requires Three(w.s) && |at| == 3 && Returnable(w.s, at)
    ensures forall i :: 0 <= i < 3 && at[i].Some? ==>
              at[i].value in Returned(w, at).cells && Returned(w, at).cells[at[i].value] == Cell(w.s.ptrs[i], w.s.lens[i])
  {
    var s := w.s.(native := Some(at));
    var c0 := Synced(s, w.cells, 0);
    var c1 := Synced(s, w.cells, 1);
    var c2 := Synced(s, w.cells, 2);
    assert c1 == Put(w.cells, at[0], Cell(s.ptrs[0], s.lens[0]));
    assert c2 == Put(c1, at[1], Cell(s.ptrs[1], s.lens[1]));
    assert Synced(s, w.cells, 3) == Put(c2, at[2], Cell(s.ptrs[2], s.lens[2]));
  }

  // ----- exact accounts

  /** Replacing slot `i` by `p` loses nothing: every slot linked to it refers to nothing, to what slot `i`
      refers to, to `p` itself, or to what some slot not linked to it refers to as well. */
  ghost predicate LosesNothing(s: Slots, i: nat, p: Ptr)
    requires Three(s) && i < 3
  {
    forall k :: 0 <= k < 3 && s.links[k] == s.links[i] ==>
      s.ptrs[k] == NULL || s.ptrs[k] == s.ptrs[i] || s.ptrs[k] == p || KeptElsewhere(s, i, s.ptrs[k])
  }

  ghost predicate KeptElsewhere(s: Slots, i: nat, p: Ptr)
    requires Three(s) && i < 3
  {
    exists l :: 0 <= l < 3 && s.links[l] != s.links[i] && s.ptrs[l] == p
  }

  /** What the slots hold after a replacement. */
  lemma RelinkedHeld(s: Slots, i: nat, p: Ptr, n: int)
    requires Three(s) && i < 3
    ensures forall q :: q in Held(Relinked(s, i, p, n).ptrs) <==> q != NULL && (q == p || KeptElsewhere(s, i, q))
  {
    var u := Relinked(s, i, p, n);
    assert u.ptrs[i] == p;
    forall q | q in Held(u.ptrs) ensures q == p || KeptElsewhere(s, i, q) {
      var k :| 0 <= k < 3 && u.ptrs[k] == q && q != NULL;
      if s.links[k] != s.links[i] { assert s.ptrs[k] == q; }
    }
    forall q | q != NULL && KeptElsewhere(s, i, q) ensures q in Held(u.ptrs) {
      var l :| 0 <= l < 3 && s.links[l] != s.links[i] && s.ptrs[l] == q;
      assert u.ptrs[l] == q;
    }
  }

  lemma HeldAt(ptrs: seq<Ptr>, k: nat)
    requires k < |ptrs| && ptrs[k] != NULL
    ensures ptrs[k] in Held(ptrs)
  {
  }

  lemma ReplaceHeap(w: World, outside: set<Ptr>, i: nat, p: Ptr, n: int)
    requires Three(w.s) && Accounted(w, outside) && i < 3
    ensures var s, live := Relinked(w.s, i, p, n), Held(w.s.ptrs) + outside;
            && Replace(w, i, p, n).s.ptrs == s.ptrs
            && Replace(w, i, p, n).heap.Keys == if w.s.ptrs[i] != NULL && w.s.ptrs[i] !in Held(s.ptrs) then live - {w.s.ptrs[i]} else live
  {
  }

  lemma ReplaceKeeps(w: World, outside: set<Ptr>, i: nat, p: Ptr, n: int)
    requires Three(w.s) && Accounted(w, outside) && i < 3 && (p == NULL || p in outside || p in Held(w.s.ptrs))
    requires LosesNothing(w.s, i, p)
    ensures Accounted(Replace(w, i, p, n), outside - {p})
  {
    var s, old' := Relinked(w.s, i, p, n), w.s.ptrs[i];
    RelinkedHeld(w.s, i, p, n);
    ReplaceHeap(w, outside, i, p, n);
    forall q | q in Held(w.s.ptrs) && q != old' ensures q in Held(s.ptrs) {
      var k :| 0 <= k < 3 && w.s.ptrs[k] == q && q != NULL;
      if w.s.links[k] != w.s.links[i] { assert KeptElsewhere(w.s, i, q); }
    }
    forall q | q in Held(s.ptrs) ensures q in Held(w.s.ptrs) || q == p {
      if q != p { var l :| 0 <= l < 3 && w.s.links[l] != w.s.links[i] && w.s.ptrs[l] == q; HeldAt(w.s.ptrs, l); }
    }
    if old' != NULL { HeldAt(w.s.ptrs, i); }
  }

  lemma ReplaceLoses(w: World, outside: set<Ptr>, i: nat, p: Ptr, n: int)
    requires Three(w.s) && Accounted(w, outside) && i < 3 && !LosesNothing(w.s, i, p)
    ensures !Accounted(Replace(w, i, p, n), outside - {p})
  {
    RelinkedHeld(w.s, i, p, n);
    ReplaceHeap(w, outside, i, p, n);
    var k :| 0 <= k < 3 && w.s.links[k] == w.s.links[i]
             && !(w.s.ptrs[k] == NULL || w.s.ptrs[k] == w.s.ptrs[i] || w.s.ptrs[k] == p || KeptElsewhere(w.s, i, w.s.ptrs[k]));
    HeldAt(w.s.ptrs, k);
    assert w.s.ptrs[k] in Replace(w, i, p, n).heap.Keys;
  }

  /** Replacing a slot keeps the accounts exactly when it loses nothing, which the slots before the call
      show. */
  lemma ReplaceAccounts(w: World, outside: set<Ptr>, i: nat, p: Ptr, n: int)
    requires Three(w.s) && Accounted(w, outside) && i < 3 && (p == NULL || p in outside || p in Held(w.s.ptrs))
    ensures Accounted(Replace(w, i, p, n), outside - {p}) <==> LosesNothing(w.s, i, p)
  {
    if LosesNothing(w.s, i, p) { ReplaceKeeps(w, outside, i, p, n); } else { ReplaceLoses(w, outside, i, p, n); }
  }

  /** What an act replaces, it replaces without losing anything. */
  ghost predicate Calm(w: World, a: Act)
    requires Three(w.s)
  {
    match a
    case Does(Set(i, b, foreign)) =>
      i < 3 && Accepted(w.s, i, b, foreign) ==> LosesNothing(w.s, i, if b.Some? then b.value.ptr else NULL)
    case Does(Alias(d, i)) => d < 3 && i < 3 && w.s.enabled[d] ==> LosesNothing(w.s, d, w.s.ptrs[i])
    case _ => true
  }

  ghost predicate AllCalm(ss: seq<State>, es: seq<Act>)
    requires |ss| == |es| + 1
  {
    forall i :: 0 <= i < |es| ==> Three(ss[i].w.s) && Calm(ss[i].w, es[i])
  }

  lemma ActAccounts(w: World, outside: set<Ptr>, at: seq<Option<nat>>, a: Act)
    requires Safe(w, outside, at) && Accounted(w, outside) && May(w, outside, a) && Calm(w, a)
    ensures Accounted(Acted(w, outside, a).0, Acted(w, outside, a).1)
  {
    match a
    case Does(Set(i, b, foreign)) =>
      if Accepted(w.s, i, b, foreign) {
        var p := if b.Some? then b.value.ptr else NULL;
        ReplaceAccounts(w, outside, i, p, if b.Some? then b.value.len else 0);
        if b.None? { assert outside - {NULL} == outside - {}; }
      }
    case Does(Alias(d, i)) =>
      if w.s.enabled[d] {
        if w.s.ptrs[i] != NULL { HeldAt(w.s.ptrs, i); }
        ReplaceAccounts(w, outside, d, w.s.ptrs[i], w.s.lens[i]);
        assert outside - {w.s.ptrs[i]} == outside;
      }
    case Does(Take(i)) =>
      if w.s.ptrs[i] != NULL && Readable(w, i) {
        AssignedHeld(w.s, i, NULL, 0);
        HeldAt(w.s.ptrs, i);
      }
    case Does(Edit(i, q, len, heap, o)) => if w.s.ptrs[i] != NULL && Readable(w, i) { EditAccounts(w, outside, a.op); }
    case Executes(ptrs, lens, heap, o) =>
    case Swaps(own) => DroppedSlots(w, outside, at);
  }

  lemma EditAccounts(w: World, outside: set<Ptr>, e: Op)
    requires Three(w.s) && e.Edit? && Possible(w, outside, e) && w.s.ptrs[e.i] != NULL && Readable(w, e.i)
    ensures Accounted(After(w, outside, e).0, After(w, outside, e).1)
  {
    var t, which := Taken(w, e.i), Aliases(w.s, e.i);
    assert Assigned(t.s, which, e.q, e.len) == Assigned(w.s, which, e.q, e.len);
    AssignedHeld(w.s, e.i, e.q, e.len);
    AssignedHeld(w.s, e.i, NULL, 0);
  }

  /** In a callback whose replacements lose nothing, each live allocation is, at every moment, either in a
      slot or in somebody else's hands, never both. */
  lemma {:induction false} CallbackAccounts(ss: seq<State>, es: seq<Act>, at: seq<Option<nat>>, k: nat)
    requires Callback(ss, es, at) && AllCalm(ss, es) && k < |ss|
    ensures Safe(ss[k].w, ss[k].outside, at) && Accounted(ss[k].w, ss[k].outside)
  {
    CallbackSafe(ss, es, at, k);
    if k > 0 {
      CallbackAccounts(ss, es, at, k - 1);
      assert Acts(ss[k - 1], es[k - 1], ss[k]);
      ActAccounts(ss[k - 1].w, ss[k - 1].outside, at, es[k - 1]);
    }
  }

  /** The hand-off. A callback, whatever its closure does (replace, alias, take, edit, fail, swap the whole
      collection, run scripts), as long as its replacements lose nothing: when the slots go back, every live
      allocation is in a provider slot or outside, never both; when they cannot, the live allocations are
      exactly those outside and the provider's slots are null. So each allocation ends with exactly one
      side, none is lost and none is freed that somebody has. */
  lemma HandOff(ss: seq<State>, es: seq<Act>, at: seq<Option<nat>>, k: nat)
    requires Callback(ss, es, at) && AllCalm(ss, es) && k < |ss|
    ensures Three(ss[k].w.s) && ss[k].w.heap.Keys == Held(ss[k].w.s.ptrs) + ss[k].outside && Held(ss[k].w.s.ptrs) !! ss[k].outside
    ensures Returnable(ss[k].w.s, at) ==>
              var u := Returned(ss[k].w, at);
              && Dropped(u) == u
              && u.heap.Keys == Provided(at, u.cells) + ss[k].outside && Provided(at, u.cells) !! ss[k].outside
    ensures !Returnable(ss[k].w.s, at) ==>
              var u := Dropped(ss[k].w);
              u.heap.Keys == ss[k].outside && Provided(at, u.cells) == {}
  {
    CallbackAccounts(ss, es, at, k);
    HandOffSafe(ss, es, at, k);
  }

  lemma AgreeingLoseNothing(s: Slots, i: nat, p: Ptr)
    requires Three(s) && LinksAgree(s) && i < 3
    ensures LosesNothing(s, i, p)
  {
  }

  /** Every script leaves the linked slots agreeing. */
  ghost predicate ScriptsAgree(ss: seq<State>, es: seq<Act>)
    requires |ss| == |es| + 1
  {
    forall i :: 0 <= i < |es| && es[i].Executes? ==> Three(ss[i + 1].w.s) && LinksAgree(ss[i + 1].w.s)
  }

  /** Nothing but a script can make linked slots differ. */
  lemma ActAgrees(w: World, outside: set<Ptr>, a: Act)
    requires Three(w.s) && LinksAgree(w.s) && May(w, outside, a) && !a.Executes?
    ensures LinksAgree(Acted(w, outside, a).0.s)
  {
    match a
    case Does(Set(i, b, _)) => RelinkedLinks(w.s, i, if b.Some? then b.value.ptr else NULL, if b.Some? then b.value.len else 0);
    case Does(Alias(d, i)) => RelinkedLinks(w.s, d, w.s.ptrs[i], w.s.lens[i]);
    case Does(Take(i)) => if w.s.ptrs[i] != NULL { AssignedLinks(w.s, i, NULL, 0); }
    case Does(Edit(i, q, len, heap, o)) =>
      if w.s.ptrs[i] != NULL {
        AssignedLinks(w.s, i, q, len);
        assert Assigned(Taken(w, i).s, Aliases(w.s, i), q, len) == Assigned(w.s, Aliases(w.s, i), q, len);
      }
    case Swaps(_) =>
  }

  lemma RelinkedLinks(s: Slots, i: nat, p: Ptr, n: int)
    requires Three(s) && LinksAgree(s) && i < 3
    ensures LinksAgree(Relinked(s, i, p, n))
  {
  }

  lemma AssignedLinks(s: Slots, i: nat, p: Ptr, n: int)
    requires Three(s) && LinksAgree(s) && i < 3 && s.ptrs[i] != NULL
    ensures LinksAgree(Assigned(s, Aliases(s, i), p, n))
  {
  }

  /** So all callbacks whose scripts leave linked slots agreeing, in particular all that run no script,
      lose nothing. */
  lemma {:induction false} AgreeingScriptsAreCalm(ss: seq<State>, es: seq<Act>, at: seq<Option<nat>>, k: nat)
    requires Callback(ss, es, at) && ScriptsAgree(ss, es) && k < |ss|
    ensures Three(ss[k].w.s) && LinksAgree(ss[k].w.s) && (k < |es| ==> Calm(ss[k].w, es[k]))
  {
    CallbackSafe(ss, es, at, k);
    if k == 0 {
      AdoptionGood(at, ss[0].w.cells, ss[0].w.heap, ss[0].outside);
    } else {
      AgreeingScriptsAreCalm(ss, es, at, k - 1);
      assert Acts(ss[k - 1], es[k - 1], ss[k]);
      if !es[k - 1].Executes? { ActAgrees(ss[k - 1].w, ss[k - 1].outside, es[k - 1]); }
    }
    forall i: nat, p | i < 3 ensures LosesNothing(ss[k].w.s, i, p) { AgreeingLoseNothing(ss[k].w.s, i, p); }
  }

  /** A callback in which a script leaves two slots, linked because they are one provider slot, with two
      allocations, and the closure then clears one of them: the other's allocation stays live, in no slot
      and in nobody's hands. */
  lemma SplitLinkLeaks(info: Info) returns (ss: seq<State>, es: seq<Act>, at: seq<Option<nat>>)
    ensures Callback(ss, es, at) && |es| == 2
    ensures 1 in ss[2].w.heap && Held(ss[2].w.s.ptrs) == {} && ss[2].outside == {}
  {
    at := [Some(7), None, Some(7)];
    var w0 := Shared(info);
    var run := Executes([1, NULL, 2], [0, 0, 0], map[1 := info, 2 := info], {});
    var clear := Does(Set(2, None, false));
    SharedIs(info);
    HeldIs([1, NULL, 2]);
    HeldIs([NULL, NULL, NULL]);
    var w1 := Acted(w0, {}, run).0;
    assert w1.s.ptrs == [1, NULL, 2] && w1.s.links == [0, 1, 0];
    var w2 := Acted(w1, {}, clear).0;
    assert Relinked(w1.s, 2, NULL, 0).ptrs == [NULL, NULL, NULL];
    ss, es := [State(w0, {}), State(w1, {}), State(w2, {})], [run, clear];
  }

  /** A callback's world whose first and last slot are one provider slot. */
  ghost function Shared(info: Info): World {
    var at, cells := [Some(7), None, Some(7)], map[7 := Cell(1, 0)];
    World(Adopted(at, cells), cells, map[1 := info])
  }

  lemma SharedIs(info: Info)
    ensures var s := Shared(info).s;
            s.ptrs == [1, NULL, 1] && s.links == [0, 1, 0] && s.enabled == [true, false, true] && Held(s.ptrs) == {1}
  {
    assert Shared(info).s.ptrs == [1, NULL, 1];
    HeldIs([1, NULL, 1]);
  }

  lemma HeldIs(p: seq<Ptr>)
    requires |p| == 3
    ensures Held(p) == (if p[0] == NULL then {} else {p[0]}) + (if p[1] == NULL then {} else {p[1]}) + (if p[2] == NULL then {} else {p[2]})
  {
  }
}
