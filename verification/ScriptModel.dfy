/** The three buffer slots of a script call, as values: what each operation does to the slots, to the
    provider's own slots they may mirror, and to the allocations. */
module ScriptModel {
  import opened Xatmi

  /** What the library can ask of an allocation: its type, its size and, for a text, its length with the
      terminator. */
  datatype Info = Info(typeName: string, size: nat, text: nat)
  type Heap = map<Ptr, Info>

  /** A provider slot: the pointer and length cells that belong together. */
  datatype Cell = Cell(ptr: Ptr, len: int)

  const I64_MAX: int := 0x7FFF_FFFF_FFFF_FFFF

  /** `native` names the provider's slots while a callback runs; two entries may name the same slot. */
  datatype Slots = Slots(
    ptrs: seq<Ptr>,
    lens: seq<int>,
    links: seq<nat>,
    enabled: seq<bool>,
    owned: bool,
    native: Option<seq<Option<nat>>>
  )

  datatype World = World(s: Slots, cells: map<nat, Cell>, heap: Heap)

  const EMPTY_SLOTS: Slots := Slots([NULL, NULL, NULL], [0, 0, 0], [0, 1, 2], [true, true, true], true, None)

  predicate Three(s: Slots) {
    && |s.ptrs| == |s.lens| == |s.links| == |s.enabled| == 3
    && (s.native.Some? ==> |s.native.value| == 3)
  }

  /** The allocations some slot refers to. */
  function Held(ptrs: seq<Ptr>): set<Ptr> {
    set i | 0 <= i < |ptrs| && ptrs[i] != NULL :: ptrs[i]
  }

  // ----- the provider's slots

  function Put(cells: map<nat, Cell>, slot: Option<nat>, c: Cell): map<nat, Cell> {
    if slot.Some? then cells[slot.value := c] else cells
  }

  /** The provider's slots once the first `n` have been written. */
  function Synced(s: Slots, cells: map<nat, Cell>, n: nat): map<nat, Cell>
    requires Three(s) && n <= 3
  {
    if n == 0 || s.native.None? then cells
    else Put(Synced(s, cells, n - 1), s.native.value[n - 1], Cell(s.ptrs[n - 1], s.lens[n - 1]))
  }

  function Sync(w: World): World
    requires Three(w.s)
  {
    w.(cells := Synced(w.s, w.cells, 3))
  }

  /** The provider's slots `now` are `before` with the slots of the collection written out: each provider
      slot has the pointer and the length of the last slot that is it, and no other has changed. */
  ghost predicate WrittenOut(s: Slots, before: map<nat, Cell>, now: map<nat, Cell>)
    requires Three(s)
  {
    if s.native.None? then now == before
    else
      var at := s.native.value;
      && (forall k :: 0 <= k < 3 && at[k].Some? && (forall l :: k < l < 3 ==> at[l] != at[k]) ==>
            at[k].value in now && now[at[k].value] == Cell(s.ptrs[k], s.lens[k]))
      && (forall c :: c in now <==> c in before || Some(c) in at)
      && (forall c :: c in before && Some(c) !in at ==> now[c] == before[c])
  }

  lemma SyncWrites(w: World)
    requires Three(w.s)
    ensures WrittenOut(w.s, w.cells, Sync(w).cells)
  {
    if w.s.native.Some? {
      var at := w.s.native.value;
      var c0 := Synced(w.s, w.cells, 0);
      var c1 := Synced(w.s, w.cells, 1);
      var c2 := Synced(w.s, w.cells, 2);
      assert c1 == Put(w.cells, at[0], Cell(w.s.ptrs[0], w.s.lens[0]));
      assert c2 == Put(c1, at[1], Cell(w.s.ptrs[1], w.s.lens[1]));
      assert Synced(w.s, w.cells, 3) == Put(c2, at[2], Cell(w.s.ptrs[2], w.s.lens[2]));
      assert at == [at[0], at[1], at[2]];
    }
  }

  // ----- changing slots

  /** The slots linked to slot `i` all get the pointer and the length. */
  function Relinked(s: Slots, i: nat, p: Ptr, n: int): Slots
    requires Three(s) && i < 3
  {
    s.(ptrs := seq(3, k requires 0 <= k < 3 => if s.links[k] == s.links[i] then p else s.ptrs[k]),
       lens := seq(3, k requires 0 <= k < 3 => if s.links[k] == s.links[i] then n else s.lens[k]))
  }

  function Freed(w: World, p: Ptr): World {
    w.(heap := w.heap - {p})
  }

  /** Replace a slot; the old allocation is freed once nothing refers to it. */
  function Replace(w: World, i: nat, p: Ptr, n: int): World
    requires Three(w.s) && i < 3
  {
    var old' := w.s.ptrs[i];
    var u := Sync(w.(s := Relinked(w.s, i, p, n)));
    if old' != NULL && old' !in u.s.ptrs then Freed(u, old') else u
  }

  /** The slots where `which` holds get the pointer and the length. */
  function Assigned(s: Slots, which: seq<bool>, p: Ptr, n: int): Slots
    requires Three(s) && |which| == 3
  {
    s.(ptrs := seq(3, k requires 0 <= k < 3 => if which[k] then p else s.ptrs[k]),
       lens := seq(3, k requires 0 <= k < 3 => if which[k] then n else s.lens[k]))
  }

  /** The slots that refer to the same allocation as slot `i`. */
  function Aliases(s: Slots, i: nat): seq<bool>
    requires Three(s) && i < 3
  {
    seq(3, k requires 0 <= k < 3 => s.ptrs[i] != NULL && s.ptrs[k] == s.ptrs[i])
  }

  /** Whether slot `i` can be looked at, if it is not empty. */
  predicate Readable(w: World, i: nat)
    requires Three(w.s) && i < 3
  {
    w.s.lens[i] >= 0 && w.s.ptrs[i] in w.heap && w.s.lens[i] <= w.heap[w.s.ptrs[i]].size
  }

  /** The length a taken or borrowed buffer reports. */
  function Initialized(info: Info, length: nat): nat {
    if info.typeName == "CARRAY" then length
    else if info.typeName == "STRING" || info.typeName == "JSON" then info.text
    else 0
  }

  /** The allocation leaves every slot that refers to it. */
  function Taken(w: World, i: nat): World
    requires Three(w.s) && i < 3
  {
    Sync(w.(s := Assigned(w.s, Aliases(w.s, i), NULL, 0)))
  }

  /** The edited buffer comes back to the slots it was taken from. */
  function Restored(w: World, which: seq<bool>, p: Ptr, n: int): World
    requires Three(w.s) && |which| == 3
  {
    Sync(w.(s := Assigned(w.s, which, p, n)))
  }

  // ----- the end of a collection

  function Emptied(s: Slots): Slots {
    s.(ptrs := [NULL, NULL, NULL], lens := [0, 0, 0])
  }

  /** Dropping the collection. */
  function Dropped(w: World): World
    requires Three(w.s)
  {
    if !w.s.owned then w
    else
      var u := Sync(w.(s := Emptied(w.s)));
      u.(heap := u.heap - Held(w.s.ptrs))
  }

  // ----- the callback bridge

  /** The pointer and length slots must be given together. */
  predicate PairedSlots(pointers: seq<Option<nat>>, lengths: seq<Option<nat>>) {
    |pointers| == |lengths| == 3 && forall i :: 0 <= i < 3 ==> (pointers[i].Some? <==> lengths[i].Some?)
  }

  /** The first slot that is the same provider slot. */
  function LinkOf(at: seq<Option<nat>>, i: nat): nat
    requires |at| == 3 && i < 3
  {
    if at[i].Some? && i > 1 && at[i] == at[1] then (if at[1] == at[0] then 0 else 1)
    else if at[i].Some? && i > 0 && at[i] == at[0] then 0
    else i
  }

  /** The collection a callback receives. */
  function Adopted(at: seq<Option<nat>>, cells: map<nat, Cell>): Slots
    requires |at| == 3 && forall i :: 0 <= i < 3 && at[i].Some? ==> at[i].value in cells
  {
    Slots(
      seq(3, i requires 0 <= i < 3 => if at[i].Some? then cells[at[i].value].ptr else NULL),
      seq(3, i requires 0 <= i < 3 => if at[i].Some? then cells[at[i].value].len else 0),
      seq(3, i requires 0 <= i < 3 => LinkOf(at, i)),
      seq(3, i requires 0 <= i < 3 => at[i].Some?),
      true, Some(at))
  }

  /** A supplied slot has what the provider's slot has and can be changed, any other is empty and cannot;
      two slots are linked exactly if they are one and the same provider slot. */
  lemma AdoptedSlots(at: seq<Option<nat>>, cells: map<nat, Cell>)
    requires |at| == 3 && forall i :: 0 <= i < 3 && at[i].Some? ==> at[i].value in cells
    ensures var s := Adopted(at, cells);
            && Three(s) && s.owned && s.native == Some(at)
            && (forall i :: 0 <= i < 3 ==> (s.enabled[i] <==> at[i].Some?))
            && (forall i :: 0 <= i < 3 ==> Cell(s.ptrs[i], s.lens[i]) == if at[i].Some? then cells[at[i].value] else Cell(NULL, 0))
            && (forall i, j :: 0 <= i < 3 && 0 <= j < 3 && i != j ==> (s.links[i] == s.links[j] <==> at[i].Some? && at[i] == at[j]))
  {
    var s := Adopted(at, cells);
    assert s.links[0] == LinkOf(at, 0) && s.links[1] == LinkOf(at, 1) && s.links[2] == LinkOf(at, 2);
  }

  /** Whether the slots can go back to the provider: nothing in a slot it did not supply, and one value
      for each of its slots. */
  predicate Returnable(s: Slots, at: seq<Option<nat>>)
    requires Three(s) && |at| == 3
  {
    && (forall i :: 0 <= i < 3 && at[i].None? ==> s.ptrs[i] == NULL)
    && (forall i, j :: 0 <= j < i < 3 && at[i].Some? && at[i] == at[j] ==> s.ptrs[i] == s.ptrs[j] && s.lens[i] == s.lens[j])
  }

  /** The slots go back to the provider, and the collection owns nothing any more. */
  function Returned(w: World, at: seq<Option<nat>>): World
    requires Three(w.s) && |at| == 3
  {
    w.(cells := Synced(w.s.(native := Some(at)), w.cells, 3), s := w.s.(owned := false))
  }
}
