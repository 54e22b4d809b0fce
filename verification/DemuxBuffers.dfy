/** Where the reply buffers are: every live allocation is either held by the demultiplexer in exactly
    one place or belongs to a caller, and no operation loses, doubles or frees one wrongly. */
module DemuxBuffers {
  import opened Xatmi
  import opened DemuxModel

  ghost function SlotBufs(slots: map<int, Slot>): set<Ptr> {
    set cd | cd in slots && slots[cd].Ready? && slots[cd].buf.ptr != NULL :: slots[cd].buf.ptr
  }

  ghost function ScratchBufs(scratch: Option<Parked>): set<Ptr> {
    if scratch.Some? then {scratch.value.ptr} else {}
  }

  ghost function OrphanBufs(orphans: seq<Parked>): set<Ptr> {
    set i | 0 <= i < |orphans| :: orphans[i].ptr
  }

  /** Every allocation the demultiplexer is responsible for. */
  ghost function Held(d: Demux): set<Ptr> {
    SlotBufs(d.slots) + ScratchBufs(d.scratch) + OrphanBufs(d.orphans)
  }

  /** No two slots hold the same allocation. */
  ghost predicate SlotsApart(slots: map<int, Slot>) {
    forall a, b :: IsReady(slots, a) && IsReady(slots, b) && a != b && slots[a].buf.ptr != NULL
      ==> slots[a].buf.ptr != slots[b].buf.ptr
  }

  ghost predicate OrphansApart(orphans: seq<Parked>) {
    && (forall i :: 0 <= i < |orphans| ==> orphans[i].ptr != NULL)
    && (forall i, j :: 0 <= i < j < |orphans| ==> orphans[i].ptr != orphans[j].ptr)
  }

  /** The places do not overlap. */
  ghost predicate Apart(d: Demux) {
    && SlotsApart(d.slots)
    && OrphansApart(d.orphans)
    && NULL !in ScratchBufs(d.scratch)
    && SlotBufs(d.slots) !! OrphanBufs(d.orphans)
    && ScratchBufs(d.scratch) !! SlotBufs(d.slots)
    && ScratchBufs(d.scratch) !! OrphanBufs(d.orphans)
  }

  /** Each held allocation is live and sits in exactly one place. */
  ghost predicate Owned(s: Sys) {
    Sound(s.n) && Apart(s.d) && Held(s.d) <= s.n.heap.Keys
  }

  /** The live allocations that are not held: they belong to callers. */
  ghost function Callers(s: Sys): set<Ptr> {
    s.n.heap.Keys - Held(s.d)
  }

  // ----- one operation at a time

  lemma StashOrphans(orphans: seq<Parked>, b: Parked)
    requires OrphansApart(orphans) && b.ptr != NULL && b.ptr !in OrphanBufs(orphans)
    ensures OrphansApart(orphans + [b])
    ensures OrphanBufs(orphans + [b]) == OrphanBufs(orphans) + {b.ptr}
  {
    var longer := orphans + [b];
    forall i | 0 <= i < |longer| ensures longer[i].ptr in OrphanBufs(orphans) + {b.ptr} {
      if i < |orphans| { assert longer[i] == orphans[i]; }
    }
    forall p | p in OrphanBufs(orphans) + {b.ptr} ensures p in OrphanBufs(longer) {
      if p == b.ptr { assert longer[|orphans|].ptr == p; }
      else { var i :| 0 <= i < |orphans| && orphans[i].ptr == p; assert longer[i].ptr == p; }
    }
    forall i, j | 0 <= i < j < |longer| ensures longer[i].ptr != longer[j].ptr {
      if j == |orphans| { assert orphans[i].ptr in OrphanBufs(orphans); }
    }
  }

  /** Stashing a caller's buffer moves it, and nothing else, into the demultiplexer's keeping. */
  lemma StashKeeps(s: Sys, b: Parked)
    requires Owned(s) && (b.ptr == NULL || b.ptr in Callers(s))
    ensures var t := s.(d := Stash(s.d, b));
            Owned(t) && Held(t.d) == Held(s.d) + (if b.ptr == NULL then {} else {b.ptr})
  {
    if b.ptr != NULL && s.d.scratch.Some? { StashOrphans(s.d.orphans, b); }
  }

  lemma FillSlots(slots: map<int, Slot>, cd: int, o: Outcome, b: Parked, claim: Option<Claim>)
    requires SlotsApart(slots) && !IsReady(slots, cd) && b.ptr !in SlotBufs(slots)
    ensures var filled := slots[cd := Ready(o, b, claim)];
            SlotsApart(filled) && SlotBufs(filled) == SlotBufs(slots) + (if b.ptr == NULL then {} else {b.ptr})
  {
    var filled := slots[cd := Ready(o, b, claim)];
    forall p | p in SlotBufs(slots) ensures p in SlotBufs(filled) {
      var c :| c in slots && slots[c].Ready? && slots[c].buf.ptr != NULL && slots[c].buf.ptr == p;
      assert filled[c] == slots[c];
    }
    if b.ptr != NULL { assert filled[cd].buf.ptr == b.ptr; }
    forall a, c | IsReady(filled, a) && IsReady(filled, c) && a != c && filled[a].buf.ptr != NULL
      ensures filled[a].buf.ptr != filled[c].buf.ptr
    {
      if a == cd { assert filled[c].buf.ptr == NULL || filled[c].buf.ptr in SlotBufs(slots); }
      else if c == cd { assert filled[a].buf.ptr in SlotBufs(slots); }
      else { assert IsReady(slots, a) && IsReady(slots, c); }
    }
  }

  /** Routing hands the received buffer to the demultiplexer, whether or not the slot was taken. */
  lemma RouteKeeps(s: Sys, cd: int, o: Outcome, b: Parked)
    requires Owned(s) && b.ptr in Callers(s)
    ensures var t := Route(s, cd, o, b); Owned(t) && t.n == s.n && Held(t.d) == Held(s.d) + {b.ptr}
  {
    if IsReady(s.d.slots, cd) { StashKeeps(s, b); }
    else { FillSlots(s.d.slots, cd, o, b, if cd in s.d.slots then s.d.slots[cd].claim else None); }
  }

  lemma RemoveSlot(slots: map<int, Slot>, cd: int)
    requires SlotsApart(slots)
    ensures SlotsApart(slots - {cd})
    ensures SlotBufs(slots - {cd})
         == SlotBufs(slots) - (if IsReady(slots, cd) then {slots[cd].buf.ptr} else {})
  {
    var left := slots - {cd};
    forall a, c | IsReady(left, a) && IsReady(left, c) && a != c && left[a].buf.ptr != NULL
      ensures left[a].buf.ptr != left[c].buf.ptr
    {
      assert IsReady(slots, a) && IsReady(slots, c);
    }
    var gone := if IsReady(slots, cd) then {slots[cd].buf.ptr} else {};
    forall p | p in SlotBufs(left) ensures p in SlotBufs(slots) - gone {
      var c :| c in left && left[c].Ready? && left[c].buf.ptr != NULL && left[c].buf.ptr == p;
      assert IsReady(slots, c) && slots[c].buf.ptr == p && c != cd;
      if IsReady(slots, cd) { assert slots[c].buf.ptr != slots[cd].buf.ptr; }
    }
    forall p | p in SlotBufs(slots) - gone ensures p in SlotBufs(left) {
      var c :| c in slots && slots[c].Ready? && slots[c].buf.ptr != NULL && slots[c].buf.ptr == p;
      assert c in left && left[c] == slots[c];
    }
  }

  /** Handing a ready reply over swaps exactly the caller's buffer for the reply's, or, on a
      `TPNOCHANGE` mismatch or a reply without a buffer, leaves the caller's buffer alone. */
  lemma TakeSlotKeeps(s: Sys, cd: int, data: Parked, nochange: bool)
    requires Owned(s) && IsReady(s.d.slots, cd) && data.ptr in Callers(s)
    ensures var (t, data', outcome) := TakeSlot(s, cd, data, nochange);
            && Owned(t) && t.n == s.n
            && data'.ptr in Callers(t)
            && Callers(t) == Callers(s) - {data.ptr} + {data'.ptr}
            && (data' == data || (data' == s.d.slots[cd].buf && outcome == s.d.slots[cd].outcome))
  {
    RemoveSlot(s.d.slots, cd);
    var b := s.d.slots[cd].buf;
    var open := s.(d := s.d.(slots := s.d.slots - {cd}));
    assert Owned(open);
    if b.ptr != NULL {
      assert b.ptr in SlotBufs(s.d.slots);
      StashKeeps(open, if nochange && TypeChanges(s.n, b.ptr, data.ptr) then b else data);
    }
  }

  lemma FailedBufs(slots: map<int, Slot>, e: Error)
    requires SlotsApart(slots)
    ensures SlotsApart(FailedSlots(slots, e)) && SlotBufs(FailedSlots(slots, e)) == SlotBufs(slots)
  {
    var failed := FailedSlots(slots, e);
    forall cd | cd in slots && slots[cd].Ready? ensures failed[cd] == slots[cd] {}
    forall p | p in SlotBufs(slots) ensures p in SlotBufs(failed) {
      var c :| c in slots && slots[c].Ready? && slots[c].buf.ptr != NULL && slots[c].buf.ptr == p;
      assert c in failed && failed[c] == slots[c];
    }
    forall a, b | IsReady(failed, a) && IsReady(failed, b) && a != b && failed[a].buf.ptr != NULL
      ensures failed[a].buf.ptr != failed[b].buf.ptr
    {
      assert IsReady(slots, a) && slots[a] == failed[a];
      if IsReady(slots, b) { assert slots[a].buf.ptr != slots[b].buf.ptr; }
    }
  }

  /** A queue failure moves no buffer. */
  lemma FailAllKeeps(s: Sys, e: Error)
    requires Owned(s)
    ensures var t := FailAll(s, e); Owned(t) && t.n == s.n && Held(t.d) == Held(s.d)
  {
    FailedBufs(s.d.slots, e);
  }

  /** A turn of the drain, and so a whole drain, takes nothing from a caller and loses nothing:
      what is live but not held stays the same. */
  lemma DrainTurnKeeps(s: Sys)
    requires Owned(s)
    ensures Owned(DrainTurn(s).0) && Callers(DrainTurn(s).0) == Callers(s)
    ensures forall p :: p in Callers(s) ==> DrainTurn(s).0.n.heap[p] == s.n.heap[p]
  {
    match TakeScratch(s)
    case None => FailAllKeeps(s, TPEOS);
    case Some((t, lent)) =>
      assert Owned(t) && Callers(t) == Callers(s) + {lent.ptr};
      if t.n.queue == [] {
        StashKeeps(t, lent);
      } else {
        var m := t.n.queue[0];
        var (n', p) := Receive(t.n, lent.ptr);
        var u := t.(n := n');
        var got := Parked(p, if m.cd > 0 then m.len else lent.len);
        assert Owned(u) && Callers(u) == Callers(s) + {p} && p !in Callers(s);
        if m.outcome != Failure(TPEBLOCK) && m.cd > 0 {
          RouteKeeps(u, m.cd, m.outcome, got);
        } else {
          StashKeeps(u, got);
          if m.outcome.Failure? { FailAllKeeps(u.(d := Stash(u.d, got)), m.outcome.error); }
        }
      }
  }

  lemma {:induction false} DrainKeeps(s: Sys)
    requires Owned(s)
    ensures Owned(Drain(s)) && Callers(Drain(s)) == Callers(s)
    ensures forall p :: p in Callers(s) ==> Drain(s).n.heap[p] == s.n.heap[p]
    decreases |s.n.queue|
  {
    DrainTurnKeeps(s);
    var (t, more) := DrainTurn(s);
    if more { DrainKeeps(t); }
  }

  /** Releasing a descriptor frees its parked buffer, and only that one. */
  lemma ReleaseSlotKeeps(s: Sys, cd: int)
    requires Owned(s)
    ensures var t := ReleaseSlot(s, cd);
            && Owned(t) && Callers(t) == Callers(s)
            && t.n.heap.Keys == s.n.heap.Keys - (if IsReady(s.d.slots, cd) then {s.d.slots[cd].buf.ptr} else {})
  {
    RemoveSlot(s.d.slots, cd);
    if IsReady(s.d.slots, cd) && s.d.slots[cd].buf.ptr != NULL {
      assert s.d.slots[cd].buf.ptr in SlotBufs(s.d.slots);
    }
  }

  lemma CancelCallKeeps(s: Sys, cd: int)
    requires Owned(s)
    ensures Owned(CancelCall(s, cd)) && Callers(CancelCall(s, cd)) == Callers(s)
  {
    ReleaseSlotKeeps(s, cd);
  }

  /** Cancelling a call frees what its slot held and keeps every other buffer where it belongs. */
  lemma TpCancelKeeps(s: Sys, cd: int)
    requires Owned(s)
    ensures Owned(TpCancel(s, cd)) && Callers(TpCancel(s, cd)) == Callers(s)
  {
    CancelCallKeeps(s, cd);
    DrainKeeps(CancelCall(s, cd));
  }
}
