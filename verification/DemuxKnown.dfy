/** Every payload has a known generation: whoever collects one, the log says whose reply it was. */
module DemuxKnown {
  import opened Xatmi
  import opened DemuxModel
  import opened DemuxBuffers
  import opened DemuxWorld
  import opened DemuxClaims
  import opened DemuxLoans
  import opened DemuxDelivery

  /** A slot that holds a reply's buffer. */
  predicate HasBody(slots: map<int, Slot>, cd: int) {
    IsReady(slots, cd) && slots[cd].buf.ptr != NULL
  }

  ghost predicate Known(w: World) {
    && (forall cd :: HasBody(w.s.d.slots, cd) ==> cd in w.gens)
    && (forall i :: 0 <= i < |w.log| && w.log[i].body.Some? ==> w.log[i].gen.Some?)
  }

  /** No slot gets a buffer it did not have. */
  ghost predicate NoNewBodies(d: map<int, Slot>, e: map<int, Slot>) {
    forall cd :: HasBody(e, cd) ==> HasBody(d, cd)
  }

  lemma GuardBodies(s: Sys, g: Guard)
    ensures NoNewBodies(s.d.slots, DropGuard(s, g).d.slots)
  {
  }

  lemma FinishedBodies(s: Sys, k: Kind, cd: int, outcome: Outcome)
    ensures NoNewBodies(s.d.slots, Finished(s, k, cd, outcome).d.slots)
  {
    if k.NamedOn? { GuardBodies(s.(d := Forgotten(s.d, cd)), k.guard); }
  }

  lemma LeftBodies(s: Sys, k: Kind, timedOut: bool)
    ensures NoNewBodies(s.d.slots, Left(s, k, timedOut).d.slots)
  {
    if k.NamedOn? { GuardBodies(if timedOut then CancelCall(s, k.guard.cd) else s, k.guard); }
  }

  lemma HandedOver(s: Sys, o: Outcome, b: Parked, data: Parked, nochange: bool)
    ensures HandOver(s, o, b, data, nochange).0.d.slots == s.d.slots
  {
  }

  /** An event that fills no slot and collects nothing. */
  lemma KeepKnown(w: World, v: World)
    requires Known(w) && NoNewBodies(w.s.d.slots, v.s.d.slots) && v.log == w.log && w.gens.Keys <= v.gens.Keys
    ensures Known(v)
  {
  }

  lemma TakeKnown(w: World, t: nat, cd: int, nochange: bool)
    requires Known(w) && Conserved(w) && t in w.tasks && t in w.data && IsReady(w.s.d.slots, cd)
    ensures Known(DoTake(w, t, cd, nochange))
  {
    var slot := w.s.d.slots[cd];
    var (s, data, outcome) := TakeSlot(w.s, cd, w.data[t], nochange);
    HandedOver(w.s.(d := w.s.d.(slots := w.s.d.slots - {cd})), slot.outcome, slot.buf, w.data[t], nochange);
    FinishedBodies(s, w.tasks[t], cd, outcome);
    if Body(slot, w.s.n.heap).Some? {
      assert slot.buf.ptr in w.s.n.heap && NULL !in w.s.n.heap;
      assert HasBody(w.s.d.slots, cd);
    }
  }

  /** A turn of the drain gives a buffer only to the slot it routes to. */
  lemma DrainTurnBodies(s: Sys)
    ensures forall cd :: HasBody(DrainTurn(s).0.d.slots, cd) && !HasBody(s.d.slots, cd) ==>
              Routed(s).Some? && cd == Routed(s).value.cd && !IsReady(s.d.slots, cd)
  {
  }

  lemma DrainKnown(w: World)
    requires Known(w) && Delivered(w)
    ensures Known(DoDrain(w))
  {
    var v := DoDrain(w);
    DrainTurnBodies(w.s);
    forall cd | HasBody(v.s.d.slots, cd) ensures cd in v.gens {
      if !HasBody(w.s.d.slots, cd) {
        var m := Routed(w.s).value;
        assert m == w.s.n.queue[0] && m in w.s.n.queue;
        assert cd in w.s.n.outstanding;
      }
    }
  }

  lemma StepKnown(w: World, e: Event)
    requires Known(w) && Delivered(w) && Conserved(w) && w.tasks.Keys == w.data.Keys && Enabled(w, e)
    ensures Known(Step(w, e))
  {
    match e
    case Take(t, cd, nochange) => TakeKnown(w, t, cd, nochange);
    case DrainOne => DrainKnown(w);
    case Leave(t, timedOut) => LeftBodies(w.s, w.tasks[t], timedOut); KeepKnown(w, Step(w, e));
    case Submit(t, cd, claimed, deadline, lent) => SubmitKnown(w, t, cd, claimed, deadline, lent);
    case StartNamed(t, cd, lent) => NamedKnown(w, t, cd, lent);
    case Poll(t, waker, other) => PollKnown(w, t, waker, other);
    case UserCancel(cd) => KeepKnown(w, w.(s := CancelCall(w.s, cd)));
    case WakeAnyWaiters => KeepKnown(w, w.(s := WakeAny(w.s)));
    case StartAny(t, lent) => KeepKnown(w, DoStartAny(w, t, lent));
    case RawSubmit(_) =>
    case Arrive(_) =>
  }

  lemma SubmitKnown(w: World, t: nat, cd: int, claimed: bool, deadline: Option<nat>, lent: Parked)
    requires Known(w)
    ensures Known(DoSubmit(w, t, cd, claimed, deadline, lent))
  {
    KeepKnown(w, DoSubmit(w, t, cd, claimed, deadline, lent));
  }

  lemma NamedKnown(w: World, t: nat, cd: int, lent: Parked)
    requires Known(w)
    ensures Known(DoStartNamed(w, t, cd, lent))
  {
    KeepKnown(w, DoStartNamed(w, t, cd, lent));
  }

  lemma PollKnown(w: World, t: nat, waker: Waker, other: bool)
    requires Known(w) && t in w.tasks
    ensures Known(DoPoll(w, t, waker, other))
  {
    KeepKnown(w, DoPoll(w, t, waker, other));
  }

  lemma QuietDeliveredKnown(w: World)
    requires Known(w) && Delivered(w)
    ensures Known(w.(s := w.s.(woken := {}))) && Delivered(w.(s := w.s.(woken := {})))
  {
    QuietDelivered(w, w.(s := w.s.(woken := {})));
  }

  lemma PrunedKnown(v: World, u: World)
    requires Known(v) && u.s == v.s && u.log == v.log && u.gens.Keys == v.gens.Keys * v.s.d.slots.Keys
    ensures Known(u)
  {
  }

  lemma NextKnown(w: World, e: Event)
    requires Known(w) && Delivered(w) && Conserved(w) && Linked(w) && Enabled(w, e)
    ensures Known(Next(w, e))
  {
    var quiet := w.(s := w.s.(woken := {}));
    QuietDeliveredKnown(w);
    QuietConserved(w);
    StepKnown(quiet, e);
    NextFrom(w, e);
    PrunedKnown(Step(quiet, e), Next(w, e));
  }
}
