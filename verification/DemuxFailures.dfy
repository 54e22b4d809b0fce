/** Queue failures over all runs: they reach everybody who waits, and are not lost before they are taken. */
module DemuxFailures {
  import opened Xatmi
  import opened DemuxModel
  import opened DemuxBuffers
  import opened DemuxWorld
  import opened DemuxClaims
  import opened DemuxRuns

  /** Every registration has `e` pending, and every slot that was still open is filled with it. */
  ghost predicate FailedWith(d: Demux, d': Demux, e: Error) {
    && d'.anyWaiters.Keys == d.anyWaiters.Keys && (forall id :: id in d'.anyWaiters ==> d'.anyWaiters[id].error == Some(e))
    && d'.slots.Keys == d.slots.Keys && (forall cd :: cd in d.slots ==> FailedOrKept(d.slots[cd], d'.slots[cd], e))
  }

  predicate FailedOrKept(was: Slot, now: Slot, e: Error) {
    match was
    case Ready(_, _, _) => now == was
    case Waiting(_, claim) => now == Ready(Failure(e), EMPTY, claim)
  }

  lemma TurnFails(s: Sys, e: Error)
    requires QueueError(s) == Some(e)
    ensures FailedWith(s.d, DrainTurn(s).0.d, e)
  {
    match TakeScratch(s)
    case None => AllFailed(s, e);
    case Some((t, lent)) =>
      var (n', p) := Receive(t.n, lent.ptr);
      AllFailed(t.(n := n', d := Stash(t.d, Parked(p, lent.len))), e);
  }

  lemma AllFailed(s: Sys, e: Error)
    ensures FailedWith(s.d, FailAll(s, e).d, e)
  {
  }

  lemma DrainFails(w: World, e: Error)
    requires w.tasks.Keys == w.data.Keys && QueueError(w.s) == Some(e)
    ensures FailedWith(w.s.d, Next(w, DrainOne).s.d, e)
  {
    NextFrom(w, DrainOne);
    TurnFails(w.s.(woken := {}), e);
  }

  /** A queue failure reaches everybody. When the queue fails with `e`, in any run, every future that waits
      for any reply has `e` pending, and every named one has its slot filled with `e` unless a reply had
      landed there, which then stays. */
  lemma QueueFailureReaches(ws: seq<World>, es: seq<Event>, k: nat, e: Error, t: nat)
    requires Run(ws, es) && k < |es| && es[k] == DrainOne && QueueError(ws[k].s) == Some(e) && t in ws[k].tasks
    ensures var kind, d, d' := ws[k].tasks[t], ws[k].s.d, ws[k + 1].s.d;
            if kind.AnyOn? then kind.id in d'.anyWaiters && d'.anyWaiters[kind.id].error == Some(e)
            else CdOf(kind) in d.slots && CdOf(kind) in d'.slots && FailedOrKept(d.slots[CdOf(kind)], d'.slots[CdOf(kind)], e)
  {
    RunSafe(ws, es, k);
    assert Goes(ws[k], es[k], ws[k + 1]);
    DrainFails(ws[k], e);
    if Names(ws[k].tasks[t]) { assert HoldsClaim(ws[k].s.d.slots, ws[k].tasks[t]); }
  }

  // ----- until it is taken

  /** The registration is still there, with the same error pending. */
  ghost predicate StillPending(d: Demux, d': Demux, id: nat) {
    id in d.anyWaiters ==> id in d'.anyWaiters && d'.anyWaiters[id].error == d.anyWaiters[id].error
  }

  lemma TurnPending(s: Sys, id: nat)
    requires QueueError(s).None?
    ensures StillPending(s.d, DrainTurn(s).0.d, id)
  {
  }

  lemma LeavePending(s: Sys, k: Kind, timedOut: bool, id: nat)
    requires k != AnyOn(id)
    ensures StillPending(s.d, Left(s, k, timedOut).d, id)
  {
  }

  lemma FinishPending(s: Sys, k: Kind, cd: int, told: Outcome, id: nat)
    requires k != AnyOn(id)
    ensures StillPending(s.d, Finished(s, k, cd, told).d, id)
  {
  }

  lemma TakePending(w: World, t: nat, cd: int, nochange: bool, id: nat)
    requires t in w.tasks && t in w.data && IsReady(w.s.d.slots, cd) && w.tasks[t] != AnyOn(id)
    ensures StillPending(w.s.d, DoTake(w, t, cd, nochange).s.d, id)
  {
    var (s, _, told) := TakeSlot(w.s, cd, w.data[t], nochange);
    assert s.d.anyWaiters == w.s.d.anyWaiters;
    FinishPending(s, w.tasks[t], cd, told, id);
  }

  lemma StartPending(w: World, t: nat, cd: int, lent: Parked, id: nat)
    ensures StillPending(w.s.d, DoStartNamed(w, t, cd, lent).s.d, id)
    ensures id <= w.s.d.nextAnyId < U64_MAX ==> StillPending(w.s.d, DoStartAny(w, t, lent).s.d, id)
  {
  }

  lemma PollPending(w: World, t: nat, waker: Waker, other: bool, id: nat)
    requires t in w.tasks
    ensures StillPending(w.s.d, DoPoll(w, t, waker, other).s.d, id)
  {
  }

  /** The future of the registration `id` ends with this event. */
  ghost predicate EndsWaiter(w: World, e: Event, id: nat) {
    (e.Take? || e.Leave?) && e.t in w.tasks && w.tasks[e.t] == AnyOn(id)
  }

  lemma StepPending(w: World, e: Event, id: nat)
    requires w.tasks.Keys == w.data.Keys && Enabled(w, e) && !EndsWaiter(w, e, id) && !(e.DrainOne? && QueueError(w.s).Some?)
    requires id in w.s.d.anyWaiters && id <= w.s.d.nextAnyId
    ensures StillPending(w.s.d, Step(w, e).s.d, id)
  {
    match e
    case Take(t, cd, nochange) => TakePending(w, t, cd, nochange, id);
    case Leave(t, timedOut) => LeavePending(w.s, w.tasks[t], timedOut, id);
    case DrainOne => TurnPending(w.s, id);
    case StartAny(t, lent) => StartPending(w, t, 0, lent, id);
    case StartNamed(t, cd, lent) => StartPending(w, t, cd, lent, id);
    case Poll(t, waker, other) => PollPending(w, t, waker, other, id);
    case _ =>
  }

  lemma NextPending(w: World, e: Event, id: nat)
    requires w.tasks.Keys == w.data.Keys && Enabled(w, e) && !EndsWaiter(w, e, id) && !(e.DrainOne? && QueueError(w.s).Some?)
    requires id in w.s.d.anyWaiters && id <= w.s.d.nextAnyId
    ensures StillPending(w.s.d, Next(w, e).s.d, id)
  {
    NextFrom(w, e);
    StepPending(w.(s := w.s.(woken := {})), e, id);
  }

  predicate Pending(d: Demux, id: nat) {
    id in d.anyWaiters && d.anyWaiters[id].error.Some?
  }

  /** The event is a failure of the queue. */
  ghost predicate FailsQueue(w: World, e: Event) {
    e.DrainOne? && QueueError(w.s).Some?
  }

  lemma OneStepPending(w: World, e: Event, v: World, id: nat)
    requires Linked(w) && Goes(w, e, v) && Pending(w.s.d, id) && !EndsWaiter(w, e, id)
    ensures Pending(v.s.d, id) && (!FailsQueue(w, e) ==> v.s.d.anyWaiters[id].error == w.s.d.anyWaiters[id].error)
  {
    if FailsQueue(w, e) { DrainFails(w, QueueError(w.s).value); } else { NextPending(w, e, id); }
  }

  /** A pending queue failure stays pending, whatever happens and however long it takes, until its own
      future ends. */
  lemma {:induction false} PendingFailureStays(ws: seq<World>, es: seq<Event>, j: nat, k: nat, id: nat)
    requires Run(ws, es) && j <= k < |ws| && Pending(ws[j].s.d, id)
    requires forall i :: j <= i < k ==> !EndsWaiter(ws[i], es[i], id)
    ensures Pending(ws[k].s.d, id)
  {
    if j < k {
      PendingFailureStays(ws, es, j, k - 1, id);
      StepOfRun(ws, es, k - 1, id);
    }
  }

  /** And it stays the same one unless the queue fails again. */
  lemma {:induction false} SameFailureStays(ws: seq<World>, es: seq<Event>, j: nat, k: nat, id: nat)
    requires Run(ws, es) && j <= k < |ws| && Pending(ws[j].s.d, id)
    requires forall i :: j <= i < k ==> !EndsWaiter(ws[i], es[i], id) && !FailsQueue(ws[i], es[i])
    ensures Pending(ws[k].s.d, id) && ws[k].s.d.anyWaiters[id].error == ws[j].s.d.anyWaiters[id].error
  {
    if j < k {
      SameFailureStays(ws, es, j, k - 1, id);
      StepOfRun(ws, es, k - 1, id);
    }
  }

  lemma StepOfRun(ws: seq<World>, es: seq<Event>, i: nat, id: nat)
    requires Run(ws, es) && i < |es| && Pending(ws[i].s.d, id) && !EndsWaiter(ws[i], es[i], id)
    ensures Pending(ws[i + 1].s.d, id)
    ensures !FailsQueue(ws[i], es[i]) ==> ws[i + 1].s.d.anyWaiters[id].error == ws[i].s.d.anyWaiters[id].error
  {
    RunSafe(ws, es, i);
    assert Goes(ws[i], es[i], ws[i + 1]);
    OneStepPending(ws[i], es[i], ws[i + 1], id);
  }
}
