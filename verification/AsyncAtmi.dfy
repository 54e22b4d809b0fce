/** The adapter around the demultiplexer: submission, cancellation, and the stretches of `await_reply`
    between its await points. */
module AsyncAtmi {
  import opened Xatmi
  import opened DemuxModel
  import opened DemuxBuffers
  import opened DemuxClaims
  import opened ReplyDemux

  /** What a stretch of `await_reply` comes to: a collected reply, an error, or another wait. */
  datatype Turn = Collected(cd: int, told: Outcome) | Failed(error: Error) | Parks

  /** How one poll of the wait ends. `Broken` is a reactor error. */
  datatype Wake = Progress | Timeout | Broken | Unready

  /** A drain inside a drain does nothing. */
  function Drained(busy: bool, s: Sys): Sys {
    if busy then s else Drain(s)
  }

  /** `tpcancel`; within a drain the calls that came in are not drained. */
  function AfterCancel(busy: bool, s: Sys, cd: int): Sys {
    if busy then WakeAny(CancelCall(s, cd)) else DemuxModel.TpCancel(s, cd)
  }

  /** The registration's pending queue failure, which only an any-reply waiter has. */
  function PendingError(d: Demux, target: Target): Option<Error> {
    if target.Any? && target.id in d.anyWaiters then d.anyWaiters[target.id].error else None
  }

  /** Nothing has changed but that the target's registration, which stays with its waker, has no error
      pending any more. */
  ghost predicate ErrorTaken(s: Sys, t: Sys, target: Target) {
    && t == s.(d := s.d.(anyWaiters := t.d.anyWaiters)) && t.d.anyWaiters.Keys == s.d.anyWaiters.Keys
    && forall id :: id in s.d.anyWaiters ==>
         t.d.anyWaiters[id] == if target == Any(id) then AnyWaiter(s.d.anyWaiters[id].waker, None) else s.d.anyWaiters[id]
  }

  /** What giving up at the deadline does: a named wait cancels its call if it may, else it only
      releases the slot; an any-reply wait changes nothing. */
  function GivenUp(busy: bool, s: Sys, target: Target, cancel: bool): Sys {
    match target
    case One(cd) => if cancel then AfterCancel(busy, s, cd) else ReleaseSlot(s, cd)
    case Any(_) => s
  }

  /** Before waiting, from `s` by way of the drained state `u` to `t`, and the caller's buffer from `data` to
      `data'`: collect if anything is there, before draining or after; else report a pending queue failure;
      else, unless the caller forbids it, wait, with nothing changed since the drain. */
  ghost predicate BeforeWait(s: Sys, u: Sys, t: Sys, target: Target, data: Parked, data': Parked, nochange: bool, nonblock: bool, r: Turn) {
    match r
    case Collected(cd, told) =>
      || Collects(s, t, target, cd, data, data', told, nochange)
      || (NothingFor(s, target) && Collects(u, t, target, cd, data, data', told, nochange))
    case Failed(e) =>
      && NothingFor(s, target) && NothingFor(u, target) && data' == data
      && if PendingError(u.d, target).Some? then e == PendingError(u.d, target).value && ErrorTaken(u, t, target)
         else nonblock && e == TPEBLOCK && t == u
    case Parks =>
      NothingFor(s, target) && NothingFor(u, target) && data' == data && !nonblock && PendingError(u.d, target) == None && t == u
  }

  /** After a wait that ended by progress, or by the deadline. */
  ghost predicate AfterWait(u: Sys, t: Sys, target: Target, data: Parked, data': Parked, nochange: bool, late: bool, busy: bool, cancel: bool, r: Turn) {
    match r
    case Collected(cd, told) => Collects(u, t, target, cd, data, data', told, nochange)
    case Failed(e) => NothingFor(u, target) && data' == data && late && e == TPETIME && t == GivenUp(busy, u, target, cancel)
    case Parks => NothingFor(u, target) && data' == data && !late && t == u
  }

  /** The buffer parked in the slot, if there is one. */
  ghost function ParkedIn(slots: map<int, Slot>, cd: int): set<Ptr> {
    if IsReady(slots, cd) then {slots[cd].buf.ptr} else {}
  }

  /** The slot is still there with its claim and, if a reply had landed, with the reply. */
  ghost predicate SlotSurvives(was: map<int, Slot>, now: map<int, Slot>, cd: int) {
    cd in was ==> cd in now && now[cd].claim == was[cd].claim && (was[cd].Ready? ==> now[cd] == was[cd])
  }

  /** Giving up a call that was never tracked leaves the tracked one with its number alone. */
  lemma TrackedSurvives(s: Sys, cd: int)
    ensures var t := WakeAny(Drain(s.(n := CancelNative(s.n, cd))));
            t.d.deadlines == s.d.deadlines && SlotSurvives(s.d.slots, t.d.slots, cd)
  {
    var u := s.(n := CancelNative(s.n, cd));
    DrainFills(u);
    if IsReady(u.d.slots, cd) { DrainKeepsReplies(u, cd); }
  }

  class AsyncAtmiCtx {
    const context: AtmiCtx
    const demux: Demultiplexer

    constructor (c: AtmiCtx)
      ensures context == c && fresh(demux) && demux.State() == FRESH && !demux.draining
    {
      context := c;
      demux := new Demultiplexer();
    }

    function View(): Sys
      reads demux, context
    {
      demux.All(context)
    }

    /** The descriptor is no longer tracked, its deadline is forgotten, and what was parked in its slot is
        freed: nothing else changes. */
    method ReleaseSlot(cd: int)
      modifies demux, context
      ensures View() == DemuxModel.ReleaseSlot(old(View()), cd) && demux.draining == old(demux.draining)
      ensures cd !in demux.slots && OthersStay(old(demux.slots), demux.slots, cd)
      ensures demux.deadlines == old(demux.deadlines) - {cd}
      ensures context.native == old(context.native).(heap := old(context.native).heap - ParkedIn(old(demux.slots), cd))
    {
      demux.ForgetDeadline(cd);
      var parked := demux.Deregister(cd);
      if parked.Some? { Free(parked.value); }
    }

    /** A parked buffer may be null, which native `tpfree` ignores. */
    method Free(b: Parked)
      modifies context
      ensures context.native == FreeNative(old(context.native), b.ptr)
    {
      context.native := FreeNative(context.native, b.ptr);
    }

    /** Unless it happens inside a drain, this is the cancellation of the runs. */
    method TpCancel(cd: int)
      modifies demux, context
      ensures !old(demux.draining) ==> View() == DemuxModel.TpCancel(old(View()), cd)
      ensures View() == AfterCancel(old(demux.draining), old(View()), cd) && demux.draining == old(demux.draining)
    {
      ReleaseSlot(cd);
      context.TpCancel(cd);
      Sweep();
    }

    method Sweep()
      modifies demux, context
      ensures View() == WakeAny(Drained(old(demux.draining), old(View()))) && demux.draining == old(demux.draining)
    {
      demux.Drain(context);
      demux.WakeAnyWaiters(context);
    }

    /** A submitted descriptor is tracked from here on, unless its number is still in use: then the new
        call alone is given up, and the old call's slot and deadline stay. */
    method RegisterSubmission(cd: int, deadline: Option<nat>, claimed: bool) returns (r: Result<int>)
      requires !demux.draining
      modifies demux, context
      ensures View() == DemuxModel.RegisterSubmission(old(View()), cd, deadline, claimed).0
      ensures r == match DemuxModel.RegisterSubmission(old(View()), cd, deadline, claimed).1
                   case None => Ok(cd) case Some(e) => Err(e)
      ensures r == if cd > 0 && cd in old(demux.slots) then Err(TPELIMIT) else Ok(cd)
      ensures r.Err? ==> demux.deadlines == old(demux.deadlines) && SlotSurvives(old(demux.slots), demux.slots, cd)
      ensures r.Ok? && cd > 0 ==> demux.deadlines == old(demux.deadlines)[cd := deadline] && OthersStay(old(demux.slots), demux.slots, cd)
                                  && cd in demux.slots && demux.slots[cd] == Waiting(None, if claimed then Some(Call) else None)
      ensures r.Ok? && cd <= 0 ==> View() == old(View())
    {
      TrackedSurvives(View(), cd);
      if cd > 0 && cd in demux.slots {
        context.TpCancel(cd);
        Sweep();
        return Err(TPELIMIT);
      }
      if cd > 0 {
        demux.RegisterFresh(cd, claimed);
        demux.RecordDeadline(cd, deadline);
      }
      r := Ok(cd);
    }

    method Collect(target: Target, data: TypedBuffer, nochange: bool) returns (r: Turn)
      modifies demux, data
      ensures !r.Failed? && demux.draining == old(demux.draining) && context.native == old(context.native)
      ensures r.Parks? ==> NothingFor(old(View()), target) && View() == old(View()) && data.View() == old(data.View())
      ensures r.Collected? ==> Collects(old(View()), View(), target, r.cd, old(data.View()), data.View(), r.told, nochange)
    {
      var ready := demux.TakeReady(target, data, nochange, context);
      r := if ready.Some? then Collected(ready.value.0, ready.value.1) else Parks;
    }

    /** One turn of the loop up to its wait: collect, drain, collect again, report a queue failure. */
    method TryCollect(target: Target, data: TypedBuffer, nochange: bool, nonblock: bool) returns (r: Turn)
      modifies demux, context, data
      ensures BeforeWait(old(View()), Drained(old(demux.draining), old(View())), View(), target,
                         old(data.View()), data.View(), nochange, nonblock, r)
      ensures demux.draining == old(demux.draining)
      ensures r.Parks? ==> !TargetReady(View().d, target)
      ensures target.Any? && !r.Collected? && target.id in old(demux.anyWaiters) ==> target.id in demux.anyWaiters
    {
      r := Collect(target, data, nochange);
      if r.Collected? { return; }
      DrainFills(View());
      demux.Drain(context);
      r := Collect(target, data, nochange);
      if r.Collected? { return; }
      if target.Any? {
        var e := demux.TakeAnyError(target.id);
        if e.Some? { return Failed(e.value); }
      }
      if nonblock { return Failed(TPEBLOCK); }
    }

    /** One turn of the loop from its wait on: drain, collect, and at the deadline give up. */
    method AfterWake(target: Target, data: TypedBuffer, nochange: bool, late: bool, cancelOnTimeout: bool) returns (r: Turn)
      modifies demux, context, data
      ensures AfterWait(Drained(old(demux.draining), old(View())), View(), target,
                        old(data.View()), data.View(), nochange, late, demux.draining, cancelOnTimeout, r)
      ensures demux.draining == old(demux.draining)
    {
      demux.Drain(context);
      r := Collect(target, data, nochange);
      if r.Collected? || !late { return; }
      match target {
        case One(cd) => if cancelOnTimeout { TpCancel(cd); } else { ReleaseSlot(cd); }
        case Any(_) =>
      }
      r := Failed(TPETIME);
    }

    /** One poll of the wait. The waker is parked before readiness is looked at, and readiness is looked
        at before the reactor and the clock. */
    method PollWait(target: Target, waker: Waker, readable: Option<bool>, expired: bool) returns (r: Wake)
      modifies demux
      ensures View() == old(View()).(d := DemuxModel.ParkWaker(old(View().d), target, waker))
      ensures demux.draining == old(demux.draining)
      ensures TargetReady(View().d, target) ==> r == Progress
      ensures r == Unready <==> !TargetReady(View().d, target) && readable == None && !expired
      ensures r == Timeout <==> !TargetReady(View().d, target) && readable == None && expired
      ensures r == Broken <==> !TargetReady(View().d, target) && readable == Some(false)
    {
      demux.ParkWaker(target, waker);
      var ready := demux.IsTargetReady(target);
      r := if ready then Progress
           else if readable.Some? then (if readable.value then Progress else Broken)
           else if expired then Timeout else Unready;
    }

    /** The guard of a `tpcall`: an unfinished call is cancelled, a finished one only forgotten. */
    method DropPending(cd: int, armed: bool)
      modifies demux, context
      ensures View() == if armed then AfterCancel(old(demux.draining), old(View()), cd) else DemuxModel.ReleaseSlot(old(View()), cd)
    {
      if armed { TpCancel(cd); } else { ReleaseSlot(cd); }
    }

    /** Dropping the adapter frees what the demultiplexer holds and nothing else. */
    method Close()
      requires Owned(View())
      modifies demux, context
      ensures context.native == Freed(old(context.native), Held(old(View().d)))
      ensures context.native.heap.Keys == Callers(old(View()))
    {
      demux.Release(context);
    }
  }
}
