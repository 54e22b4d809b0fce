/** Wake-ups over all runs. */
module DemuxWakeups {
  import opened Xatmi
  import opened DemuxModel
  import opened DemuxBuffers
  import opened DemuxWorld
  import opened DemuxClaims

  /** The target is not ready, and whatever makes it ready calls this waker. */
  ghost predicate Armed(d: Demux, target: Target, waker: Waker) {
    match target
    case One(cd) => cd in d.slots && d.slots[cd].Waiting? && d.slots[cd].waker == Some(waker)
    case Any(id) =>
      && id in d.anyWaiters && d.anyWaiters[id].waker == Some(waker) && d.anyWaiters[id].error.None?
      && forall cd :: !Unclaimed(d.slots, cd)
  }

  lemma ArmedNotReady(d: Demux, target: Target, waker: Waker)
    requires Armed(d, target, waker)
    ensures !TargetReady(d, target)
  {
  }

  /** Every future that is pending and was not notified is armed with the waker of its last poll. */
  ghost predicate Alert(w: World) {
    forall t :: t in w.tasks && t in w.waits && w.waits[t].Pending? && !w.waits[t].notified
      ==> Armed(w.s.d, TargetOf(w.tasks[t]), w.waits[t].waker)
  }

  /** An operation keeps a waiter armed or calls its waker. */
  ghost predicate KeepsOrWakes(s: Sys, t: Sys, target: Target) {
    forall k :: Armed(s.d, target, k) ==> Armed(t.d, target, k) || k in t.woken
  }

  // ----- operations

  lemma AnyWoken(any: map<nat, AnyWaiter>, id: nat)
    requires id in any && any[id].waker.Some?
    ensures any[id].waker.value in AnyWakers(any)
  {
  }

  lemma RouteWakes(s: Sys, cd: int, o: Outcome, b: Parked, target: Target)
    ensures KeepsOrWakes(s, Route(s, cd, o, b), target)
  {
    if !IsReady(s.d.slots, cd) {
      forall k | Armed(s.d, target, k) ensures Armed(Route(s, cd, o, b).d, target, k) || k in Route(s, cd, o, b).woken {
        if target.Any? { AnyWoken(s.d.anyWaiters, target.id); }
      }
    }
  }

  lemma FailAllWakes(s: Sys, e: Error, target: Target)
    ensures KeepsOrWakes(s, FailAll(s, e), target)
  {
    forall k | Armed(s.d, target, k) ensures k in FailAll(s, e).woken {
      if target.Any? { AnyWoken(FailedAny(s.d.anyWaiters, e), target.id); }
      else { assert k in SlotWakers(s.d.slots); }
    }
  }

  lemma WakeAnyWakes(s: Sys, target: Target)
    ensures KeepsOrWakes(s, WakeAny(s), target)
  {
    forall k | Armed(s.d, target, k) ensures Armed(WakeAny(s).d, target, k) || k in WakeAny(s).woken {
      if target.Any? { AnyWoken(s.d.anyWaiters, target.id); }
    }
  }

  lemma DrainTurnWakes(s: Sys, target: Target)
    ensures KeepsOrWakes(s, DrainTurn(s).0, target)
  {
    match TakeScratch(s)
    case None => FailAllWakes(s, TPEOS, target);
    case Some((t, lent)) =>
      if t.n.queue != [] {
        var m := t.n.queue[0];
        var (n', p) := Receive(t.n, lent.ptr);
        var u := t.(n := n');
        var got := Parked(p, if m.cd > 0 then m.len else lent.len);
        if m.outcome != Failure(TPEBLOCK) {
          if m.cd > 0 { RouteWakes(u, m.cd, m.outcome, got, target); }
          else if m.outcome.Failure? { FailAllWakes(u.(d := Stash(u.d, got)), m.outcome.error, target); }
        }
      }
  }

  /** Dropping someone else's guard: the freed reply wakes every any-reply waiter. */
  lemma GuardWakes(s: Sys, g: Guard, target: Target)
    requires target != One(g.cd)
    ensures KeepsOrWakes(s, DropGuard(s, g), target)
  {
    forall k | Armed(s.d, target, k) ensures Armed(DropGuard(s, g).d, target, k) || k in DropGuard(s, g).woken {
      if target.Any? {
        AnyWoken(s.d.anyWaiters, target.id);
        if DropGuard(s, g).d.slots.Keys < s.d.slots.Keys {
          forall c ensures !Unclaimed(DropGuard(s, g).d.slots, c) { assert !Unclaimed(s.d.slots, c); }
        }
      }
    }
  }

  /** Removing another descriptor's slot, or registering or claiming one, readies nobody. */
  lemma SlotGoneWakes(s: Sys, t: Sys, cd: int, target: Target)
    requires target != One(cd) && t.d.slots == s.d.slots - {cd}
    requires t.d.anyWaiters == s.d.anyWaiters || (exists id :: target != Any(id) && t.d.anyWaiters == s.d.anyWaiters - {id})
    ensures KeepsOrWakes(s, t, target)
  {
    forall k | Armed(s.d, target, k) ensures Armed(t.d, target, k) {
      if target.Any? {
        forall c ensures !Unclaimed(t.d.slots, c) { assert !Unclaimed(s.d.slots, c); }
      }
    }
  }

  lemma SubmitWakes(w: World, t: nat, cd: int, claimed: bool, deadline: Option<nat>, lent: Parked, target: Target)
    ensures KeepsOrWakes(w.s, DoSubmit(w, t, cd, claimed, deadline, lent).s, target)
  {
    if cd in w.s.d.slots {
      var sent := w.s.(n := CancelNative(Outstanding(w.s.n, cd), cd));
      WakeAnyWakes(sent, target);
    } else {
      RegisterWakes(w.s.d, cd, claimed, deadline, target);
    }
  }

  lemma RegisterWakes(d: Demux, cd: int, claimed: bool, deadline: Option<nat>, target: Target)
    requires cd !in d.slots
    ensures forall k :: Armed(d, target, k) ==> Armed(Recorded(RegisterFresh(d, cd, claimed), cd, deadline), target, k)
  {
    var e := Recorded(RegisterFresh(d, cd, claimed), cd, deadline);
    forall k | Armed(d, target, k) ensures Armed(e, target, k) {
      if target.Any? { forall c ensures !Unclaimed(e.slots, c) { assert !Unclaimed(d.slots, c); } }
    }
  }

  lemma ClaimWakes(d: Demux, cd: int, target: Target)
    requires ClaimError(d, cd).None?
    ensures forall k :: Armed(d, target, k) ==> Armed(Claimed(d, cd).0, target, k)
  {
    var e := Claimed(d, cd).0;
    forall k | Armed(d, target, k) ensures Armed(e, target, k) {
      if target.Any? { forall c ensures !Unclaimed(e.slots, c) { assert !Unclaimed(d.slots, c); } }
    }
  }

  lemma ParkWakes(d: Demux, other: Target, waker: Waker, target: Target)
    requires target != other
    ensures forall k :: Armed(d, target, k) ==> Armed(ParkWaker(d, other, waker), target, k)
  {
    var e := ParkWaker(d, other, waker);
    forall k | Armed(d, target, k) ensures Armed(e, target, k) {
      if target.Any? { forall c ensures !Unclaimed(e.slots, c) { assert !Unclaimed(d.slots, c); } }
    }
  }

  /** A poll that finds nothing leaves the future armed with the waker it was polled with. */
  lemma ParkArms(d: Demux, target: Target, waker: Waker)
    requires match target case One(cd) => cd in d.slots case Any(id) => id in d.anyWaiters
    requires !TargetReady(ParkWaker(d, target, waker), target)
    ensures Armed(ParkWaker(d, target, waker), target, waker)
  {
    var e := ParkWaker(d, target, waker);
    if target.One? { assert !IsReady(e.slots, target.cd); }
  }

  // ----- futures

  lemma TargetsDiffer(w: World, t: nat, u: nat)
    requires Linked(w) && t in w.tasks && u in w.tasks && t != u
    ensures TargetOf(w.tasks[t]) != TargetOf(w.tasks[u])
  {
  }

  /** An event that keeps each remaining waiter armed or wakes it keeps every waiter alert. */
  lemma AlertFrom(w: World, v: World)
    requires Alert(w) && w.tasks.Keys == w.waits.Keys
    requires forall t :: t in v.tasks && t in v.waits && v.waits[t].Pending? && !v.waits[t].notified ==>
               && t in w.tasks && t in w.waits && w.tasks[t] == v.tasks[t] && w.waits[t] == v.waits[t]
               && KeepsOrWakes(w.s, v.s, TargetOf(w.tasks[t]))
    ensures Alert(v.(waits := Notify(v.waits, v.s.woken)))
  {
    var x := v.(waits := Notify(v.waits, v.s.woken));
    forall t | t in x.tasks && t in x.waits && x.waits[t].Pending? && !x.waits[t].notified
      ensures Armed(x.s.d, TargetOf(x.tasks[t]), x.waits[t].waker)
    {
      assert v.waits[t] == x.waits[t];
      assert Armed(w.s.d, TargetOf(w.tasks[t]), w.waits[t].waker);
    }
  }

  ghost predicate AlertAfter(v: World) {
    Alert(v.(waits := Notify(v.waits, v.s.woken)))
  }

  lemma SubmitAlert(w: World, t: nat, cd: int, claimed: bool, deadline: Option<nat>, lent: Parked)
    requires Linked(w) && Alert(w) && t !in w.tasks
    ensures AlertAfter(DoSubmit(w, t, cd, claimed, deadline, lent))
  {
    forall u | u in w.tasks ensures KeepsOrWakes(w.s, DoSubmit(w, t, cd, claimed, deadline, lent).s, TargetOf(w.tasks[u])) {
      SubmitWakes(w, t, cd, claimed, deadline, lent, TargetOf(w.tasks[u]));
    }
    AlertFrom(w, DoSubmit(w, t, cd, claimed, deadline, lent));
  }

  lemma StartNamedAlert(w: World, t: nat, cd: int, lent: Parked)
    requires Linked(w) && Alert(w) && t !in w.tasks
    ensures AlertAfter(DoStartNamed(w, t, cd, lent))
  {
    if ClaimError(w.s.d, cd).None? {
      forall u | u in w.tasks ensures KeepsOrWakes(w.s, DoStartNamed(w, t, cd, lent).s, TargetOf(w.tasks[u])) {
        ClaimWakes(w.s.d, cd, TargetOf(w.tasks[u]));
      }
    }
    AlertFrom(w, DoStartNamed(w, t, cd, lent));
  }

  lemma StartAnyAlert(w: World, t: nat, lent: Parked)
    requires Linked(w) && Alert(w) && t !in w.tasks && w.s.d.nextAnyId < U64_MAX
    ensures AlertAfter(DoStartAny(w, t, lent))
  {
    forall u | u in w.tasks ensures KeepsOrWakes(w.s, DoStartAny(w, t, lent).s, TargetOf(w.tasks[u])) {
      JoinWakes(w.s.d, TargetOf(w.tasks[u]));
    }
    AlertFrom(w, DoStartAny(w, t, lent));
  }

  lemma JoinWakes(d: Demux, target: Target)
    requires d.nextAnyId < U64_MAX && forall id :: id in d.anyWaiters ==> id <= d.nextAnyId
    ensures forall k :: Armed(d, target, k) ==> Armed(RegisterAny(d).0, target, k)
  {
  }

  lemma DrainAlert(w: World)
    requires Linked(w) && Alert(w)
    ensures AlertAfter(DoDrain(w))
  {
    forall u | u in w.tasks ensures KeepsOrWakes(w.s, DrainTurn(w.s).0, TargetOf(w.tasks[u])) {
      DrainTurnWakes(w.s, TargetOf(w.tasks[u]));
    }
    AlertFrom(w, DoDrain(w));
  }

  lemma PollAlert(w: World, t: nat, waker: Waker, other: bool)
    requires Linked(w) && Alert(w) && t in w.tasks && w.s.woken == {}
    ensures AlertAfter(DoPoll(w, t, waker, other))
  {
    var v := DoPoll(w, t, waker, other);
    forall u | u in v.tasks && u in v.waits && v.waits[u].Pending? && !v.waits[u].notified
      ensures Armed(v.s.d, TargetOf(v.tasks[u]), v.waits[u].waker)
    {
      if u != t { PollLeaves(w, t, waker, u); } else { PollArms(w, t, waker); }
    }
    QuietAlert(v);
  }

  lemma QuietAlert(v: World)
    requires Alert(v) && v.s.woken == {}
    ensures AlertAfter(v)
  {
    assert Notify(v.waits, {}) == v.waits;
  }

  /** A poll that finds nothing arms its own future. */
  lemma PollArms(w: World, t: nat, waker: Waker)
    requires Linked(w) && t in w.tasks && !TargetReady(ParkWaker(w.s.d, TargetOf(w.tasks[t]), waker), TargetOf(w.tasks[t]))
    ensures Armed(ParkWaker(w.s.d, TargetOf(w.tasks[t]), waker), TargetOf(w.tasks[t]), waker)
  {
    if Names(w.tasks[t]) { assert HoldsClaim(w.s.d.slots, w.tasks[t]); }
    ParkArms(w.s.d, TargetOf(w.tasks[t]), waker);
  }

  /** A poll leaves the other futures armed. */
  lemma PollLeaves(w: World, t: nat, waker: Waker, u: nat)
    requires Linked(w) && Alert(w) && t in w.tasks && u in w.tasks && u != t
    requires u in w.waits && w.waits[u].Pending? && !w.waits[u].notified
    ensures Armed(ParkWaker(w.s.d, TargetOf(w.tasks[t]), waker), TargetOf(w.tasks[u]), w.waits[u].waker)
  {
    TargetsDiffer(w, t, u);
    ParkWakes(w.s.d, TargetOf(w.tasks[t]), waker, TargetOf(w.tasks[u]));
  }

  lemma TakeAlert(w: World, t: nat, cd: int, nochange: bool)
    requires Linked(w) && Alert(w) && Enabled(w, Take(t, cd, nochange))
    ensures AlertAfter(DoTake(w, t, cd, nochange))
  {
    var v := DoTake(w, t, cd, nochange);
    TakeShape(w.s, w.tasks[t], cd, w.data[t], nochange);
    forall u | u in v.tasks ensures KeepsOrWakes(w.s, v.s, TargetOf(w.tasks[u])) {
      TargetsDiffer(w, t, u);
      if Names(w.tasks[u]) { assert HoldsClaim(w.s.d.slots, w.tasks[u]); }
      SlotGoneWakes(w.s, v.s, cd, TargetOf(w.tasks[u]));
    }
    AlertFrom(w, v);
  }

  lemma LeaveWakes(s: Sys, k: Kind, timedOut: bool, target: Target)
    requires target != TargetOf(k)
    ensures KeepsOrWakes(s, Left(s, k, timedOut), target)
  {
    match k
    case CallOn(cd, _) => SlotGoneWakes(s, CancelCall(s, cd), cd, target);
    case NamedOn(g) =>
      if timedOut { SlotGoneWakes(s, CancelCall(s, g.cd), g.cd, target); } else { GuardWakes(s, g, target); }
    case AnyOn(id) =>
      forall k | Armed(s.d, target, k) ensures Armed(Left(s, AnyOn(id), timedOut).d, target, k) {}
  }

  lemma LeaveAlert(w: World, t: nat, timedOut: bool)
    requires Linked(w) && Alert(w) && t in w.tasks
    ensures AlertAfter(WithoutTask(w, t).(s := Left(w.s, w.tasks[t], timedOut)))
  {
    var v := WithoutTask(w, t).(s := Left(w.s, w.tasks[t], timedOut));
    forall u | u in v.tasks ensures KeepsOrWakes(w.s, v.s, TargetOf(w.tasks[u])) {
      TargetsDiffer(w, t, u);
      LeaveWakes(w.s, w.tasks[t], timedOut, TargetOf(w.tasks[u]));
    }
    AlertFrom(w, v);
  }

  lemma CancelAlert(w: World, cd: int)
    requires Linked(w) && Alert(w) && !Waited(w.tasks, cd)
    ensures AlertAfter(w.(s := CancelCall(w.s, cd)))
  {
    forall u | u in w.tasks ensures KeepsOrWakes(w.s, CancelCall(w.s, cd), TargetOf(w.tasks[u])) {
      SlotGoneWakes(w.s, CancelCall(w.s, cd), cd, TargetOf(w.tasks[u]));
    }
    AlertFrom(w, w.(s := CancelCall(w.s, cd)));
  }

  lemma WakeAlert(w: World)
    requires Linked(w) && Alert(w)
    ensures AlertAfter(w.(s := WakeAny(w.s)))
  {
    forall u | u in w.tasks ensures KeepsOrWakes(w.s, WakeAny(w.s), TargetOf(w.tasks[u])) {
      WakeAnyWakes(w.s, TargetOf(w.tasks[u]));
    }
    AlertFrom(w, w.(s := WakeAny(w.s)));
  }

  lemma StepAlert(w: World, e: Event)
    requires Linked(w) && Alert(w) && Enabled(w, e) && w.s.woken == {}
    ensures AlertAfter(Step(w, e))
  {
    match e
    case Submit(t, cd, claimed, deadline, lent) => SubmitAlert(w, t, cd, claimed, deadline, lent);
    case RawSubmit(_) => AlertFrom(w, Step(w, e));
    case StartNamed(t, cd, lent) => StartNamedAlert(w, t, cd, lent);
    case StartAny(t, lent) => StartAnyAlert(w, t, lent);
    case Arrive(_) => AlertFrom(w, Step(w, e));
    case DrainOne => DrainAlert(w);
    case Poll(t, waker, other) => PollAlert(w, t, waker, other);
    case Take(t, cd, nochange) => TakeAlert(w, t, cd, nochange);
    case Leave(t, timedOut) => LeaveAlert(w, t, timedOut);
    case UserCancel(cd) => CancelAlert(w, cd);
    case WakeAnyWaiters => WakeAlert(w);
  }

  /** Whatever happens, a pending future that was not woken since its last poll is armed. */
  lemma NextAlert(w: World, e: Event)
    requires Linked(w) && Alert(w) && Enabled(w, e)
    ensures Alert(Next(w, e))
  {
    var quiet := w.(s := w.s.(woken := {}));
    assert Linked(quiet) && Alert(quiet);
    StepAlert(quiet, e);
    var v := Step(quiet, e);
    var x := v.(waits := Notify(v.waits, v.s.woken));
    assert Next(w, e) == x.(gens := Next(w, e).gens);
  }
}
