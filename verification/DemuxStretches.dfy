/** The adapter's stretches of code between its await points are runs of events: submission, starting and
    polling a wait, draining, parking, collecting, giving up, timing out, cancelling. So what is proved of every run
    of events holds of every interleaving of these stretches. */
module DemuxStretches {
  import opened Xatmi
  import opened DemuxModel
  import opened DemuxWorld
  import opened DemuxClaims
  import opened DemuxWakeups
  import opened AsyncAtmi

  /** The world after the events `es`. */
  ghost function Play(w: World, es: seq<Event>): World
    requires Playable(w, es)
    decreases |es|
  {
    if es == [] then w else Play(Next(w, es[0]), es[1..])
  }

  ghost predicate Playable(w: World, es: seq<Event>)
    decreases |es|
  {
    es == [] || (Enabled(w, es[0]) && w.tasks.Keys == w.data.Keys && Playable(Next(w, es[0]), es[1..]))
  }

  /** The same tables and the same native state; the wakers called are recorded per event instead. */
  ghost predicate Same(s: Sys, t: Sys) {
    s.d == t.d && s.n == t.n
  }

  /** The events `es` lead from `w` to the state `t`, and leave the futures in `tasks`. */
  ghost predicate Leads(w: World, es: seq<Event>, t: Sys, tasks: map<nat, Kind>) {
    Playable(w, es) && Same(Play(w, es).s, t) && Play(w, es).tasks == tasks && tasks.Keys == Play(w, es).data.Keys
  }

  /** One event first. */
  lemma LeadsFrom(w: World, e: Event, es: seq<Event>, t: Sys, tasks: map<nat, Kind>)
    requires Enabled(w, e) && w.tasks.Keys == w.data.Keys && Leads(Next(w, e), es, t, tasks)
    ensures Leads(w, [e] + es, t, tasks)
  {
    assert ([e] + es)[1..] == es;
  }

  /** One stretch after another. */
  lemma {:induction false} Append(w: World, es: seq<Event>, fs: seq<Event>, s: Sys, tasks: map<nat, Kind>, t: Sys, later: map<nat, Kind>)
    requires Leads(w, es, s, tasks) && Leads(Play(w, es), fs, t, later)
    ensures Leads(w, es + fs, t, later) && Play(w, es + fs) == Play(Play(w, es), fs)
    decreases |es|
  {
    if es == [] { assert es + fs == fs; }
    else {
      assert (es + fs)[0] == es[0] && (es + fs)[1..] == es[1..] + fs;
      Append(Next(w, es[0]), es[1..], fs, s, tasks, t, later);
    }
  }

  // ----- what the code does never depends on the wakers called before

  lemma FailAllSame(s: Sys, t: Sys, e: Error)
    requires Same(s, t)
    ensures Same(FailAll(s, e), FailAll(t, e))
  {
  }

  lemma TurnSame(s: Sys, t: Sys)
    requires Same(s, t)
    ensures Same(DrainTurn(s).0, DrainTurn(t).0) && DrainTurn(s).1 == DrainTurn(t).1
  {
    if TakeScratch(s).None? { FailAllSame(s, t, TPEOS); }
    else if s.n.queue != [] {
      var u, v := TakeScratch(s).value.0, TakeScratch(t).value.0;
      assert Same(u, v) && TakeScratch(s).value.1 == TakeScratch(t).value.1;
    }
  }

  lemma {:induction false} DrainSame(s: Sys, t: Sys)
    requires Same(s, t)
    ensures Same(Drain(s), Drain(t))
    decreases |s.n.queue|
  {
    TurnSame(s, t);
    if DrainTurn(s).1 { DrainSame(DrainTurn(s).0, DrainTurn(t).0); }
  }

  lemma CancelSame(s: Sys, t: Sys, cd: int)
    requires Same(s, t)
    ensures Same(TpCancel(s, cd), TpCancel(t, cd)) && Same(ReleaseSlot(s, cd), ReleaseSlot(t, cd))
  {
    DrainSame(CancelCall(s, cd), CancelCall(t, cd));
  }

  lemma NextDrainOne(w: World)
    requires w.tasks.Keys == w.data.Keys
    ensures Enabled(w, DrainOne) && Same(Next(w, DrainOne).s, DrainTurn(w.s).0)
    ensures Next(w, DrainOne).tasks == w.tasks && Next(w, DrainOne).data == w.data
  {
    TurnSame(w.s.(woken := {}), w.s);
  }

  // ----- the stretches

  /** A whole drain is a run of single turns. */
  lemma {:induction false} DrainIsRun(w: World, s: Sys) returns (es: seq<Event>)
    requires w.tasks.Keys == w.data.Keys && Same(w.s, s)
    ensures Leads(w, es, Drain(s), w.tasks)
    decreases |s.n.queue|
  {
    NextDrainOne(w);
    TurnSame(w.s, s);
    var v := Next(w, DrainOne);
    if DrainTurn(s).1 {
      var fs := DrainIsRun(v, DrainTurn(s).0);
      LeadsFrom(w, DrainOne, fs, Drain(s), w.tasks);
      es := [DrainOne] + fs;
    } else {
      assert Leads(v, [], Drain(s), w.tasks);
      LeadsFrom(w, DrainOne, [], Drain(s), w.tasks);
      es := [DrainOne] + [];
    }
  }

  /** So is a drain followed by waking the any-reply waiters. */
  lemma {:induction false} SweepIsRun(w: World, s: Sys) returns (es: seq<Event>)
    requires w.tasks.Keys == w.data.Keys && Same(w.s, s)
    ensures Leads(w, es, WakeAny(Drain(s)), w.tasks)
    decreases |s.n.queue|
  {
    NextDrainOne(w);
    TurnSame(w.s, s);
    var v, t := Next(w, DrainOne), DrainTurn(s).0;
    if DrainTurn(s).1 {
      var fs := SweepIsRun(v, t);
      LeadsFrom(w, DrainOne, fs, WakeAny(Drain(s)), w.tasks);
      es := [DrainOne] + fs;
    } else {
      WakeIsRun(v, t);
      LeadsFrom(w, DrainOne, [WakeAnyWaiters] + [], WakeAny(Drain(s)), w.tasks);
      es := [DrainOne] + ([WakeAnyWaiters] + []);
    }
  }

  lemma WakeIsRun(w: World, s: Sys)
    requires w.tasks.Keys == w.data.Keys && Same(w.s, s)
    ensures Leads(w, [WakeAnyWaiters] + [], WakeAny(s), w.tasks)
  {
    assert Leads(Next(w, WakeAnyWaiters), [], WakeAny(s), w.tasks);
    LeadsFrom(w, WakeAnyWaiters, [], WakeAny(s), w.tasks);
  }

  /** An event and then a sweep. */
  lemma ThenSweep(w: World, e: Event, s: Sys) returns (es: seq<Event>)
    requires Enabled(w, e) && w.tasks.Keys == w.data.Keys
    requires Same(Next(w, e).s, s) && Next(w, e).tasks.Keys == Next(w, e).data.Keys
    ensures Leads(w, es, WakeAny(Drain(s)), Next(w, e).tasks)
  {
    var fs := SweepIsRun(Next(w, e), s);
    LeadsFrom(w, e, fs, WakeAny(Drain(s)), Next(w, e).tasks);
    es := [e] + fs;
  }

  /** `tpcancel` by a program, on a descriptor nobody waits on. */
  lemma CancelIsRun(w: World, cd: int) returns (es: seq<Event>)
    requires w.tasks.Keys == w.data.Keys && !Waited(w.tasks, cd)
    ensures Leads(w, es, TpCancel(w.s, cd), w.tasks)
  {
    es := ThenSweep(w, UserCancel(cd), CancelCall(w.s, cd));
  }

  /** A `tpcall` that ends without a reply: dropped, failed or, as `await_reply` first releases the
      slot at the deadline, timed out. */
  lemma CallEndsIsRun(w: World, t: nat, timedOut: bool) returns (es: seq<Event>)
    requires w.tasks.Keys == w.data.Keys && t in w.tasks && w.tasks[t].CallOn?
    ensures var cd := w.tasks[t].cd;
            Leads(w, es, TpCancel(if timedOut then ReleaseSlot(w.s, cd) else w.s, cd), w.tasks - {t})
  {
    var cd := w.tasks[t].cd;
    assert Same(CancelCall(ReleaseSlot(w.s, cd), cd), CancelCall(w.s, cd)) by {
      assert w.s.d.slots - {cd} - {cd} == w.s.d.slots - {cd};
      assert w.s.d.deadlines - {cd} - {cd} == w.s.d.deadlines - {cd};
    }
    es := ThenSweep(w, Leave(t, timedOut), CancelCall(if timedOut then ReleaseSlot(w.s, cd) else w.s, cd));
  }

  lemma CallTakes(w: World, t: nat, nochange: bool)
    requires w.tasks.Keys == w.data.Keys && t in w.tasks && w.tasks[t].CallOn? && IsReady(w.s.d.slots, w.tasks[t].cd)
    ensures Enabled(w, Take(t, w.tasks[t].cd, nochange))
    ensures var v := Next(w, Take(t, w.tasks[t].cd, nochange));
            var (s, _, told) := TakeSlot(w.s, w.tasks[t].cd, w.data[t], nochange);
            && v.tasks == w.tasks - {t} && v.data.Keys == v.tasks.Keys
            && Same(v.s, if told == Success then ReleaseSlot(s, w.tasks[t].cd) else CancelCall(s, w.tasks[t].cd))
  {
  }

  /** A `tpcall` that collected its reply: the guard forgets a successful call and cancels another. */
  lemma CallCompletesIsRun(w: World, t: nat, nochange: bool) returns (es: seq<Event>)
    requires w.tasks.Keys == w.data.Keys && t in w.tasks && w.tasks[t].CallOn? && IsReady(w.s.d.slots, w.tasks[t].cd)
    ensures var cd := w.tasks[t].cd;
            var (s, _, told) := TakeSlot(w.s, cd, w.data[t], nochange);
            Leads(w, es, if told == Success then ReleaseSlot(s, cd) else TpCancel(s, cd), w.tasks - {t})
  {
    var cd := w.tasks[t].cd;
    var (s, _, told) := TakeSlot(w.s, cd, w.data[t], nochange);
    var e := Take(t, cd, nochange);
    CallTakes(w, t, nochange);
    if told == Success {
      LeadsFrom(w, e, [], ReleaseSlot(s, cd), w.tasks - {t});
      es := [e] + [];
    } else {
      es := ThenSweep(w, e, CancelCall(s, cd));
    }
  }

  /** No waiter's claim appears by draining. */
  lemma {:induction false} DrainClaimsNothing(s: Sys, cd: int, id: nat)
    requires !(cd in s.d.slots && s.d.slots[cd].claim == Some(Waiter(id)))
    ensures !(cd in Drain(s).d.slots && Drain(s).d.slots[cd].claim == Some(Waiter(id)))
    decreases |s.n.queue|
  {
    if DrainTurn(s).1 { DrainClaimsNothing(DrainTurn(s).0, cd, id); }
  }

  /** A named `tpgetrply` at its deadline: it cancels its call, and its claim goes with the slot. */
  lemma NamedTimeoutIsRun(w: World, t: nat) returns (es: seq<Event>)
    requires w.tasks.Keys == w.data.Keys && t in w.tasks && w.tasks[t].NamedOn?
    ensures var g := w.tasks[t].guard;
            Leads(w, es, DropGuard(TpCancel(w.s, g.cd), g), w.tasks - {t})
  {
    var g := w.tasks[t].guard;
    DrainClaimsNothing(CancelCall(w.s, g.cd), g.cd, g.id);
    assert DropGuard(TpCancel(w.s, g.cd), g) == TpCancel(w.s, g.cd);
    es := ThenSweep(w, Leave(t, true), CancelCall(w.s, g.cd));
  }

  /** A submission, accepted or refused. */
  lemma SubmitIsRun(w: World, t: nat, cd: int, claimed: bool, deadline: Option<nat>, lent: Parked) returns (es: seq<Event>)
    requires w.tasks.Keys == w.data.Keys && Enabled(w, Submit(t, cd, claimed, deadline, lent))
    ensures var sent := w.s.(n := Outstanding(w.s.n, cd));
            var u := RegisterSubmission(sent, cd, deadline, claimed);
            Leads(w, es, u.0, if claimed && u.1.None? then w.tasks[t := CallOn(cd, w.s.n.nextGen)] else w.tasks)
  {
    var sent := w.s.(n := Outstanding(w.s.n, cd));
    var e := Submit(t, cd, claimed, deadline, lent);
    if cd in w.s.d.slots {
      es := ThenSweep(w, e, sent.(n := CancelNative(sent.n, cd)));
    } else {
      var u := RegisterSubmission(sent, cd, deadline, claimed).0;
      var tasks := if claimed then w.tasks[t := CallOn(cd, w.s.n.nextGen)] else w.tasks;
      assert Leads(Next(w, e), [], u, tasks);
      LeadsFrom(w, e, [], u, tasks);
      es := [e] + [];
    }
  }

  /** One event and no more. */
  lemma OneEvent(w: World, e: Event, s: Sys, tasks: map<nat, Kind>)
    requires Enabled(w, e) && w.tasks.Keys == w.data.Keys && Same(Next(w, e).s, s)
    requires Next(w, e).tasks == tasks && tasks.Keys == Next(w, e).data.Keys
    ensures Leads(w, [e], s, tasks)
  {
    assert Leads(Next(w, e), [], s, tasks);
    LeadsFrom(w, e, [], s, tasks);
    assert [e] + [] == [e];
  }

  // ----- tpgetrply

  /** A `tpgetrply` that names a descriptor and may: it claims the slot. */
  lemma NamedStartIsRun(w: World, t: nat, cd: int, lent: Parked)
    requires w.tasks.Keys == w.data.Keys && t !in w.tasks && Lendable(w, lent) && ClaimError(w.s.d, cd).None?
    ensures var (d, g) := Claimed(w.s.d, cd);
            Leads(w, [StartNamed(t, cd, lent)], w.s.(d := d), w.tasks[t := NamedOn(g)])
  {
    OneEvent(w, StartNamed(t, cd, lent), w.s.(d := Claimed(w.s.d, cd).0), w.tasks[t := NamedOn(Claimed(w.s.d, cd).1)]);
  }

  /** One that may not: nothing happens. */
  lemma NamedRefusedIsRun(w: World, t: nat, cd: int, lent: Parked)
    requires w.tasks.Keys == w.data.Keys && t !in w.tasks && Lendable(w, lent) && ClaimError(w.s.d, cd).Some?
    ensures Leads(w, [StartNamed(t, cd, lent)], w.s, w.tasks)
  {
    OneEvent(w, StartNamed(t, cd, lent), w.s, w.tasks);
  }

  /** An any-reply `tpgetrply` registers. */
  lemma AnyStartIsRun(w: World, t: nat, lent: Parked)
    requires w.tasks.Keys == w.data.Keys && t !in w.tasks && Lendable(w, lent) && w.s.d.nextAnyId < U64_MAX
    ensures var (d, id) := RegisterAny(w.s.d);
            Leads(w, [StartAny(t, lent)], w.s.(d := d), w.tasks[t := AnyOn(id)])
  {
    OneEvent(w, StartAny(t, lent), w.s.(d := RegisterAny(w.s.d).0), w.tasks[t := AnyOn(RegisterAny(w.s.d).1)]);
  }

  /** A poll of any waiting future, as `PollWait` does it: the waker is parked, and the future goes on
      waiting only if its target is not ready and neither the reactor nor the clock woke it. */
  lemma PollIsRun(w: World, t: nat, waker: Waker, otherWake: bool)
    requires w.tasks.Keys == w.data.Keys && t in w.tasks
    ensures Leads(w, [Poll(t, waker, otherWake)], w.s.(d := ParkWaker(w.s.d, TargetOf(w.tasks[t]), waker)), w.tasks)
    ensures var u := Next(w, Poll(t, waker, otherWake));
            t in u.waits && (u.waits[t] == Pending(waker, false)
                             <==> !otherWake && !TargetReady(ParkWaker(w.s.d, TargetOf(w.tasks[t]), waker), TargetOf(w.tasks[t])))
  {
    OneEvent(w, Poll(t, waker, otherWake), w.s.(d := ParkWaker(w.s.d, TargetOf(w.tasks[t]), waker)), w.tasks);
  }

  lemma GetTakes(w: World, t: nat, cd: int, nochange: bool)
    requires w.tasks.Keys == w.data.Keys && t in w.tasks && Enabled(w, Take(t, cd, nochange))
    ensures var v := Next(w, Take(t, cd, nochange));
            var (s, _, told) := TakeSlot(w.s, cd, w.data[t], nochange);
            && v.tasks == w.tasks - {t} && v.data.Keys == v.tasks.Keys && Same(v.s, Finished(s, w.tasks[t], cd, told))
  {
    NextFrom(w, Take(t, cd, nochange));
    var quiet := w.s.(woken := {});
    var (s, _, told) := TakeSlot(w.s, cd, w.data[t], nochange);
    var (q, _, quietly) := TakeSlot(quiet, cd, w.data[t], nochange);
    assert Same(q, s) && quietly == told;
    FinishedSame(q, s, w.tasks[t], cd, told);
  }

  lemma FinishedSame(s: Sys, t: Sys, k: Kind, cd: int, told: Outcome)
    requires Same(s, t)
    ensures Same(Finished(s, k, cd, told), Finished(t, k, cd, told))
  {
  }

  /** A named `tpgetrply` that collects: it forgets the deadline and drops its claim. */
  lemma NamedCompletesIsRun(w: World, t: nat, nochange: bool)
    requires w.tasks.Keys == w.data.Keys && t in w.tasks && w.tasks[t].NamedOn? && IsReady(w.s.d.slots, w.tasks[t].guard.cd)
    ensures var g := w.tasks[t].guard;
            var (s, _, _) := TakeSlot(w.s, g.cd, w.data[t], nochange);
            Leads(w, [Take(t, g.cd, nochange)], DropGuard(s.(d := Forgotten(s.d, g.cd)), g), w.tasks - {t})
  {
    var g := w.tasks[t].guard;
    var (s, _, told) := TakeSlot(w.s, g.cd, w.data[t], nochange);
    GetTakes(w, t, g.cd, nochange);
    OneEvent(w, Take(t, g.cd, nochange), Finished(s, w.tasks[t], g.cd, told), w.tasks - {t});
  }

  /** An any-reply `tpgetrply` that collects an unclaimed reply: it forgets that call's deadline and
      deregisters. */
  lemma AnyCompletesIsRun(w: World, t: nat, cd: int, nochange: bool)
    requires w.tasks.Keys == w.data.Keys && t in w.tasks && w.tasks[t].AnyOn? && Unclaimed(w.s.d.slots, cd)
    ensures var (s, _, _) := TakeSlot(w.s, cd, w.data[t], nochange);
            Leads(w, [Take(t, cd, nochange)], s.(d := DeregisterAny(Forgotten(s.d, cd), w.tasks[t].id)), w.tasks - {t})
  {
    var (s, _, told) := TakeSlot(w.s, cd, w.data[t], nochange);
    GetTakes(w, t, cd, nochange);
    OneEvent(w, Take(t, cd, nochange), Finished(s, w.tasks[t], cd, told), w.tasks - {t});
  }

  /** A named `tpgetrply` that is dropped, or reports that nothing is there: its claim goes. */
  lemma NamedLeavesIsRun(w: World, t: nat)
    requires w.tasks.Keys == w.data.Keys && t in w.tasks && w.tasks[t].NamedOn?
    ensures Leads(w, [Leave(t, false)], DropGuard(w.s, w.tasks[t].guard), w.tasks - {t})
  {
    OneEvent(w, Leave(t, false), DropGuard(w.s, w.tasks[t].guard), w.tasks - {t});
  }

  /** An any-reply `tpgetrply` that is dropped, times out, finds nothing, or ends with its pending queue
      error: its registration goes, and the error with it. */
  lemma AnyLeavesIsRun(w: World, t: nat, timedOut: bool)
    requires w.tasks.Keys == w.data.Keys && t in w.tasks && w.tasks[t].AnyOn?
    ensures var id := w.tasks[t].id;
            && Leads(w, [Leave(t, timedOut)], w.s.(d := DeregisterAny(w.s.d, id)), w.tasks - {t})
            && Leads(w, [Leave(t, timedOut)], w.s.(d := DeregisterAny(TakeAnyError(w.s.d, id).0, id)), w.tasks - {t})
  {
    var id := w.tasks[t].id;
    assert TakeAnyError(w.s.d, id).0.anyWaiters - {id} == w.s.d.anyWaiters - {id};
    OneEvent(w, Leave(t, timedOut), w.s.(d := DeregisterAny(w.s.d, id)), w.tasks - {t});
  }

  // ----- await_reply from one await point to the next

  lemma ParkKeepsReady(d: Demux, target: Target, waker: Waker)
    ensures TargetReady(ParkWaker(d, target, waker), target) <==> TargetReady(d, target)
  {
    var e := ParkWaker(d, target, waker);
    if target.Any? { assert e.slots == d.slots; }
  }

  /** A future that drains, finds nothing and waits. It is pending with its waker parked exactly if its target
      is not ready after the drain and nothing else woke it; and then its claim, or its registration, is
      there with that waker, so that whatever makes the target ready calls it. */
  lemma ParkingIsRun(w: World, t: nat, waker: Waker, otherWake: bool) returns (es: seq<Event>)
    requires w.tasks.Keys == w.data.Keys && t in w.tasks && Linked(w)
    ensures var target := TargetOf(w.tasks[t]);
            && Leads(w, es, Drain(w.s).(d := ParkWaker(Drain(w.s).d, target, waker)), w.tasks)
            && t in Play(w, es).waits
            && (Play(w, es).waits[t] == Pending(waker, false) <==> !otherWake && !TargetReady(Drain(w.s).d, target))
            && (!TargetReady(Drain(w.s).d, target) ==> Armed(Play(w, es).s.d, target, waker))
  {
    var target := TargetOf(w.tasks[t]);
    var drains := DrainIsRun(w, w.s);
    var v := Play(w, drains);
    PollIsRun(v, t, waker, otherWake);
    ParkKeepsReady(v.s.d, target, waker);
    Append(w, drains, [Poll(t, waker, otherWake)], Drain(w.s), w.tasks, v.s.(d := ParkWaker(v.s.d, target, waker)), w.tasks);
    es := drains + [Poll(t, waker, otherWake)];
    assert Play(v, [Poll(t, waker, otherWake)]) == Next(v, Poll(t, waker, otherWake));
    StillThere(w, t);
    if !TargetReady(v.s.d, target) { ParkArms(v.s.d, target, waker); }
  }

  /** What the future waits for, its slot or its registration, is still there after a drain. */
  lemma StillThere(w: World, t: nat)
    requires Linked(w) && t in w.tasks
    ensures match TargetOf(w.tasks[t]) case One(cd) => cd in Drain(w.s).d.slots case Any(id) => id in Drain(w.s).d.anyWaiters
  {
    DrainFills(w.s);
    if Names(w.tasks[t]) { assert HoldsClaim(w.s.d.slots, w.tasks[t]); }
  }

  lemma ParkArms(d: Demux, target: Target, waker: Waker)
    requires match target case One(cd) => cd in d.slots case Any(id) => id in d.anyWaiters
    requires !TargetReady(d, target)
    ensures Armed(ParkWaker(d, target, waker), target, waker)
  {
    if target.Any? { assert ParkWaker(d, target, waker).slots == d.slots; }
  }

  /** A `tpcall` whose wait ends at the deadline: it drains, finds nothing, releases its slot, and its guard
      cancels the call. */
  lemma CallGivesUpIsRun(w: World, t: nat) returns (es: seq<Event>)
    requires w.tasks.Keys == w.data.Keys && t in w.tasks && w.tasks[t].CallOn?
    ensures var cd := w.tasks[t].cd;
            Leads(w, es, TpCancel(GivenUp(false, Drain(w.s), One(cd), false), cd), w.tasks - {t})
  {
    var cd := w.tasks[t].cd;
    var drains := DrainIsRun(w, w.s);
    var v := Play(w, drains);
    var fs := CallEndsIsRun(v, t, true);
    CancelSame(v.s, Drain(w.s), cd);
    CancelSame(ReleaseSlot(v.s, cd), ReleaseSlot(Drain(w.s), cd), cd);
    Append(w, drains, fs, Drain(w.s), w.tasks, TpCancel(ReleaseSlot(v.s, cd), cd), w.tasks - {t});
    es := drains + fs;
  }

  /** A named `tpgetrply` whose wait ends at the deadline: it drains, finds nothing, cancels the call, and its
      claim goes. */
  lemma NamedGivesUpIsRun(w: World, t: nat) returns (es: seq<Event>)
    requires w.tasks.Keys == w.data.Keys && t in w.tasks && w.tasks[t].NamedOn?
    ensures var g := w.tasks[t].guard;
            Leads(w, es, DropGuard(GivenUp(false, Drain(w.s), One(g.cd), true), g), w.tasks - {t})
  {
    var g := w.tasks[t].guard;
    var drains := DrainIsRun(w, w.s);
    var v := Play(w, drains);
    var fs := NamedTimeoutIsRun(v, t);
    CancelSame(v.s, Drain(w.s), g.cd);
    GuardSame(TpCancel(v.s, g.cd), TpCancel(Drain(w.s), g.cd), g);
    Append(w, drains, fs, Drain(w.s), w.tasks, DropGuard(TpCancel(v.s, g.cd), g), w.tasks - {t});
    es := drains + fs;
  }

  lemma GuardSame(s: Sys, t: Sys, g: Guard)
    requires Same(s, t)
    ensures Same(DropGuard(s, g), DropGuard(t, g))
  {
  }

  /** An any-reply `tpgetrply` whose wait ends at the deadline: it drains, finds nothing, and deregisters. */
  lemma AnyGivesUpIsRun(w: World, t: nat) returns (es: seq<Event>)
    requires w.tasks.Keys == w.data.Keys && t in w.tasks && w.tasks[t].AnyOn?
    ensures var id, u := w.tasks[t].id, GivenUp(false, Drain(w.s), Any(w.tasks[t].id), true);
            Leads(w, es, u.(d := DeregisterAny(u.d, id)), w.tasks - {t})
  {
    var id := w.tasks[t].id;
    var drains := DrainIsRun(w, w.s);
    var v := Play(w, drains);
    AnyLeavesIsRun(v, t, true);
    Append(w, drains, [Leave(t, true)], Drain(w.s), w.tasks, v.s.(d := DeregisterAny(v.s.d, id)), w.tasks - {t});
    es := drains + [Leave(t, true)];
  }
}
