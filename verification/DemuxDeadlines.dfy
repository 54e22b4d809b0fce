/** Deadlines over all runs: recorded at submission, kept until the descriptor is done with. */
module DemuxDeadlines {
  import opened Xatmi
  import opened DemuxModel
  import opened DemuxBuffers
  import opened DemuxWorld
  import opened DemuxClaims

  /** Recorded deadlines are of tracked descriptors, and a slot that claiming made has none. */
  ghost predicate Timed(w: World) {
    && w.s.d.deadlines.Keys <= w.s.d.slots.Keys
    && NoneCreated(w.tasks, w.s.d.deadlines)
  }

  ghost predicate NoneCreated(tasks: map<nat, Kind>, deadlines: map<int, Option<nat>>) {
    forall t :: t in tasks && tasks[t].NamedOn? && tasks[t].guard.created ==> tasks[t].guard.cd !in deadlines
  }

  /** The event completes, cancels or gives up the call on `cd`. */
  ghost predicate Ends(w: World, e: Event, cd: int) {
    match e
    case Take(_, c, _) => c == cd
    case Leave(t, timedOut) => t in w.tasks && Names(w.tasks[t]) && CdOf(w.tasks[t]) == cd && (w.tasks[t].CallOn? || timedOut)
    case UserCancel(c) => c == cd
    case _ => false
  }

  /** Events that end no call: no slot goes, and only a new submission records a deadline. */
  ghost predicate OnlyGrows(d: Demux, e: Demux) {
    d.slots.Keys <= e.slots.Keys && e.deadlines == d.deadlines
  }

  lemma SubmitMoves(w: World, t: nat, cd: int, claimed: bool, deadline: Option<nat>, lent: Parked)
    ensures var d := DoSubmit(w, t, cd, claimed, deadline, lent).s.d;
            && w.s.d.slots.Keys <= d.slots.Keys
            && d.deadlines == (if cd in w.s.d.slots then w.s.d.deadlines else w.s.d.deadlines[cd := deadline])
            && (cd in d.deadlines ==> cd in w.s.d.deadlines || cd in d.slots)
  {
  }

  lemma StartMoves(w: World, t: nat, cd: int, lent: Parked)
    ensures OnlyGrows(w.s.d, DoStartNamed(w, t, cd, lent).s.d) && OnlyGrows(w.s.d, DoStartAny(w, t, lent).s.d)
  {
  }

  lemma PollMoves(w: World, t: nat, waker: Waker, other: bool)
    requires t in w.tasks
    ensures OnlyGrows(w.s.d, DoPoll(w, t, waker, other).s.d)
  {
  }

  lemma DrainMoves(w: World)
    ensures OnlyGrows(w.s.d, DoDrain(w).s.d)
  {
    DrainTurnFills(w.s);
  }

  /** What an event does to the deadlines. */
  ghost function DeadlinesAfter(w: World, e: Event): map<int, Option<nat>>
    requires Enabled(w, e)
  {
    match e
    case Submit(_, cd, _, deadline, _) => if cd in w.s.d.slots then w.s.d.deadlines else w.s.d.deadlines[cd := deadline]
    case Take(_, cd, _) => w.s.d.deadlines - {cd}
    case Leave(t, timedOut) =>
      if Names(w.tasks[t]) && (w.tasks[t].CallOn? || timedOut) then w.s.d.deadlines - {CdOf(w.tasks[t])}
      else w.s.d.deadlines
    case UserCancel(cd) => w.s.d.deadlines - {cd}
    case _ => w.s.d.deadlines
  }

  lemma DeadlineMoves(w: World, e: Event)
    requires Linked(w) && Enabled(w, e)
    ensures Step(w, e).s.d.deadlines == DeadlinesAfter(w, e)
  {
    match e
    case Submit(t, cd, claimed, deadline, lent) => SubmitMoves(w, t, cd, claimed, deadline, lent);
    case StartNamed(t, cd, lent) => StartMoves(w, t, cd, lent);
    case StartAny(t, lent) => StartMoves(w, t, 0, lent);
    case Take(t, cd, nochange) => TakeShape(w.s, w.tasks[t], cd, w.data[t], nochange);
    case DrainOne => DrainMoves(w);
    case Poll(t, waker, other) => PollMoves(w, t, waker, other);
    case Leave(t, timedOut) => LeaveDeadlines(w.s, w.tasks[t], timedOut);
    case UserCancel(_) =>
    case RawSubmit(_) =>
    case Arrive(_) =>
    case WakeAnyWaiters =>
  }

  lemma LeaveDeadlines(s: Sys, k: Kind, timedOut: bool)
    ensures Left(s, k, timedOut).d.deadlines
         == (if Names(k) && (k.CallOn? || timedOut) then s.d.deadlines - {CdOf(k)} else s.d.deadlines)
  {
  }

  /** Which slots an event removes. */
  lemma SlotMoves(w: World, e: Event, cd: int)
    requires Linked(w) && Enabled(w, e) && cd in w.s.d.slots && cd !in Step(w, e).s.d.slots
    ensures Ends(w, e, cd) || (e.Leave? && w.tasks[e.t].NamedOn? && w.tasks[e.t].guard.created && w.tasks[e.t].guard.cd == cd)
  {
    match e
    case Submit(t, c, claimed, deadline, lent) => SubmitMoves(w, t, c, claimed, deadline, lent);
    case StartNamed(t, c, lent) => StartMoves(w, t, c, lent);
    case StartAny(t, lent) => StartMoves(w, t, 0, lent);
    case Take(t, c, nochange) => TakeShape(w.s, w.tasks[t], c, w.data[t], nochange);
    case DrainOne => DrainMoves(w);
    case Poll(t, waker, other) => PollMoves(w, t, waker, other);
    case Leave(t, timedOut) => LeaveSlots(w.s, w.tasks[t], timedOut, cd);
    case UserCancel(_) =>
    case RawSubmit(_) =>
    case Arrive(_) =>
    case WakeAnyWaiters =>
  }

  lemma LeaveSlots(s: Sys, k: Kind, timedOut: bool, cd: int)
    requires cd in s.d.slots && cd !in Left(s, k, timedOut).d.slots
    ensures Names(k) && CdOf(k) == cd && (k.CallOn? || timedOut || k.guard.created)
  {
  }

  lemma NextTimed(w: World, e: Event)
    requires Linked(w) && Timed(w) && Enabled(w, e)
    ensures Timed(Next(w, e))
  {
    var quiet := w.(s := w.s.(woken := {}));
    assert Linked(quiet) && Timed(quiet);
    StepTimed(quiet, e);
    var v := Step(quiet, e);
    assert Next(w, e).s == v.s && Next(w, e).tasks == v.tasks;
  }

  lemma StepTimed(w: World, e: Event)
    requires Linked(w) && Timed(w) && Enabled(w, e)
    ensures Timed(Step(w, e))
  {
    DeadlineMoves(w, e);
    var v := Step(w, e);
    forall cd | cd in v.s.d.deadlines ensures cd in v.s.d.slots {
      if cd in w.s.d.slots && cd !in v.s.d.slots { SlotMoves(w, e, cd); }
    }
    TasksTimed(w, e);
  }

  lemma SubmitTimed(w: World, t: nat, cd: int, claimed: bool, deadline: Option<nat>, lent: Parked)
    requires Linked(w) && Timed(w) && t !in w.tasks
    ensures NoneCreated(DoSubmit(w, t, cd, claimed, deadline, lent).tasks, DoSubmit(w, t, cd, claimed, deadline, lent).s.d.deadlines)
  {
    SubmitMoves(w, t, cd, claimed, deadline, lent);
    forall u | u in w.tasks && w.tasks[u].NamedOn? ensures w.tasks[u].guard.cd in w.s.d.slots {
      assert HoldsClaim(w.s.d.slots, w.tasks[u]);
    }
  }

  lemma StartTimed(w: World, t: nat, cd: int, lent: Parked)
    requires Timed(w) && t !in w.tasks
    ensures NoneCreated(DoStartNamed(w, t, cd, lent).tasks, w.s.d.deadlines)
    ensures NoneCreated(DoStartAny(w, t, lent).tasks, w.s.d.deadlines)
  {
  }

  lemma ShrinkTimed(tasks: map<nat, Kind>, deadlines: map<int, Option<nat>>, fewer: map<nat, Kind>, earlier: map<int, Option<nat>>)
    requires NoneCreated(tasks, deadlines) && earlier.Keys <= deadlines.Keys
    requires forall t :: t in fewer ==> t in tasks && fewer[t] == tasks[t]
    ensures NoneCreated(fewer, earlier)
  {
  }

  lemma TasksTimed(w: World, e: Event)
    requires Linked(w) && Timed(w) && Enabled(w, e)
    ensures NoneCreated(Step(w, e).tasks, Step(w, e).s.d.deadlines)
  {
    DeadlineMoves(w, e);
    match e
    case Submit(t, cd, claimed, deadline, lent) => SubmitTimed(w, t, cd, claimed, deadline, lent);
    case StartNamed(t, cd, lent) => StartTimed(w, t, cd, lent);
    case StartAny(t, lent) => StartTimed(w, t, 0, lent);
    case _ => ShrinkTimed(w.tasks, w.s.d.deadlines, Step(w, e).tasks, Step(w, e).s.d.deadlines);
  }

  /** A recorded deadline stays exactly as recorded through every event that does not end its call:
      failed probes, dropped waits, drains, new submissions, other calls' ends. */
  lemma DeadlineStays(w: World, e: Event, cd: int)
    requires Linked(w) && Timed(w) && Enabled(w, e) && cd in w.s.d.deadlines && !Ends(w, e, cd)
    ensures cd in Next(w, e).s.d.deadlines && Next(w, e).s.d.deadlines[cd] == w.s.d.deadlines[cd]
  {
    var quiet := w.(s := w.s.(woken := {}));
    assert Linked(quiet) && Timed(quiet) && Enabled(quiet, e);
    DeadlineMoves(quiet, e);
    assert Next(w, e).s == Step(quiet, e).s;
  }

  // ----- the deadline an any-reply collection uses

  ghost predicate IsEarliest(deadlines: map<int, Option<nat>>, r: Option<nat>) {
    match r
    case None => forall cd :: cd in deadlines ==> deadlines[cd].None?
    case Some(x) =>
      && (exists cd :: cd in deadlines && deadlines[cd] == Some(x))
      && (forall cd :: cd in deadlines && deadlines[cd].Some? ==> x <= deadlines[cd].value)
  }

  /** The earliest deadline is that of a tracked descriptor: a finished or cancelled call cannot cut an
      any-reply wait short. */
  lemma EarliestIsTracked(w: World, r: Option<nat>)
    requires Timed(w) && IsEarliest(w.s.d.deadlines, r) && r.Some?
    ensures exists cd :: cd in w.s.d.slots && cd in w.s.d.deadlines && w.s.d.deadlines[cd] == r
  {
  }
}
