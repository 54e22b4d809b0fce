/** Sending into a queue that may be full: nonblocking attempts with growing pauses, up to a deadline. */
module Backpressure {
  import opened Xatmi

  /** Time in nanoseconds. */
  const MILLISECOND: nat := 1_000_000
  const LONGEST: nat := 16 * MILLISECOND

  /** A send attempt: the clock reading that allowed it, whether it was a retry, and what came of it. */
  datatype Attempt = Attempt(at: nat, retry: bool, outcome: Outcome)

  /** A sleep: the time when it began, and the time it was to last to. */
  datatype Sleep = Sleep(began: nat, wake: nat)

  /** The pause after the attempt number `i`, counted from zero. */
  function Pause(i: nat): nat {
    if i < 4 then Power(i) * MILLISECOND else LONGEST
  }

  function Power(i: nat): nat {
    if i == 0 then 1 else 2 * Power(i - 1)
  }

  function Pauses(n: nat): nat {
    if n == 0 then 0 else Pauses(n - 1) + Pause(n - 1)
  }

  predicate Blocked(o: Outcome) { o == Failure(TPEBLOCK) }

  /** A clock that never goes back, and reaches every sleep target. */
  class Clock {
    var now: nat
    ghost var sleeps: seq<Sleep>

    method Read() returns (t: nat)
      modifies `now
      ensures t == now >= old(now)
    {
      var elapsed: nat :| 0 <= elapsed;
      now := now + elapsed;
      t := now;
    }

    method SleepUntil(wake: nat)
      modifies this
      ensures now >= wake && now >= old(now) && sleeps == old(sleeps) + [Sleep(old(now), wake)]
    {
      sleeps := sleeps + [Sleep(now, wake)];
      var late: nat :| 0 <= late;
      now := (if now < wake then wake else now) + late;
    }
  }

  /** The destination. It may be full for as long as it likes. */
  class Queue {
    ghost var attempts: seq<Attempt>

    /** One nonblocking attempt; it takes time. */
    method Send(retry: bool, clock: Clock) returns (outcome: Outcome)
      modifies this, clock`now
      ensures attempts == old(attempts) + [Attempt(old(clock.now), retry, outcome)]
      ensures clock.now >= old(clock.now)
    {
      var elapsed: nat :| 0 <= elapsed;
      outcome :| outcome == Success || outcome.Failure?;
      attempts := attempts + [Attempt(clock.now, retry, outcome)];
      clock.now := clock.now + elapsed;
    }
  }

  /** What every run of the loop does, whatever the clock and the queue do. `start` is when it began. */
  ghost predicate Disciplined(attempts: seq<Attempt>, nonblock: bool, deadline: Option<nat>, start: nat) {
    forall i :: 0 <= i < |attempts| ==>
      && (attempts[i].retry <==> i > 0)
      && (i < |attempts| - 1 ==> Blocked(attempts[i].outcome) && !nonblock)
      && start + Pauses(i) <= attempts[i].at && (deadline.Some? ==> attempts[i].at < deadline.value)
  }

  ghost predicate AllBlocked(attempts: seq<Attempt>, nonblock: bool) {
    forall i :: 0 <= i < |attempts| ==> Blocked(attempts[i].outcome) && !nonblock
  }

  /** The attempt ends the loop: it was not refused by a full queue, or the caller forbade waiting. */
  ghost predicate Ends(a: Attempt, nonblock: bool) {
    !Blocked(a.outcome) || nonblock
  }

  /** The sooner of the deadline, if there is one, and `t`. */
  function Capped(deadline: Option<nat>, t: nat): (r: nat)
    ensures r <= t && (deadline.Some? ==> r <= deadline.value) && (r == t || Some(r) == deadline)
  {
    if deadline.Some? && deadline.value < t then deadline.value else t
  }

  /** Between two attempts there is exactly one sleep, which begins after the first and is over before the
      second. Sleep `i` is meant to last for the pause `i`, cut short only by the deadline. */
  ghost predicate Paced(attempts: seq<Attempt>, sleeps: seq<Sleep>, deadline: Option<nat>) {
    && |sleeps| <= |attempts| <= |sleeps| + 1
    && (forall i :: 0 <= i < |sleeps| ==>
          && attempts[i].at <= sleeps[i].began && sleeps[i].wake == Capped(deadline, sleeps[i].began + Pause(i))
          && (i + 1 < |attempts| ==> sleeps[i].wake <= attempts[i + 1].at))
  }

  /** The deadline has passed. */
  ghost predicate Late(deadline: Option<nat>, now: nat) {
    deadline.Some? && now >= deadline.value
  }

  /** Between two turns: what has been sent was refused by a full queue, each attempt has been slept off, and
      unless the deadline has passed the pauses so far have. */
  ghost predicate AtWork(attempts: seq<Attempt>, sleeps: seq<Sleep>, nonblock: bool, deadline: Option<nat>, start: nat, now: nat) {
    var n := |attempts|;
    && |sleeps| == n && Disciplined(attempts, nonblock, deadline, start) && AllBlocked(attempts, nonblock)
    && Paced(attempts, sleeps, deadline) && (n > 0 ==> now >= sleeps[n - 1].wake)
    && (now >= start + Pauses(n) || Late(deadline, now))
    && (deadline.Some? && n > 0 ==> start + Pauses(n - 1) < deadline.value)
  }

  /** The loop is over with the result `r`: the last attempt ended it, or the deadline has passed. */
  ghost predicate Over(attempts: seq<Attempt>, sleeps: seq<Sleep>, nonblock: bool, deadline: Option<nat>, now: nat, r: Outcome) {
    var n := |attempts|;
    if n > 0 && Ends(attempts[n - 1], nonblock)
    then r == attempts[n - 1].outcome && |sleeps| == n - 1
    else r == Failure(TPETIME) && Late(deadline, now) && |sleeps| == n
  }

  /** The loop, watched for `turns` turns: `None` is a loop still at work then. No send starts at or after
      the deadline; only a full queue is retried, and only if the caller did not forbid waiting; so at most
      the last attempt succeeds. The outcome of an attempt that ends the loop is the result; the only other
      result is a time-out, once the deadline has passed, so never without a deadline. Each sleep is the
      pause that is due, cut short by the deadline only. With a deadline the loop ends: it is not at work
      any more once the pauses of the turns watched fill the time there was. */
  method SendWithBackpressure(nonblock: bool, deadline: Option<nat>, clock: Clock, queue: Queue, turns: nat) returns (r: Option<Outcome>)
    requires queue.attempts == [] && clock.sleeps == []
    modifies clock, queue
    ensures Disciplined(queue.attempts, nonblock, deadline, old(clock.now)) && Paced(queue.attempts, clock.sleeps, deadline)
    ensures r.Some? ==> Over(queue.attempts, clock.sleeps, nonblock, deadline, clock.now, r.value)
    ensures r.None? ==> |queue.attempts| == |clock.sleeps| == turns && AllBlocked(queue.attempts, nonblock)
    ensures deadline.Some? && turns > 0 && old(clock.now) + Pauses(turns - 1) >= deadline.value ==> r.Some?
  {
    ghost var start := clock.now;
    var delay := MILLISECOND;
    var retry := false;
    var turn := 0;
    while turn < turns
      invariant 0 <= turn <= turns && |queue.attempts| == turn
      invariant AtWork(queue.attempts, clock.sleeps, nonblock, deadline, start, clock.now)
      invariant (retry <==> turn > 0) && delay == Pause(turn)
    {
      ghost var before, slept, came := queue.attempts, clock.sleeps, clock.now;
      ghost var a, s;
      r, a, s := Turn(nonblock, deadline, clock, queue, retry, delay);
      TurnKeeps(before, slept, nonblock, deadline, start, came, a, s, clock.now, queue.attempts, clock.sleeps);
      if r.Some? { return; }
      PauseDoubles(turn);
      delay := if delay * 2 < LONGEST then delay * 2 else LONGEST;
      retry, turn := true, turn + 1;
    }
    r := None;
  }

  /** One turn: an attempt, unless it is too late for one, and a rest if the queue was full. */
  method Turn(nonblock: bool, deadline: Option<nat>, clock: Clock, queue: Queue, retry: bool, delay: nat)
    returns (r: Option<Outcome>, ghost a: Option<Attempt>, ghost s: Option<Sleep>)
    modifies clock, queue
    ensures queue.attempts == old(queue.attempts) + (if a.Some? then [a.value] else [])
    ensures clock.sleeps == old(clock.sleeps) + (if s.Some? then [s.value] else [])
    ensures a.None? ==> r == Some(Failure(TPETIME)) && Late(deadline, clock.now) && s.None?
    ensures a.Some? ==> a.value.retry == retry && a.value.at >= old(clock.now) && !Late(deadline, a.value.at)
    ensures a.Some? ==> r == if Ends(a.value, nonblock) then Some(a.value.outcome) else None
    ensures r.None? <==> s.Some?
    ensures s.Some? ==> s.value.began >= a.value.at && s.value.wake == Capped(deadline, s.value.began + delay) && clock.now >= s.value.wake
  {
    a, s := None, None;
    var now := clock.Read();
    if deadline.Some? && now >= deadline.value { return Some(Failure(TPETIME)), None, None; }
    var outcome := queue.Send(retry, clock);
    a := Some(Attempt(now, retry, outcome));
    if !(Blocked(outcome) && !nonblock) { return Some(outcome), a, None; }
    ghost var began := Rest(clock, deadline, delay);
    r, s := None, Some(Sleep(began, Capped(deadline, began + delay)));
  }

  /** Sleep for the pause, but not past the deadline. */
  method Rest(clock: Clock, deadline: Option<nat>, delay: nat) returns (ghost began: nat)
    modifies clock
    ensures began >= old(clock.now) && clock.sleeps == old(clock.sleeps) + [Sleep(began, Capped(deadline, began + delay))]
    ensures clock.now >= Capped(deadline, began + delay)
  {
    var now := clock.Read();
    var wake := if deadline.Some? && deadline.value < now + delay then deadline.value else now + delay;
    clock.SleepUntil(wake);
    began := now;
  }

  lemma Later(attempts: seq<Attempt>, sleeps: seq<Sleep>, nonblock: bool, deadline: Option<nat>, start: nat, now: nat, later: nat)
    requires AtWork(attempts, sleeps, nonblock, deadline, start, now) && now <= later
    ensures AtWork(attempts, sleeps, nonblock, deadline, start, later)
  {
  }

  lemma Attempted(attempts: seq<Attempt>, sleeps: seq<Sleep>, nonblock: bool, deadline: Option<nat>, start: nat, a: Attempt)
    requires AtWork(attempts, sleeps, nonblock, deadline, start, a.at) && !Late(deadline, a.at) && (a.retry <==> attempts != [])
    ensures Disciplined(attempts + [a], nonblock, deadline, start) && Paced(attempts + [a], sleeps, deadline)
    ensures Blocked(a.outcome) && !nonblock ==> AllBlocked(attempts + [a], nonblock)
    ensures deadline.Some? ==> start + Pauses(|attempts|) < deadline.value
  {
    Extend(attempts, nonblock, deadline, start, a);
    PacedSend(attempts, sleeps, deadline, a);
  }

  lemma Rested(attempts: seq<Attempt>, sleeps: seq<Sleep>, nonblock: bool, deadline: Option<nat>, start: nat, a: Attempt, s: Sleep, now: nat)
    requires AtWork(attempts, sleeps, nonblock, deadline, start, a.at) && !Late(deadline, a.at) && (a.retry <==> attempts != [])
    requires Blocked(a.outcome) && !nonblock
    requires a.at <= s.began && s.wake == Capped(deadline, s.began + Pause(|attempts|)) && now >= s.wake
    ensures AtWork(attempts + [a], sleeps + [s], nonblock, deadline, start, now)
  {
    Attempted(attempts, sleeps, nonblock, deadline, start, a);
    PacedSleep(attempts + [a], sleeps, deadline, s);
  }

  /** What a turn adds leaves the loop at work, or ends it. */
  lemma TurnKeeps(attempts: seq<Attempt>, sleeps: seq<Sleep>, nonblock: bool, deadline: Option<nat>, start: nat, came: nat,
                  a: Option<Attempt>, s: Option<Sleep>, now: nat, xs: seq<Attempt>, ys: seq<Sleep>)
    requires AtWork(attempts, sleeps, nonblock, deadline, start, came)
    requires xs == attempts + (if a.Some? then [a.value] else []) && ys == sleeps + (if s.Some? then [s.value] else [])
    requires a.None? ==> Late(deadline, now) && s.None?
    requires a.Some? ==> (a.value.retry <==> attempts != []) && a.value.at >= came && !Late(deadline, a.value.at)
    requires a.Some? ==> (Ends(a.value, nonblock) <==> s.None?)
    requires s.Some? ==> s.value.began >= a.value.at && now >= s.value.wake
                         && s.value.wake == Capped(deadline, s.value.began + Pause(|attempts|))
    ensures Disciplined(xs, nonblock, deadline, start) && Paced(xs, ys, deadline)
    ensures s.Some? ==> AtWork(xs, ys, nonblock, deadline, start, now)
    ensures s.None? ==> Over(xs, ys, nonblock, deadline, now, if a.Some? then a.value.outcome else Failure(TPETIME))
  {
    assert attempts + [] == attempts && sleeps + [] == sleeps;
    if a.Some? {
      Later(attempts, sleeps, nonblock, deadline, start, came, a.value.at);
      Attempted(attempts, sleeps, nonblock, deadline, start, a.value);
      if s.Some? { Rested(attempts, sleeps, nonblock, deadline, start, a.value, s.value, now); }
    }
  }

  lemma PacedSend(attempts: seq<Attempt>, sleeps: seq<Sleep>, deadline: Option<nat>, a: Attempt)
    requires Paced(attempts, sleeps, deadline) && |attempts| == |sleeps|
    requires sleeps != [] ==> a.at >= sleeps[|sleeps| - 1].wake
    ensures Paced(attempts + [a], sleeps, deadline)
  {
  }

  lemma PacedSleep(attempts: seq<Attempt>, sleeps: seq<Sleep>, deadline: Option<nat>, s: Sleep)
    requires Paced(attempts, sleeps, deadline) && |attempts| == |sleeps| + 1
    requires attempts[|sleeps|].at <= s.began && s.wake == Capped(deadline, s.began + Pause(|sleeps|))
    ensures Paced(attempts, sleeps + [s], deadline)
  {
  }

  lemma Extend(attempts: seq<Attempt>, nonblock: bool, deadline: Option<nat>, start: nat, a: Attempt)
    requires Disciplined(attempts, nonblock, deadline, start)
    requires AllBlocked(attempts, nonblock)
    requires (a.retry <==> attempts != []) && a.at >= start + Pauses(|attempts|) && (deadline.Some? ==> a.at < deadline.value)
    ensures Disciplined(attempts + [a], nonblock, deadline, start)
    ensures Blocked(a.outcome) && !nonblock ==> AllBlocked(attempts + [a], nonblock)
  {
  }

  lemma PauseDoubles(i: nat)
    ensures Pause(i + 1) == if Pause(i) * 2 < LONGEST then Pause(i) * 2 else LONGEST
  {
    assert Power(1) == 2 && Power(2) == 4 && Power(3) == 8;
  }

  /** The pauses add up: 1, 2, 4 and 8 milliseconds, and 16 from then on. */
  lemma {:induction false} PausesAddUp(n: nat)
    requires n >= 4
    ensures Pauses(n) == (16 * n - 49) * MILLISECOND
  {
    if n == 4 {
      assert Power(1) == 2 && Power(2) == 4 && Power(3) == 8;
      assert Pauses(4) == Pauses(3) + Pause(3) && Pauses(3) == Pauses(2) + Pause(2) && Pauses(2) == Pauses(1) + Pause(1) && Pauses(1) == Pause(0);
    } else {
      PausesAddUp(n - 1);
    }
  }

  /** How many attempts fit before the deadline: the pauses between them add up to less than the time
      there was, so from five attempts on, `16 * A - 65` milliseconds are less than it. */
  lemma AttemptsBounded(attempts: seq<Attempt>, nonblock: bool, deadline: nat, start: nat)
    requires Disciplined(attempts, nonblock, Some(deadline), start) && attempts != []
    ensures start + Pauses(|attempts| - 1) < deadline
    ensures |attempts| >= 5 ==> (16 * |attempts| - 65) * MILLISECOND < deadline - start
  {
    var last := |attempts| - 1;
    assert attempts[last].at >= start + Pauses(last);
    if |attempts| >= 5 { PausesAddUp(last); }
  }
}
