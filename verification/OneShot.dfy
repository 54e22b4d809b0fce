/** The settings that apply to the next submission only, among tasks that share one context: a retry of
    one task never uses up, changes or delays what another task has set for its next submission, and
    every retry of a task goes by what that task's own first attempt found. */
module OneShot {
  import opened Xatmi

  const SECOND: nat := 1_000_000_000
  const I32_MAX: nat := 0x7FFF_FFFF

  datatype Priority = Priority(value: int, absolute: bool)

  /** One native send of a task: what applied to it, and the priority it came to. `timeout` zero means
      none was set. */
  datatype Sent = Sent(task: nat, retry: bool, timeout: int, priority: Option<Priority>, actual: int)

  /** The native one-shot settings, the priority of the last native send, and the adapter's own pending
      priority. */
  datatype Settings = Settings(timeout: int, native: Option<Priority>, last: int, pending: Option<Priority>)

  datatype Context = Context(s: Settings, sent: seq<Sent>)

  /** The absolute priority a send gets at a service whose own priority is `service`. */
  function Resolved(p: Option<Priority>, service: int): int {
    match p case None => service case Some(Priority(v, abs)) => if abs then v else service + v
  }

  /** Native `tpacall`: uses the one-shot settings up, whether or not it sends. */
  function TpAcall(c: Context, task: nat, retry: bool, service: int): Context {
    var actual := Resolved(c.s.native, service);
    c.(s := c.s.(timeout := 0, native := None, last := actual),
       sent := c.sent + [Sent(task, retry, c.s.timeout, c.s.native, actual)])
  }

  /** With a priority, it is set for this send alone and cleared even if nothing was sent. */
  function WithPriority(c: Context, task: nat, p: Option<Priority>, retry: bool, service: int): Context {
    match p
    case None => TpAcall(c, task, retry, service)
    case Some(_) => var d := TpAcall(c.(s := c.s.(native := p)), task, retry, service); d.(s := d.s.(native := None))
  }

  /** The first attempt of a submission takes the adapter's pending priority. */
  function FirstAttempt(c: Context, task: nat, service: int): Context {
    WithPriority(c.(s := c.s.(pending := None)), task, c.s.pending, false, service)
  }

  /** After a blocked send the queue is drained, which may use up the next-call timeout and send other
      messages; the timeout is put back. */
  function DrainedBetween(c: Context, last: int): Context {
    c.(s := c.s.(last := last))
  }

  /** The time left in whole seconds, rounded up; only what no timeout can say is cut down to the longest
      timeout there is. */
  ghost predicate RoundedUp(seconds: int, left: nat) {
    if left <= I32_MAX * SECOND then left <= seconds * SECOND < left + SECOND else seconds == I32_MAX
  }

  /** Whole seconds, rounded up. */
  function Seconds(remaining: nat): (r: nat)
    ensures RoundedUp(r, remaining)
  {
    var up := remaining / SECOND + (if remaining % SECOND != 0 then 1 else 0);
    if up < I32_MAX then up else I32_MAX
  }

  /** What is left until the deadline, as the timeout of a retry; `None` is no time left. */
  function RetryTimeout(deadline: Option<nat>, now: nat): Option<nat> {
    match deadline
    case None => Some(0)
    case Some(d) => if now >= d then None else Some(Seconds(d - now))
  }

  /** A retry: its own timeout and its absolute priority for this send only. */
  function Retry(c: Context, task: nat, deadline: Option<nat>, now: nat, priority: int, service: int): Context {
    match RetryTimeout(deadline, now)
    case None => c
    case Some(seconds) =>
      var d := WithPriority(c.(s := c.s.(timeout := seconds)), task, Some(Priority(priority, true)), true, service);
      d.(s := d.s.(timeout := c.s.timeout))
  }

  // ----- the steps as they run

  class Native {
    var c: Context

    method WithSendPriority(task: nat, p: Option<Priority>, retry: bool, service: int)
      modifies this
      ensures c == WithPriority(old(c), task, p, retry, service)
    {
      if p.None? {
        c := TpAcall(c, task, retry, service);
        return;
      }
      c := c.(s := c.s.(native := p));
      c := TpAcall(c, task, retry, service);
      c := c.(s := c.s.(native := None));
    }

    /** Drain between attempts: whatever the drain does to the one-shot timeout, it is put back. */
    method DrainKeepingTimeout(leaves: Settings)
      modifies this
      ensures c == DrainedBetween(old(c), leaves.last) && c.s.timeout == old(c).s.timeout
    {
      var next := c.s.timeout;
      c := c.(s := c.s.(timeout := leaves.timeout, last := leaves.last));
      c := c.(s := c.s.(timeout := next));
    }

    /** A retry with time left sends once, with the time left in whole seconds, rounded up, and with exactly
        the given priority whatever the service's own; without time left it sends nothing. Either way what
        is set for the next submission is as it was. */
    method RetryTpacall(task: nat, deadline: Option<nat>, now: nat, priority: int, service: int) returns (expired: bool)
      modifies this
      ensures c == Retry(old(c), task, deadline, now, priority, service)
      ensures expired <==> deadline.Some? && now >= deadline.value
      ensures c.s.timeout == old(c).s.timeout && c.s.pending == old(c).s.pending
      ensures expired ==> c == old(c)
      ensures !expired ==> |c.sent| == |old(c).sent| + 1 && c.sent[..|old(c).sent|] == old(c).sent
      ensures !expired ==> var s := c.sent[|old(c).sent|];
                s.task == task && s.retry && s.actual == priority && s.priority == Some(Priority(priority, true)) && c.s.last == priority
      ensures !expired && deadline.Some? ==> var s, left := c.sent[|old(c).sent|], deadline.value - now;
                1 <= s.timeout <= I32_MAX && RoundedUp(s.timeout, left)
      ensures !expired && deadline.None? ==> c.sent[|old(c).sent|].timeout == 0
    {
      var seconds := 0;
      if deadline.Some? {
        if now >= deadline.value { return true; }
        var remaining := deadline.value - now;
        seconds := remaining / SECOND + (if remaining % SECOND != 0 then 1 else 0);
        if seconds > I32_MAX { seconds := I32_MAX; }
      }
      var next := c.s.timeout;
      c := c.(s := c.s.(timeout := seconds));
      WithSendPriority(task, Some(Priority(priority, true)), true, service);
      c := c.(s := c.s.(timeout := next));
      expired := false;
    }
  }

  /** A submission while it may have to retry: its deadline, the priority it took, and the priority its
      retries use, known once the first attempt was blocked. */
  class Sending {
    const task: nat
    const deadline: Option<nat>
    var priority: Option<Priority>
    var retryPriority: Option<int>

    constructor (t: nat, d: Option<nat>, native: Native)
      modifies native
      ensures task == t && deadline == d && retryPriority == None
      ensures priority == old(native.c).s.pending && native.c == old(native.c).(s := old(native.c).s.(pending := None))
    {
      task, deadline, priority, retryPriority := t, d, native.c.s.pending, None;
      new;
      native.c := native.c.(s := native.c.s.(pending := None));
    }

    function Sends(c: Context, retry: bool, service: int, now: nat, priorityOfRetries: Option<int>): Context
      requires retry ==> priorityOfRetries.Some?
      reads this
    {
      if retry then Retry(c, task, deadline, now, priorityOfRetries.value, service)
      else WithPriority(c, task, priority, false, service)
    }

    /** One attempt. A retry follows a blocked send. */
    method Attempt(native: Native, retry: bool, service: int, now: nat, blocked: bool, drainLeaves: Settings) returns (expired: bool)
      requires retry ==> retryPriority.Some?
      modifies this, native
      ensures priority == old(priority) && (expired <==> retry && RetryTimeout(deadline, now).None?)
      ensures native.c == if blocked && !expired then DrainedBetween(Sends(old(native.c), retry, service, now, old(retryPriority)), drainLeaves.last)
                          else Sends(old(native.c), retry, service, now, old(retryPriority))
      ensures retryPriority == if blocked && !retry then Some(WithPriority(old(native.c), task, old(priority), false, service).s.last)
                               else old(retryPriority)
    {
      expired := false;
      if retry {
        expired := native.RetryTpacall(task, deadline, now, retryPriority.value, service);
      } else {
        native.WithSendPriority(task, priority, false, service);
      }
      if blocked && !expired {
        if !retry { retryPriority := Some(native.c.s.last); }
        native.DrainKeepingTimeout(drainLeaves);
      }
    }
  }

  // ----- any interleaving of tasks

  /** What a blocked submission carries to its retries. */
  datatype Carried = Carried(deadline: Option<nat>, priority: int)

  /** The context, and the submissions that are between attempts. */
  datatype World = World(c: Context, open: map<nat, Carried>)

  /** What tasks do, in any order: set the next call's timeout or priority; submit, with a first attempt
      that may be blocked; retry, blocked again or not; drain between attempts; give up. A retry brings
      nothing but the time and the service. */
  datatype Event =
    | SetTimeout(timeout: int)
    | SetPriority(chosen: Priority)
    | Submits(t: nat, service: int, deadline: Option<nat>, blocked: bool)
    | Retries(t: nat, service: int, now: nat, blocked: bool)
    | Drains(last: int)
    | GivesUp(t: nat)

  function Next(w: World, e: Event): World {
    match e
    case SetTimeout(x) => w.(c := w.c.(s := w.c.s.(timeout := x)))
    case SetPriority(p) => w.(c := w.c.(s := w.c.s.(pending := Some(p))))
    case Submits(t, service, deadline, blocked) =>
      var d := FirstAttempt(w.c, t, service);
      World(d, if blocked then w.open[t := Carried(deadline, d.s.last)] else w.open - {t})
    case Retries(t, service, now, blocked) =>
      if t !in w.open then w
      else
        var mine := w.open[t];
        World(Retry(w.c, t, mine.deadline, now, mine.priority, service),
              if blocked && RetryTimeout(mine.deadline, now).Some? then w.open else w.open - {t})
    case Drains(last) => w.(c := DrainedBetween(w.c, last))
    case GivesUp(t) => w.(open := w.open - {t})
  }

  function After(es: seq<Event>): World {
    if es == [] then World(Context(Settings(0, None, 0, None), []), map[])
    else Next(After(es[..|es| - 1]), es[|es| - 1])
  }

  /** The timeout and the priority set since the last submission. */
  function LastSet(es: seq<Event>): (int, Option<Priority>) {
    if es == [] then (0, None)
    else
      var before := LastSet(es[..|es| - 1]);
      match es[|es| - 1]
      case SetTimeout(x) => (x, before.1)
      case SetPriority(p) => (before.0, Some(p))
      case Submits(_, _, _, _) => (0, None)
      case _ => before
  }

  /** Retries and drains, however many and of whichever tasks, leave what was set for the next submission
      as it was set. */
  lemma {:induction false} SettingsSurvive(es: seq<Event>)
    ensures var s := After(es).c.s;
            (s.timeout, s.pending) == LastSet(es) && s.native == None
  {
    if es != [] { SettingsSurvive(es[..|es| - 1]); }
  }

  /** So a submission gets exactly what was set for it since the submission before. */
  lemma NextSubmissionUses(es: seq<Event>, t: nat, service: int, deadline: Option<nat>, blocked: bool)
    ensures var c := After(es + [Submits(t, service, deadline, blocked)]).c;
            |c.sent| > 0 && c.sent[|c.sent| - 1] == Sent(t, false, LastSet(es).0, LastSet(es).1, Resolved(LastSet(es).1, service))
  {
    SettingsSurvive(es);
    assert (es + [Submits(t, service, deadline, blocked)])[..|es|] == es;
  }

  /** A submission in retries carries what it carried when it was first blocked, through whatever all the
      tasks do, for as long as it is in retries. */
  lemma {:induction false} CarriedStays(es: seq<Event>, i: nat, t: nat)
    requires i < |es| && es[i].Submits? && es[i].t == t && es[i].blocked
    requires forall j :: i < j < |es| ==> !(es[j].Submits? && es[j].t == t)
    requires t in After(es).open
    ensures After(es).open[t] == Carried(es[i].deadline, Resolved(LastSet(es[..i]).1, es[i].service))
    decreases |es|
  {
    var before := es[..|es| - 1];
    if i == |es| - 1 {
      SettingsSurvive(before);
      assert es[..i] == before;
    } else {
      assert before[i] == es[i] && before[..i] == es[..i];
      CarriedStays(before, i, t);
    }
  }

  /** Every retry. Whatever the tasks do and however they interleave: if a task submits at `i` and is
      retried at `k`, and has not submitted anything else in between, then the retry is sent with exactly
      the absolute priority that the task's own first attempt resolved from what was set for it, and with the
      time left until the task's own deadline, in whole seconds rounded up; if none is left nothing is
      sent. What other tasks have set for their next submissions stays as set. */
  lemma EveryRetryIsItsOwn(es: seq<Event>, i: nat, k: nat)
    requires i < k < |es| && es[i].Submits? && es[i].blocked && es[k].Retries? && es[k].t == es[i].t
    requires forall j :: i < j < k ==> !(es[j].Submits? && es[j].t == es[i].t)
    requires es[i].t in After(es[..k]).open
    ensures var before, after := After(es[..k]).c, After(es[..k + 1]).c;
            var priority := Resolved(LastSet(es[..i]).1, es[i].service);
            && (after.s.timeout, after.s.pending) == LastSet(es[..k])
            && match es[i].deadline
               case None => after.sent == before.sent + [Sent(es[i].t, true, 0, Some(Priority(priority, true)), priority)]
               case Some(d) =>
                 if es[k].now >= d then after.sent == before.sent
                 else
                   && |after.sent| == |before.sent| + 1 && after.sent[..|before.sent|] == before.sent
                   && var s := after.sent[|before.sent|];
                      s == Sent(es[i].t, true, s.timeout, Some(Priority(priority, true)), priority)
                      && RoundedUp(s.timeout, d - es[k].now)
  {
    var es' := es[..k];
    assert es[..k + 1][..k] == es' && es[..k + 1][k] == es[k] && es'[i] == es[i] && es'[..i] == es[..i];
    CarriedStays(es', i, es[i].t);
    SettingsSurvive(es');
    SettingsSurvive(es[..k + 1]);
  }
}
