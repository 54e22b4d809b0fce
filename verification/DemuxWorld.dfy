/** Futures sharing one demultiplexer, as a transition system. An event is one synchronous stretch
    of the adapter's code, or a smaller piece of one: a drain is a run of `DrainOne` events. Any
    interleaving of events is a run. These definitions are specifications; the state also keeps the
    history the safety statements speak about. */
module DemuxWorld {
  import opened Xatmi
  import opened DemuxModel
  import opened DemuxBuffers

  /** A live future: a `tpcall` past its submission, with the generation of its call; a `tpgetrply`
      naming a descriptor; or a `tpgetrply` with `TPGETANY`. */
  datatype Kind = CallOn(cd: int, gen: nat) | NamedOn(guard: Guard) | AnyOn(id: nat)

  /** A future is `Pending` once a poll of it found nothing; `notified` says its waker was called since. */
  datatype Wait = Running | Pending(waker: Waker, notified: bool)

  /** The first thing that ever happened to a generation: its reply, or the failure of the queue. */
  datatype First = Replied(outcome: Outcome, content: Content, len: nat) | QueueFailed(error: Error)

  /** One collection: who collected, the generation of the slot, the slot, and its payload. */
  datatype Delivery = Delivery(kind: Kind, gen: Option<nat>, slot: Slot, body: Option<Content>)

  datatype World = World(
    s: Sys,
    tasks: map<nat, Kind>,          // live futures
    data: map<nat, Parked>,         // the reply buffer each of them was lent by its caller
    hands: set<Ptr>,                // the program's own buffers, those it has lent included
    waits: map<nat, Wait>,
    gens: map<int, nat>,            // the generation a tracked slot belongs to, where known
    calls: set<nat>,                // the generations submitted by tpcall
    first: map<nat, First>,
    log: seq<Delivery>
  )

  datatype Event =
    | Submit(t: nat, cd: int, claimed: bool, deadline: Option<nat>, lent: Parked)
    | RawSubmit(cd: int)
    | StartNamed(t: nat, cd: int, lent: Parked)
    | StartAny(t: nat, lent: Parked)
    | Arrive(m: Message)
    | DrainOne
    | Poll(t: nat, waker: Waker, otherWake: bool)
    | Take(t: nat, cd: int, nochange: bool)
    | Leave(t: nat, timedOut: bool)
    | UserCancel(cd: int)
    | WakeAnyWaiters

  predicate Names(k: Kind) { !k.AnyOn? }

  function CdOf(k: Kind): int
    requires Names(k)
  {
    if k.CallOn? then k.cd else k.guard.cd
  }

  function ClaimOf(k: Kind): Claim
    requires Names(k)
  {
    if k.CallOn? then Call else Waiter(k.guard.id)
  }

  function TargetOf(k: Kind): Target {
    if k.AnyOn? then Any(k.id) else One(CdOf(k))
  }

  /** Some live future waits on the descriptor. */
  ghost predicate Waited(tasks: map<nat, Kind>, cd: int) {
    exists t :: t in tasks && Names(tasks[t]) && CdOf(tasks[t]) == cd
  }

  /** A buffer a caller may lend: its own, and not lent to another future. */
  ghost predicate Lendable(w: World, lent: Parked) {
    lent.ptr in w.hands && forall t :: t in w.data ==> w.data[t].ptr != lent.ptr
  }

  /** When an event can happen. The native layer never hands out a descriptor that is in use and
      never delivers a reply for a generation that has ended, nor one that reads as an empty queue; a program does not cancel a descriptor
      that a future waits on; registration numbers do not wrap. */
  ghost predicate Enabled(w: World, e: Event) {
    match e
    case Submit(t, cd, claimed, _, lent) =>
      cd > 0 && cd !in w.s.n.outstanding && t !in w.tasks && Lendable(w, lent)
    case RawSubmit(cd) => cd > 0 && cd !in w.s.n.outstanding
    case StartNamed(t, cd, lent) => t !in w.tasks && Lendable(w, lent)
    case StartAny(t, lent) => t !in w.tasks && Lendable(w, lent) && w.s.d.nextAnyId < U64_MAX
    case Arrive(m) =>
      && m.outcome != Failure(TPEBLOCK)
      && (m.cd > 0 ==> m.cd in w.s.n.outstanding && forall k :: k in w.s.n.queue ==> k.cd != m.cd)
    case DrainOne => true
    case Poll(t, _, _) => t in w.tasks
    case Take(t, cd, _) =>
      t in w.tasks
      && (if w.tasks[t].AnyOn? then Unclaimed(w.s.d.slots, cd)
          else cd == CdOf(w.tasks[t]) && IsReady(w.s.d.slots, cd))
    case Leave(t, _) => t in w.tasks
    case UserCancel(cd) => !Waited(w.tasks, cd)
    case WakeAnyWaiters => true
  }

  function Outstanding(n: Native, cd: int): Native {
    n.(outstanding := n.outstanding[cd := n.nextGen], nextGen := n.nextGen + 1)
  }

  function WithTask(w: World, t: nat, k: Kind, lent: Parked): World {
    w.(tasks := w.tasks[t := k], data := w.data[t := lent], waits := w.waits[t := Running])
  }

  function WithoutTask(w: World, t: nat): World {
    w.(tasks := w.tasks - {t}, data := w.data - {t}, waits := w.waits - {t})
  }

  function DoSubmit(w: World, t: nat, cd: int, claimed: bool, deadline: Option<nat>, lent: Parked): World {
    var gen := w.s.n.nextGen;
    var sent := w.s.(n := Outstanding(w.s.n, cd));
    if cd in w.s.d.slots
    then w.(s := sent.(n := CancelNative(sent.n, cd)))
    else
      var v := w.(s := sent.(d := Recorded(RegisterFresh(w.s.d, cd, claimed), cd, deadline)),
                  gens := w.gens[cd := gen]);
      if claimed then WithTask(v, t, CallOn(cd, gen), lent).(calls := w.calls + {gen}) else v
  }

  function DoStartNamed(w: World, t: nat, cd: int, lent: Parked): World {
    if ClaimError(w.s.d, cd).Some? then w
    else var (d, g) := Claimed(w.s.d, cd); WithTask(w.(s := w.s.(d := d)), t, NamedOn(g), lent)
  }

  function DoStartAny(w: World, t: nat, lent: Parked): World {
    var (d, id) := RegisterAny(w.s.d);
    WithTask(w.(s := w.s.(d := d)), t, AnyOn(id), lent)
  }

  /** The message the next turn of the drain will route, if it will route one. */
  function Routed(s: Sys): Option<Message> {
    if TakeScratch(s).Some? && s.n.queue != [] && s.n.queue[0].cd > 0 && s.n.queue[0].outcome != Failure(TPEBLOCK)
    then Some(s.n.queue[0]) else None
  }

  /** The error with which the next turn of the drain will fail the queue, if it will. */
  function QueueError(s: Sys): Option<Error> {
    if TakeScratch(s).None? then Some(TPEOS)
    else if s.n.queue != [] && s.n.queue[0].cd <= 0 && s.n.queue[0].outcome.Failure?
            && s.n.queue[0].outcome != Failure(TPEBLOCK)
    then Some(s.n.queue[0].outcome.error) else None
  }

  /** A routed reply gives its generation to the slot it fills. */
  ghost function DrainGens(w: World): map<int, nat> {
    if Routed(w.s).None? then w.gens
    else
      var cd := Routed(w.s).value.cd;
      if IsReady(w.s.d.slots, cd) || cd !in w.s.n.outstanding then w.gens
      else w.gens[cd := w.s.n.outstanding[cd]]
  }

  function Generations(n: Native): set<nat> {
    set cd | cd in n.outstanding :: n.outstanding[cd]
  }

  function Lost(n: Native, e: Error): map<nat, First> {
    map g | g in Generations(n) :: QueueFailed(e)
  }

  /** A reply is the first event of its generation unless there was one; a queue failure is the first
      event of every outstanding generation to which nothing happened. */
  ghost function DrainFirst(w: World): map<nat, First> {
    if Routed(w.s).Some? then
      var m := Routed(w.s).value;
      if m.cd !in w.s.n.outstanding || w.s.n.outstanding[m.cd] in w.first then w.first
      else w.first[w.s.n.outstanding[m.cd] := Replied(m.outcome, m.content, m.len)]
    else if QueueError(w.s).Some? then
      Lost(w.s.n, QueueError(w.s).value) + w.first
    else w.first
  }

  ghost function DoDrain(w: World): World {
    w.(s := DrainTurn(w.s).0, gens := DrainGens(w), first := DrainFirst(w))
  }

  ghost function DoPoll(w: World, t: nat, waker: Waker, otherWake: bool): World
    requires t in w.tasks
  {
    var target := TargetOf(w.tasks[t]);
    var d := ParkWaker(w.s.d, target, waker);
    w.(s := w.s.(d := d),
       waits := w.waits[t := if otherWake || TargetReady(d, target) then Running else Pending(waker, false)])
  }

  function Body(slot: Slot, heap: map<Ptr, Content>): Option<Content> {
    if slot.Ready? && slot.buf.ptr in heap then Some(heap[slot.buf.ptr]) else None
  }

  /** What follows the hand-over when a future ends with the reply of `cd`. */
  function Finished(s: Sys, k: Kind, cd: int, outcome: Outcome): Sys {
    match k
    case CallOn(_, _) => if outcome == Success then ReleaseSlot(s, cd) else CancelCall(s, cd)
    case NamedOn(g) => DropGuard(s.(d := Forgotten(s.d, cd)), g)
    case AnyOn(id) => s.(d := DeregisterAny(Forgotten(s.d, cd), id))
  }

  function DoTake(w: World, t: nat, cd: int, nochange: bool): World
    requires t in w.tasks && t in w.data && IsReady(w.s.d.slots, cd)
  {
    var slot := w.s.d.slots[cd];
    var (s, data, outcome) := TakeSlot(w.s, cd, w.data[t], nochange);
    WithoutTask(w, t).(
      s := Finished(s, w.tasks[t], cd, outcome),
      hands := w.hands - {w.data[t].ptr} + {data.ptr},
      log := w.log + [Delivery(w.tasks[t], if cd in w.gens then Some(w.gens[cd]) else None,
                               slot, Body(slot, w.s.n.heap))])
  }

  /** A future ends without a reply: dropped, refused, or timed out. */
  function Left(s: Sys, k: Kind, timedOut: bool): Sys {
    match k
    case CallOn(cd, _) => CancelCall(s, cd)
    case NamedOn(g) => DropGuard(if timedOut then CancelCall(s, g.cd) else s, g)
    case AnyOn(id) => s.(d := DeregisterAny(s.d, id))
  }

  /** As `Enabled`, but a program may cancel any descriptor. */
  ghost predicate Permitted(w: World, e: Event) {
    e.UserCancel? || Enabled(w, e)
  }

  ghost function Step(w: World, e: Event): World
    requires Permitted(w, e) && w.tasks.Keys == w.data.Keys
  {
    match e
    case Submit(t, cd, claimed, deadline, lent) => DoSubmit(w, t, cd, claimed, deadline, lent)
    case RawSubmit(cd) => w.(s := w.s.(n := Outstanding(w.s.n, cd)))
    case StartNamed(t, cd, lent) => DoStartNamed(w, t, cd, lent)
    case StartAny(t, lent) => DoStartAny(w, t, lent)
    case Arrive(m) => w.(s := w.s.(n := w.s.n.(queue := w.s.n.queue + [m])))
    case DrainOne => DoDrain(w)
    case Poll(t, waker, other) => DoPoll(w, t, waker, other)
    case Take(t, cd, nochange) => DoTake(w, t, cd, nochange)
    case Leave(t, timedOut) => WithoutTask(w, t).(s := Left(w.s, w.tasks[t], timedOut))
    case UserCancel(cd) => w.(s := CancelCall(w.s, cd))
    case WakeAnyWaiters => w.(s := WakeAny(w.s))
  }

  function Notify(waits: map<nat, Wait>, woken: set<Waker>): map<nat, Wait> {
    map t | t in waits ::
      if waits[t].Pending? && waits[t].waker in woken then waits[t].(notified := true) else waits[t]
  }

  /** An event, the wake-ups it causes, and the end of the history of slots that are gone. */
  ghost function Next(w: World, e: Event): World
    requires Permitted(w, e) && w.tasks.Keys == w.data.Keys
  {
    var v := Step(w.(s := w.s.(woken := {})), e);
    v.(waits := Notify(v.waits, v.s.woken), gens := map cd | cd in v.gens && cd in v.s.d.slots :: v.gens[cd])
  }

  lemma NextFrom(w: World, e: Event)
    requires Enabled(w, e) && w.tasks.Keys == w.data.Keys
    ensures var v, u := Step(w.(s := w.s.(woken := {})), e), Next(w, e);
            && u.s == v.s && u.tasks == v.tasks && u.data == v.data && u.hands == v.hands
            && u.log == v.log && u.calls == v.calls && u.first == v.first
            && u.gens.Keys == v.gens.Keys * v.s.d.slots.Keys
  {
  }
}
