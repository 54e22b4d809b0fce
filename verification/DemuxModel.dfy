/** The reply demultiplexer as values: what each of its operations does to the slot table, the
    any-reply registrations, the spare buffers and the set of wakers it calls. */
module DemuxModel {
  import opened Xatmi

  /** Who may collect a reply: the `tpcall` that owns the descriptor, or the `tpgetrply` whose
      waiter number this is. */
  datatype Claim = Call | Waiter(id: nat)

  /** A reply buffer held as an address and a length. */
  datatype Parked = Parked(ptr: Ptr, len: nat)
  const EMPTY: Parked := Parked(NULL, 0)

  datatype Slot =
    | Waiting(waker: Option<Waker>, claim: Option<Claim>)
    | Ready(outcome: Outcome, buf: Parked, claim: Option<Claim>)

  datatype AnyWaiter = AnyWaiter(waker: Option<Waker>, error: Option<Error>)

  datatype Target = One(cd: int) | Any(id: nat)

  /** Releases one waiter's claim; `created` says that claiming made the slot. */
  datatype Guard = Guard(cd: int, id: nat, created: bool)

  datatype Demux = Demux(
    slots: map<int, Slot>,
    scratch: Option<Parked>,
    orphans: seq<Parked>,
    anyWaiters: map<nat, AnyWaiter>,
    nextAnyId: nat,
    nextClaimId: nat,
    deadlines: map<int, Option<nat>>
  )

  /** The demultiplexer, the native context and the wakers called so far. */
  datatype Sys = Sys(d: Demux, n: Native, woken: set<Waker>)

  const FRESH: Demux := Demux(map[], None, [], map[], 0, 0, map[])

  // ----- readiness

  predicate IsReady(slots: map<int, Slot>, cd: int) {
    cd in slots && slots[cd].Ready?
  }

  /** A reply nobody waits for by descriptor. */
  predicate Unclaimed(slots: map<int, Slot>, cd: int) {
    IsReady(slots, cd) && slots[cd].claim == None
  }

  ghost predicate TargetReady(d: Demux, target: Target) {
    match target
    case One(cd) => IsReady(d.slots, cd)
    case Any(id) =>
      || (exists cd :: Unclaimed(d.slots, cd))
      || (id in d.anyWaiters && d.anyWaiters[id].error.Some?)
  }

  /** Every descriptor but `cd` is as it was. */
  ghost predicate OthersStay(was: map<int, Slot>, now: map<int, Slot>, cd: int) {
    forall c :: c != cd ==> (c in now <==> c in was) && (c in was ==> now[c] == was[c])
  }

  /** The same slot but for its claim. */
  ghost predicate SameButClaim(a: Slot, b: Slot) {
    match a
    case Waiting(w, _) => b.Waiting? && b.waker == w
    case Ready(o, buf, _) => b.Ready? && b.outcome == o && b.buf == buf
  }

  /** The same registrations, none with a waker any more; every waker there was has been called. */
  ghost predicate AllCalled(was: map<nat, AnyWaiter>, now: map<nat, AnyWaiter>, woken: set<Waker>) {
    && now.Keys == was.Keys
    && (forall id :: id in now ==> now[id].waker.None? && now[id].error == was[id].error)
    && (forall id :: id in was && was[id].waker.Some? ==> was[id].waker.value in woken)
  }

  // ----- registration and claims

  function RegisterFresh(d: Demux, cd: int, claimed: bool): Demux {
    d.(slots := d.slots[cd := Waiting(None, if claimed then Some(Call) else None)])
  }

  /** Claiming fails when the waiter numbers are exhausted or the slot already has an owner. */
  function ClaimError(d: Demux, cd: int): Option<Error> {
    if d.nextClaimId >= U64_MAX then Some(TPELIMIT)
    else if cd in d.slots && d.slots[cd].claim.Some? then Some(TPEPROTO)
    else None
  }

  function WithClaim(slot: Slot, claim: Option<Claim>): Slot {
    match slot
    case Waiting(w, _) => Waiting(w, claim)
    case Ready(o, b, _) => Ready(o, b, claim)
  }

  function Claimed(d: Demux, cd: int): (Demux, Guard)
    requires ClaimError(d, cd).None?
  {
    var id := d.nextClaimId + 1;
    var slot := if cd in d.slots then d.slots[cd] else Waiting(None, None);
    (d.(slots := d.slots[cd := WithClaim(slot, Some(Waiter(id)))], nextClaimId := id),
     Guard(cd, id, cd !in d.slots))
  }

  predicate Holds(d: Demux, g: Guard) {
    g.cd in d.slots && d.slots[g.cd].claim == Some(Waiter(g.id))
  }

  /** Dropping a guard touches only the slot whose claim is still this guard's. */
  function DropGuard(s: Sys, g: Guard): Sys {
    if !Holds(s.d, g) then s
    else
      var slot := s.d.slots[g.cd];
      if slot.Waiting? && g.created then s.(d := s.d.(slots := s.d.slots - {g.cd}))
      else
        var released := if slot.Waiting? then Waiting(None, None) else WithClaim(slot, None);
        WakeAny(s.(d := s.d.(slots := s.d.slots[g.cd := released])))
  }

  // ----- wakers

  function ParkWaker(d: Demux, target: Target, waker: Waker): Demux {
    match target
    case One(cd) =>
      if cd in d.slots && d.slots[cd].Waiting?
      then d.(slots := d.slots[cd := d.slots[cd].(waker := Some(waker))])
      else d
    case Any(id) =>
      if id in d.anyWaiters
      then d.(anyWaiters := d.anyWaiters[id := d.anyWaiters[id].(waker := Some(waker))])
      else d
  }

  function AnyWakers(any: map<nat, AnyWaiter>): (r: set<Waker>)
  {
    set id | id in any && any[id].waker.Some? :: any[id].waker.value
  }

  function Asleep(any: map<nat, AnyWaiter>): map<nat, AnyWaiter> {
    map id | id in any :: any[id].(waker := None)
  }

  function WakeAny(s: Sys): Sys {
    s.(d := s.d.(anyWaiters := Asleep(s.d.anyWaiters)), woken := s.woken + AnyWakers(s.d.anyWaiters))
  }

  // ----- any-reply registrations

  function RegisterAny(d: Demux): (Demux, nat) {
    var id := (d.nextAnyId + 1) % (U64_MAX + 1);
    (d.(nextAnyId := id, anyWaiters := d.anyWaiters[id := AnyWaiter(None, None)]), id)
  }

  function DeregisterAny(d: Demux, id: nat): Demux {
    d.(anyWaiters := d.anyWaiters - {id})
  }

  function TakeAnyError(d: Demux, id: nat): (Demux, Option<Error>) {
    if id in d.anyWaiters
    then (d.(anyWaiters := d.anyWaiters[id := d.anyWaiters[id].(error := None)]), d.anyWaiters[id].error)
    else (d, None)
  }

  // ----- spare buffers and hand-over

  function Stash(d: Demux, b: Parked): Demux {
    if b.ptr == NULL then d
    else if d.scratch.None? then d.(scratch := Some(b))
    else d.(orphans := d.orphans + [b])
  }

  /** `TPNOCHANGE` compares the type and subtype of two live allocations. */
  predicate TypeChanges(n: Native, got: Ptr, want: Ptr) {
    && got in n.heap && want in n.heap
    && (n.heap[got].typeName != n.heap[want].typeName || n.heap[got].subtype != n.heap[want].subtype)
  }

  /** The reply leaves its slot; what the caller's buffer `data` becomes, and what the caller is told. */
  function HandOver(s: Sys, outcome: Outcome, b: Parked, data: Parked, nochange: bool): (Sys, Parked, Outcome) {
    if b.ptr == NULL then (s, data, outcome)
    else if nochange && TypeChanges(s.n, b.ptr, data.ptr)
    then (s.(d := Stash(s.d, b)), data, Failure(TPEOTYPE))
    else (s.(d := Stash(s.d, data)), b, outcome)
  }

  /** Collecting the ready slot `cd`. */
  function TakeSlot(s: Sys, cd: int, data: Parked, nochange: bool): (Sys, Parked, Outcome)
    requires IsReady(s.d.slots, cd)
  {
    var slot := s.d.slots[cd];
    HandOver(s.(d := s.d.(slots := s.d.slots - {cd})), slot.outcome, slot.buf, data, nochange)
  }

  // ----- routing

  function Route(s: Sys, cd: int, outcome: Outcome, b: Parked): Sys {
    if IsReady(s.d.slots, cd) then s.(d := Stash(s.d, b))
    else
      var claim := if cd in s.d.slots then s.d.slots[cd].claim else None;
      var waker := if cd in s.d.slots then s.d.slots[cd].waker else None;
      var filled := s.d.(slots := s.d.slots[cd := Ready(outcome, b, claim)]);
      WakeAny(s.(d := filled, woken := s.woken + Wakers(waker)))
  }

  function Wakers(waker: Option<Waker>): set<Waker> {
    if waker.Some? then {waker.value} else {}
  }

  function SlotWakers(slots: map<int, Slot>): set<Waker> {
    set cd | cd in slots && slots[cd].Waiting? && slots[cd].waker.Some? :: slots[cd].waker.value
  }

  function FailedSlot(slot: Slot, e: Error): Slot {
    if slot.Waiting? then Ready(Failure(e), EMPTY, slot.claim) else slot
  }

  function FailedSlots(slots: map<int, Slot>, e: Error): map<int, Slot> {
    map cd | cd in slots :: FailedSlot(slots[cd], e)
  }

  function FailedAny(any: map<nat, AnyWaiter>, e: Error): map<nat, AnyWaiter> {
    map id | id in any :: any[id].(error := Some(e))
  }

  function FailAll(s: Sys, e: Error): Sys {
    WakeAny(s.(d := s.d.(anyWaiters := FailedAny(s.d.anyWaiters, e), slots := FailedSlots(s.d.slots, e)),
               woken := s.woken + SlotWakers(s.d.slots)))
  }

  // ----- draining

  /** The buffer lent to the next receive: the spare one, or a new allocation if one is left. */
  function TakeScratch(s: Sys): Option<(Sys, Parked)> {
    match s.d.scratch
    case Some(b) => Some((s.(d := s.d.(scratch := None)), b))
    case None =>
      if s.n.allocs == 0 then None
      else Some((s.(n := s.n.(heap := s.n.heap[s.n.next := PROVISIONAL], allocs := s.n.allocs - 1, next := s.n.next + 1)),
                 Parked(s.n.next, 0)))
  }

  /** One turn of the drain loop, and whether the loop goes on. */
  function DrainTurn(s: Sys): (r: (Sys, bool))
    ensures r.1 ==> |r.0.n.queue| < |s.n.queue|
  {
    match TakeScratch(s)
    case None => (FailAll(s, TPEOS), false)
    case Some((t, lent)) =>
      if t.n.queue == [] then (t.(d := Stash(t.d, lent)), false)
      else
        var m := t.n.queue[0];
        var (n', p) := Receive(t.n, lent.ptr);
        var got := Parked(p, if m.cd > 0 then m.len else lent.len);
        var u := t.(n := n');
        if m.outcome == Failure(TPEBLOCK) then (u.(d := Stash(u.d, got)), false)
        else if m.cd > 0 then (Route(u, m.cd, m.outcome, got), true)
        else
          var v := u.(d := Stash(u.d, got));
          if m.outcome.Failure? then (FailAll(v, m.outcome.error), false) else (v, false)
  }

  function Drain(s: Sys): Sys
    decreases |s.n.queue|
  {
    var (t, more) := DrainTurn(s);
    if more then Drain(t) else t
  }

  // ----- deadlines, cancellation, submission

  function Deregister(d: Demux, cd: int): (Demux, Option<Parked>) {
    (d.(slots := d.slots - {cd}), if IsReady(d.slots, cd) then Some(d.slots[cd].buf) else None)
  }

  function ReleaseSlot(s: Sys, cd: int): Sys {
    var (d', b) := Deregister(s.d.(deadlines := s.d.deadlines - {cd}), cd);
    s.(d := d', n := if b.Some? then FreeNative(s.n, b.value.ptr) else s.n)
  }

  function CancelCall(s: Sys, cd: int): Sys {
    var t := ReleaseSlot(s, cd);
    t.(n := CancelNative(t.n, cd))
  }

  function TpCancel(s: Sys, cd: int): Sys {
    WakeAny(Drain(CancelCall(s, cd)))
  }

  /** A submission whose number is still tracked is given up; the tracked slot is not touched. */
  function RegisterSubmission(s: Sys, cd: int, deadline: Option<nat>, claimed: bool): (Sys, Option<Error>) {
    if cd > 0 && cd in s.d.slots
    then (WakeAny(Drain(s.(n := CancelNative(s.n, cd)))), Some(TPELIMIT))
    else if cd > 0
    then (s.(d := Recorded(RegisterFresh(s.d, cd, claimed), cd, deadline)), None)
    else (s, None)
  }

  function Recorded(d: Demux, cd: int, deadline: Option<nat>): Demux {
    d.(deadlines := d.deadlines[cd := deadline])
  }

  function Forgotten(d: Demux, cd: int): Demux {
    d.(deadlines := d.deadlines - {cd})
  }
}
