/** The demultiplexer as the object the adapter updates in place. Every method is proved against the
    operation of DemuxModel it implements. */
module ReplyDemux {
  import opened Xatmi
  import opened DemuxModel
  import opened DemuxBuffers
  import opened DemuxDeadlines

  datatype Result<+T> = Ok(value: T) | Err(error: Error)

  /** The native context: the shared reply queue and the allocations. */
  class AtmiCtx {
    var native: Native

    method TpAlloc() returns (r: Result<Ptr>)
      modifies this
      ensures old(native).allocs == 0 ==> r == Err(TPEOS) && native == old(native)
      ensures old(native).allocs > 0 ==>
                && r == Ok(old(native).next)
                && native == old(native).(heap := old(native).heap[old(native).next := PROVISIONAL],
                                          allocs := old(native).allocs - 1, next := old(native).next + 1)
    {
      if native.allocs == 0 { return Err(TPEOS); }
      r := Ok(native.next);
      native := native.(heap := native.heap[native.next := PROVISIONAL], allocs := native.allocs - 1, next := native.next + 1);
    }

    /** Native `tpfree`: only for a live allocation. */
    method TpFree(p: Ptr)
      requires p in native.heap
      modifies this
      ensures native == FreeNative(old(native), p)
    {
      native := FreeNative(native, p);
    }

    /** Native `tpgetrply(TPGETANY | TPNOBLOCK)` into the caller's buffer. */
    method TpGetRply(buffer: TypedBuffer) returns (cd: int, outcome: Outcome)
      modifies this, buffer
      ensures old(native).queue == [] ==>
                && cd == 0 && outcome == Failure(TPEBLOCK)
                && native == old(native) && buffer.ptr == old(buffer.ptr) && buffer.len == old(buffer.len)
      ensures old(native).queue != [] ==>
                var m := old(native).queue[0];
                && cd == (if m.cd > 0 then m.cd else 0) && outcome == m.outcome
                && (native, buffer.ptr) == Receive(old(native), old(buffer.ptr))
                && buffer.len == (if m.cd > 0 then m.len else old(buffer.len))
    {
      if native.queue == [] { return 0, Failure(TPEBLOCK); }
      var m := native.queue[0];
      var (n, p) := Receive(native, buffer.ptr);
      native, buffer.ptr := n, p;
      if m.cd > 0 { buffer.len := m.len; }
      cd, outcome := if m.cd > 0 then m.cd else 0, m.outcome;
    }

    method TpCancel(cd: int)
      modifies this
      ensures native == CancelNative(old(native), cd)
    {
      native := CancelNative(native, cd);
    }
  }

  /** A caller's typed buffer: the allocation it points to and the tracked payload length. */
  class TypedBuffer {
    var ptr: Ptr
    var len: nat

    constructor (p: Ptr, l: nat)
      ensures ptr == p && len == l
    {
      ptr, len := p, l;
    }

    function View(): Parked
      reads this
    {
      Parked(ptr, len)
    }
  }

  /** The collection of the ready descriptor `cd` by a waiter for `target`. */
  ghost predicate Collects(s: Sys, t: Sys, target: Target, cd: int, data: Parked, data': Parked, told: Outcome, nochange: bool) {
    && (match target case One(c) => c == cd && IsReady(s.d.slots, cd) case Any(_) => Unclaimed(s.d.slots, cd))
    && (t, data', told) == TakeSlot(s, cd, data, nochange)
  }

  ghost predicate NothingFor(s: Sys, target: Target) {
    match target
    case One(cd) => !IsReady(s.d.slots, cd)
    case Any(_) => forall cd :: !Unclaimed(s.d.slots, cd)
  }

  /** What the caller is told and has in its buffer: the reply's outcome and the reply's buffer, unless there
      is none; but under `TPNOCHANGE` a reply of another type or subtype is refused. A refused reply, and
      one without a buffer, leaves the caller's own. */
  ghost predicate HandedOver(heap: map<Ptr, Content>, outcome: Outcome, b: Parked, data: Parked, nochange: bool, told: Outcome, data': Parked) {
    if nochange && b.ptr != NULL && b.ptr in heap && data.ptr in heap
       && (heap[b.ptr].typeName, heap[b.ptr].subtype) != (heap[data.ptr].typeName, heap[data.ptr].subtype)
    then told == Failure(TPEOTYPE) && data' == data
    else told == outcome && data' == if b.ptr == NULL then data else b
  }

  /** The next key of a hash map's iteration: some key. */
  method Pick<T>(s: set<T>) returns (x: T)
    requires s != {}
    ensures x in s
  {
    x :| x in s;
  }

  class Demultiplexer {
    var slots: map<int, Slot>
    var scratch: Option<Parked>
    var orphans: seq<Parked>
    var anyWaiters: map<nat, AnyWaiter>
    var nextAnyId: nat
    var nextClaimId: nat
    var deadlines: map<int, Option<nat>>
    var draining: bool
    var woken: set<Waker>   // the wakers called so far

    function State(): Demux
      reads this
    {
      Demux(slots, scratch, orphans, anyWaiters, nextAnyId, nextClaimId, deadlines)
    }

    function All(ctx: AtmiCtx): Sys
      reads this, ctx
    {
      Sys(State(), ctx.native, woken)
    }

    constructor ()
      ensures State() == FRESH && !draining && woken == {}
    {
      slots, scratch, orphans, anyWaiters := map[], None, [], map[];
      nextAnyId, nextClaimId, deadlines, draining, woken := 0, 0, map[], false, {};
    }

    /** The number must be free: a tracked descriptor is never displaced. Afterwards the descriptor waits,
        not ready and, for a `tpcall`, out of reach of any-reply collections once it is; claiming it is
        refused exactly if a `tpcall` owns it; what is ready for whom, and every other descriptor, is as it
        was. */
    method RegisterFresh(cd: int, claimed: bool)
      requires cd !in slots
      modifies `slots
      ensures State() == DemuxModel.RegisterFresh(old(State()), cd, claimed)
      ensures cd in slots && !TargetReady(State(), One(cd))
      ensures old(nextClaimId) < U64_MAX ==> (ClaimError(State(), cd) == Some(TPEPROTO) <==> claimed)
      ensures forall c :: c != cd ==> (c in slots <==> c in old(slots)) && (c in slots ==> slots[c] == old(slots)[c])
      ensures forall c :: Unclaimed(slots, c) <==> Unclaimed(old(slots), c)
      ensures Held(State()) == Held(old(State()))
    {
      slots := slots[cd := Waiting(None, if claimed then Some(Call) else None)];
      WaitingHoldsNothing(old(slots), cd, slots[cd]);
    }

    /** Claims a descriptor that has no owner, under a number never used before; what may have landed
        already stays. An owned descriptor and exhausted numbers are refused. */
    method Claim(cd: int) returns (r: Result<Guard>)
      modifies `slots, `nextClaimId
      ensures ClaimError(old(State()), cd).Some? ==> r == Err(ClaimError(old(State()), cd).value) && State() == old(State())
      ensures ClaimError(old(State()), cd).None? ==> r.Ok? && (State(), r.value) == Claimed(old(State()), cd)
      ensures r == Err(TPELIMIT) <==> old(nextClaimId) >= U64_MAX
      ensures r == Err(TPEPROTO) <==> old(nextClaimId) < U64_MAX && cd in old(slots) && old(slots)[cd].claim.Some?
      ensures r.Ok? ==> r.value.id == nextClaimId == old(nextClaimId) + 1 && r.value.cd == cd && (r.value.created <==> cd !in old(slots))
      ensures r.Ok? ==> cd in slots && slots[cd].claim == Some(Waiter(r.value.id)) && OthersStay(old(slots), slots, cd)
                        && SameButClaim(if cd in old(slots) then old(slots)[cd] else Waiting(None, None), slots[cd])
    {
      if nextClaimId >= U64_MAX { return Err(TPELIMIT); }
      var id := nextClaimId + 1;
      var created := cd !in slots;
      var slot := if created then Waiting(None, None) else slots[cd];
      if slot.claim.Some? { return Err(TPEPROTO); }
      slots := slots[cd := WithClaim(slot, Some(Waiter(id)))];
      nextClaimId := id;
      r := Ok(Guard(cd, id, created));
    }

    /** Only a slot still claimed under this guard's number is touched. It goes if claiming it had made it and
        nothing has landed; else it is free again, with what has landed, and every any-reply waiter is
        called. */
    method DropGuard(g: Guard, ctx: AtmiCtx)
      modifies `slots, `anyWaiters, `woken
      ensures All(ctx) == DemuxModel.DropGuard(old(All(ctx)), g)
      ensures OthersStay(old(slots), slots, g.cd) && old(woken) <= woken
      ensures !(g.cd in old(slots) && old(slots)[g.cd].claim == Some(Waiter(g.id))) ==> All(ctx) == old(All(ctx))
      ensures g.cd in old(slots) && old(slots)[g.cd].claim == Some(Waiter(g.id)) ==>
                && (g.cd !in slots <==> old(slots)[g.cd].Waiting? && g.created)
                && (g.cd in slots ==> slots[g.cd].claim == None && AllCalled(old(anyWaiters), anyWaiters, woken))
                && (old(slots)[g.cd].Ready? ==> SameButClaim(old(slots)[g.cd], slots[g.cd]))
                && (g.cd in slots && slots[g.cd].Waiting? ==> slots[g.cd].waker == None)
    {
      if g.cd !in slots || slots[g.cd].claim != Some(Waiter(g.id)) { return; }
      match slots[g.cd] {
        case Waiting(_, _) =>
          if g.created {
            slots := slots - {g.cd};
            return;
          }
          slots := slots[g.cd := Waiting(None, None)];
        case Ready(o, b, _) =>
          slots := slots[g.cd := Ready(o, b, None)];
      }
      WakeAnyWaiters(ctx);
    }

    method RecordDeadline(cd: int, deadline: Option<nat>)
      modifies `deadlines
      ensures State() == Recorded(old(State()), cd, deadline)
    {
      deadlines := deadlines[cd := deadline];
    }

    method ForgetDeadline(cd: int)
      modifies `deadlines
      ensures State() == Forgotten(old(State()), cd)
    {
      deadlines := deadlines - {cd};
    }

    /** The soonest of the recorded deadlines. */
    method EarliestDeadline() returns (r: Option<nat>)
      ensures IsEarliest(deadlines, r)
    {
      var left := deadlines.Keys;
      r := None;
      while left != {}
        invariant left <= deadlines.Keys
        invariant IsEarliest(map cd | cd in deadlines && cd !in left :: deadlines[cd], r)
        decreases left
      {
        var cd := Pick(left);
        ghost var done := map c | c in deadlines && c !in left :: deadlines[c];
        left := left - {cd};
        ghost var more := map c | c in deadlines && c !in left :: deadlines[c];
        assert more == done[cd := deadlines[cd]];
        if deadlines[cd].Some? && (r.None? || deadlines[cd].value < r.value) {
          r := deadlines[cd];
          assert cd in more && more[cd] == r;
        } else if r.Some? {
          ghost var c :| c in done && done[c] == r;
          assert c in more && more[c] == r;
        }
      }
      assert (map cd | cd in deadlines && cd !in left :: deadlines[cd]) == deadlines;
    }

    method AnyUnclaimed() returns (r: Option<int>)
      ensures r.Some? ==> Unclaimed(slots, r.value)
      ensures r.None? ==> forall cd :: !Unclaimed(slots, cd)
    {
      var left := slots.Keys;
      while left != {}
        invariant left <= slots.Keys
        invariant forall cd :: Unclaimed(slots, cd) ==> cd in left
        decreases left
      {
        var cd := Pick(left);
        if Unclaimed(slots, cd) { return Some(cd); }
        left := left - {cd};
      }
      r := None;
    }

    method IsTargetReady(target: Target) returns (r: bool)
      ensures r <==> TargetReady(State(), target)
    {
      match target {
        case One(cd) => r := IsReady(slots, cd);
        case Any(id) =>
          var any := AnyUnclaimed();
          r := any.Some? || (id in anyWaiters && anyWaiters[id].error.Some?);
      }
    }

    method ParkWaker(target: Target, waker: Waker)
      modifies `slots, `anyWaiters
      ensures State() == DemuxModel.ParkWaker(old(State()), target, waker)
      ensures target.One? ==> OthersStay(old(slots), slots, target.cd) && anyWaiters == old(anyWaiters)
                              && (target.cd in slots <==> target.cd in old(slots))
                              && (target.cd in slots ==> slots[target.cd] == match old(slots)[target.cd]
                                                                             case Waiting(_, c) => Waiting(Some(waker), c)
                                                                             case Ready(o, b, c) => Ready(o, b, c))
      ensures target.Any? ==> slots == old(slots) && anyWaiters.Keys == old(anyWaiters).Keys
                              && forall id :: id in anyWaiters ==>
                                   anyWaiters[id] == AnyWaiter(if id == target.id then Some(waker) else old(anyWaiters)[id].waker, old(anyWaiters)[id].error)
    {
      match target {
        case One(cd) =>
          if cd in slots && slots[cd].Waiting? && slots[cd].waker != Some(waker) {
            slots := slots[cd := slots[cd].(waker := Some(waker))];
          }
          assert cd in slots && slots[cd].Waiting? ==> slots == slots[cd := slots[cd].(waker := Some(waker))];
        case Any(id) =>
          if id in anyWaiters && anyWaiters[id].waker != Some(waker) {
            anyWaiters := anyWaiters[id := anyWaiters[id].(waker := Some(waker))];
          }
          assert id in anyWaiters ==> anyWaiters == anyWaiters[id := anyWaiters[id].(waker := Some(waker))];
      }
    }

    method WakeAnyWaiters(ctx: AtmiCtx)
      modifies `anyWaiters, `woken
      ensures All(ctx) == WakeAny(old(All(ctx)))
      ensures AllCalled(old(anyWaiters), anyWaiters, woken) && old(woken) <= woken
    {
      ghost var before := anyWaiters;
      var left := anyWaiters.Keys;
      var wakers: set<Waker> := {};
      while left != {}
        invariant left <= anyWaiters.Keys == before.Keys
        invariant anyWaiters == map id | id in before :: if id in left then before[id] else before[id].(waker := None)
        invariant woken == old(woken)
        invariant wakers == set id | id in before && id !in left && before[id].waker.Some? :: before[id].waker.value
        decreases left
      {
        var id := Pick(left);
        if anyWaiters[id].waker.Some? { wakers := wakers + {anyWaiters[id].waker.value}; }
        anyWaiters := anyWaiters[id := anyWaiters[id].(waker := None)];
        left := left - {id};
      }
      assert anyWaiters == Asleep(before) && wakers == AnyWakers(before);
      woken := woken + wakers;
    }

    /** Until the numbers wrap, the registration's number was never used before and no live one has it;
        it waits without a waker or an error, is ready exactly if some reply is unclaimed, and the other
        registrations keep their wakers and errors. */
    method RegisterAnyWaiter() returns (id: nat)
      modifies `nextAnyId, `anyWaiters
      ensures (State(), id) == RegisterAny(old(State()))
      ensures old(nextAnyId) < U64_MAX ==> id > old(nextAnyId) && nextAnyId == id
      ensures old(nextAnyId) < U64_MAX && (forall i :: i in old(anyWaiters) ==> i <= old(nextAnyId)) ==>
                id !in old(anyWaiters) && forall i :: i in anyWaiters ==> i <= nextAnyId
      ensures id in anyWaiters && (TargetReady(State(), Any(id)) <==> exists cd :: Unclaimed(slots, cd))
      ensures forall i :: i != id ==> (i in anyWaiters <==> i in old(anyWaiters)) && (i in anyWaiters ==> anyWaiters[i] == old(anyWaiters)[i])
    {
      id := (nextAnyId + 1) % (U64_MAX + 1);
      nextAnyId := id;
      anyWaiters := anyWaiters[id := AnyWaiter(None, None)];
    }

    /** The registration is gone, a pending queue failure with it: only an unclaimed reply could still make
        its target ready. Every other registration keeps its waker and error. */
    method DeregisterAnyWaiter(id: nat)
      modifies `anyWaiters
      ensures State() == DeregisterAny(old(State()), id)
      ensures id !in anyWaiters && (TargetReady(State(), Any(id)) <==> exists cd :: Unclaimed(slots, cd))
      ensures forall i :: i != id ==> (i in anyWaiters <==> i in old(anyWaiters)) && (i in anyWaiters ==> anyWaiters[i] == old(anyWaiters)[i])
    {
      anyWaiters := anyWaiters - {id};
    }

    /** The registration's pending error, if there is one, is taken; every registration stays, with its
        waker, and the others keep their errors. */
    method TakeAnyError(id: nat) returns (r: Option<Error>)
      modifies `anyWaiters
      ensures (State(), r) == DemuxModel.TakeAnyError(old(State()), id)
      ensures r == if id in old(anyWaiters) then old(anyWaiters)[id].error else None
      ensures anyWaiters.Keys == old(anyWaiters).Keys
      ensures forall i :: i in anyWaiters ==> anyWaiters[i].waker == old(anyWaiters)[i].waker
                                              && anyWaiters[i].error == if i == id then None else old(anyWaiters)[i].error
    {
      r := None;
      if id in anyWaiters {
        r := anyWaiters[id].error;
        anyWaiters := anyWaiters[id := anyWaiters[id].(error := None)];
      }
    }

    method Deregister(cd: int) returns (r: Option<Parked>)
      modifies `slots
      ensures (State(), r) == DemuxModel.Deregister(old(State()), cd)
      ensures cd !in slots && OthersStay(old(slots), slots, cd)
      ensures r == if IsReady(old(slots), cd) then Some(old(slots)[cd].buf) else None
    {
      r := if IsReady(slots, cd) then Some(slots[cd].buf) else None;
      slots := slots - {cd};
    }

    /** Collect a completed reply into the caller's buffer; without one, nothing changes. */
    method TakeReady(target: Target, data: TypedBuffer, nochange: bool, ctx: AtmiCtx) returns (r: Option<(int, Outcome)>)
      modifies `slots, `scratch, `orphans, data
      ensures r.None? ==> NothingFor(old(All(ctx)), target) && All(ctx) == old(All(ctx)) && data.View() == old(data.View())
      ensures r.Some? ==> Collects(old(All(ctx)), All(ctx), target, r.value.0, old(data.View()), data.View(), r.value.1, nochange)
      ensures r.Some? ==> var cd := r.value.0;
                && IsReady(old(slots), cd) && cd !in slots && OthersStay(old(slots), slots, cd)
                && HandedOver(ctx.native.heap, old(slots)[cd].outcome, old(slots)[cd].buf, old(data.View()), nochange, r.value.1, data.View())
    {
      var cd;
      match target {
        case One(c) =>
          if !IsReady(slots, c) { return None; }
          cd := c;
        case Any(_) =>
          var any := AnyUnclaimed();
          if any.None? { return None; }
          cd := any.value;
      }
      var slot := slots[cd];
      slots := slots - {cd};
      var told := HandOver(slot.outcome, slot.buf, data, nochange, ctx);
      r := Some((cd, told));
    }

    method HandOver(outcome: Outcome, buf: Parked, data: TypedBuffer, nochange: bool, ctx: AtmiCtx) returns (told: Outcome)
      modifies `scratch, `orphans, data
      ensures (All(ctx), data.View(), told) == DemuxModel.HandOver(old(All(ctx)), outcome, buf, old(data.View()), nochange)
      ensures HandedOver(ctx.native.heap, outcome, buf, old(data.View()), nochange, told, data.View())
    {
      if buf.ptr == NULL { return outcome; }
      if nochange {
        var heap := ctx.native.heap;
        if buf.ptr in heap && data.ptr in heap {
          var got, want := heap[buf.ptr], heap[data.ptr];
          if got.typeName != want.typeName || got.subtype != want.subtype {
            Stash(buf);
            return Failure(TPEOTYPE);
          }
        }
      }
      var previous := Parked(data.ptr, data.len);
      data.ptr := buf.ptr;
      data.len := buf.len;
      Stash(previous);
      told := outcome;
    }

    method Stash(buf: Parked)
      modifies `scratch, `orphans
      ensures State() == DemuxModel.Stash(old(State()), buf)
    {
      if buf.ptr == NULL { return; }
      if scratch.None? { scratch := Some(buf); } else { orphans := orphans + [buf]; }
    }

    /** Drain the shared queue; a drain inside a drain does nothing. */
    method Drain(ctx: AtmiCtx)
      modifies this, ctx
      ensures old(draining) ==> All(ctx) == old(All(ctx))
      ensures !old(draining) ==> All(ctx) == DemuxModel.Drain(old(All(ctx)))
      ensures draining == old(draining)
    {
      if draining { return; }
      draining := true;
      DrainInner(ctx);
      draining := false;
    }

    method DrainInner(ctx: AtmiCtx)
      modifies this, ctx
      ensures All(ctx) == DemuxModel.Drain(old(All(ctx))) && draining == old(draining)
    {
      ghost var goal := DemuxModel.Drain(All(ctx));
      while true
        invariant DemuxModel.Drain(All(ctx)) == goal && draining == old(draining)
        decreases |ctx.native.queue|
      {
        var lent := TakeScratchBuffer(ctx);
        if lent.Err? {
          FailAllWaiting(lent.error, ctx);
          return;
        }
        var buffer := new TypedBuffer(lent.value.ptr, lent.value.len);
        var cd, outcome := ctx.TpGetRply(buffer);
        var buf := buffer.View();
        if outcome == Failure(TPEBLOCK) {
          Stash(buf);
          return;
        }
        if cd > 0 {
          Route(cd, outcome, buf, ctx);
          continue;
        }
        Stash(buf);
        if outcome.Failure? { FailAllWaiting(outcome.error, ctx); }
        return;
      }
    }

    method TakeScratchBuffer(ctx: AtmiCtx) returns (r: Result<Parked>)
      modifies `scratch, ctx
      ensures TakeScratch(old(All(ctx))).None? ==> r == Err(TPEOS) && All(ctx) == old(All(ctx))
      ensures TakeScratch(old(All(ctx))).Some? ==> r.Ok? && (All(ctx), r.value) == TakeScratch(old(All(ctx))).value
    {
      if scratch.Some? {
        r := Ok(scratch.value);
        scratch := None;
      } else {
        var p := ctx.TpAlloc();
        r := if p.Ok? then Ok(Parked(p.value, 0)) else Err(p.error);
      }
    }

    method Route(cd: int, outcome: Outcome, buf: Parked, ctx: AtmiCtx)
      modifies `slots, `scratch, `orphans, `anyWaiters, `woken
      ensures All(ctx) == DemuxModel.Route(old(All(ctx)), cd, outcome, buf)
    {
      var waker := None;
      if cd in slots {
        match slots[cd] {
          case Ready(_, _, _) =>
            Stash(buf);
            return;
          case Waiting(w, claim) =>
            waker := w;
            slots := slots[cd := Ready(outcome, buf, claim)];
        }
      } else {
        slots := slots[cd := Ready(outcome, buf, None)];
      }
      if waker.Some? { woken := woken + {waker.value}; }
      WakeAnyWaiters(ctx);
    }

    method FailAllWaiting(error: Error, ctx: AtmiCtx)
      modifies `slots, `anyWaiters, `woken
      ensures All(ctx) == FailAll(old(All(ctx)), error)
      ensures anyWaiters.Keys == old(anyWaiters).Keys && forall id :: id in anyWaiters ==> anyWaiters[id] == AnyWaiter(None, Some(error))
      ensures slots.Keys == old(slots).Keys && forall cd :: cd in slots ==>
                slots[cd] == match old(slots)[cd] case Waiting(_, c) => Ready(Failure(error), EMPTY, c) case Ready(o, b, c) => Ready(o, b, c)
      ensures forall cd :: cd in old(slots) && old(slots)[cd].Waiting? && old(slots)[cd].waker.Some? ==> old(slots)[cd].waker.value in woken
    {
      FailRegistrations(error);
      ghost var before := slots;
      var left := slots.Keys;
      var wakers: set<Waker> := {};
      while left != {}
        invariant left <= slots.Keys == before.Keys
        invariant slots == map cd | cd in before :: if cd in left then before[cd] else FailedSlot(before[cd], error)
        invariant woken == old(woken) && anyWaiters == FailedAny(old(anyWaiters), error)
        invariant wakers == set cd | cd in before && cd !in left && before[cd].Waiting? && before[cd].waker.Some? :: before[cd].waker.value
        decreases left
      {
        var cd := Pick(left);
        match slots[cd] {
          case Waiting(waker, claim) =>
            if waker.Some? { wakers := wakers + {waker.value}; }
            slots := slots[cd := Ready(Failure(error), EMPTY, claim)];
          case Ready(_, _, _) =>
        }
        left := left - {cd};
      }
      assert slots == FailedSlots(before, error) && wakers == SlotWakers(before);
      woken := woken + wakers;
      WakeAnyWaiters(ctx);
    }

    method FailRegistrations(error: Error)
      modifies `anyWaiters
      ensures anyWaiters == FailedAny(old(anyWaiters), error)
    {
      ghost var before := anyWaiters;
      var left := anyWaiters.Keys;
      while left != {}
        invariant left <= anyWaiters.Keys == before.Keys
        invariant anyWaiters == map id | id in before :: if id in left then before[id] else before[id].(error := Some(error))
        decreases left
      {
        var id := Pick(left);
        anyWaiters := anyWaiters[id := anyWaiters[id].(error := Some(error))];
        left := left - {id};
      }
    }

    /** Free everything still held, each allocation once; callers' buffers are not touched. */
    method Release(ctx: AtmiCtx)
      requires Owned(All(ctx))
      modifies `slots, `scratch, `orphans, ctx
      ensures slots == map[] && scratch == None && orphans == []
      ensures ctx.native == Freed(old(ctx.native), Held(old(State())))
      ensures ctx.native.heap.Keys == Callers(old(All(ctx)))
    {
      ghost var n0 := ctx.native;
      ReleaseSlots(ctx);
      ghost var n1 := ctx.native;
      if scratch.Some? {
        ctx.TpFree(scratch.value.ptr);
        scratch := None;
      }
      ghost var n2 := ctx.native;
      ReleaseOrphans(ctx);
      FreedMore(n0, SlotBufs(old(slots)), ScratchBufs(old(scratch)));
      FreedMore(n0, SlotBufs(old(slots)) + ScratchBufs(old(scratch)), OrphanBufs(old(orphans)));
      assert n2 == Freed(n1, ScratchBufs(old(scratch)));
    }

    method ReleaseOrphans(ctx: AtmiCtx)
      requires OrphansApart(orphans) && OrphanBufs(orphans) <= ctx.native.heap.Keys
      modifies `orphans, ctx
      ensures orphans == []
      ensures ctx.native == Freed(old(ctx.native), OrphanBufs(old(orphans)))
    {
      ghost var n0, all := ctx.native, OrphanBufs(orphans);
      assert Freed(n0, {}) == n0 && all - all == {};
      while orphans != []
        invariant OrphansApart(orphans) && OrphanBufs(orphans) <= all
        invariant ctx.native == Freed(n0, all - OrphanBufs(orphans))
        decreases |orphans|
      {
        OrphanHead(orphans);
        FreedMore(n0, all - OrphanBufs(orphans), {orphans[0].ptr});
        assert all - OrphanBufs(orphans[1..]) == (all - OrphanBufs(orphans)) + {orphans[0].ptr};
        ctx.TpFree(orphans[0].ptr);
        orphans := orphans[1..];
      }
      assert all - OrphanBufs(orphans) == all;
    }

    method ReleaseSlots(ctx: AtmiCtx)
      requires SlotsApart(slots) && SlotBufs(slots) <= ctx.native.heap.Keys
      modifies `slots, ctx
      ensures slots == map[]
      ensures ctx.native == Freed(old(ctx.native), SlotBufs(old(slots)))
    {
      ghost var n0, all := ctx.native, SlotBufs(slots);
      assert Freed(n0, {}) == n0 && all - all == {};
      while slots != map[]
        invariant SlotsApart(slots) && SlotBufs(slots) <= all
        invariant ctx.native == Freed(n0, all - SlotBufs(slots))
        decreases slots.Keys
      {
        assert slots.Keys != {};
        var cd := Pick(slots.Keys);
        ReleaseNext(cd, ctx, n0, all);
      }
      assert SlotBufs(slots) == {} && all - {} == all;
    }

    method ReleaseNext(cd: int, ctx: AtmiCtx, ghost n0: Native, ghost all: set<Ptr>)
      requires cd in slots && SlotsApart(slots) && SlotBufs(slots) <= all <= n0.heap.Keys
      requires ctx.native == Freed(n0, all - SlotBufs(slots))
      modifies `slots, ctx
      ensures slots == old(slots) - {cd} && SlotsApart(slots) && SlotBufs(slots) <= all
      ensures ctx.native == Freed(n0, all - SlotBufs(slots))
    {
      ReleaseStep(n0, all, slots, cd);
      var slot := slots[cd];
      slots := slots - {cd};
      if slot.Ready? && slot.buf.ptr != NULL { ctx.TpFree(slot.buf.ptr); }
    }
  }

  /** A waiting slot holds no buffer. */
  lemma WaitingHoldsNothing(slots: map<int, Slot>, cd: int, slot: Slot)
    requires cd !in slots && slot.Waiting?
    ensures SlotBufs(slots[cd := slot]) == SlotBufs(slots)
  {
    forall p | p in SlotBufs(slots) ensures p in SlotBufs(slots[cd := slot]) {
      var c :| c in slots && slots[c].Ready? && slots[c].buf.ptr != NULL && slots[c].buf.ptr == p;
      assert slots[cd := slot][c] == slots[c];
    }
  }

  /** `n` with exactly the allocations `ps` freed. */
  ghost function Freed(n: Native, ps: set<Ptr>): Native {
    n.(heap := n.heap - ps)
  }

  lemma FreedMore(n: Native, ps: set<Ptr>, qs: set<Ptr>)
    ensures Freed(Freed(n, ps), qs) == Freed(n, ps + qs)
  {
    assert (n.heap - ps) - qs == n.heap - (ps + qs);
  }

  /** Taking one slot out and freeing the buffer it parks, if any. */
  lemma ReleaseStep(n: Native, all: set<Ptr>, slots: map<int, Slot>, cd: int)
    requires SlotsApart(slots) && cd in slots && SlotBufs(slots) <= all <= n.heap.Keys
    ensures SlotsApart(slots - {cd}) && SlotBufs(slots - {cd}) <= all
    ensures var now := Freed(n, all - SlotBufs(slots));
            var later := Freed(n, all - SlotBufs(slots - {cd}));
            if IsReady(slots, cd) && slots[cd].buf.ptr != NULL
            then slots[cd].buf.ptr in now.heap && FreeNative(now, slots[cd].buf.ptr) == later
            else now == later
  {
    RemoveSlot(slots, cd);
    if IsReady(slots, cd) && slots[cd].buf.ptr != NULL {
      var p := slots[cd].buf.ptr;
      assert p in SlotBufs(slots);
      FreedMore(n, all - SlotBufs(slots), {p});
      assert all - SlotBufs(slots - {cd}) == (all - SlotBufs(slots)) + {p};
    } else {
      assert SlotBufs(slots - {cd}) == SlotBufs(slots);
    }
  }

  lemma OrphanHead(orphans: seq<Parked>)
    requires OrphansApart(orphans) && orphans != []
    ensures OrphansApart(orphans[1..]) && orphans[0].ptr in OrphanBufs(orphans)
    ensures OrphanBufs(orphans[1..]) == OrphanBufs(orphans) - {orphans[0].ptr}
  {
    var rest := orphans[1..];
    forall i | 0 <= i < |rest| ensures rest[i] == orphans[i + 1] {}
    forall p | p in OrphanBufs(rest) ensures p in OrphanBufs(orphans) - {orphans[0].ptr} {
      var i :| 0 <= i < |rest| && rest[i].ptr == p;
      assert orphans[i + 1].ptr == p;
    }
    forall p | p in OrphanBufs(orphans) - {orphans[0].ptr} ensures p in OrphanBufs(rest) {
      var i :| 0 <= i < |orphans| && orphans[i].ptr == p;
      assert rest[i - 1].ptr == p;
    }
  }
}
