/** Claims over all runs: which slot belongs to which future. */
module DemuxClaims {
  import opened Xatmi
  import opened DemuxModel
  import opened DemuxBuffers
  import opened DemuxWorld

  /** Every future that names a descriptor holds that descriptor's claim, no two futures name the same
      descriptor, and every claim has its future. */
  ghost predicate Claims(slots: map<int, Slot>, tasks: map<nat, Kind>) {
    && (forall t :: t in tasks && Names(tasks[t]) ==> HoldsClaim(slots, tasks[t]))
    && (forall t, u :: t in tasks && u in tasks && Names(tasks[t]) && Names(tasks[u]) && t != u
          ==> CdOf(tasks[t]) != CdOf(tasks[u]))
    && (forall cd :: cd in slots && slots[cd].claim.Some? ==> Waited(tasks, cd))
  }

  ghost predicate HoldsClaim(slots: map<int, Slot>, k: Kind)
    requires Names(k)
  {
    CdOf(k) in slots && slots[CdOf(k)].claim == Some(ClaimOf(k))
  }

  /** Registrations and any-reply futures correspond one to one. */
  ghost predicate Registrations(d: Demux, tasks: map<nat, Kind>) {
    && (forall t :: t in tasks && tasks[t].AnyOn? ==> tasks[t].id in d.anyWaiters)
    && (forall t, u :: t in tasks && u in tasks && tasks[t].AnyOn? && tasks[u].AnyOn? && t != u
          ==> tasks[t].id != tasks[u].id)
    && (forall id :: id in d.anyWaiters ==> id <= d.nextAnyId && Registered(tasks, id))
  }

  ghost predicate Registered(tasks: map<nat, Kind>, id: nat) {
    exists t :: t in tasks && tasks[t].AnyOn? && tasks[t].id == id
  }

  ghost predicate Linked(w: World) {
    && w.tasks.Keys == w.data.Keys == w.waits.Keys
    && Claims(w.s.d.slots, w.tasks)
    && Registrations(w.s.d, w.tasks)
  }

  // ----- moves of the slot table that keep the claims

  /** Adding a future that takes an unclaimed or a new slot. */
  lemma AddNamed(slots: map<int, Slot>, tasks: map<nat, Kind>, t: nat, k: Kind, slot: Slot)
    requires Claims(slots, tasks) && t !in tasks && Names(k)
    requires CdOf(k) in slots ==> slots[CdOf(k)].claim.None?
    requires slot.claim == Some(ClaimOf(k))
    ensures Claims(slots[CdOf(k) := slot], tasks[t := k])
  {
    var cd := CdOf(k);
    var slots', tasks' := slots[cd := slot], tasks[t := k];
    forall u | u in tasks && Names(tasks[u]) ensures CdOf(tasks[u]) != cd {
      assert HoldsClaim(slots, tasks[u]);
    }
    forall c | c in slots' && slots'[c].claim.Some? ensures Waited(tasks', c) {
      if c == cd { assert t in tasks' && CdOf(tasks'[t]) == c; }
      else {
        assert Waited(tasks, c);
        var u :| u in tasks && Names(tasks[u]) && CdOf(tasks[u]) == c;
        assert u in tasks' && tasks'[u] == tasks[u];
      }
    }
  }

  /** Removing a future together with the claim, or the slot, it held. */
  lemma DropNamed(slots: map<int, Slot>, tasks: map<nat, Kind>, t: nat, slots': map<int, Slot>)
    requires Claims(slots, tasks) && t in tasks && Names(tasks[t])
    requires forall c :: c != CdOf(tasks[t]) ==> (c in slots' <==> c in slots) && (c in slots ==> slots'[c] == slots[c])
    requires CdOf(tasks[t]) in slots' ==> slots'[CdOf(tasks[t])].claim.None?
    ensures Claims(slots', tasks - {t})
  {
    var cd := CdOf(tasks[t]);
    var tasks' := tasks - {t};
    forall u | u in tasks' && Names(tasks'[u]) ensures HoldsClaim(slots', tasks'[u]) {
      assert HoldsClaim(slots, tasks[u]) && CdOf(tasks[u]) != cd;
    }
    forall c | c in slots' && slots'[c].claim.Some? ensures Waited(tasks', c) {
      assert c != cd && Waited(tasks, c);
      var u :| u in tasks && Names(tasks[u]) && CdOf(tasks[u]) == c;
      assert u in tasks' && tasks'[u] == tasks[u];
    }
  }

  /** Changes that touch only slots nobody claims, or that keep every claim. */
  lemma KeepClaims(slots: map<int, Slot>, tasks: map<nat, Kind>, slots': map<int, Slot>)
    requires Claims(slots, tasks)
    requires forall c :: c in slots && slots[c].claim.Some? ==> c in slots' && slots'[c].claim == slots[c].claim
    requires forall c :: c in slots' && slots'[c].claim.Some? ==> c in slots && slots[c].claim == slots'[c].claim
    ensures Claims(slots', tasks)
  {
    forall t | t in tasks && Names(tasks[t]) ensures HoldsClaim(slots', tasks[t]) {
      assert HoldsClaim(slots, tasks[t]);
    }
  }

  /** An any-reply future names no descriptor. */
  lemma SwitchAny(slots: map<int, Slot>, tasks: map<nat, Kind>, tasks': map<nat, Kind>)
    requires Claims(slots, tasks)
    requires forall t :: t in tasks && Names(tasks[t]) ==> t in tasks' && tasks'[t] == tasks[t]
    requires forall t :: t in tasks' && Names(tasks'[t]) ==> t in tasks && tasks[t] == tasks'[t]
    ensures Claims(slots, tasks')
  {
    forall cd | cd in slots && slots[cd].claim.Some? ensures Waited(tasks', cd) {
      assert Waited(tasks, cd);
      var u :| u in tasks && Names(tasks[u]) && CdOf(tasks[u]) == cd;
      assert u in tasks';
    }
  }

  // ----- what the compound operations do to the table

  /** Slots are kept with their claims, and new ones are unclaimed replies. */
  ghost predicate Fills(d: Demux, e: Demux) {
    && (forall c :: c in d.slots ==> c in e.slots && e.slots[c].claim == d.slots[c].claim)
    && (forall c :: c in e.slots && c !in d.slots ==> e.slots[c].Ready? && e.slots[c].claim.None?)
    && e.anyWaiters.Keys == d.anyWaiters.Keys
    && e.nextAnyId == d.nextAnyId && e.nextClaimId == d.nextClaimId && e.deadlines == d.deadlines
  }

  lemma RouteFills(s: Sys, cd: int, o: Outcome, b: Parked)
    ensures Fills(s.d, Route(s, cd, o, b).d)
  {
  }

  lemma FailAllFills(s: Sys, e: Error)
    ensures Fills(s.d, FailAll(s, e).d)
  {
  }

  lemma DrainTurnFills(s: Sys)
    ensures Fills(s.d, DrainTurn(s).0.d)
  {
    match TakeScratch(s)
    case None => FailAllFills(s, TPEOS);
    case Some((t, lent)) =>
      if t.n.queue != [] {
        var m := t.n.queue[0];
        var (n', p) := Receive(t.n, lent.ptr);
        var u := t.(n := n');
        var got := Parked(p, if m.cd > 0 then m.len else lent.len);
        if m.outcome != Failure(TPEBLOCK) {
          if m.cd > 0 { RouteFills(u, m.cd, m.outcome, got); }
          else if m.outcome.Failure? { FailAllFills(u.(d := Stash(u.d, got)), m.outcome.error); }
        }
      }
  }

  /** Collecting a reply removes its slot; only an any-reply future also ends its registration. */
  lemma TakeShape(s: Sys, k: Kind, cd: int, data: Parked, nochange: bool)
    requires IsReady(s.d.slots, cd) && (Names(k) ==> CdOf(k) == cd)
    ensures var (t, _, outcome) := TakeSlot(s, cd, data, nochange);
            var u := Finished(t, k, cd, outcome);
            && u.d.slots == s.d.slots - {cd}
            && u.d.anyWaiters == (if k.AnyOn? then s.d.anyWaiters - {k.id} else s.d.anyWaiters)
            && u.d.nextAnyId == s.d.nextAnyId && u.d.deadlines == s.d.deadlines - {cd} && u.woken == s.woken
  {
    var (t, _, outcome) := TakeSlot(s, cd, data, nochange);
    assert t.d.slots == s.d.slots - {cd} && t.d.anyWaiters == s.d.anyWaiters && t.d.deadlines == s.d.deadlines;
    assert t.d.slots - {cd} == t.d.slots;
  }

  /** Leaving without a reply touches the future's own slot or registration only. */
  lemma LeaveShape(s: Sys, k: Kind, timedOut: bool)
    ensures var u := Left(s, k, timedOut);
            && u.d.anyWaiters.Keys == s.d.anyWaiters.Keys - (if k.AnyOn? then {k.id} else {})
            && u.d.nextAnyId == s.d.nextAnyId
            && (k.AnyOn? ==> u.d.slots == s.d.slots)
            && (Names(k) ==> u.d.slots - {CdOf(k)} == s.d.slots - {CdOf(k)})
            && (Names(k) && HoldsClaim(s.d.slots, k) && CdOf(k) in u.d.slots ==> u.d.slots[CdOf(k)].claim.None?)
  {
  }

  // ----- registrations

  lemma AddAny(d: Demux, tasks: map<nat, Kind>, t: nat)
    requires Registrations(d, tasks) && t !in tasks && d.nextAnyId < U64_MAX
    ensures Registrations(RegisterAny(d).0, tasks[t := AnyOn(RegisterAny(d).1)])
  {
    var (d', id) := RegisterAny(d);
    var tasks' := tasks[t := AnyOn(id)];
    assert id == d.nextAnyId + 1;
    forall i | i in d'.anyWaiters ensures Registered(tasks', i) {
      if i == id { assert t in tasks' && tasks'[t].id == i; }
      else {
        assert Registered(tasks, i);
        var u :| u in tasks && tasks[u].AnyOn? && tasks[u].id == i;
        assert u in tasks' && tasks'[u] == tasks[u];
      }
    }
  }

  /** Same registrations, and the same any-reply futures. */
  lemma KeepRegistrations(d: Demux, tasks: map<nat, Kind>, d': Demux, tasks': map<nat, Kind>)
    requires Registrations(d, tasks)
    requires d'.anyWaiters.Keys == d.anyWaiters.Keys && d'.nextAnyId == d.nextAnyId
    requires forall t :: t in tasks && tasks[t].AnyOn? ==> t in tasks' && tasks'[t] == tasks[t]
    requires forall t :: t in tasks' && tasks'[t].AnyOn? ==> t in tasks && tasks[t] == tasks'[t]
    ensures Registrations(d', tasks')
  {
    forall id | id in d'.anyWaiters ensures Registered(tasks', id) {
      assert id in d.anyWaiters && Registered(tasks, id);
      var u :| u in tasks && tasks[u].AnyOn? && tasks[u].id == id;
      assert u in tasks';
    }
  }

  lemma DropAny(d: Demux, tasks: map<nat, Kind>, t: nat)
    requires Registrations(d, tasks) && t in tasks && tasks[t].AnyOn?
    ensures Registrations(DeregisterAny(d, tasks[t].id), tasks - {t})
  {
    var d', tasks' := DeregisterAny(d, tasks[t].id), tasks - {t};
    forall id | id in d'.anyWaiters ensures Registered(tasks', id) {
      assert id in d.anyWaiters && Registered(tasks, id);
      var u :| u in tasks && tasks[u].AnyOn? && tasks[u].id == id;
      assert u in tasks' && tasks'[u] == tasks[u];
    }
  }

  // ----- every event keeps the links

  /** A world whose table was only filled, or not changed, with the same futures. */
  lemma FilledLinked(w: World, v: World)
    requires Linked(w) && v.tasks == w.tasks && v.data.Keys == w.data.Keys && v.waits.Keys == w.waits.Keys
    requires Fills(w.s.d, v.s.d)
    ensures Linked(v)
  {
    KeepClaims(w.s.d.slots, w.tasks, v.s.d.slots);
    KeepRegistrations(w.s.d, w.tasks, v.s.d, w.tasks);
  }

  /** A world with one more future, which names an unclaimed or a new descriptor. */
  lemma NamedLinked(w: World, v: World, t: nat, k: Kind)
    requires Linked(w) && t !in w.tasks && Names(k) && v.tasks == w.tasks[t := k]
    requires v.data.Keys == w.data.Keys + {t} && v.waits.Keys == w.waits.Keys + {t}
    requires CdOf(k) in w.s.d.slots ==> w.s.d.slots[CdOf(k)].claim.None?
    requires CdOf(k) in v.s.d.slots && v.s.d.slots[CdOf(k)].claim == Some(ClaimOf(k))
    requires v.s.d.slots == w.s.d.slots[CdOf(k) := v.s.d.slots[CdOf(k)]]
    requires v.s.d.anyWaiters == w.s.d.anyWaiters && v.s.d.nextAnyId == w.s.d.nextAnyId
    ensures Linked(v)
  {
    AddNamed(w.s.d.slots, w.tasks, t, k, v.s.d.slots[CdOf(k)]);
    KeepRegistrations(w.s.d, w.tasks, v.s.d, v.tasks);
  }

  lemma SubmitLinked(w: World, t: nat, cd: int, claimed: bool, deadline: Option<nat>, lent: Parked)
    requires Linked(w) && t !in w.tasks
    ensures Linked(DoSubmit(w, t, cd, claimed, deadline, lent))
  {
    if cd !in w.s.d.slots {
      if claimed { SubmitCallLinked(w, t, cd, deadline, lent); } else { SubmitOpenLinked(w, t, cd, deadline, lent); }
    }
  }

  lemma SubmitCallLinked(w: World, t: nat, cd: int, deadline: Option<nat>, lent: Parked)
    requires Linked(w) && t !in w.tasks && cd !in w.s.d.slots
    ensures Linked(DoSubmit(w, t, cd, true, deadline, lent))
  {
    NamedLinked(w, DoSubmit(w, t, cd, true, deadline, lent), t, CallOn(cd, w.s.n.nextGen));
  }

  lemma SubmitOpenLinked(w: World, t: nat, cd: int, deadline: Option<nat>, lent: Parked)
    requires Linked(w) && t !in w.tasks && cd !in w.s.d.slots
    ensures Linked(DoSubmit(w, t, cd, false, deadline, lent))
  {
    KeepClaims(w.s.d.slots, w.tasks, DoSubmit(w, t, cd, false, deadline, lent).s.d.slots);
  }

  lemma StartNamedLinked(w: World, t: nat, cd: int, lent: Parked)
    requires Linked(w) && t !in w.tasks
    ensures Linked(DoStartNamed(w, t, cd, lent))
  {
    if ClaimError(w.s.d, cd).None? {
      NamedLinked(w, DoStartNamed(w, t, cd, lent), t, NamedOn(Claimed(w.s.d, cd).1));
    }
  }

  lemma StartAnyLinked(w: World, t: nat, lent: Parked)
    requires Linked(w) && t !in w.tasks && w.s.d.nextAnyId < U64_MAX
    ensures Linked(DoStartAny(w, t, lent))
  {
    AnyLinked(w, DoStartAny(w, t, lent), t);
  }

  lemma AnyLinked(w: World, v: World, t: nat)
    requires Linked(w) && t !in w.tasks && w.s.d.nextAnyId < U64_MAX
    requires v.s.d == RegisterAny(w.s.d).0 && v.tasks == w.tasks[t := AnyOn(RegisterAny(w.s.d).1)]
    requires v.tasks.Keys == v.data.Keys == v.waits.Keys
    ensures Linked(v)
  {
    var id := RegisterAny(w.s.d).1;
    AddAny(w.s.d, w.tasks, t);
    AnyClaims(w.s.d.slots, w.tasks, t, id);
    assert v.s.d.slots == w.s.d.slots;
  }

  lemma AnyClaims(slots: map<int, Slot>, tasks: map<nat, Kind>, t: nat, id: nat)
    requires Claims(slots, tasks) && t !in tasks
    ensures Claims(slots, tasks[t := AnyOn(id)])
  {
    SwitchAny(slots, tasks, tasks[t := AnyOn(id)]);
  }

  lemma DrainLinked(w: World)
    requires Linked(w)
    ensures Linked(DoDrain(w))
  {
    DrainTurnFills(w.s);
    FilledLinked(w, DoDrain(w));
  }

  /** A reply that has landed stays as it is, whatever else is received. */
  lemma {:induction false} DrainKeepsReplies(s: Sys, cd: int)
    requires IsReady(s.d.slots, cd)
    ensures IsReady(Drain(s).d.slots, cd) && Drain(s).d.slots[cd] == s.d.slots[cd]
    decreases |s.n.queue|
  {
    if DrainTurn(s).1 { DrainKeepsReplies(DrainTurn(s).0, cd); }
  }

  lemma {:induction false} DrainFills(s: Sys)
    ensures Fills(s.d, Drain(s).d)
    decreases |s.n.queue|
  {
    DrainTurnFills(s);
    if DrainTurn(s).1 {
      var t := DrainTurn(s).0;
      DrainFills(t);
      var d := Drain(t).d;
      forall c | c in d.slots && c !in s.d.slots ensures d.slots[c].Ready? && d.slots[c].claim.None? {
        if c in t.d.slots { DrainKeepsReplies(t, c); }
      }
    }
  }

  lemma ParkFills(d: Demux, target: Target, waker: Waker)
    ensures Fills(d, ParkWaker(d, target, waker))
  {
  }

  lemma PollLinked(w: World, t: nat, waker: Waker, other: bool)
    requires Linked(w) && t in w.tasks
    ensures Linked(DoPoll(w, t, waker, other))
  {
    ParkFills(w.s.d, TargetOf(w.tasks[t]), waker);
    FilledLinked(w, DoPoll(w, t, waker, other));
  }

  /** A future that ends with its slot or registration takes exactly its own links with it. */
  lemma EndLinked(d: Demux, tasks: map<nat, Kind>, t: nat, e: Demux)
    requires Claims(d.slots, tasks) && Registrations(d, tasks) && t in tasks && e.nextAnyId == d.nextAnyId
    requires e.anyWaiters.Keys == d.anyWaiters.Keys - (if tasks[t].AnyOn? then {tasks[t].id} else {})
    requires Names(tasks[t]) ==>
               && e.slots - {CdOf(tasks[t])} == d.slots - {CdOf(tasks[t])}
               && (CdOf(tasks[t]) in e.slots ==> e.slots[CdOf(tasks[t])].claim.None?)
    requires tasks[t].AnyOn? ==> Claims(e.slots, tasks)
    ensures Claims(e.slots, tasks - {t}) && Registrations(e, tasks - {t})
  {
    if tasks[t].AnyOn? {
      SwitchAny(e.slots, tasks, tasks - {t});
      DropAny(d, tasks, t);
      KeepRegistrations(DeregisterAny(d, tasks[t].id), tasks - {t}, e, tasks - {t});
    } else {
      forall c | c != CdOf(tasks[t])
        ensures (c in e.slots <==> c in d.slots) && (c in d.slots ==> e.slots[c] == d.slots[c])
      {
        assert c in e.slots <==> c in e.slots - {CdOf(tasks[t])};
        assert c in d.slots <==> c in d.slots - {CdOf(tasks[t])};
        if c in d.slots { assert (e.slots - {CdOf(tasks[t])})[c] == (d.slots - {CdOf(tasks[t])})[c]; }
      }
      DropNamed(d.slots, tasks, t, e.slots);
      KeepRegistrations(d, tasks, e, tasks - {t});
    }
  }

  lemma TakeLinked(w: World, t: nat, cd: int, nochange: bool)
    requires Linked(w) && Enabled(w, Take(t, cd, nochange))
    ensures Linked(DoTake(w, t, cd, nochange))
  {
    TakeShape(w.s, w.tasks[t], cd, w.data[t], nochange);
    var slots := w.s.d.slots - {cd};
    if w.tasks[t].AnyOn? { KeepClaims(w.s.d.slots, w.tasks, slots); }
    else { assert slots - {cd} == slots; }
    EndLinked(w.s.d, w.tasks, t, DoTake(w, t, cd, nochange).s.d);
  }

  lemma LeaveLinked(w: World, t: nat, timedOut: bool)
    requires Linked(w) && t in w.tasks
    ensures Linked(WithoutTask(w, t).(s := Left(w.s, w.tasks[t], timedOut)))
  {
    LeaveShape(w.s, w.tasks[t], timedOut);
    if Names(w.tasks[t]) { assert HoldsClaim(w.s.d.slots, w.tasks[t]); }
    EndLinked(w.s.d, w.tasks, t, Left(w.s, w.tasks[t], timedOut).d);
  }

  lemma CancelLinked(w: World, cd: int)
    requires Linked(w) && !Waited(w.tasks, cd)
    ensures Linked(w.(s := CancelCall(w.s, cd)))
  {
    KeepClaims(w.s.d.slots, w.tasks, w.s.d.slots - {cd});
    KeepRegistrations(w.s.d, w.tasks, CancelCall(w.s, cd).d, w.tasks);
  }

  lemma WakeAnyFills(s: Sys)
    ensures Fills(s.d, WakeAny(s).d)
  {
  }

  lemma StepLinked(w: World, e: Event)
    requires Linked(w) && Enabled(w, e)
    ensures Linked(Step(w, e))
  {
    match e
    case Submit(t, cd, claimed, deadline, lent) => SubmitLinked(w, t, cd, claimed, deadline, lent);
    case StartNamed(t, cd, lent) => StartNamedLinked(w, t, cd, lent);
    case StartAny(t, lent) => StartAnyLinked(w, t, lent);
    case DrainOne => DrainLinked(w);
    case Poll(t, waker, other) => PollLinked(w, t, waker, other);
    case Take(t, cd, nochange) => TakeLinked(w, t, cd, nochange);
    case Leave(t, timedOut) => LeaveLinked(w, t, timedOut);
    case UserCancel(cd) => CancelLinked(w, cd);
    case WakeAnyWaiters => WakeAnyFills(w.s); FilledLinked(w, Step(w, e));
    case RawSubmit(_) =>
    case Arrive(_) =>
  }

  /** Whatever happens, the links between futures, claims and registrations are kept. */
  lemma NextLinked(w: World, e: Event)
    requires Linked(w) && Enabled(w, e)
    ensures Linked(Next(w, e))
  {
    var quiet := w.(s := w.s.(woken := {}));
    assert Linked(quiet) && Enabled(quiet, e);
    StepLinked(quiet, e);
  }
}
