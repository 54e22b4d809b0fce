/** Buffers over all runs: what the demultiplexer holds, what callers own, and what futures were lent. */
module DemuxLoans {
  import opened Xatmi
  import opened DemuxModel
  import opened DemuxBuffers
  import opened DemuxWorld
  import opened DemuxClaims

  /** Every live allocation is held once or is one of the program's own, and each future was lent one of
      those, its own. */
  ghost predicate Conserved(w: World) {
    && Owned(w.s)
    && w.hands == Callers(w.s)
    && (forall t :: t in w.data ==> w.data[t].ptr in w.hands)
    && (forall t, u :: t in w.data && u in w.data && t != u ==> w.data[t].ptr != w.data[u].ptr)
  }

  /** The buffers stay where they are: same allocations, same spare ones, same ready slots. */
  ghost predicate SameBuffers(s: Sys, t: Sys) {
    && t.n.heap == s.n.heap && t.n.next == s.n.next
    && t.d.scratch == s.d.scratch && t.d.orphans == s.d.orphans
    && (forall cd :: IsReady(t.d.slots, cd) <==> IsReady(s.d.slots, cd))
    && (forall cd :: IsReady(s.d.slots, cd) ==> t.d.slots[cd].buf == s.d.slots[cd].buf)
  }

  lemma SameBuffersOwned(s: Sys, t: Sys)
    requires Owned(s) && SameBuffers(s, t)
    ensures Owned(t) && Callers(t) == Callers(s)
  {
    forall p | p in SlotBufs(s.d.slots) ensures p in SlotBufs(t.d.slots) {
      var c :| c in s.d.slots && s.d.slots[c].Ready? && s.d.slots[c].buf.ptr != NULL && s.d.slots[c].buf.ptr == p;
      assert IsReady(s.d.slots, c) && IsReady(t.d.slots, c);
    }
    forall p | p in SlotBufs(t.d.slots) ensures p in SlotBufs(s.d.slots) {
      var c :| c in t.d.slots && t.d.slots[c].Ready? && t.d.slots[c].buf.ptr != NULL && t.d.slots[c].buf.ptr == p;
      assert IsReady(t.d.slots, c) && IsReady(s.d.slots, c);
    }
    assert Held(t.d) == Held(s.d);
    forall a, b | IsReady(t.d.slots, a) && IsReady(t.d.slots, b) && a != b && t.d.slots[a].buf.ptr != NULL
      ensures t.d.slots[a].buf.ptr != t.d.slots[b].buf.ptr
    {
      assert IsReady(s.d.slots, a) && IsReady(s.d.slots, b);
    }
  }

  lemma GuardBuffers(s: Sys, g: Guard)
    ensures SameBuffers(s, DropGuard(s, g))
  {
  }

  lemma SubmitBuffers(w: World, t: nat, cd: int, claimed: bool, deadline: Option<nat>, lent: Parked)
    ensures SameBuffers(w.s, DoSubmit(w, t, cd, claimed, deadline, lent).s)
  {
    if cd !in w.s.d.slots { NewSlotBuffers(w.s, DoSubmit(w, t, cd, claimed, deadline, lent).s, cd); }
  }

  lemma NewSlotBuffers(s: Sys, t: Sys, cd: int)
    requires t.n.heap == s.n.heap && t.n.next == s.n.next && t.d.scratch == s.d.scratch && t.d.orphans == s.d.orphans
    requires cd !in s.d.slots && cd in t.d.slots && t.d.slots[cd].Waiting? && t.d.slots == s.d.slots[cd := t.d.slots[cd]]
    ensures SameBuffers(s, t)
  {
  }

  lemma StartNamedBuffers(w: World, t: nat, cd: int, lent: Parked)
    ensures SameBuffers(w.s, DoStartNamed(w, t, cd, lent).s)
  {
  }

  lemma StartAnyBuffers(w: World, t: nat, lent: Parked)
    ensures SameBuffers(w.s, DoStartAny(w, t, lent).s)
  {
  }

  lemma ParkBuffers(s: Sys, target: Target, waker: Waker)
    ensures SameBuffers(s, s.(d := ParkWaker(s.d, target, waker)))
  {
  }

  /** An event that moves no buffer and lends none. */
  lemma KeepLoans(w: World, v: World)
    requires Conserved(w) && SameBuffers(w.s, v.s) && v.data == w.data && v.hands == w.hands
    ensures Conserved(v)
  {
    SameBuffersOwned(w.s, v.s);
  }

  /** An event that starts a future with a caller's buffer. */
  lemma AddLoan(w: World, v: World, t: nat, lent: Parked)
    requires Conserved(w) && SameBuffers(w.s, v.s) && v.data == w.data[t := lent] && v.hands == w.hands
    requires t !in w.data && Lendable(w, lent)
    ensures Conserved(v)
  {
    SameBuffersOwned(w.s, v.s);
  }

  lemma SubmitConserved(w: World, t: nat, cd: int, claimed: bool, deadline: Option<nat>, lent: Parked)
    requires Conserved(w) && t !in w.data && Lendable(w, lent)
    ensures Conserved(DoSubmit(w, t, cd, claimed, deadline, lent))
  {
    var v := DoSubmit(w, t, cd, claimed, deadline, lent);
    SubmitBuffers(w, t, cd, claimed, deadline, lent);
    if cd !in w.s.d.slots && claimed { AddLoan(w, v, t, lent); } else { KeepLoans(w, v); }
  }

  lemma StartNamedConserved(w: World, t: nat, cd: int, lent: Parked)
    requires Conserved(w) && t !in w.data && Lendable(w, lent)
    ensures Conserved(DoStartNamed(w, t, cd, lent))
  {
    StartNamedBuffers(w, t, cd, lent);
    if ClaimError(w.s.d, cd).None? { AddLoan(w, DoStartNamed(w, t, cd, lent), t, lent); }
  }

  lemma StartAnyConserved(w: World, t: nat, lent: Parked)
    requires Conserved(w) && t !in w.data && Lendable(w, lent)
    ensures Conserved(DoStartAny(w, t, lent))
  {
    StartAnyBuffers(w, t, lent);
    AddLoan(w, DoStartAny(w, t, lent), t, lent);
  }

  lemma PollConserved(w: World, t: nat, waker: Waker, other: bool)
    requires Conserved(w) && t in w.tasks
    ensures Conserved(DoPoll(w, t, waker, other))
  {
    ParkBuffers(w.s, TargetOf(w.tasks[t]), waker);
    KeepLoans(w, DoPoll(w, t, waker, other));
  }

  /** Ending a future with its slot already taken frees nothing. */
  lemma FinishedBuffers(s: Sys, k: Kind, cd: int, outcome: Outcome)
    requires cd !in s.d.slots && (Names(k) ==> CdOf(k) == cd)
    ensures SameBuffers(s, Finished(s, k, cd, outcome))
  {
    if k.NamedOn? { GuardBuffers(s.(d := Forgotten(s.d, cd)), k.guard); }
  }

  lemma TakeConserved(w: World, t: nat, cd: int, nochange: bool)
    requires Conserved(w) && w.tasks.Keys == w.data.Keys && Enabled(w, Take(t, cd, nochange))
    ensures Conserved(DoTake(w, t, cd, nochange))
  {
    TakeSlotKeeps(w.s, cd, w.data[t], nochange);
    var (s, data, outcome) := TakeSlot(w.s, cd, w.data[t], nochange);
    FinishedBuffers(s, w.tasks[t], cd, outcome);
    SameBuffersOwned(s, Finished(s, w.tasks[t], cd, outcome));
  }

  lemma LeaveConserved(w: World, t: nat, timedOut: bool)
    requires Conserved(w) && t in w.tasks && w.tasks.Keys == w.data.Keys
    ensures Conserved(WithoutTask(w, t).(s := Left(w.s, w.tasks[t], timedOut)))
  {
    match w.tasks[t]
    case CallOn(cd, _) => CancelCallKeeps(w.s, cd);
    case NamedOn(g) =>
      CancelCallKeeps(w.s, g.cd);
      var s := if timedOut then CancelCall(w.s, g.cd) else w.s;
      GuardBuffers(s, g);
      SameBuffersOwned(s, DropGuard(s, g));
    case AnyOn(id) => SameBuffersOwned(w.s, Left(w.s, w.tasks[t], timedOut));
  }

  lemma StepConserved(w: World, e: Event)
    requires Conserved(w) && w.tasks.Keys == w.data.Keys && Enabled(w, e)
    ensures Conserved(Step(w, e))
  {
    match e
    case Submit(t, cd, claimed, deadline, lent) => SubmitConserved(w, t, cd, claimed, deadline, lent);
    case StartNamed(t, cd, lent) => StartNamedConserved(w, t, cd, lent);
    case StartAny(t, lent) => StartAnyConserved(w, t, lent);
    case DrainOne => DrainConserved(w);
    case Poll(t, waker, other) => PollConserved(w, t, waker, other);
    case Take(t, cd, nochange) => TakeConserved(w, t, cd, nochange);
    case Leave(t, timedOut) => LeaveConserved(w, t, timedOut);
    case UserCancel(cd) => CancelConserved(w, cd);
    case WakeAnyWaiters => WakeConserved(w);
    case RawSubmit(cd) => NativeConserved(w, Outstanding(w.s.n, cd));
    case Arrive(m) => NativeConserved(w, w.s.n.(queue := w.s.n.queue + [m]));
  }

  lemma SameLoans(w: World, v: World)
    requires Conserved(w) && v.data == w.data && v.hands == w.hands && Owned(v.s) && Callers(v.s) == Callers(w.s)
    ensures Conserved(v)
  {
  }

  lemma DrainConserved(w: World)
    requires Conserved(w)
    ensures Conserved(DoDrain(w))
  {
    DrainTurnKeeps(w.s);
    SameLoans(w, DoDrain(w));
  }

  lemma CancelConserved(w: World, cd: int)
    requires Conserved(w)
    ensures Conserved(w.(s := CancelCall(w.s, cd)))
  {
    CancelCallKeeps(w.s, cd);
  }

  lemma WakeConserved(w: World)
    requires Conserved(w)
    ensures Conserved(w.(s := WakeAny(w.s)))
  {
    KeepLoans(w, w.(s := WakeAny(w.s)));
  }

  lemma NativeConserved(w: World, n: Native)
    requires Conserved(w) && n.heap == w.s.n.heap && n.next == w.s.n.next
    ensures Conserved(w.(s := w.s.(n := n)))
  {
    KeepLoans(w, w.(s := w.s.(n := n)));
  }

  /** Whatever happens, no buffer is lost, doubled, or taken from a caller who did not lend it. */
  lemma NextConserved(w: World, e: Event)
    requires Linked(w) && Conserved(w) && Enabled(w, e)
    ensures Conserved(Next(w, e))
  {
    var quiet := w.(s := w.s.(woken := {}));
    QuietConserved(w);
    StepConserved(quiet, e);
    SameConserved(Step(quiet, e), Next(w, e));
  }

  lemma QuietConserved(w: World)
    requires Conserved(w)
    ensures Conserved(w.(s := w.s.(woken := {})))
  {
    var quiet := w.(s := w.s.(woken := {}));
    assert SameBuffers(w.s, quiet.s);
    SameBuffersOwned(w.s, quiet.s);
  }

  lemma SameConserved(v: World, u: World)
    requires Conserved(v) && u.s == v.s && u.data == v.data && u.hands == v.hands
    ensures Conserved(u)
  {
  }
}
