/** The adapter's guarantees over whole runs: any events in any interleaving, from an adapter with
    nothing tracked. */
module DemuxRuns {
  import opened Xatmi
  import opened DemuxModel
  import opened DemuxBuffers
  import opened DemuxWorld
  import opened DemuxClaims
  import opened DemuxLoans
  import opened DemuxDelivery
  import opened DemuxKnown
  import opened DemuxWakeups
  import opened DemuxDeadlines

  ghost predicate Safe(w: World) {
    Linked(w) && Conserved(w) && Delivered(w) && Known(w) && Alert(w) && Timed(w)
  }

  /** A new adapter on a native context with an empty queue. */
  ghost predicate Initial(w: World) {
    && w.s.d == FRESH && w.hands == w.s.n.heap.Keys && Sound(w.s.n) && w.s.n.queue == [] && w.s.n.outstanding == map[]
    && w.tasks == map[] && w.data == map[] && w.waits == map[]
    && w.gens == map[] && w.calls == {} && w.first == map[] && w.log == []
  }

  /** `ws` is the run of the events `es`. */
  ghost predicate Run(ws: seq<World>, es: seq<Event>) {
    && |ws| == |es| + 1 && Initial(ws[0])
    && (forall i :: 0 <= i < |es| ==> Goes(ws[i], es[i], ws[i + 1]))
  }

  ghost predicate Goes(w: World, e: Event, v: World) {
    Enabled(w, e) && w.tasks.Keys == w.data.Keys && v == Next(w, e)
  }

  lemma InitialSafe(w: World)
    requires Initial(w)
    ensures Safe(w)
  {
  }

  lemma NextSafe(w: World, e: Event)
    requires Safe(w) && Enabled(w, e)
    ensures Safe(Next(w, e))
  {
    NextLinked(w, e);
    NextConserved(w, e);
    NextDelivered(w, e);
    NextKnown(w, e);
    NextAlert(w, e);
    NextTimed(w, e);
  }

  /** Every world of every run is safe. */
  lemma {:induction false} RunSafe(ws: seq<World>, es: seq<Event>, k: nat)
    requires Run(ws, es) && k < |ws|
    ensures Safe(ws[k])
  {
    if k == 0 { InitialSafe(ws[0]); }
    else {
      RunSafe(ws, es, k - 1);
      assert Goes(ws[k - 1], es[k - 1], ws[k]);
      NextSafe(ws[k - 1], es[k - 1]);
    }
  }

  ghost predicate Calls(tasks: map<nat, Kind>, t: nat) {
    t in tasks && tasks[t].CallOn?
  }

  /** Reply delivery. In any run, a `tpcall` collects the first reply, or the first queue failure, of
      its own generation, payload included; every payload anybody collects is of a known generation, and no
      other future ever collects anything of a generation that a `tpcall` submitted; and no two live calls
      share a descriptor. */
  lemma DeliverySafety(ws: seq<World>, es: seq<Event>, k: nat)
    requires Run(ws, es) && k < |ws|
    ensures forall i :: 0 <= i < |ws[k].log| && ws[k].log[i].kind.CallOn? ==>
              var e := ws[k].log[i];
              e.gen == Some(e.kind.gen) && e.kind.gen in ws[k].first && Matches(e.slot, e.body, ws[k].first[e.kind.gen])
    ensures forall i :: 0 <= i < |ws[k].log| && !ws[k].log[i].kind.CallOn? && ws[k].log[i].gen.Some? ==>
              ws[k].log[i].gen.value !in ws[k].calls
    ensures forall i :: 0 <= i < |ws[k].log| && ws[k].log[i].body.Some? ==> ws[k].log[i].gen.Some?
    ensures forall t, u :: Calls(ws[k].tasks, t) && Calls(ws[k].tasks, u) && t != u
              ==> ws[k].tasks[t].cd != ws[k].tasks[u].cd
  {
    RunSafe(ws, es, k);
    forall i | 0 <= i < |ws[k].log| ensures Proper(ws[k].log[i], ws[k].calls, ws[k].first, ws[k].s.n.nextGen) {}
  }

  predicate OtherType(a: Content, b: Content) {
    a.typeName != b.typeName || a.subtype != b.subtype
  }

  /** What a `tpcall` then returns: its reply's outcome with the reply's payload and length in the
      caller's buffer, or the queue's error with the caller's buffer as it was; under `TPNOCHANGE` a
      reply of another type is refused and the caller's buffer is kept. */
  ghost predicate Returns(w: World, t: nat, cd: int, nochange: bool, f: First)
    requires t in w.data && IsReady(w.s.d.slots, cd)
  {
    var (s, data, told) := TakeSlot(w.s, cd, w.data[t], nochange);
    match f
    case Replied(o, content, len) =>
      if nochange && w.data[t].ptr in w.s.n.heap && OtherType(content, w.s.n.heap[w.data[t].ptr])
      then told == Failure(TPEOTYPE) && data == w.data[t]
      else told == o && data.len == len && data.ptr in s.n.heap && s.n.heap[data.ptr] == content
    case QueueFailed(e) => told == Failure(e) && data == w.data[t]
  }

  lemma SafeReturns(w: World, t: nat, cd: int, nochange: bool)
    requires Safe(w) && Enabled(w, Take(t, cd, nochange)) && w.tasks[t].CallOn?
    ensures w.tasks[t].gen in w.first && Returns(w, t, cd, nochange, w.first[w.tasks[t].gen])
  {
    assert HoldsClaim(w.s.d.slots, w.tasks[t]);
    assert IsCall(w.s.d.slots, cd) && Faithful(w.s, w.gens, w.first, cd);
    assert NULL !in w.s.n.heap;
  }

  /** So in any run, whenever a call collects, at `k`, it returns the first event of its own generation as
      the history has it then and at any later time. */
  lemma CallReturns(ws: seq<World>, es: seq<Event>, k: nat, later: nat)
    requires Run(ws, es) && k < |es| && k <= later < |ws|
    requires es[k].Take? && es[k].t in ws[k].tasks && ws[k].tasks[es[k].t].CallOn?
    ensures ws[k].tasks[es[k].t].gen in ws[later].first && es[k].t in ws[k].data && IsReady(ws[k].s.d.slots, es[k].cd)
    ensures Returns(ws[k], es[k].t, es[k].cd, es[k].nochange, ws[later].first[ws[k].tasks[es[k].t].gen])
  {
    RunSafe(ws, es, k);
    assert Goes(ws[k], es[k], ws[k + 1]);
    SafeReturns(ws[k], es[k].t, es[k].cd, es[k].nochange);
    HistoryStays(ws, es, k, later);
  }

  lemma NextHistory(w: World, e: Event)
    requires Enabled(w, e) && w.tasks.Keys == w.data.Keys
    ensures forall g :: g in w.first ==> g in Next(w, e).first && Next(w, e).first[g] == w.first[g]
    ensures w.log <= Next(w, e).log && w.calls <= Next(w, e).calls
  {
    var quiet := w.(s := w.s.(woken := {}));
    if e.DrainOne? { FirstStays(quiet); }
  }

  /** What first happened to a generation is decided once: it never changes later in the run, and what
      was collected stays collected. */
  lemma {:induction false} HistoryStays(ws: seq<World>, es: seq<Event>, j: nat, k: nat)
    requires Run(ws, es) && j <= k < |ws|
    ensures forall g :: g in ws[j].first ==> g in ws[k].first && ws[k].first[g] == ws[j].first[g]
    ensures ws[j].log <= ws[k].log && ws[j].calls <= ws[k].calls
  {
    if j < k {
      HistoryStays(ws, es, j, k - 1);
      assert Goes(ws[k - 1], es[k - 1], ws[k]);
      NextHistory(ws[k - 1], es[k - 1]);
    }
  }

  /** No lost wake-up. In any run, a future whose last poll found nothing and whose target is ready has
      been woken since that poll. */
  lemma NoLostWakeup(ws: seq<World>, es: seq<Event>, k: nat, t: nat)
    requires Run(ws, es) && k < |ws| && t in ws[k].tasks && t in ws[k].waits
    requires ws[k].waits[t].Pending? && TargetReady(ws[k].s.d, TargetOf(ws[k].tasks[t]))
    ensures ws[k].waits[t].notified
  {
    RunSafe(ws, es, k);
    if !ws[k].waits[t].notified {
      ArmedNotReady(ws[k].s.d, TargetOf(ws[k].tasks[t]), ws[k].waits[t].waker);
    }
  }

  lemma GuardOfClaim(w: World, cd: int, id: nat)
    requires Linked(w) && cd in w.s.d.slots && w.s.d.slots[cd].claim == Some(Waiter(id))
    ensures exists t :: Guards(w.tasks, t, cd) && w.tasks[t].guard.id == id
  {
    assert Waited(w.tasks, cd);
    var t :| t in w.tasks && Names(w.tasks[t]) && CdOf(w.tasks[t]) == cd;
    assert HoldsClaim(w.s.d.slots, w.tasks[t]);
    assert Guards(w.tasks, t, cd);
  }

  ghost predicate Guards(tasks: map<nat, Kind>, t: nat, cd: int) {
    t in tasks && tasks[t].NamedOn? && tasks[t].guard.cd == cd
  }

  /** Claims. In any run, a slot claimed by a waiter has exactly one live guard, with that descriptor and
      that number; a guard of any other number leaves every slot alone when it is dropped. */
  lemma OneGuard(ws: seq<World>, es: seq<Event>, k: nat, cd: int, id: nat)
    requires Run(ws, es) && k < |ws| && cd in ws[k].s.d.slots && ws[k].s.d.slots[cd].claim == Some(Waiter(id))
    ensures exists t :: Guards(ws[k].tasks, t, cd) && ws[k].tasks[t].guard.id == id
    ensures forall t, u :: Guards(ws[k].tasks, t, cd) && Guards(ws[k].tasks, u, cd) ==> t == u
    ensures forall g: Guard :: g.cd == cd && g.id != id ==> DropGuard(ws[k].s, g) == ws[k].s
  {
    RunSafe(ws, es, k);
    GuardOfClaim(ws[k], cd, id);
  }

  /** Conservation. In any run, each live allocation is in exactly one place: one slot, the spare buffer,
      the orphans, or the program's own hands; whatever is in one of them is live. What the program has in
      hand is counted on its own: it is what it started with, changed only by the collections, each of which
      swaps the buffer lent for the one received. So no buffer is ever lost. */
  lemma Conservation(ws: seq<World>, es: seq<Event>, k: nat, p: Ptr)
    requires Run(ws, es) && k < |ws|
    ensures var d, hands := ws[k].s.d, ws[k].hands;
            && (p in ws[k].s.n.heap <==> p in hands || p in SlotBufs(d.slots) || p in ScratchBufs(d.scratch) || p in OrphanBufs(d.orphans))
            && (p in hands ==> p !in Held(d))
            && (p in SlotBufs(d.slots) ==> p !in ScratchBufs(d.scratch) && p !in OrphanBufs(d.orphans))
            && (p in ScratchBufs(d.scratch) ==> p !in OrphanBufs(d.orphans))
            && (forall a, b :: IsReady(d.slots, a) && IsReady(d.slots, b) && d.slots[a].buf.ptr == p == d.slots[b].buf.ptr && p != NULL ==> a == b)
            && (forall i, j :: 0 <= i < j < |d.orphans| ==> d.orphans[i].ptr != d.orphans[j].ptr)
  {
    RunSafe(ws, es, k);
  }

  /** Whatever happened, freeing all the demultiplexer holds leaves exactly what the program has in hand. */
  lemma ReleaseLeavesHands(ws: seq<World>, es: seq<Event>, k: nat)
    requires Run(ws, es) && k < |ws|
    ensures (ws[k].s.n.heap - Held(ws[k].s.d)).Keys == ws[k].hands
  {
    RunSafe(ws, es, k);
  }

  /** The program's hands after an event: a collection swaps the lent buffer for the reply's unless there
      is none or it is refused; nothing else changes them. */
  ghost function HandsAfter(w: World, e: Event): set<Ptr> {
    if e.Take? && e.t in w.data && IsReady(w.s.d.slots, e.cd)
       && w.s.d.slots[e.cd].buf.ptr != NULL
       && !(e.nochange && w.s.d.slots[e.cd].buf.ptr in w.s.n.heap && w.data[e.t].ptr in w.s.n.heap
            && OtherType(w.s.n.heap[w.s.d.slots[e.cd].buf.ptr], w.s.n.heap[w.data[e.t].ptr]))
    then w.hands - {w.data[e.t].ptr} + {w.s.d.slots[e.cd].buf.ptr}
    else w.hands
  }

  lemma TakeHands(w: World, t: nat, cd: int, nochange: bool)
    requires t in w.tasks && t in w.data && w.data[t].ptr in w.hands && IsReady(w.s.d.slots, cd)
    ensures DoTake(w, t, cd, nochange).hands == HandsAfter(w, Take(t, cd, nochange))
  {
  }

  lemma StepHands(w: World, e: Event)
    requires Enabled(w, e) && w.tasks.Keys == w.data.Keys && Conserved(w)
    ensures Step(w, e).hands == HandsAfter(w, e)
  {
    match e
    case Take(t, cd, nochange) => TakeHands(w, t, cd, nochange);
    case _ =>
  }

  lemma NextHands(w: World, e: Event)
    requires Enabled(w, e) && w.tasks.Keys == w.data.Keys
    ensures Next(w, e).hands == Step(w.(s := w.s.(woken := {})), e).hands
  {
  }

  lemma HandsChange(ws: seq<World>, es: seq<Event>, k: nat)
    requires Run(ws, es) && k < |es|
    ensures ws[k + 1].hands == HandsAfter(ws[k], es[k])
  {
    RunSafe(ws, es, k);
    assert Goes(ws[k], es[k], ws[k + 1]);
    NextHandsAfter(ws[k], es[k]);
  }

  lemma NextHandsAfter(w: World, e: Event)
    requires Conserved(w) && Enabled(w, e) && w.tasks.Keys == w.data.Keys
    ensures Next(w, e).hands == HandsAfter(w, e)
  {
    QuietConserved(w);
    NextHands(w, e);
    StepHands(w.(s := w.s.(woken := {})), e);
  }

  /** A submission of a descriptor that is not tracked records the deadline it was given. */
  lemma SubmissionRecords(ws: seq<World>, es: seq<Event>, k: nat)
    requires Run(ws, es) && k < |es| && es[k].Submit? && es[k].cd !in ws[k].s.d.slots
    ensures es[k].cd in ws[k + 1].s.d.deadlines && ws[k + 1].s.d.deadlines[es[k].cd] == es[k].deadline
  {
    assert Goes(ws[k], es[k], ws[k + 1]);
    NextFrom(ws[k], es[k]);
  }

  /** From the moment it is recorded until its call completes or is cancelled, however long that takes and
      whatever happens in between, a deadline is the one that was recorded. */
  lemma {:induction false} DeadlineThroughRun(ws: seq<World>, es: seq<Event>, j: nat, k: nat, cd: int)
    requires Run(ws, es) && j <= k < |ws| && cd in ws[j].s.d.deadlines
    requires forall i :: j <= i < k ==> !Ends(ws[i], es[i], cd)
    ensures cd in ws[k].s.d.deadlines && ws[k].s.d.deadlines[cd] == ws[j].s.d.deadlines[cd]
  {
    if j < k {
      DeadlineThroughRun(ws, es, j, k - 1, cd);
      RunSafe(ws, es, k - 1);
      assert Goes(ws[k - 1], es[k - 1], ws[k]);
      DeadlineStays(ws[k - 1], es[k - 1], cd);
    }
  }

  /** The deadline an any-reply collection waits for is that of a call still tracked. */
  lemma EarliestOfLiveCalls(ws: seq<World>, es: seq<Event>, k: nat, r: Option<nat>)
    requires Run(ws, es) && k < |ws| && IsEarliest(ws[k].s.d.deadlines, r) && r.Some?
    ensures exists cd :: cd in ws[k].s.d.slots && cd in ws[k].s.d.deadlines && ws[k].s.d.deadlines[cd] == r
  {
    RunSafe(ws, es, k);
    EarliestIsTracked(ws[k], r);
  }

  /** No descriptor is left falsely busy. In any run, when a named wait is dropped, its descriptor can be
      claimed again at once: the slot is gone if the wait had made it and no reply had landed, and otherwise
      it is there without a claim, a landed reply included, for anyone to collect. No other slot changes. */
  lemma DroppedWaitFreesDescriptor(ws: seq<World>, es: seq<Event>, k: nat)
    requires Run(ws, es) && k < |es| && es[k].Leave? && !es[k].timedOut && es[k].t in ws[k].tasks && ws[k].tasks[es[k].t].NamedOn?
    ensures var g, before, after := ws[k].tasks[es[k].t].guard, ws[k].s.d.slots, ws[k + 1].s.d.slots;
            && g.cd in before
            && (g.cd !in after <==> g.created && before[g.cd].Waiting?)
            && (g.cd in after ==> after[g.cd].claim.None?)
            && (before[g.cd].Ready? ==> Unclaimed(after, g.cd) && after[g.cd].outcome == before[g.cd].outcome && after[g.cd].buf == before[g.cd].buf)
            && after - {g.cd} == before - {g.cd}
            && ClaimError(ws[k + 1].s.d, g.cd) != Some(TPEPROTO)
  {
    RunSafe(ws, es, k);
    assert Goes(ws[k], es[k], ws[k + 1]);
    var quiet := ws[k].(s := ws[k].s.(woken := {}));
    NextFrom(ws[k], es[k]);
    assert HoldsClaim(ws[k].s.d.slots, ws[k].tasks[es[k].t]);
    GuardDropped(quiet.s, ws[k].tasks[es[k].t].guard);
  }

  lemma GuardDropped(s: Sys, g: Guard)
    requires Holds(s.d, g)
    ensures var before, after := s.d.slots, DropGuard(s, g).d.slots;
            && (g.cd !in after <==> g.created && before[g.cd].Waiting?)
            && (g.cd in after ==> after[g.cd].claim.None?)
            && (before[g.cd].Ready? ==> Unclaimed(after, g.cd) && after[g.cd].outcome == before[g.cd].outcome && after[g.cd].buf == before[g.cd].buf)
            && after - {g.cd} == before - {g.cd} && DropGuard(s, g).d.nextClaimId == s.d.nextClaimId
  {
  }
}
