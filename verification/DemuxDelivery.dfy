/** Reply delivery over all runs, with descriptors reused: a `tpcall` gets the first thing that happened
    to its own generation, and nobody else ever does. */
module DemuxDelivery {
  import opened Xatmi
  import opened DemuxModel
  import opened DemuxBuffers
  import opened DemuxWorld
  import opened DemuxClaims
  import opened DemuxLoans

  /** The slot content is what `f` records. */
  ghost predicate Matches(slot: Slot, body: Option<Content>, f: First) {
    slot.Ready?
    && match f
       case Replied(o, c, len) => slot.outcome == o && body == Some(c) && slot.buf.len == len
       case QueueFailed(e) => slot.outcome == Failure(e) && slot.buf == EMPTY
  }

  ghost predicate Queued(queue: seq<Message>, outstanding: map<int, nat>) {
    && (forall m :: m in queue ==> m.outcome != Failure(TPEBLOCK) && (m.cd > 0 ==> m.cd in outstanding))
    && OncePerCall(queue)
  }

  /** The native side: generations are numbered upwards, one per descriptor in use, and queued replies
      are for descriptors in use. */
  ghost predicate Numbered(n: Native, first: map<nat, First>) {
    && (forall cd :: cd in n.outstanding ==> n.outstanding[cd] < n.nextGen)
    && (forall a, b :: a in n.outstanding && b in n.outstanding && a != b ==> n.outstanding[a] != n.outstanding[b])
    && (forall g :: g in first ==> g < n.nextGen)
    && (forall cd :: cd in n.outstanding && n.outstanding[cd] in first ==> first[n.outstanding[cd]].QueueFailed?)
    && Queued(n.queue, n.outstanding)
  }

  ghost predicate IsCall(slots: map<int, Slot>, cd: int) {
    cd in slots && slots[cd].claim == Some(Call)
  }

  /** A call's slot is open exactly while its generation is outstanding and nothing happened to it;
      once filled it holds the first thing that did. */
  ghost predicate Faithful(s: Sys, gens: map<int, nat>, first: map<nat, First>, cd: int)
    requires cd in s.d.slots && cd in gens
  {
    match s.d.slots[cd]
    case Waiting(_, _) => cd in s.n.outstanding && s.n.outstanding[cd] == gens[cd] && gens[cd] !in first
    case Ready(_, _, _) =>
      gens[cd] in first && Matches(s.d.slots[cd], Body(s.d.slots[cd], s.n.heap), first[gens[cd]])
  }

  ghost predicate Tracked(s: Sys, gens: map<int, nat>, calls: set<nat>, first: map<nat, First>) {
    && (forall cd :: cd in gens ==> cd in s.d.slots && gens[cd] < s.n.nextGen)
    && (forall g :: g in calls ==> g < s.n.nextGen)
    && (forall cd :: cd in gens && gens[cd] in calls ==> IsCall(s.d.slots, cd))
    && (forall cd :: IsCall(s.d.slots, cd) ==> cd in gens && gens[cd] in calls && Faithful(s, gens, first, cd))
    && (forall cd :: cd in s.n.outstanding && s.n.outstanding[cd] in calls
          ==> IsCall(s.d.slots, cd) && cd in gens && gens[cd] == s.n.outstanding[cd])
  }

  ghost predicate OwnGeneration(tasks: map<nat, Kind>, gens: map<int, nat>) {
    forall t :: t in tasks && tasks[t].CallOn? ==> tasks[t].cd in gens && gens[tasks[t].cd] == tasks[t].gen
  }

  /** A collection by a `tpcall` is of its own generation and matches what first happened to it; any
      other collection is not of a call's generation. */
  ghost predicate Proper(e: Delivery, calls: set<nat>, first: map<nat, First>, nextGen: nat) {
    if e.kind.CallOn?
    then e.kind.gen in first && e.gen == Some(e.kind.gen) && Matches(e.slot, e.body, first[e.kind.gen])
    else e.gen.Some? ==> e.gen.value !in calls && e.gen.value < nextGen
  }

  ghost predicate ProperLog(log: seq<Delivery>, calls: set<nat>, first: map<nat, First>, nextGen: nat) {
    forall i :: 0 <= i < |log| ==> Proper(log[i], calls, first, nextGen)
  }

  ghost predicate Delivered(w: World) {
    && Numbered(w.s.n, w.first)
    && Tracked(w.s, w.gens, w.calls, w.first)
    && OwnGeneration(w.tasks, w.gens)
    && ProperLog(w.log, w.calls, w.first, w.s.n.nextGen)
  }

  function Pruned(gens: map<int, nat>, slots: map<int, Slot>): map<int, nat> {
    map cd | cd in gens && cd in slots :: gens[cd]
  }

  // ----- the native side

  lemma WithoutKeeps(n: Native, first: map<nat, First>, cd: int)
    requires Numbered(n, first)
    ensures Numbered(n.(outstanding := n.outstanding - {cd}, queue := Without(n.queue, cd)), first)
  {
    WithoutDistinct(n.queue, cd);
  }

  ghost predicate OncePerCall(q: seq<Message>) {
    forall i, j :: 0 <= i < j < |q| && q[i].cd > 0 ==> q[i].cd != q[j].cd
  }

  lemma OnceCons(m: Message, q: seq<Message>)
    requires OncePerCall(q) && (m.cd > 0 ==> forall k :: k in q ==> k.cd != m.cd)
    ensures OncePerCall([m] + q)
  {
    var r := [m] + q;
    forall i, j | 0 <= i < j < |r| && r[i].cd > 0 ensures r[i].cd != r[j].cd {
      assert r[j] == q[j - 1] && q[j - 1] in q;
      if i > 0 { assert r[i] == q[i - 1]; }
    }
  }

  lemma OnceTail(q: seq<Message>)
    requires OncePerCall(q) && q != []
    ensures OncePerCall(q[1..]) && (q[0].cd > 0 ==> forall k :: k in q[1..] ==> k.cd != q[0].cd)
  {
    var r := q[1..];
    forall i, j | 0 <= i < j < |r| && r[i].cd > 0 ensures r[i].cd != r[j].cd {
      assert r[i] == q[i + 1] && r[j] == q[j + 1];
    }
    forall k | k in r && q[0].cd > 0 ensures k.cd != q[0].cd {
      var j :| 0 <= j < |r| && r[j] == k;
      assert q[j + 1] == k;
    }
  }

  lemma {:induction false} WithoutDistinct(q: seq<Message>, cd: int)
    requires OncePerCall(q)
    ensures OncePerCall(Without(q, cd))
  {
    if q != [] {
      OnceTail(q);
      WithoutDistinct(q[1..], cd);
      if q[0].cd != cd { OnceCons(q[0], Without(q[1..], cd)); }
    }
  }

  lemma CancelNumbered(n: Native, first: map<nat, First>, cd: int)
    requires Numbered(n, first)
    ensures Numbered(CancelNative(n, cd), first) && cd !in CancelNative(n, cd).outstanding
  {
    if cd in n.outstanding { WithoutKeeps(n, first, cd); }
  }

  lemma SentNumbered(n: Native, first: map<nat, First>, cd: int)
    requires Numbered(n, first) && cd !in n.outstanding
    ensures Numbered(Outstanding(n, cd), first)
  {
  }

  // ----- moves of the slot table

  /** The slot of `cd` goes; so may its native call, and must if it is a call's generation. */
  lemma RemoveGen(s: Sys, gens: map<int, nat>, calls: set<nat>, first: map<nat, First>, cd: int, t: Sys)
    requires Tracked(s, gens, calls, first)
    requires t.d.slots == s.d.slots - {cd} && t.n.nextGen == s.n.nextGen
    requires t.n.outstanding == s.n.outstanding - {cd}
          || (t.n.outstanding == s.n.outstanding && (cd in s.n.outstanding ==> s.n.outstanding[cd] !in calls))
    requires forall c :: IsReady(t.d.slots, c) ==> Body(s.d.slots[c], t.n.heap) == Body(s.d.slots[c], s.n.heap)
    ensures Tracked(t, Pruned(gens, t.d.slots), calls, first)
  {
    forall c | IsCall(t.d.slots, c) ensures Faithful(t, gens, first, c) {
      assert IsCall(s.d.slots, c) && Faithful(s, gens, first, c);
    }
    forall c | c in t.n.outstanding && t.n.outstanding[c] in calls ensures IsCall(t.d.slots, c) {
      assert IsCall(s.d.slots, c) && c != cd;
    }
    forall c | c in gens && c in t.d.slots && gens[c] in calls ensures IsCall(t.d.slots, c) {
      assert IsCall(s.d.slots, c);
    }
  }

  /** Calls' slots keep everything but their wakers, other slots stay or become other futures'. */
  lemma KeepGen(s: Sys, gens: map<int, nat>, calls: set<nat>, first: map<nat, First>, t: Sys)
    requires Tracked(s, gens, calls, first)
    requires t.n.outstanding == s.n.outstanding && t.n.nextGen == s.n.nextGen && t.n.heap == s.n.heap
    requires s.d.slots.Keys <= t.d.slots.Keys
    requires forall c :: IsCall(t.d.slots, c) <==> IsCall(s.d.slots, c)
    requires forall c :: IsCall(s.d.slots, c) && s.d.slots[c].Waiting? ==> t.d.slots[c].Waiting?
    requires forall c :: IsCall(s.d.slots, c) && s.d.slots[c].Ready? ==> t.d.slots[c] == s.d.slots[c]
    ensures Tracked(t, gens, calls, first)
  {
    forall c | IsCall(t.d.slots, c) ensures Faithful(t, gens, first, c) {
      assert IsCall(s.d.slots, c) && Faithful(s, gens, first, c);
    }
  }

  /** A new call, or a submission nobody owns, on a descriptor that is neither tracked nor in use. */
  lemma SubmitGen(s: Sys, gens: map<int, nat>, calls: set<nat>, first: map<nat, First>, cd: int, claimed: bool, t: Sys)
    requires Tracked(s, gens, calls, first) && Numbered(s.n, first)
    requires cd !in s.d.slots && cd !in s.n.outstanding
    requires t.d.slots == s.d.slots[cd := Waiting(None, if claimed then Some(Call) else None)]
    requires t.n == Outstanding(s.n, cd)
    ensures Tracked(t, gens[cd := s.n.nextGen], if claimed then calls + {s.n.nextGen} else calls, first)
  {
    var g := s.n.nextGen;
    var gens', calls' := gens[cd := g], if claimed then calls + {g} else calls;
    assert g !in calls && g !in first;
    forall c | IsCall(t.d.slots, c) ensures c in gens' && gens'[c] in calls' && Faithful(t, gens', first, c) {
      if c != cd { assert IsCall(s.d.slots, c) && Faithful(s, gens, first, c); }
    }
    forall c | c in t.n.outstanding && t.n.outstanding[c] in calls'
      ensures IsCall(t.d.slots, c) && c in gens' && gens'[c] == t.n.outstanding[c]
    {
      if c != cd { assert s.n.outstanding[c] != g; assert IsCall(s.d.slots, c); }
    }
    forall c | c in gens' && gens'[c] in calls' ensures IsCall(t.d.slots, c) {
      if c != cd { assert gens[c] != g; assert IsCall(s.d.slots, c); }
    }
  }

  /** A number handed out to a call the adapter does not know, or to one it gives up. */
  lemma RawGen(s: Sys, gens: map<int, nat>, calls: set<nat>, first: map<nat, First>, t: Sys, cd: int)
    requires Tracked(s, gens, calls, first)
    requires cd !in s.n.outstanding && t.d.slots == s.d.slots && t.n.heap == s.n.heap
    requires t.n.nextGen == s.n.nextGen + 1
    requires t.n.outstanding == s.n.outstanding || t.n.outstanding == s.n.outstanding[cd := s.n.nextGen]
    ensures Tracked(t, gens, calls, first)
  {
    forall c | IsCall(t.d.slots, c) ensures c in gens && gens[c] in calls && Faithful(t, gens, first, c) {
      assert IsCall(s.d.slots, c) && Faithful(s, gens, first, c);
    }
  }

  // ----- one turn of the drain

  /** What a turn does to slots, natives and payloads, whichever way it goes. */
  ghost predicate TurnShape(s: Sys, t: Sys) {
    && t.n.nextGen == s.n.nextGen
    && (t.n.queue == s.n.queue || (s.n.queue != [] && t.n.queue == s.n.queue[1..]))
    && t.n.outstanding == (if Routed(s).Some? then s.n.outstanding - {Routed(s).value.cd} else s.n.outstanding)
    && (Routed(s).Some? ==> t.n.queue == s.n.queue[1..])
    && (forall c :: IsReady(s.d.slots, c) ==> Body(s.d.slots[c], t.n.heap) == Body(s.d.slots[c], s.n.heap))
    && (if Routed(s).Some? then
          var m := Routed(s).value;
          if IsReady(s.d.slots, m.cd) then t.d.slots == s.d.slots
          else
            && m.cd in t.d.slots && t.d.slots[m.cd].Ready?
            && t.d.slots == s.d.slots[m.cd := t.d.slots[m.cd]]
            && t.d.slots[m.cd].claim == (if m.cd in s.d.slots then s.d.slots[m.cd].claim else None)
            && Matches(t.d.slots[m.cd], Body(t.d.slots[m.cd], t.n.heap), Replied(m.outcome, m.content, m.len))
        else if QueueError(s).Some? then t.d.slots == FailedSlots(s.d.slots, QueueError(s).value)
        else t.d.slots == s.d.slots)
  }

  lemma BodiesKept(s: Sys, heap: map<Ptr, Content>)
    requires Owned(s) && NULL !in heap
    requires forall p :: p in SlotBufs(s.d.slots) ==> p in heap && heap[p] == s.n.heap[p]
    ensures forall c :: IsReady(s.d.slots, c) ==> Body(s.d.slots[c], heap) == Body(s.d.slots[c], s.n.heap)
  {
    forall c | IsReady(s.d.slots, c) ensures Body(s.d.slots[c], heap) == Body(s.d.slots[c], s.n.heap) {
      if s.d.slots[c].buf.ptr != NULL { assert s.d.slots[c].buf.ptr in SlotBufs(s.d.slots); }
      else { assert NULL !in s.n.heap; }
    }
  }

  lemma LentShape(s: Sys)
    requires Owned(s) && TakeScratch(s).Some?
    ensures var (t, lent) := TakeScratch(s).value;
            && Owned(t) && lent.ptr in Callers(t) && t.d.slots == s.d.slots
            && forall c :: IsReady(s.d.slots, c) ==> Body(s.d.slots[c], t.n.heap) == Body(s.d.slots[c], s.n.heap)
  {
    BodiesKept(s, TakeScratch(s).value.0.n.heap);
  }

  lemma ReceiveShape(t: Sys, p: Ptr)
    requires Owned(t) && p in Callers(t) && t.n.queue != []
    ensures var (n, q) := Receive(t.n, p);
            && NULL !in n.heap
            && (t.n.queue[0].cd > 0 ==> q in n.heap && n.heap[q] == t.n.queue[0].content)
            && forall c :: IsReady(t.d.slots, c) ==> Body(t.d.slots[c], n.heap) == Body(t.d.slots[c], t.n.heap)
  {
    BodiesKept(t, Receive(t.n, p).0.heap);
  }

  lemma RoutedShape(s: Sys)
    requires Owned(s) && Routed(s).Some?
    ensures TurnShape(s, DrainTurn(s).0)
  {
    LentShape(s);
    var (t, lent) := TakeScratch(s).value;
    ReceiveShape(t, lent.ptr);
  }

  lemma DrainTurnShape(s: Sys)
    requires Owned(s) && (s.n.queue != [] ==> s.n.queue[0].outcome != Failure(TPEBLOCK))
    ensures TurnShape(s, DrainTurn(s).0)
  {
    if Routed(s).Some? { RoutedShape(s); }
    else if TakeScratch(s).Some? {
      LentShape(s);
      var (t, lent) := TakeScratch(s).value;
      if t.n.queue != [] { ReceiveShape(t, lent.ptr); }
    }
  }

  lemma HeadNotEmpty(n: Native, first: map<nat, First>)
    requires Numbered(n, first) && n.queue != []
    ensures n.queue[0].outcome != Failure(TPEBLOCK) && (n.queue[0].cd > 0 ==> n.queue[0].cd in n.outstanding)
  {
    assert n.queue[0] in n.queue;
  }

  lemma TailQueued(queue: seq<Message>, outstanding: map<int, nat>)
    requires Queued(queue, outstanding) && queue != []
    ensures Queued(queue[1..], if queue[0].cd > 0 then outstanding - {queue[0].cd} else outstanding)
  {
    OnceTail(queue);
    forall m | m in queue[1..] ensures m in queue {}
  }

  lemma ReplyNumbered(n: Native, first: map<nat, First>, n': Native, first': map<nat, First>)
    requires Numbered(n, first) && n.queue != [] && n.queue[0].cd > 0 && n.queue[0].cd in n.outstanding
    requires n'.queue == n.queue[1..] && n'.outstanding == n.outstanding - {n.queue[0].cd} && n'.nextGen == n.nextGen
    requires var g := n.outstanding[n.queue[0].cd];
             first'.Keys <= first.Keys + {g} && forall h :: h in first && h in first' ==> first'[h] == first[h]
    ensures Numbered(n', first')
  {
    TailQueued(n.queue, n.outstanding);
  }

  lemma FailNumbered(n: Native, first: map<nat, First>, n': Native, e: Error)
    requires Numbered(n, first) && n'.outstanding == n.outstanding && n'.nextGen == n.nextGen
    requires n'.queue == n.queue || (n.queue != [] && n.queue[0].cd <= 0 && n'.queue == n.queue[1..])
    ensures Numbered(n', first) && Numbered(n', Lost(n, e) + first)
  {
    if n'.queue != n.queue { TailQueued(n.queue, n.outstanding); }
    var first' := Lost(n, e) + first;
  }

  lemma TurnNumbered(w: World)
    requires Owned(w.s) && Delivered(w)
    ensures Numbered(DoDrain(w).s.n, DoDrain(w).first)
  {
    var s, t, first := w.s, DrainTurn(w.s).0, DoDrain(w).first;
    if s.n.queue != [] { HeadNotEmpty(s.n, w.first); }
    DrainTurnShape(s);
    if Routed(s).Some? {
      ReplyNumbered(s.n, w.first, t.n, first);
    } else {
      if s.n.queue != [] && t.n.queue == s.n.queue[1..] { TakenUndirected(s); }
      FailNumbered(s.n, w.first, t.n, if QueueError(s).Some? then QueueError(s).value else TPEOS);
    }
  }

  /** A turn that routes nothing consumes at most a message without a descriptor. */
  lemma TakenUndirected(s: Sys)
    requires Routed(s).None? && s.n.queue != [] && s.n.queue[0].outcome != Failure(TPEBLOCK)
    requires DrainTurn(s).0.n.queue == s.n.queue[1..]
    ensures s.n.queue[0].cd <= 0
  {
    assert |s.n.queue[1..]| < |s.n.queue|;
  }

  lemma RoutedGen(w: World)
    requires Owned(w.s) && Delivered(w) && Routed(w.s).Some?
    ensures var v := DoDrain(w); Tracked(v.s, v.gens, v.calls, v.first)
  {
    HeadNotEmpty(w.s.n, w.first);
    DrainTurnShape(w.s);
    var s, t, v := w.s, DrainTurn(w.s).0, DoDrain(w);
    var m := Routed(s).value;
    assert s.n.queue[0] == m && m.cd in s.n.outstanding;
    var g := s.n.outstanding[m.cd];
    forall c | IsCall(t.d.slots, c) ensures c in v.gens && v.gens[c] in v.calls && Faithful(t, v.gens, v.first, c) {
      assert IsCall(s.d.slots, c) && Faithful(s, w.gens, w.first, c);
      if c != m.cd && s.d.slots[c].Waiting? { assert w.gens[c] != g; }
    }
    forall c | c in v.gens && v.gens[c] in v.calls ensures IsCall(t.d.slots, c) {
      if c == m.cd && !IsReady(s.d.slots, c) { assert g in w.calls; assert IsCall(s.d.slots, c); }
      else { assert IsCall(s.d.slots, c); }
    }
    forall c | c in t.n.outstanding && t.n.outstanding[c] in v.calls
      ensures IsCall(t.d.slots, c) && c in v.gens && v.gens[c] == t.n.outstanding[c]
    {
      assert c != m.cd && IsCall(s.d.slots, c);
    }
  }

  lemma AllFailedGen(s: Sys, gens: map<int, nat>, calls: set<nat>, first: map<nat, First>, t: Sys, e: Error)
    requires Tracked(s, gens, calls, first)
    requires t.d.slots == FailedSlots(s.d.slots, e)
    requires t.n.outstanding == s.n.outstanding && t.n.nextGen == s.n.nextGen
    requires forall c :: IsReady(s.d.slots, c) ==> Body(s.d.slots[c], t.n.heap) == Body(s.d.slots[c], s.n.heap)
    ensures Tracked(t, gens, calls, Lost(s.n, e) + first)
  {
    var first' := Lost(s.n, e) + first;
    forall c ensures IsCall(t.d.slots, c) <==> IsCall(s.d.slots, c) {
      if c in s.d.slots { assert t.d.slots[c] == FailedSlot(s.d.slots[c], e); }
    }
    forall c | IsCall(t.d.slots, c) ensures c in gens && gens[c] in calls && Faithful(t, gens, first', c) {
      assert IsCall(s.d.slots, c) && Faithful(s, gens, first, c);
      assert t.d.slots[c] == FailedSlot(s.d.slots[c], e);
      if s.d.slots[c].Waiting? { assert s.n.outstanding[c] in Generations(s.n); }
    }
  }

  lemma FailedGen(w: World)
    requires Owned(w.s) && Delivered(w) && Routed(w.s).None?
    ensures var v := DoDrain(w); Tracked(v.s, v.gens, v.calls, v.first)
  {
    if w.s.n.queue != [] { HeadNotEmpty(w.s.n, w.first); }
    DrainTurnShape(w.s);
    var s, t := w.s, DrainTurn(w.s).0;
    if QueueError(s).Some? {
      AllFailedGen(s, w.gens, w.calls, w.first, t, QueueError(s).value);
    } else {
      SlotsStayGen(s, w.gens, w.calls, w.first, t);
    }
  }

  lemma SlotsStayGen(s: Sys, gens: map<int, nat>, calls: set<nat>, first: map<nat, First>, t: Sys)
    requires Tracked(s, gens, calls, first)
    requires t.d.slots == s.d.slots && t.n.outstanding == s.n.outstanding && t.n.nextGen == s.n.nextGen
    requires forall c :: IsReady(s.d.slots, c) ==> Body(s.d.slots[c], t.n.heap) == Body(s.d.slots[c], s.n.heap)
    ensures Tracked(t, gens, calls, first)
  {
    forall c | IsCall(t.d.slots, c) ensures Faithful(t, gens, first, c) {
      assert Faithful(s, gens, first, c);
    }
  }

  /** The first event of a generation is never replaced. */
  lemma FirstStays(w: World)
    ensures forall g :: g in w.first ==> g in DoDrain(w).first && DoDrain(w).first[g] == w.first[g]
  {
  }

  lemma LogStays(log: seq<Delivery>, calls: set<nat>, first: map<nat, First>, nextGen: nat, first': map<nat, First>)
    requires ProperLog(log, calls, first, nextGen)
    requires forall g :: g in first ==> g in first' && first'[g] == first[g]
    ensures ProperLog(log, calls, first', nextGen)
  {
    forall i | 0 <= i < |log| ensures Proper(log[i], calls, first', nextGen) {
      assert Proper(log[i], calls, first, nextGen);
    }
  }

  /** Routing never renumbers a call's slot. */
  lemma DrainOwn(w: World)
    requires Delivered(w) && Claims(w.s.d.slots, w.tasks)
    ensures OwnGeneration(w.tasks, DoDrain(w).gens)
  {
    forall t | t in w.tasks && w.tasks[t].CallOn?
      ensures w.tasks[t].cd in DoDrain(w).gens && DoDrain(w).gens[w.tasks[t].cd] == w.tasks[t].gen
    {
      assert HoldsClaim(w.s.d.slots, w.tasks[t]);
      assert IsCall(w.s.d.slots, w.tasks[t].cd) && Faithful(w.s, w.gens, w.first, w.tasks[t].cd);
    }
  }

  lemma DrainDelivered(w: World)
    requires Owned(w.s) && Delivered(w) && Claims(w.s.d.slots, w.tasks)
    ensures Delivered(DoDrain(w))
  {
    TurnNumbered(w);
    if Routed(w.s).Some? { RoutedGen(w); } else { FailedGen(w); }
    FirstStays(w);
    DrainOwn(w);
    if w.s.n.queue != [] { HeadNotEmpty(w.s.n, w.first); }
    DrainTurnShape(w.s);
    LogStays(w.log, w.calls, w.first, w.s.n.nextGen, DoDrain(w).first);
  }

  // ----- every other event

  ghost function Prune(w: World): World {
    w.(gens := Pruned(w.gens, w.s.d.slots))
  }

  lemma PruneSame(w: World)
    requires Delivered(w)
    ensures Delivered(Prune(w))
  {
    assert forall cd :: cd in w.gens ==> cd in w.s.d.slots;
    assert Pruned(w.gens, w.s.d.slots) == w.gens;
    assert Prune(w) == w;
  }

  /** Events that touch neither calls' slots nor the native side, whatever future they start. */
  lemma QuietDelivered(w: World, v: World)
    requires Delivered(w) && v.gens == w.gens && v.calls == w.calls && v.first == w.first && v.log == w.log
    requires v.s.n == w.s.n && w.s.d.slots.Keys <= v.s.d.slots.Keys
    requires forall c :: IsCall(v.s.d.slots, c) <==> IsCall(w.s.d.slots, c)
    requires forall c :: IsCall(w.s.d.slots, c) && w.s.d.slots[c].Waiting? ==> v.s.d.slots[c].Waiting?
    requires forall c :: IsCall(w.s.d.slots, c) && w.s.d.slots[c].Ready? ==> v.s.d.slots[c] == w.s.d.slots[c]
    requires forall t :: t in v.tasks && v.tasks[t].CallOn? ==> t in w.tasks && w.tasks[t] == v.tasks[t]
    ensures Delivered(v)
  {
    KeepGen(w.s, w.gens, w.calls, w.first, v.s);
  }

  lemma GrowLog(log: seq<Delivery>, calls: set<nat>, first: map<nat, First>, n: nat, calls': set<nat>, n': nat)
    requires ProperLog(log, calls, first, n) && n <= n' && calls' <= calls + {n}
    ensures ProperLog(log, calls', first, n')
  {
    forall i | 0 <= i < |log| ensures Proper(log[i], calls', first, n') {
      assert Proper(log[i], calls, first, n);
    }
  }

  /** A number given out by the native layer, to a call that is not tracked here. */
  lemma NumberDelivered(w: World, v: World, cd: int)
    requires Delivered(w) && cd !in w.s.n.outstanding && Numbered(v.s.n, v.first)
    requires v.s.d.slots == w.s.d.slots && v.s.n.heap == w.s.n.heap && v.s.n.nextGen == w.s.n.nextGen + 1
    requires v.s.n.outstanding == w.s.n.outstanding || v.s.n.outstanding == w.s.n.outstanding[cd := w.s.n.nextGen]
    requires v.gens == w.gens && v.calls == w.calls && v.first == w.first && v.log == w.log && v.tasks == w.tasks
    ensures Delivered(v)
  {
    RawGen(w.s, w.gens, w.calls, w.first, v.s, cd);
    GrowLog(w.log, w.calls, w.first, w.s.n.nextGen, w.calls, v.s.n.nextGen);
  }

  lemma BusyDelivered(w: World, t: nat, cd: int, claimed: bool, deadline: Option<nat>, lent: Parked)
    requires Delivered(w) && cd !in w.s.n.outstanding && cd in w.s.d.slots
    ensures Delivered(DoSubmit(w, t, cd, claimed, deadline, lent))
  {
    SentNumbered(w.s.n, w.first, cd);
    CancelNumbered(Outstanding(w.s.n, cd), w.first, cd);
    var v := DoSubmit(w, t, cd, claimed, deadline, lent);
    assert v.s.n.outstanding == w.s.n.outstanding;
    NumberDelivered(w, v, cd);
  }

  lemma FreshDelivered(w: World, t: nat, cd: int, claimed: bool, deadline: Option<nat>, lent: Parked)
    requires Delivered(w) && Claims(w.s.d.slots, w.tasks) && cd !in w.s.n.outstanding && cd !in w.s.d.slots && t !in w.tasks
    ensures Delivered(DoSubmit(w, t, cd, claimed, deadline, lent))
  {
    var v := DoSubmit(w, t, cd, claimed, deadline, lent);
    SentNumbered(w.s.n, w.first, cd);
    SubmitGen(w.s, w.gens, w.calls, w.first, cd, claimed, v.s);
    GrowLog(w.log, w.calls, w.first, w.s.n.nextGen, v.calls, v.s.n.nextGen);
    forall u | u in v.tasks && v.tasks[u].CallOn? ensures v.tasks[u].cd in v.gens && v.gens[v.tasks[u].cd] == v.tasks[u].gen {
      if u != t || !claimed { assert HoldsClaim(w.s.d.slots, w.tasks[u]); }
    }
  }

  lemma RawDelivered(w: World, cd: int)
    requires Delivered(w) && cd !in w.s.n.outstanding
    ensures Delivered(w.(s := w.s.(n := Outstanding(w.s.n, cd))))
  {
    SentNumbered(w.s.n, w.first, cd);
    NumberDelivered(w, w.(s := w.s.(n := Outstanding(w.s.n, cd))), cd);
  }

  lemma OnceAppend(q: seq<Message>, m: Message)
    requires OncePerCall(q) && (m.cd > 0 ==> forall k :: k in q ==> k.cd != m.cd)
    ensures OncePerCall(q + [m])
  {
    var r := q + [m];
    forall i, j | 0 <= i < j < |r| && r[i].cd > 0 ensures r[i].cd != r[j].cd {
      assert r[i] == q[i] && q[i] in q;
      if j < |q| { assert r[j] == q[j]; }
    }
  }

  lemma ArriveDelivered(w: World, m: Message)
    requires Delivered(w) && Enabled(w, Arrive(m))
    ensures Delivered(w.(s := w.s.(n := w.s.n.(queue := w.s.n.queue + [m]))))
  {
    OnceAppend(w.s.n.queue, m);
    KeepGen(w.s, w.gens, w.calls, w.first, w.s.(n := w.s.n.(queue := w.s.n.queue + [m])));
  }

  lemma StartDelivered(w: World, e: Event)
    requires Delivered(w) && Enabled(w, e) && (e.StartNamed? || e.StartAny?) && w.tasks.Keys == w.data.Keys
    ensures Delivered(Step(w, e))
  {
    if e.StartAny? || ClaimError(w.s.d, e.cd).None? { QuietDelivered(w, Step(w, e)); }
  }

  lemma PollDelivered(w: World, t: nat, waker: Waker, other: bool)
    requires Delivered(w) && t in w.tasks
    ensures Delivered(DoPoll(w, t, waker, other))
  {
    QuietDelivered(w, DoPoll(w, t, waker, other));
  }

  /** The slot of `cd` is gone, perhaps with its call, and what was collected from it is proper. */
  lemma RemovedDelivered(w: World, v: World, cd: int)
    requires Delivered(w) && Claims(w.s.d.slots, w.tasks)
    requires v.s.d.slots == w.s.d.slots - {cd} && v.s.n.nextGen == w.s.n.nextGen && Numbered(v.s.n, w.first)
    requires v.s.n.outstanding == w.s.n.outstanding - {cd}
          || (v.s.n.outstanding == w.s.n.outstanding && (cd in w.s.n.outstanding ==> w.s.n.outstanding[cd] !in w.calls))
    requires forall c :: IsReady(v.s.d.slots, c) ==> Body(w.s.d.slots[c], v.s.n.heap) == Body(w.s.d.slots[c], w.s.n.heap)
    requires v.gens == w.gens && v.calls == w.calls && v.first == w.first
    requires v.log == w.log || (|v.log| == |w.log| + 1 && v.log[..|w.log|] == w.log
                                && Proper(v.log[|w.log|], w.calls, w.first, w.s.n.nextGen))
    requires forall t :: t in v.tasks && v.tasks[t].CallOn? ==> t in w.tasks && w.tasks[t] == v.tasks[t] && v.tasks[t].cd != cd
    ensures Delivered(Prune(v))
  {
    RemoveGen(w.s, w.gens, w.calls, w.first, cd, v.s);
    forall t | t in v.tasks && v.tasks[t].CallOn? ensures v.tasks[t].cd in v.s.d.slots {
      assert HoldsClaim(w.s.d.slots, w.tasks[t]);
    }
    forall i | 0 <= i < |v.log| ensures Proper(v.log[i], w.calls, w.first, w.s.n.nextGen) {
      if i < |w.log| { assert v.log[i] == v.log[..|w.log|][i] == w.log[i]; }
    }
  }

  /** After the hand-over the heap and the queue are untouched unless the call is given up. */
  lemma FinishedNative(s: Sys, k: Kind, cd: int, data: Parked, nochange: bool)
    requires IsReady(s.d.slots, cd) && (Names(k) ==> CdOf(k) == cd)
    ensures var (t, _, outcome) := TakeSlot(s, cd, data, nochange);
            Finished(t, k, cd, outcome).n == (if k.CallOn? && outcome != Success then CancelNative(s.n, cd) else s.n)
  {
    var (t, _, outcome) := TakeSlot(s, cd, data, nochange);
    assert t.n == s.n && cd !in t.d.slots;
  }

  /** A call collects its own reply; nobody else collects a call's reply. */
  lemma TakeProper(w: World, t: nat, cd: int, nochange: bool)
    requires Delivered(w) && Linked(w) && Enabled(w, Take(t, cd, nochange))
    ensures var v := DoTake(w, t, cd, nochange);
            && |v.log| == |w.log| + 1 && v.log[..|w.log|] == w.log
            && Proper(v.log[|w.log|], w.calls, w.first, w.s.n.nextGen)
  {
    if Names(w.tasks[t]) { assert HoldsClaim(w.s.d.slots, w.tasks[t]); }
    if w.tasks[t].CallOn? { assert IsCall(w.s.d.slots, cd) && Faithful(w.s, w.gens, w.first, cd); }
    else { assert !IsCall(w.s.d.slots, cd); }
  }

  /** When a collected reply does not give the call up, the descriptor is not in use by that call. */
  lemma TakenFree(w: World, t: nat, cd: int)
    requires Delivered(w) && Linked(w) && Enabled(w, Take(t, cd, false))
    requires w.tasks[t].CallOn? ==> w.s.d.slots[cd].outcome == Success
    ensures cd in w.s.n.outstanding ==> w.s.n.outstanding[cd] !in w.calls
  {
    if Names(w.tasks[t]) { assert HoldsClaim(w.s.d.slots, w.tasks[t]); }
    if w.tasks[t].CallOn? { assert IsCall(w.s.d.slots, cd) && Faithful(w.s, w.gens, w.first, cd); }
    else { assert !IsCall(w.s.d.slots, cd); }
  }

  lemma OtherCalls(w: World, t: nat, u: nat, cd: int)
    requires Linked(w) && t in w.tasks && u in w.tasks && t != u && w.tasks[u].CallOn?
    requires Names(w.tasks[t]) ==> CdOf(w.tasks[t]) == cd
    requires w.tasks[t].AnyOn? ==> Unclaimed(w.s.d.slots, cd)
    ensures w.tasks[u].cd != cd
  {
    assert HoldsClaim(w.s.d.slots, w.tasks[u]);
  }

  lemma TakeDelivered(w: World, t: nat, cd: int, nochange: bool)
    requires Delivered(w) && Linked(w) && Enabled(w, Take(t, cd, nochange))
    ensures Delivered(Prune(DoTake(w, t, cd, nochange)))
  {
    var v := DoTake(w, t, cd, nochange);
    TakeShape(w.s, w.tasks[t], cd, w.data[t], nochange);
    FinishedNative(w.s, w.tasks[t], cd, w.data[t], nochange);
    TakeProper(w, t, cd, nochange);
    var outcome := TakeSlot(w.s, cd, w.data[t], nochange).2;
    if w.tasks[t].CallOn? && outcome != Success { CancelNumbered(w.s.n, w.first, cd); } else { TakenFree(w, t, cd); }
    forall u | u in v.tasks && v.tasks[u].CallOn? ensures v.tasks[u].cd != cd { OtherCalls(w, t, u, cd); }
    RemovedDelivered(w, v, cd);
  }

  /** Cancelling frees no payload that another slot holds. */
  lemma CancelBodies(s: Sys, cd: int)
    requires Owned(s)
    ensures var t := CancelCall(s, cd);
            && t.d.slots == s.d.slots - {cd} && t.n.nextGen == s.n.nextGen && t.n.outstanding == s.n.outstanding - {cd}
            && forall c :: IsReady(t.d.slots, c) ==> Body(s.d.slots[c], t.n.heap) == Body(s.d.slots[c], s.n.heap)
  {
    var t := CancelCall(s, cd);
    forall c | IsReady(t.d.slots, c) ensures Body(s.d.slots[c], t.n.heap) == Body(s.d.slots[c], s.n.heap) {
      assert IsReady(s.d.slots, c) && c != cd;
    }
  }

  lemma CancelDelivered(w: World, v: World, cd: int)
    requires Delivered(w) && Linked(w) && Owned(w.s) && v.s == CancelCall(w.s, cd)
    requires v.gens == w.gens && v.calls == w.calls && v.first == w.first && v.log == w.log
    requires forall t :: t in v.tasks && v.tasks[t].CallOn? ==> t in w.tasks && w.tasks[t] == v.tasks[t] && v.tasks[t].cd != cd
    ensures Delivered(Prune(v))
  {
    CancelBodies(w.s, cd);
    var r := ReleaseSlot(w.s, cd);
    assert Numbered(r.n, w.first);
    CancelNumbered(r.n, w.first, cd);
    RemovedDelivered(w, v, cd);
  }

  /** Dropping a claim touches no call's slot. */
  lemma GuardDelivered(w: World, v: World, t: nat, g: Guard)
    requires Delivered(w) && Linked(w) && t in w.tasks && w.tasks[t] == NamedOn(g) && v.s == DropGuard(w.s, g)
    requires v.gens == w.gens && v.calls == w.calls && v.first == w.first && v.log == w.log && v.tasks == w.tasks - {t}
    ensures Delivered(Prune(v))
  {
    assert HoldsClaim(w.s.d.slots, w.tasks[t]);
    if g.cd in v.s.d.slots {
      QuietDelivered(w, v);
      PruneSame(v);
    } else {
      assert !IsCall(w.s.d.slots, g.cd);
      forall u | u in v.tasks && v.tasks[u].CallOn? ensures v.tasks[u].cd != g.cd { OtherCalls(w, t, u, g.cd); }
      RemovedDelivered(w, v, g.cd);
    }
  }

  /** A future that gives its call up, or whose wait timed out. */
  lemma GiveUpDelivered(w: World, t: nat)
    requires Delivered(w) && Linked(w) && Owned(w.s) && t in w.tasks && Names(w.tasks[t])
    ensures Delivered(Prune(WithoutTask(w, t).(s := CancelCall(w.s, CdOf(w.tasks[t])))))
  {
    var cd := CdOf(w.tasks[t]);
    var v := WithoutTask(w, t).(s := CancelCall(w.s, cd));
    forall u | u in v.tasks && v.tasks[u].CallOn? ensures v.tasks[u].cd != cd { OtherCalls(w, t, u, cd); }
    CancelDelivered(w, v, cd);
  }

  lemma CancelledGuard(s: Sys, g: Guard)
    ensures DropGuard(CancelCall(s, g.cd), g) == CancelCall(s, g.cd)
  {
  }

  lemma LeaveDelivered(w: World, t: nat, timedOut: bool)
    requires Delivered(w) && Linked(w) && Owned(w.s) && t in w.tasks
    ensures Delivered(Prune(WithoutTask(w, t).(s := Left(w.s, w.tasks[t], timedOut))))
  {
    var v := WithoutTask(w, t).(s := Left(w.s, w.tasks[t], timedOut));
    match w.tasks[t]
    case CallOn(cd, _) => GiveUpDelivered(w, t);
    case NamedOn(g) =>
      if timedOut { CancelledGuard(w.s, g); GiveUpDelivered(w, t); } else { GuardDelivered(w, v, t, g); }
    case AnyOn(_) =>
      QuietDelivered(w, v);
      PruneSame(v);
  }

  lemma UserCancelDelivered(w: World, cd: int)
    requires Delivered(w) && Linked(w) && Owned(w.s) && !Waited(w.tasks, cd)
    ensures Delivered(Prune(w.(s := CancelCall(w.s, cd))))
  {
    CancelDelivered(w, w.(s := CancelCall(w.s, cd)), cd);
  }

  lemma StepDelivered(w: World, e: Event)
    requires Delivered(w) && Linked(w) && Owned(w.s) && Enabled(w, e)
    ensures Delivered(Prune(Step(w, e)))
  {
    match e
    case Submit(t, cd, claimed, deadline, lent) =>
      if cd in w.s.d.slots { BusyDelivered(w, t, cd, claimed, deadline, lent); }
      else { FreshDelivered(w, t, cd, claimed, deadline, lent); }
      PruneSame(Step(w, e));
    case RawSubmit(cd) => RawDelivered(w, cd); PruneSame(Step(w, e));
    case StartNamed(_, _, _) => StartDelivered(w, e); PruneSame(Step(w, e));
    case StartAny(_, _) => StartDelivered(w, e); PruneSame(Step(w, e));
    case Arrive(m) => ArriveDelivered(w, m); PruneSame(Step(w, e));
    case DrainOne => DrainDelivered(w); PruneSame(Step(w, e));
    case Poll(t, waker, other) => PollDelivered(w, t, waker, other); PruneSame(Step(w, e));
    case Take(t, cd, nochange) => TakeDelivered(w, t, cd, nochange);
    case Leave(t, timedOut) => LeaveDelivered(w, t, timedOut);
    case UserCancel(cd) => UserCancelDelivered(w, cd);
    case WakeAnyWaiters => QuietDelivered(w, Step(w, e)); PruneSame(Step(w, e));
  }

  /** Whatever happens, every collection so far and every slot still tracked is proper. */
  lemma NextDelivered(w: World, e: Event)
    requires Delivered(w) && Linked(w) && Owned(w.s) && Enabled(w, e)
    ensures Delivered(Next(w, e))
  {
    var quiet := w.(s := w.s.(woken := {}));
    QuietDelivered(w, quiet);
    assert Owned(quiet.s);
    StepDelivered(quiet, e);
    var v := Prune(Step(quiet, e));
    assert Next(w, e) == v.(waits := Next(w, e).waits);
  }
}
