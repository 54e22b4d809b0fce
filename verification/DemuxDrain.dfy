/** What a drain leaves in the slot table, without buffers and addresses: first reply wins, up to
    the first message that stops the loop. */
module DemuxDrain {
  import opened Xatmi
  import opened DemuxModel
  import opened DemuxBuffers

  /** A slot as its owner sees it: still open, or filled with an outcome and, unless the queue
      failed, the payload that came with it. */
  datatype View =
    | Open(claim: Option<Claim>)
    | Filled(outcome: Outcome, body: Option<(Content, nat)>, claim: Option<Claim>)

  ghost predicate Readable(s: Sys) {
    forall cd :: IsReady(s.d.slots, cd) && s.d.slots[cd].buf.ptr != NULL ==> s.d.slots[cd].buf.ptr in s.n.heap
  }

  ghost function SlotView(slot: Slot, heap: map<Ptr, Content>): View
    requires slot.Ready? && slot.buf.ptr != NULL ==> slot.buf.ptr in heap
  {
    match slot
    case Waiting(_, claim) => Open(claim)
    case Ready(o, b, claim) => Filled(o, if b.ptr == NULL then None else Some((heap[b.ptr], b.len)), claim)
  }

  ghost function Table(s: Sys): map<int, View>
    requires Readable(s)
  {
    map cd | cd in s.d.slots :: SlotView(s.d.slots[cd], s.n.heap)
  }

  // ----- the simple specification

  /** The first reply for a descriptor is kept; later ones change nothing. */
  ghost function FirstWins(v: map<int, View>, m: Message): map<int, View> {
    if m.cd in v && v[m.cd].Filled? then v
    else v[m.cd := Filled(m.outcome, Some((m.content, m.len)), if m.cd in v then v[m.cd].claim else None)]
  }

  /** A queue failure fills every open slot and no other. */
  ghost function AllFail(v: map<int, View>, e: Error): map<int, View> {
    map cd | cd in v :: if v[cd].Open? then Filled(Failure(e), None, v[cd].claim) else v[cd]
  }

  /** A message routed to a descriptor; any other message ends the drain. */
  predicate Directed(m: Message) {
    m.cd > 0 && m.outcome != Failure(TPEBLOCK)
  }

  /** First-reply-wins over the queue with `allocs` allocations left; `spare` says that a receive
      buffer is at hand. */
  ghost function Fold(v: map<int, View>, q: seq<Message>, spare: bool, allocs: nat): map<int, View>
    decreases |q|
  {
    if !spare && allocs == 0 then AllFail(v, TPEOS)
    else if q == [] then v
    else if Directed(q[0]) then
      Fold(FirstWins(v, q[0]), q[1..], q[0].cd in v && v[q[0].cd].Filled?, if spare then allocs else allocs - 1)
    else if q[0].outcome.Failure? && q[0].outcome != Failure(TPEBLOCK) then AllFail(v, q[0].outcome.error)
    else v
  }

  // ----- the drain refines it

  lemma OwnedReadable(s: Sys)
    requires Owned(s)
    ensures Readable(s)
  {
    forall cd | IsReady(s.d.slots, cd) && s.d.slots[cd].buf.ptr != NULL
      ensures s.d.slots[cd].buf.ptr in s.n.heap
    {
      assert s.d.slots[cd].buf.ptr in SlotBufs(s.d.slots);
    }
  }

  lemma AllFailTable(s: Sys, e: Error)
    requires Owned(s)
    ensures Readable(s) && Readable(FailAll(s, e)) && Table(FailAll(s, e)) == AllFail(Table(s), e)
  {
    OwnedReadable(s);
    FailAllKeeps(s, e);
    var t := FailAll(s, e);
    OwnedReadable(t);
    forall cd | cd in s.d.slots ensures Table(t)[cd] == AllFail(Table(s), e)[cd] {
      assert t.d.slots[cd] == FailedSlot(s.d.slots[cd], e);
    }
  }

  /** Two systems with the same slots show the same table when they agree on the slots' buffers. */
  lemma SameTable(s: Sys, t: Sys)
    requires Readable(s) && t.d.slots == s.d.slots
    requires forall p :: p in SlotBufs(s.d.slots) && p in s.n.heap ==> p in t.n.heap && t.n.heap[p] == s.n.heap[p]
    ensures Readable(t) && Table(t) == Table(s)
  {
    forall cd | IsReady(s.d.slots, cd) && s.d.slots[cd].buf.ptr != NULL
      ensures s.d.slots[cd].buf.ptr in t.n.heap
           && t.n.heap[s.d.slots[cd].buf.ptr] == s.n.heap[s.d.slots[cd].buf.ptr]
    {
      assert s.d.slots[cd].buf.ptr in SlotBufs(s.d.slots);
    }
    forall cd | cd in s.d.slots ensures Table(t)[cd] == Table(s)[cd] {}
  }

  lemma RouteTable(s: Sys, m: Message, b: Parked)
    requires Owned(s) && b.ptr in Callers(s) && s.n.heap[b.ptr] == m.content && b.len == m.len && b.ptr != NULL
    ensures var t := Route(s, m.cd, m.outcome, b);
            Readable(s) && Readable(t) && Table(t) == FirstWins(Table(s), m)
  {
    var t := Route(s, m.cd, m.outcome, b);
    OwnedReadable(s);
    RouteKeeps(s, m.cd, m.outcome, b);
    OwnedReadable(t);
    if IsReady(s.d.slots, m.cd) {
      SameTable(s, t);
    } else {
      assert t.d.slots == s.d.slots[m.cd := t.d.slots[m.cd]];
    }
  }

  /** The receive buffer of a turn: nothing in the table changes while it is fetched. */
  lemma LentTable(s: Sys)
    requires Owned(s) && TakeScratch(s).Some?
    ensures var (t, lent) := TakeScratch(s).value;
            Owned(t) && lent.ptr in Callers(t) && Readable(s) && Readable(t) && Table(t) == Table(s)
  {
    OwnedReadable(s);
    SameTable(s, TakeScratch(s).value.0);
  }

  lemma ReceivedTable(t: Sys, lent: Parked)
    requires Owned(t) && lent.ptr in Callers(t) && t.n.queue != []
    ensures var (n', p) := Receive(t.n, lent.ptr);
            var u := t.(n := n');
            && Owned(u) && p in Callers(u) && Readable(t) && Readable(u) && Table(u) == Table(t)
            && (t.n.queue[0].cd > 0 ==> n'.heap[p] == t.n.queue[0].content)
  {
    OwnedReadable(t);
    var (n', p) := Receive(t.n, lent.ptr);
    SameTable(t, t.(n := n'));
  }

  lemma DirectedTurn(s: Sys)
    requires Owned(s) && TakeScratch(s).Some? && s.n.queue != [] && Directed(s.n.queue[0])
    ensures var (t, more) := DrainTurn(s);
            && more && Owned(t) && t.n.queue == s.n.queue[1..]
            && Readable(s) && Readable(t) && Table(t) == FirstWins(Table(s), s.n.queue[0])
            && t.d.scratch.Some? == (s.n.queue[0].cd in Table(s) && Table(s)[s.n.queue[0].cd].Filled?)
            && t.n.allocs == (if s.d.scratch.Some? then s.n.allocs else s.n.allocs - 1)
  {
    LentTable(s);
    var (t, lent) := TakeScratch(s).value;
    ReceivedTable(t, lent);
    var (n', p) := Receive(t.n, lent.ptr);
    RouteTable(t.(n := n'), t.n.queue[0], Parked(p, t.n.queue[0].len));
    RouteKeeps(t.(n := n'), t.n.queue[0].cd, t.n.queue[0].outcome, Parked(p, t.n.queue[0].len));
  }

  lemma StashTable(u: Sys, b: Parked)
    requires Owned(u) && b.ptr in Callers(u)
    ensures var t := u.(d := Stash(u.d, b)); Owned(t) && Readable(u) && Readable(t) && Table(t) == Table(u)
  {
    OwnedReadable(u);
    StashKeeps(u, b);
    SameTable(u, u.(d := Stash(u.d, b)));
  }

  lemma LastTurn(s: Sys)
    requires Owned(s) && (TakeScratch(s).None? || s.n.queue == [] || !Directed(s.n.queue[0]))
    ensures var (t, more) := DrainTurn(s);
            && !more && Owned(t) && Readable(s) && Readable(t)
            && Table(t) == Fold(Table(s), s.n.queue, s.d.scratch.Some?, s.n.allocs)
  {
    if TakeScratch(s).None? {
      AllFailTable(s, TPEOS);
      FailAllKeeps(s, TPEOS);
    } else {
      LentTable(s);
      var (t, lent) := TakeScratch(s).value;
      if t.n.queue == [] {
        StashTable(t, lent);
      } else {
        ReceivedTable(t, lent);
        var (n', p) := Receive(t.n, lent.ptr);
        var u := t.(n := n');
        var m := t.n.queue[0];
        var got := Parked(p, if m.cd > 0 then m.len else lent.len);
        StashTable(u, got);
        if m.outcome.Failure? && m.outcome != Failure(TPEBLOCK) {
          AllFailTable(u.(d := Stash(u.d, got)), m.outcome.error);
          FailAllKeeps(u.(d := Stash(u.d, got)), m.outcome.error);
        }
      }
    }
  }

  ghost predicate Goes(s: Sys) {
    TakeScratch(s).Some? && s.n.queue != [] && Directed(s.n.queue[0])
  }

  ghost function FoldOf(s: Sys): map<int, View>
    requires Readable(s)
  {
    Fold(Table(s), s.n.queue, s.d.scratch.Some?, s.n.allocs)
  }

  /** A turn that routes a reply leaves as much to fold as there was before. */
  lemma TurnFold(s: Sys)
    requires Owned(s) && Goes(s)
    ensures var (t, more) := DrainTurn(s);
            more && Owned(t) && Readable(s) && Readable(t) && FoldOf(t) == FoldOf(s)
  {
    DirectedTurn(s);
  }

  /** The drain loop terminates on every finite queue and leaves exactly the first-reply-wins table:
      for any starting table, any queue contents, any supply of allocations. */
  lemma {:induction false} DrainIsFold(s: Sys)
    requires Owned(s)
    ensures Owned(Drain(s)) && Readable(s) && Readable(Drain(s))
    ensures Table(Drain(s)) == Fold(Table(s), s.n.queue, s.d.scratch.Some?, s.n.allocs)
    decreases |s.n.queue|
  {
    if Goes(s) {
      TurnFold(s);
      DrainIsFold(DrainTurn(s).0);
    } else {
      LastTurn(s);
    }
  }

  /** How many messages a drain receives: all the replies up to the first message that ends it, and that
      message, as long as there is a buffer to receive into. */
  ghost function Received(v: map<int, View>, q: seq<Message>, spare: bool, allocs: nat): (n: nat)
    ensures n <= |q|
    decreases |q|
  {
    if (!spare && allocs == 0) || q == [] then 0
    else if Directed(q[0]) then
      1 + Received(FirstWins(v, q[0]), q[1..], q[0].cd in v && v[q[0].cd].Filled?, if spare then allocs else allocs - 1)
    else 1
  }

  /** What a drain does not receive stays queued for the next one. */
  lemma {:induction false} DrainLeavesRest(s: Sys)
    requires Owned(s)
    ensures Readable(s) && Drain(s).n.queue == s.n.queue[Received(Table(s), s.n.queue, s.d.scratch.Some?, s.n.allocs)..]
    decreases |s.n.queue|
  {
    OwnedReadable(s);
    if Goes(s) {
      DirectedTurn(s);
      DrainLeavesRest(DrainTurn(s).0);
    }
  }

  // ----- reading the specification by descriptor

  /** The first message for `cd` in a queue. */
  ghost function FirstFor(q: seq<Message>, cd: int): Option<Message> {
    if q == [] then None else if q[0].cd == cd then Some(q[0]) else FirstFor(q[1..], cd)
  }

  /** How many replies the drain routes before it stops, and the failure it stops with, if any. */
  ghost function Turns(v: map<int, View>, q: seq<Message>, spare: bool, allocs: nat): (n: nat)
    ensures n <= |q|
    decreases |q|
  {
    if (!spare && allocs == 0) || q == [] || !Directed(q[0]) then 0
    else 1 + Turns(FirstWins(v, q[0]), q[1..], q[0].cd in v && v[q[0].cd].Filled?, if spare then allocs else allocs - 1)
  }

  ghost function StopError(v: map<int, View>, q: seq<Message>, spare: bool, allocs: nat): Option<Error>
    decreases |q|
  {
    if !spare && allocs == 0 then Some(TPEOS)
    else if q == [] then None
    else if Directed(q[0]) then
      StopError(FirstWins(v, q[0]), q[1..], q[0].cd in v && v[q[0].cd].Filled?, if spare then allocs else allocs - 1)
    else if q[0].outcome.Failure? && q[0].outcome != Failure(TPEBLOCK) then Some(q[0].outcome.error)
    else None
  }

  /** What the routed replies do to one descriptor, said without a loop. */
  ghost function Settled(v: map<int, View>, q: seq<Message>, cd: int): Option<View> {
    var before := if cd in v then Some(v[cd]) else None;
    if before.Some? && before.value.Filled? then before
    else match FirstFor(q, cd)
         case None => before
         case Some(m) => Some(Filled(m.outcome, Some((m.content, m.len)), if cd in v then v[cd].claim else None))
  }

  ghost function Ended(view: Option<View>, e: Option<Error>): Option<View> {
    if view.Some? && view.value.Open? && e.Some? then Some(Filled(Failure(e.value), None, view.value.claim)) else view
  }

  /** For every queue and every supply of allocations, each descriptor ends with its own first reply among
      those routed before the drain stopped: an already filled slot keeps what it had, a slot still open
      gets the failure the drain stopped with, and every other descriptor is untouched. */
  lemma {:induction false} FoldSettles(v: map<int, View>, q: seq<Message>, spare: bool, allocs: nat, cd: int)
    ensures At(Fold(v, q, spare, allocs), cd)
         == Ended(Settled(v, q[..Turns(v, q, spare, allocs)], cd), StopError(v, q, spare, allocs))
    decreases |q|
  {
    if (spare || allocs > 0) && q != [] && Directed(q[0]) {
      var v1, s1, a1 := FirstWins(v, q[0]), q[0].cd in v && v[q[0].cd].Filled?, if spare then allocs else allocs - 1;
      FoldSettles(v1, q[1..], s1, a1, cd);
      var n := Turns(v1, q[1..], s1, a1);
      assert q[..1 + n] == [q[0]] + q[1..][..n];
      SettledCons(v, q[0], q[1..][..n], cd);
    } else {
      assert q[..0] == [];
    }
  }

  lemma SettledCons(v: map<int, View>, m: Message, q: seq<Message>, cd: int)
    ensures Settled(v, [m] + q, cd) == Settled(FirstWins(v, m), q, cd)
  {
    assert ([m] + q)[1..] == q;
  }

  ghost function At(v: map<int, View>, cd: int): Option<View> {
    if cd in v then Some(v[cd]) else None
  }

  // ----- the fold in pieces

  /** The table, whether a receive buffer is at hand, and the allocations left. */
  datatype Progress = Progress(table: map<int, View>, spare: bool, allocs: nat)

  /** Where the drain is after routing all of `q`; `None` if it stops within `q`. */
  ghost function Through(p: Progress, q: seq<Message>): Option<Progress>
    decreases |q|
  {
    if q == [] then Some(p)
    else if (!p.spare && p.allocs == 0) || !Directed(q[0]) then None
    else Through(Progress(FirstWins(p.table, q[0]), q[0].cd in p.table && p.table[q[0].cd].Filled?,
                          if p.spare then p.allocs else p.allocs - 1), q[1..])
  }

  ghost function FoldFrom(p: Progress, q: seq<Message>): map<int, View> {
    Fold(p.table, q, p.spare, p.allocs)
  }

  /** A queue folds as its first part and then the rest; once stopped, nothing that comes after matters. */
  lemma {:induction false} FoldInPieces(p: Progress, q: seq<Message>, r: seq<Message>)
    ensures FoldFrom(p, q + r) == match Through(p, q) case Some(u) => FoldFrom(u, r) case None => FoldFrom(p, q)
    decreases |q|
  {
    if q == [] { assert q + r == r; }
    else {
      assert (q + r)[0] == q[0] && (q + r)[1..] == q[1..] + r;
      if (p.spare || p.allocs > 0) && Directed(q[0]) {
        FoldInPieces(Progress(FirstWins(p.table, q[0]), q[0].cd in p.table && p.table[q[0].cd].Filled?,
                              if p.spare then p.allocs else p.allocs - 1), q[1..], r);
      }
    }
  }

  /** One buffer is left, and both descriptors still wait for their reply. */
  ghost predicate Scarce(p: Progress, m: Message, k: Message) {
    && p.allocs == (if p.spare then 0 else 1)
    && !(m.cd in p.table && p.table[m.cd].Filled?) && !(k.cd in p.table && p.table[k.cd].Filled?)
  }

  ghost function Turn(p: Progress, m: Message): Progress
    requires p.spare || p.allocs > 0
  {
    Progress(FirstWins(p.table, m), m.cd in p.table && p.table[m.cd].Filled?, if p.spare then p.allocs else p.allocs - 1)
  }

  lemma TurnFolds(p: Progress, m: Message, q: seq<Message>)
    requires Directed(m)
    ensures FoldFrom(p, [m] + q) == if p.spare || p.allocs > 0 then FoldFrom(Turn(p, m), q) else AllFail(p.table, TPEOS)
  {
    assert ([m] + q)[1..] == q;
  }

  /** A spare buffer and one more allocation are worth the same. */
  lemma SpareIsAllocation(v: map<int, View>, q: seq<Message>, a: nat)
    ensures FoldFrom(Progress(v, false, a + 1), q) == FoldFrom(Progress(v, true, a), q)
  {
  }

  lemma FirstWinsCommute(v: map<int, View>, m: Message, k: Message)
    requires m.cd != k.cd
    ensures FirstWins(FirstWins(v, m), k) == FirstWins(FirstWins(v, k), m)
  {
  }

  /** The two orders of two replies, here. */
  lemma SwapHere(p: Progress, m: Message, k: Message, r: seq<Message>)
    requires Directed(m) && Directed(k) && m.cd != k.cd
    ensures FoldFrom(p, [m] + ([k] + r)) == FoldFrom(p, [k] + ([m] + r)) <==> !Scarce(p, m, k)
  {
    TurnFolds(p, m, [k] + r);
    TurnFolds(p, k, [m] + r);
    if p.spare || p.allocs > 0 {
      var x, y := Turn(p, m), Turn(p, k);
      TurnFolds(x, k, r);
      TurnFolds(y, m, r);
      FirstWinsCommute(p.table, m, k);
      if Scarce(p, m, k) {
        assert x.table[m.cd].Filled? && x.table[m.cd].body.Some?;
        assert AllFail(x.table, TPEOS)[m.cd] == x.table[m.cd];
        assert m.cd in AllFail(y.table, TPEOS) ==> AllFail(y.table, TPEOS)[m.cd].body.None?;
      } else {
        SwapEnough(p, m, k, r);
      }
    }
  }

  lemma SwapEnough(p: Progress, m: Message, k: Message, r: seq<Message>)
    requires Directed(m) && Directed(k) && m.cd != k.cd && (p.spare || p.allocs > 0) && !Scarce(p, m, k)
    ensures FoldFrom(Turn(p, m), [k] + r) == FoldFrom(Turn(p, k), [m] + r)
  {
    var x, y := Turn(p, m), Turn(p, k);
    TurnFolds(x, k, r);
    TurnFolds(y, m, r);
    FirstWinsCommute(p.table, m, k);
    var a := if p.spare then p.allocs else p.allocs - 1;
    if a > 0 { SpareIsAllocation(FirstWins(FirstWins(p.table, m), k), r, a - 1); }
    if x.spare != y.spare && a == 0 { NoBufferFails(FirstWins(FirstWins(p.table, m), k), r); }
  }

  lemma NoBufferFails(v: map<int, View>, r: seq<Message>)
    ensures FoldFrom(Progress(v, false, 0), r) == AllFail(v, TPEOS)
  {
  }

  /** Replies for different descriptors commute, wherever in whatever queue they stand and however few
      allocations are left, with exactly one exception: the drain gets to them with one buffer left and
      both still open. Then the first gets its reply and the other the allocation failure. */
  lemma RepliesCommute(p: Progress, q: seq<Message>, m: Message, k: Message, r: seq<Message>)
    requires Directed(m) && Directed(k) && m.cd != k.cd
    ensures FoldFrom(p, q + ([m] + ([k] + r))) == FoldFrom(p, q + ([k] + ([m] + r)))
       <==> !(Through(p, q).Some? && Scarce(Through(p, q).value, m, k))
  {
    FoldInPieces(p, q, [m] + ([k] + r));
    FoldInPieces(p, q, [k] + ([m] + r));
    if Through(p, q).Some? { SwapHere(Through(p, q).value, m, k, r); }
  }

  // ----- splitting a queue over several drains

  ghost function Arrived(s: Sys, more: seq<Message>): Sys {
    s.(n := s.n.(queue := s.n.queue + more))
  }

  ghost predicate AllDirected(q: seq<Message>) {
    forall i :: 0 <= i < |q| ==> Directed(q[i])
  }

  ghost function ProgressOf(s: Sys): Progress
    requires Readable(s)
  {
    Progress(Table(s), s.d.scratch.Some?, s.n.allocs)
  }

  /** Nothing waits any more, and no buffer is left: whatever comes is not received. */
  ghost predicate Exhausted(s: Sys) {
    Readable(s) && s.d.scratch.None? && s.n.allocs == 0 && AllFail(Table(s), TPEOS) == Table(s)
  }

  lemma AllFailTwice(v: map<int, View>, e: Error)
    ensures AllFail(AllFail(v, e), e) == AllFail(v, e)
  {
  }

  /** Where a drain of replies, from `s` to `t`, ends: with all of them routed and a buffer to spare, or
      exhausted with nothing routed later making a difference. */
  ghost predicate EndsWell(s: Sys, t: Sys, more: seq<Message>) {
    && Owned(t) && Readable(s) && Readable(t)
    && if t.d.scratch.Some?
       then t.n.queue == [] && FoldFrom(ProgressOf(s), s.n.queue + more) == FoldFrom(ProgressOf(t), more)
       else Exhausted(t) && FoldFrom(ProgressOf(s), s.n.queue + more) == Table(t)
  }

  lemma EndsFailing(s: Sys, more: seq<Message>)
    requires Owned(s) && TakeScratch(s).None?
    ensures EndsWell(s, Drain(s), more)
  {
    AllFailTable(s, TPEOS);
    FailAllKeeps(s, TPEOS);
    AllFailTwice(Table(s), TPEOS);
    NoBufferFails(Table(s), s.n.queue + more);
  }

  lemma EndsIdle(s: Sys, more: seq<Message>)
    requires Owned(s) && TakeScratch(s).Some? && s.n.queue == []
    ensures EndsWell(s, Drain(s), more)
  {
    LentTable(s);
    var (t, lent) := TakeScratch(s).value;
    StashTable(t, lent);
    assert s.n.queue + more == more;
    if s.d.scratch.None? { SpareIsAllocation(Table(s), more, s.n.allocs - 1); }
  }

  lemma EndsRouting(s: Sys, u: Sys, more: seq<Message>)
    requires Owned(s) && Goes(s) && EndsWell(DrainTurn(s).0, u, more)
    ensures EndsWell(s, u, more)
  {
    DirectedTurn(s);
    var t := DrainTurn(s).0;
    assert s.n.queue + more == [s.n.queue[0]] + (t.n.queue + more);
    TurnFolds(ProgressOf(s), s.n.queue[0], t.n.queue + more);
  }

  lemma {:induction false} DrainEnds(s: Sys, more: seq<Message>)
    requires Owned(s) && AllDirected(s.n.queue)
    ensures EndsWell(s, Drain(s), more)
    decreases |s.n.queue|
  {
    if Goes(s) {
      DirectedTurn(s);
      DrainEnds(DrainTurn(s).0, more);
      EndsRouting(s, Drain(s), more);
    } else if TakeScratch(s).None? {
      EndsFailing(s, more);
    } else {
      EndsIdle(s, more);
    }
  }

  /** Draining replies and then whatever came after leaves the table that one drain of it all leaves. Only
      the first part must be replies: an undirected message ends a drain, and what follows it is left to
      the next. */
  lemma SplitDrain(s: Sys, more: seq<Message>)
    requires Owned(s) && AllDirected(s.n.queue)
    ensures Readable(Drain(Arrived(Drain(s), more))) && Readable(Drain(Arrived(s, more)))
    ensures Table(Drain(Arrived(Drain(s), more))) == Table(Drain(Arrived(s, more)))
  {
    var part, whole := Arrived(Drain(s), more), Arrived(s, more);
    DrainEnds(s, more);
    SameTable(Drain(s), part);
    SameTable(s, whole);
    assert Owned(part) && Owned(whole);
    DrainIsFold(part);
    DrainIsFold(whole);
    if Drain(s).d.scratch.Some? { assert [] + more == more; }
    else { NoBufferFails(Table(part), part.n.queue); }
  }
}
