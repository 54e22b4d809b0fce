/** Why nobody may cancel a descriptor somebody waits on: a run in which that rule, and no other, is
    broken, and a call is handed another call's reply. */
module DemuxForeign {
  import opened Xatmi
  import opened DemuxModel
  import opened DemuxBuffers
  import opened DemuxWorld
  import opened DemuxRuns

  /** A run in which programs may cancel what they like. */
  ghost predicate LooseRun(ws: seq<World>, es: seq<Event>) {
    && |ws| == |es| + 1 && Initial(ws[0])
    && (forall i :: 0 <= i < |es| ==> LooselyGoes(ws[i], es[i], ws[i + 1]))
  }

  ghost predicate LooselyGoes(w: World, e: Event, v: World) {
    Permitted(w, e) && w.tasks.Keys == w.data.Keys && v == Next(w, e)
  }

  const REPLY: Content := Content("CARRAY", "", 7)
  const ANSWER: Message := Message(5, Success, REPLY, 1, false)

  /** A context with two buffers of the program's and one receive buffer to spare. */
  function Fresh(): Native {
    Native([], map[], 0, map[1 := PROVISIONAL, 2 := PROVISIONAL], 1, 3)
  }

  function Start(): World {
    World(Sys(FRESH, Fresh(), {}), map[], map[], {1, 2}, map[], map[], {}, map[], [])
  }

  /** Two calls, the second submitted under the number the foreign cancellation freed; then its reply
      comes, and the first call collects it. */
  const STORY: seq<Event> := [
    Submit(0, 5, true, None, Parked(1, 0)),
    UserCancel(5),
    Submit(1, 5, true, None, Parked(2, 0)),
    Arrive(ANSWER),
    DrainOne,
    Take(0, 5, false)
  ]

  /** The first call waits. */
  ghost predicate One(w: World) {
    && w.tasks == map[0 := CallOn(5, 0)] && w.data == map[0 := Parked(1, 0)] && w.hands == {1, 2} && w.log == []
    && w.s.d.slots == map[5 := Waiting(None, Some(Call))] && w.s.d.scratch == None
    && w.s.n == Fresh().(outstanding := map[5 := 0], nextGen := 1) && w.gens == map[5 := 0]
  }

  /** Its descriptor has been cancelled by somebody else. */
  ghost predicate Cancelled(w: World) {
    && w.tasks == map[0 := CallOn(5, 0)] && w.data == map[0 := Parked(1, 0)] && w.hands == {1, 2} && w.log == []
    && w.s.d.slots == map[] && w.s.d.scratch == None
    && w.s.n == Fresh().(nextGen := 1) && w.gens == map[]
  }

  /** A second call has the number, with or without its reply in the queue. */
  ghost predicate Two(w: World, queue: seq<Message>) {
    && w.tasks == map[0 := CallOn(5, 0), 1 := CallOn(5, 1)] && w.data == map[0 := Parked(1, 0), 1 := Parked(2, 0)]
    && w.hands == {1, 2} && w.log == []
    && w.s.d.slots == map[5 := Waiting(None, Some(Call))] && w.s.d.scratch == None
    && w.s.n == Fresh().(queue := queue, outstanding := map[5 := 1], nextGen := 2) && w.gens == map[5 := 1]
  }

  /** The reply has landed. */
  ghost predicate Landed(w: World) {
    && w.tasks.Keys == {0, 1} == w.data.Keys && w.tasks[0] == CallOn(5, 0) && w.data[0] == Parked(1, 0) && w.log == []
    && w.s.d.slots == map[5 := Ready(Success, Parked(3, 1), Some(Call))] && w.gens == map[5 := 1]
    && 3 in w.s.n.heap && w.s.n.heap[3] == REPLY
  }

  lemma Submitted(w: World)
    requires w == Start()
    ensures LooselyGoes(w, STORY[0], Next(w, STORY[0])) && One(Next(w, STORY[0]))
  {
    assert w.s.n.outstanding == map[];
  }

  lemma CancelledThen(w: World)
    requires One(w)
    ensures LooselyGoes(w, STORY[1], Next(w, STORY[1])) && Cancelled(Next(w, STORY[1]))
  {
    var v := CancelCall(w.s.(woken := {}), 5);
    assert v.d.slots == map[];
    assert v.n.outstanding == map[];
  }

  lemma Resubmitted(w: World)
    requires Cancelled(w)
    ensures LooselyGoes(w, STORY[2], Next(w, STORY[2])) && Two(Next(w, STORY[2]), [])
  {
    var v := Next(w, STORY[2]);
    assert v.tasks == map[0 := CallOn(5, 0)][1 := CallOn(5, 1)];
    assert v.data == map[0 := Parked(1, 0)][1 := Parked(2, 0)];
  }

  lemma Answered(w: World)
    requires Two(w, [])
    ensures LooselyGoes(w, STORY[3], Next(w, STORY[3])) && Two(Next(w, STORY[3]), [ANSWER])
  {
    assert [] + [ANSWER] == [ANSWER];
  }

  lemma Routes(w: World)
    requires Two(w, [ANSWER])
    ensures LooselyGoes(w, STORY[4], Next(w, STORY[4])) && Landed(Next(w, STORY[4]))
  {
    Turned(w.s.(woken := {}));
    assert Routed(w.s) == Some(ANSWER);
  }

  lemma Turned(s: Sys)
    requires s.d.slots == map[5 := Waiting(None, Some(Call))] && s.d.scratch == None
    requires s.n == Fresh().(queue := [ANSWER], outstanding := map[5 := 1], nextGen := 2)
    ensures var u := DrainTurn(s).0;
            u.d.slots == map[5 := Ready(Success, Parked(3, 1), Some(Call))] && 3 in u.n.heap && u.n.heap[3] == REPLY
  {
    var (t, lent) := TakeScratch(s).value;
    assert lent == Parked(3, 0);
    var (n, p) := Receive(t.n, 3);
    assert p == 3 && n.heap[3] == REPLY;
  }

  lemma Misdelivered(w: World)
    requires Landed(w)
    ensures LooselyGoes(w, STORY[5], Next(w, STORY[5]))
    ensures var log := Next(w, STORY[5]).log;
            |log| == 1 && log[0].kind == CallOn(5, 0) && log[0].gen == Some(1) && log[0].body == Some(REPLY)
  {
  }

  lemma StartIsInitial()
    ensures Initial(Start())
  {
  }

  lemma {:induction false} OneMore(ws: seq<World>, es: seq<Event>, e: Event, v: World)
    requires LooseRun(ws, es) && LooselyGoes(ws[|es|], e, v)
    ensures LooseRun(ws + [v], es + [e])
  {
    var us, fs := ws + [v], es + [e];
    forall i | 0 <= i < |fs| ensures LooselyGoes(us[i], fs[i], us[i + 1]) {
      if i < |es| { assert LooselyGoes(ws[i], es[i], ws[i + 1]); }
    }
  }

  /** The only event of the story that is a foreign cancellation. */
  lemma OnlyOneRuleBroken(w: World, i: nat)
    requires i < |STORY| && i != 1 && Permitted(w, STORY[i])
    ensures Enabled(w, STORY[i])
  {
  }

  /** The run: the call of generation 0 collects the reply of generation 1. */
  lemma ForeignCancelMisdelivers() returns (ws: seq<World>)
    ensures LooseRun(ws, STORY) && |ws[6].log| == 1
    ensures ws[6].log[0].kind == CallOn(5, 0) && ws[6].log[0].gen == Some(1) && ws[6].log[0].body == Some(REPLY)
  {
    ws := UpToTheAnswer();
    ws := UpToTheLanding(ws);
    Misdelivered(ws[5]);
    OneMore(ws, STORY[..5], STORY[5], Next(ws[5], STORY[5]));
    ws := ws + [Next(ws[5], STORY[5])];
    assert STORY[..5] + [STORY[5]] == STORY;
  }

  lemma UpToTheLanding(us: seq<World>) returns (ws: seq<World>)
    requires LooseRun(us, STORY[..4]) && Two(us[4], [ANSWER])
    ensures LooseRun(ws, STORY[..5]) && Landed(ws[5])
  {
    Routes(us[4]);
    OneMore(us, STORY[..4], STORY[4], Next(us[4], STORY[4]));
    ws := us + [Next(us[4], STORY[4])];
    assert STORY[..4] + [STORY[4]] == STORY[..5];
  }

  lemma UpToTheAnswer() returns (ws: seq<World>)
    ensures LooseRun(ws, STORY[..4]) && Two(ws[4], [ANSWER])
  {
    ws := [Start()];
    StartIsInitial();
    Submitted(ws[0]);
    OneMore(ws, [], STORY[0], Next(ws[0], STORY[0]));
    ws := ws + [Next(ws[0], STORY[0])];
    CancelledThen(ws[1]);
    OneMore(ws, [] + [STORY[0]], STORY[1], Next(ws[1], STORY[1]));
    ws := ws + [Next(ws[1], STORY[1])];
    Resubmitted(ws[2]);
    OneMore(ws, [] + [STORY[0]] + [STORY[1]], STORY[2], Next(ws[2], STORY[2]));
    ws := ws + [Next(ws[2], STORY[2])];
    Answered(ws[3]);
    OneMore(ws, [] + [STORY[0]] + [STORY[1]] + [STORY[2]], STORY[3], Next(ws[3], STORY[3]));
    ws := ws + [Next(ws[3], STORY[3])];
    assert [] + [STORY[0]] + [STORY[1]] + [STORY[2]] + [STORY[3]] == STORY[..4];
  }
}
