/** One receive that wakes two senders: the switch inside its first signal lets the woken sender send,
    send again and block in front of the other, so that the walk, resumed, comes to that one too. */
module QueueWakes {
  import opened Lists
  import opened Markers
  import opened SchedSpec
  import opened SchedSafety
  import opened SchedRuns
  import opened QueueWalk
  import opened QueueMachine
  import MQ = MessageQueue
  import QS = QueueSpec

  /** The receiver, and the two senders that are blocked at the start. */
  const R := 1
  const W1 := 2
  const W2 := 3
  const SENDERS := Waiters(0)

  function ThreeLists(ready: seq<Tid>, blocked: seq<Tid>): map<ListName, seq<Tid>> {
    map[Ready := ready, Waiting := [], SENDERS := blocked]
  }

  predicate Fits(k: Task, blocked: bool) {
    k.ready == !blocked && k.waiting == if blocked then {TB_QUEUE} else {}
  }

  /** Three tasks of priorities 5, 6 and 5, one of them running, some ready and some blocked on the
      queue, at the given level of nesting. */
  predicate Scene(s: Sched, running: Tid, ready: seq<Tid>, blocked: seq<Tid>, level: int) {
    && s.tasks.Keys == {R, W1, W2} && s.tasks[R].pri == 5 && s.tasks[W1].pri == 6 && s.tasks[W2].pri == 5
    && s.lists == ThreeLists(ready, blocked)
    && Fits(s.tasks[R], R in blocked) && Fits(s.tasks[W1], W1 in blocked) && Fits(s.tasks[W2], W2 in blocked)
    && s.running == running && !s.idle && s.lock == 0 && s.reenter == level
    && (level == 0 ==> s.need && s.forbid == 0)
  }

  lemma WithoutPair(t: Tid, u: Tid)
    requires t != u
    ensures Without([t, u], t) == [u] && Without([t, u], u) == [t] && Without([t], t) == []
    ensures forall v :: v != t && v != u ==> Without([t, u], v) == [t, u]
    ensures forall v :: v != t ==> Without([t], v) == [t]
  {
    WithoutAt([t, u], u, 1);
    forall v | v != t && v != u ensures Without([t, u], v) == [t, u] {
      WithoutIs([t, u], v);
    }
    forall v | v != t ensures Without([t], v) == [t] {
      WithoutIs([t], v);
    }
  }

  lemma RemovedLists(ready: seq<Tid>, blocked: seq<Tid>, t: Tid)
    ensures RemovedFrom(ThreeLists(ready, blocked), t) == ThreeLists(Without(ready, t), Without(blocked, t))
  {
    assert Without([], t) == [];
  }

  lemma InsertFirst(s: Sched, q: seq<Tid>, t: Tid)
    requires q == [] || Pri(s, t) > Pri(s, q[0])
    ensures InsertTask(s, q, t) == [t] + q
  {
    assert q != [] ==> Pris(s, q)[0] == Pri(s, q[0]);
    SlotIs(Pris(s, q), Pri(s, t), 0);
  }

  lemma InsertSecond(s: Sched, u: Tid, t: Tid)
    requires Pri(s, t) <= Pri(s, u)
    ensures InsertTask(s, [u], t) == [u, t]
  {
    assert Pris(s, [u])[0] == Pri(s, u);
    SlotIs(Pris(s, [u]), Pri(s, t), 1);
  }

  lemma ReleasedLists(s: Sched, t: Tid, rest: seq<Tid>)
    requires s.lists == ThreeLists([], [W1, W2]) && t in s.tasks
    requires (t == W1 && rest == [W2]) || (t == W2 && rest == [W1])
    ensures Release(s, t, {TB_QUEUE}).lists == ThreeLists([t], rest)
  {
    var s1 := SetTask(s, t, Signalled(s.tasks[t], {TB_QUEUE}));
    WithoutPair(W1, W2);
    RemovedLists([], [W1, W2], t);
    InsertFirst(Remove(s1, t), [], t);
    assert [t] + [] == [t];
    assert Enqueue(Remove(s1, t), Ready, t).lists == ThreeLists([t], rest);
  }

  /** Signalling a blocked sender switches away from the receiver. */
  lemma SenderWoken(s: Sched, t: Tid, rest: seq<Tid>)
    requires Scene(s, R, [], [W1, W2], -1)
    requires (t == W1 && rest == [W2]) || (t == W2 && rest == [W1])
    ensures Scene(Wake(s, t), R, [t], rest, 0) && SwitchesAway(s, t)
  {
    assert TB_QUEUE in {TB_QUEUE} * s.tasks[t].waiting;
    ReleasedLists(s, t, rest);
  }

  lemma FirstIsWoken(s: Sched) returns (s': Sched)
    requires Scene(s, R, [], [W1, W2], -1)
    ensures s' == AfterRecv(s, SENDERS, true) && CutAt(Forbid(s), [W1, W2], s', W1) && Scene(s', R, [W1], [W2], 0)
  {
    SenderWoken(Forbid(s), W1, [W2]);
    s' := AfterRecv(s, SENDERS, true);
  }

  lemma SecondIsWoken(s: Sched) returns (s': Sched)
    requires Scene(s, R, [], [W1, W2], -1)
    ensures var q := Rest(s, SENDERS, 1); s' == AfterWalk(s, q) && CutAt(s, q, s', W2)
  {
    assert Rest(s, SENDERS, 1) == [W2];
    SenderWoken(s, W2, [W1]);
    s' := AfterWalk(s, [W2]);
  }

  lemma DispatchedLists(s: Sched, t: Tid, ready: seq<Tid>, blocked: seq<Tid>)
    requires s.lists == ThreeLists([t] + ready, blocked) && t in s.tasks && Without(blocked, t) == blocked
    ensures Dispatch(s).lists == ThreeLists(ready, blocked)
  {
    assert Without([t] + ready, t) == ready;
    RemovedLists([t] + ready, blocked, t);
  }

  lemma SceneWellformed(s: Sched, running: Tid, ready: seq<Tid>, blocked: seq<Tid>, level: int)
    requires Scene(s, running, ready, blocked, level) && running in s.tasks
    requires forall t :: t in ready || t in blocked ==> t in s.tasks
    ensures Wellformed(s)
  {
  }

  /** The woken sender goes first, and the receiver queues up. */
  lemma ReceiverSwitchedOut(s: Sched)
    requires Scene(s, R, [W1], [W2], 0)
    ensures Wellformed(s) && Scene(Exit(s), W1, [R], [W2], -1)
  {
    SceneWellformed(s, R, [W1], [W2], 0);
    InsertSecond(s.(need := false), W1, R);
    var p := Saved(Preempted(s));
    assert [W1] + [R] == [W1, R];
    assert Enqueue(s.(need := false), Ready, R).lists == ThreeLists([W1] + [R], [W2]);
    WithoutPair(W2, R);
    DispatchedLists(p, W1, [R], [W2]);
  }

  /** A second send of the woken sender finds the queue full: it blocks in front of the other. */
  lemma SenderBlocks(s: Sched)
    requires Scene(s, W1, [R], [W2], -1)
    ensures Scene(AfterWait(Forbid(s), SENDERS), W1, [R], [W1, W2], 0)
  {
    var s1 := BlockBegin(Forbid(s), {TB_QUEUE});
    InsertFirst(s1, [W2], W1);
    assert [W1] + [W2] == [W1, W2];
    assert Enqueue(s1, SENDERS, W1).lists == ThreeLists([R], [W1, W2]);
  }

  lemma SceneOrderly(s: Sched)
    requires Scene(s, R, [], [W1, W2], -1)
    ensures Orderly(s) && AtTask(s)
  {
    assert Listed(s, SENDERS, W1) && Listed(s, SENDERS, W2);
    assert s.lists[SENDERS][0] == W1 && s.lists[SENDERS][1] == W2;
    assert forall l, t :: Listed(s, l, t) <==> l == SENDERS && (t == W1 || t == W2);
  }

  // ---- How it comes to that -------------------------------------------------------------

  lemma InsertThird(s: Sched, u: Tid, v: Tid, t: Tid)
    requires Pri(s, t) <= Pri(s, u) && Pri(s, t) <= Pri(s, v)
    ensures InsertTask(s, [u, v], t) == [u, v, t]
  {
    var ps := Pris(s, [u, v]);
    assert ps[0] == Pri(s, u) && ps[1] == Pri(s, v);
    SlotIs(ps, Pri(s, t), 2);
  }

  lemma NewBehind(s: Sched, t: Tid, ready: seq<Tid>)
    requires |ready| <= 1 && forall u :: u in ready ==> Pri(s, u) >= Pri(s, t)
    ensures InsertTask(s, ready, t) == ready + [t]
  {
    if ready == [] {
      InsertFirst(s, [], t);
      assert [] + [t] == [t] + [];
    } else {
      assert ready == [ready[0]] && ready[0] in ready;
      InsertSecond(s, ready[0], t);
      assert ready + [t] == [ready[0], t];
    }
  }

  lemma NewSender(s: Sched, t: Tid, pri: int, regs: Regs, ready: seq<Tid>) returns (s': Sched)
    requires AtTask(s) && t !in s.tasks && s.lists == ThreeLists(ready, []) && |ready| <= 1
    requires forall u :: u in ready ==> u in s.tasks && Pri(s, u) >= pri
    ensures Wellformed(s) && Enabled(s, CreatesTask(t, pri, regs)) && s' == Next(s, CreatesTask(t, pri, regs))
    ensures s' == s.(tasks := s.tasks[t := NewTask(pri, regs)], lists := ThreeLists(ready + [t], []))
  {
    var s1 := SetTask(s, t, NewTask(pri, regs));
    NewBehind(s1, t, ready);
    assert Enqueue(s1, Ready, t).lists == ThreeLists(ready + [t], []);
    s' := Next(s, CreatesTask(t, pri, regs));
  }

  lemma ListMade(s: Sched) returns (s': Sched)
    requires Init(s)
    ensures Wellformed(s) && Enabled(s, CreatesList(SENDERS)) && s' == Next(s, CreatesList(SENDERS))
    ensures s' == s.(lists := ThreeLists([], []))
  {
    assert forall l, t :: !Listed(s, l, t);
    s' := Next(s, CreatesList(SENDERS));
    assert s'.lists == ThreeLists([], []);
  }

  function Creating(regs: Regs): seq<Op> {
    [CreatesList(SENDERS)] + ([CreatesTask(W1, 6, regs)] + [CreatesTask(W2, 5, regs)])
  }

  /** R, the kernel task, sets the queue up and creates both senders. */
  lemma Created(s: Sched, regs: Regs) returns (s': Sched)
    requires Init(s) && s.running == R && s.tasks[R].pri == 5
    ensures Leads(s, Creating(regs), s') && Scene(s', R, [W1, W2], [], -1)
  {
    var s1 := ListMade(s);
    var s2 := NewSender(s1, W1, 6, regs, []);
    assert [] + [W1] == [W1] && [W1] + [W2] == [W1, W2];
    s' := NewSender(s2, W2, 5, regs, [W1]);
    LastLeads(s2, CreatesTask(W2, 5, regs));
    LeadsFirst(s1, CreatesTask(W1, 6, regs), [CreatesTask(W2, 5, regs)], s');
    LeadsFirst(s, CreatesList(SENDERS), [CreatesTask(W1, 6, regs)] + [CreatesTask(W2, 5, regs)], s');
  }

  /** R yields, and W1 is first. */
  lemma ReceiverYields(s: Sched) returns (s': Sched)
    requires Scene(s, R, [W1, W2], [], -1)
    ensures Leads(s, [Yields] + [Exits], s') && Scene(s', W1, [W2, R], [], -1)
  {
    var s1 := Yield(s);
    SceneWellformed(s, R, [W1, W2], [], -1);
    SceneWellformed(s1, R, [W1, W2], [], 0);
    InsertThird(s1.(need := false), W1, W2, R);
    assert [W1, W2, R] == [W1] + [W2, R];
    assert Enqueue(s1.(need := false), Ready, R).lists == ThreeLists([W1] + [W2, R], []);
    DispatchedLists(Saved(Preempted(s1)), W1, [W2, R], []);
    s' := Exit(s1);
    LastLeads(s1, Exits);
    LeadsFirst(s, Yields, [Exits], s');
  }

  /** A blocked task is switched out, and the head of the ready list runs. */
  lemma BlockedSwitchedOut(s: Sched, t: Tid, u: Tid, ready: seq<Tid>, blocked: seq<Tid>)
    requires Scene(s, t, [u] + ready, blocked, 0) && t in blocked && Distinct(blocked) && u !in blocked
    requires t in s.tasks && u in s.tasks && forall v :: v in ready || v in blocked ==> v in s.tasks
    ensures Wellformed(s) && Scene(Exit(s), u, ready, blocked, -1)
  {
    SceneWellformed(s, t, [u] + ready, blocked, 0);
    WithoutIs(blocked, u);
    DispatchedLists(Saved(Preempted(s)), u, ready, blocked);
  }

  /** The receiver is on the CPU again. */
  lemma SenderSwitchedOut(s: Sched)
    requires Scene(s, W1, [R], [W1, W2], 0)
    ensures Wellformed(s) && Scene(Exit(s), R, [], [W1, W2], -1)
  {
    assert [R] + [] == [R];
    BlockedSwitchedOut(s, W1, R, [], [W1, W2]);
  }

  /** A sender finds the queue full, blocks behind those that are blocked, and is switched out. */
  lemma SenderQueues(s: Sched, t: Tid, u: Tid, ready: seq<Tid>, blocked: seq<Tid>) returns (s': Sched)
    requires Scene(s, t, [u] + ready, blocked, -1) && t in s.tasks && t !in blocked
    requires (t == W1 && blocked == [] && u == W2 && ready == [R])
             || (t == W2 && blocked == [W1] && u == R && ready == [])
    ensures Leads(s, WaitOps(SENDERS), s') && Scene(s', t, [u] + ready, blocked + [t], 0)
    ensures s' == AfterWait(Forbid(s), SENDERS)
  {
    SceneWellformed(s, t, [u] + ready, blocked, -1);
    WaitLeads(s, SENDERS);
    var s1 := BlockBegin(Forbid(s), {TB_QUEUE});
    if blocked == [] {
      InsertFirst(s1, [], t);
    } else {
      InsertSecond(s1, W1, t);
    }
    assert [] + [t] == [t] + [] && [W1] + [t] == [W1, t];
    assert Enqueue(s1, SENDERS, t).lists == ThreeLists([u] + ready, blocked + [t]);
    s' := AfterWait(Forbid(s), SENDERS);
  }

  const CALL_DONE := [Forbids] + [Permits]

  /** R's first send fills the slot; its signal is to R itself and does nothing. */
  lemma SlotFilled(s: Sched)
    requires Scene(s, R, [W1, W2], [], -1)
    ensures AfterSend(s, R, true) == s && Leads(s, CALL_DONE, s)
  {
    NoNotice(Forbid(s), R);
    SceneWellformed(s, R, [W1, W2], [], -1);
    SameLists(s, Forbid(s));
    LastLeads(Forbid(s), Permits);
    LeadsFirst(s, Forbids, [Permits], s);
  }

  /** W1's retry finds the slot empty and fills it. */
  lemma SlotRefilled(s: Sched)
    requires Scene(s, W1, [R], [W2], -1)
    ensures Leads(s, CALL_DONE, Permit(Forbid(s))) && Permit(Forbid(s)) == s
  {
    SceneWellformed(s, W1, [R], [W2], -1);
    SameLists(s, Forbid(s));
    LastLeads(Forbid(s), Permits);
    LeadsFirst(s, Forbids, [Permits], s);
  }

  /** From boot to the receive: R sets everything up, sends once, and yields; W1 and W2 block. */
  function Arriving(regs: Regs): seq<Op> {
    Creating(regs) + CALL_DONE + ([Yields] + [Exits]) + (WaitOps(SENDERS) + [Exits]) + (WaitOps(SENDERS) + [Exits])
  }

  lemma BlocksAndLeaves(s: Sched, t: Tid, u: Tid, ready: seq<Tid>, blocked: seq<Tid>) returns (s': Sched)
    requires Scene(s, t, [u] + ready, blocked, -1) && t in s.tasks && t !in blocked
    requires (t == W1 && blocked == [] && u == W2 && ready == [R])
             || (t == W2 && blocked == [W1] && u == R && ready == [])
    ensures Leads(s, WaitOps(SENDERS) + [Exits], s') && Scene(s', u, ready, blocked + [t], -1)
  {
    var s1 := SenderQueues(s, t, u, ready, blocked);
    BlockedSwitchedOut(s1, t, u, ready, blocked + [t]);
    s' := Exit(s1);
    LastLeads(s1, Exits);
    LeadsOver(s, WaitOps(SENDERS), s1, [Exits], s');
  }

  lemma Arrives(s: Sched, regs: Regs) returns (s': Sched)
    requires Init(s) && s.running == R && s.tasks[R].pri == 5
    ensures Leads(s, Arriving(regs), s') && Scene(s', R, [], [W1, W2], -1)
  {
    var s1 := Created(s, regs);
    SlotFilled(s1);
    var s2 := ReceiverYields(s1);
    assert [W2] + [R] == [W2, R] && [R] + [] == [R] && [] + [W1] == [W1] && [W1] + [W2] == [W1, W2];
    var s3 := BlocksAndLeaves(s2, W1, W2, [R], []);
    s' := BlocksAndLeaves(s3, W2, R, [], [W1]);
    LeadsOver(s, Creating(regs), s1, CALL_DONE, s1);
    LeadsOver(s, Creating(regs) + CALL_DONE, s1, [Yields] + [Exits], s2);
    LeadsOver(s, Creating(regs) + CALL_DONE + ([Yields] + [Exits]), s2, WaitOps(SENDERS) + [Exits], s3);
    LeadsOver(s, Creating(regs) + CALL_DONE + ([Yields] + [Exits]) + (WaitOps(SENDERS) + [Exits]), s3,
              WaitOps(SENDERS) + [Exits], s');
  }

  /** The receive, up to the switch inside its signal to W1. */
  const RECEIVING := [Forbids] + [Signals(W1, {TB_QUEUE})]

  lemma Receives(s: Sched) returns (s': Sched)
    requires Scene(s, R, [], [W1, W2], -1)
    ensures Leads(s, RECEIVING, s') && s' == AfterRecv(s, SENDERS, true)
    ensures CutAt(Forbid(s), [W1, W2], s', W1) && Scene(s', R, [W1], [W2], 0)
  {
    SceneOrderly(s);
    s' := FirstIsWoken(s);
    ForbidAwaits(s, [W1, W2]);
    RecvLeads(s, SENDERS, true);
    assert WakeOps([W1], true) == [Signals(W1, {TB_QUEUE})];
  }

  /** W1 sends, blocks with its next message, and R runs again. */
  const MEANWHILE := [Exits] + CALL_DONE + (WaitOps(SENDERS) + [Exits])

  lemma MeanwhileLeads(s: Sched) returns (s': Sched)
    requires Scene(s, R, [W1], [W2], 0)
    ensures Leads(s, MEANWHILE, s') && Scene(s', R, [], [W1, W2], -1)
  {
    ReceiverSwitchedOut(s);
    LastLeads(s, Exits);
    var s1 := Exit(s);
    SlotRefilled(s1);
    SceneWellformed(s1, W1, [R], [W2], -1);
    WaitLeads(s1, SENDERS);
    SenderBlocks(s1);
    var s2 := AfterWait(Forbid(s1), SENDERS);
    SenderSwitchedOut(s2);
    s' := Exit(s2);
    LastLeads(s2, Exits);
    LeadsOver(s1, WaitOps(SENDERS), s2, [Exits], s');
    LeadsOver(s, [Exits], s1, CALL_DONE, s1);
    LeadsOver(s, [Exits] + CALL_DONE, s1, WaitOps(SENDERS) + [Exits], s');
  }

  /** R's walk goes on behind W1. */
  lemma WalksOn(s: Sched) returns (s': Sched)
    requires Scene(s, R, [], [W1, W2], -1)
    ensures Leads(s, [Signals(W2, {TB_QUEUE})], s')
    ensures var q := Rest(s, SENDERS, 1); s' == AfterWalk(s, q) && CutAt(s, q, s', W2)
  {
    SceneOrderly(s);
    s' := SecondIsWoken(s);
    assert Rest(s, SENDERS, 1) == [W2];
    WalkLeads(s, [W2]);
    assert WakeOps([W2], true) == [Signals(W2, {TB_QUEUE})];
  }

  /** The whole run. */
  function Story(regs: Regs): seq<Op> {
    Arriving(regs) + RECEIVING + MEANWHILE + [Signals(W2, {TB_QUEUE})]
  }

  /** R receives from the full queue and signals W1, which switches to W1; W1 sends, and blocks with
      its next message; R is dispatched again, and its walk goes on behind W1, with W2. All this is a run
      from boot, and every guard on it holds. */
  lemma ReceiveWakesTwo(s: Sched, regs: Regs) returns (states: seq<Sched>, n: nat)
    requires Init(s) && s.running == R && s.tasks[R].pri == 5
    ensures Run(states, Story(regs)) && Guarded(states, Story(regs)) && states[0] == s && n == |Arriving(regs)|
    ensures |Story(regs)| == n + 11
    ensures Scene(states[n], R, [], [W1, W2], -1)
    ensures states[n + 2] == AfterRecv(states[n], SENDERS, true)
    ensures CutAt(Forbid(states[n]), [W1, W2], states[n + 2], W1)
    ensures var s4, s5 := states[n + 10], states[n + 11];
            var q := Rest(s4, SENDERS, 1);
            Scene(s4, R, [], [W1, W2], -1) && s5 == AfterWalk(s4, q) && CutAt(s4, q, s5, W2)
  {
    var s0 := Arrives(s, regs);
    var s1 := Receives(s0);
    var s4 := MeanwhileLeads(s1);
    var s5 := WalksOn(s4);
    states := StoryRun(s, regs, s0, s1, s4, s5);
    n := |Arriving(regs)|;
  }

  lemma StoryRun(s: Sched, regs: Regs, s0: Sched, s1: Sched, s4: Sched, s5: Sched) returns (states: seq<Sched>)
    requires Init(s) && Leads(s, Arriving(regs), s0) && Leads(s0, RECEIVING, s1)
    requires Leads(s1, MEANWHILE, s4) && Leads(s4, [Signals(W2, {TB_QUEUE})], s5)
    ensures Run(states, Story(regs)) && Guarded(states, Story(regs)) && states[0] == s
    ensures |Story(regs)| == |Arriving(regs)| + 11
    ensures var n := |Arriving(regs)|;
            states[n] == s0 && states[n + 2] == s1 && states[n + 10] == s4 && states[n + 11] == s5
  {
    assert [] + Arriving(regs) == Arriving(regs);
    states := RunLeadsOn([s], [], Arriving(regs), s0);
    states := RunLeadsOn(states, Arriving(regs), RECEIVING, s1);
    states := RunLeadsOn(states, Arriving(regs) + RECEIVING, MEANWHILE, s4);
    states := RunLeadsOn(states, Arriving(regs) + RECEIVING + MEANWHILE, [Signals(W2, {TB_QUEUE})], s5);
  }

  // ---- The queue meanwhile --------------------------------------------------------------

  /** The calls on the queue in this order: the slot is full when R receives, and full again, with W1
      blocked on it once more, when R's walk goes on. */
  lemma SlotGoesRound(m: seq<QS.Msg>) returns (q: seq<QS.State>, calls: seq<QS.Op>)
    requires |m| == 4
    ensures calls == [QS.Send(R, m[0], false), QS.Send(W1, m[1], true), QS.Send(W2, m[2], true),
                      QS.Recv(R, true), QS.Retry(W1), QS.Send(W1, m[3], true)]
    ensures QS.Run(q, calls, 1, 0)
    ensures QS.Full(q[3].q) && q[3].calls == map[W1 := QS.Sending(m[1]), W2 := QS.Sending(m[2])]
    ensures QS.Full(q[6].q) && q[6].calls == map[W1 := QS.Sending(m[3]), W2 := QS.Sending(m[2])]
  {
    calls := [QS.Send(R, m[0], false), QS.Send(W1, m[1], true), QS.Send(W2, m[2], true),
              QS.Recv(R, true), QS.Retry(W1), QS.Send(W1, m[3], true)];
    var q0 := QS.State(QS.NewQueue(1, 0), map[], [], []);
    var q1 := QS.Put(q0, m[0]);
    var q2 := q1.(calls := map[W1 := QS.Sending(m[1])]);
    var q3 := q2.(calls := map[W1 := QS.Sending(m[1]), W2 := QS.Sending(m[2])]);
    var q4 := QS.Take(q3);
    var q5 := QS.Put(q4.(calls := q4.calls - {W1}), m[1]);
    var q6 := q5.(calls := q5.calls[W1 := QS.Sending(m[3])]);
    q := [q0, q1, q2, q3, q4, q5, q6];
    forall i | 0 <= i < 6 ensures QS.Step(q[i], calls[i], q[i + 1]) {
      assert q2.calls == q1.calls[W1 := QS.Sending(m[1])] && q3.calls == q2.calls[W2 := QS.Sending(m[2])];
    }
  }

  // ---- On the machine -------------------------------------------------------------------

  /** Scene, out of the verifier's sight where Opened is not mentioned for the state. */
  ghost predicate Staged(s: Sched, running: Tid, ready: seq<Tid>, blocked: seq<Tid>, level: int) {
    forall k {:trigger Opened(k, s)} :: Opened(k, s) ==> Scene(s, running, ready, blocked, level)
  }

  method HandlerEnds(queue: MQ.MessageQueue, ghost st: QS.State)
    requires InState(queue, st) && queue.sched.kReenter == 0 && !queue.sched.idle && queue.sched.waitLock == 0
    modifies queue.sched, queue.sched.mem
    ensures InState(queue, st) && Wellformed(old(queue.sched.S())) && queue.sched.S() == Exit(old(queue.sched.S()))
  {
    SwitchGuarded(queue.sched.S());
    Meanwhile(queue, Exits, 0, st);
  }

  method ReceiverLeaves(queue: MQ.MessageQueue, ghost st: QS.State)
    requires InState(queue, st) && Scene(queue.sched.S(), R, [W1], [W2], 0)
    modifies queue.sched, queue.sched.mem
    ensures InState(queue, st) && Scene(queue.sched.S(), W1, [R], [W2], -1)
  {
    ReceiverSwitchedOut(queue.sched.S());
    HandlerEnds(queue, st);
  }

  method SenderLeaves(queue: MQ.MessageQueue, ghost st: QS.State)
    requires InState(queue, st) && Scene(queue.sched.S(), W1, [R], [W1, W2], 0)
    modifies queue.sched, queue.sched.mem
    ensures InState(queue, st) && Scene(queue.sched.S(), R, [], [W1, W2], -1)
  {
    SenderSwitchedOut(queue.sched.S());
    HandlerEnds(queue, st);
  }

  /** R receives from the full queue, up to the switch inside its signal. */
  method ReceiveFull(queue: MQ.MessageQueue, buf: seq<bv8>, ghost st: QS.State)
    returns (at: Tid, ghost st': QS.State)
    requires InState(queue, st) && queue.waiters == SENDERS && Scene(queue.sched.S(), R, [], [W1, W2], -1)
    requires QS.Full(st.q) && st.q.max == 1 && |buf| >= queue.elemSz && R !in st.calls
    modifies queue`nodes, queue`freeSlots, queue.msgs, queue.sched, queue.sched.mem
    ensures InState(queue, st') && at == W1 && Scene(queue.sched.S(), R, [W1], [W2], 0)
    ensures st.q.stored != [] && st' == QS.Take(st)
    ensures queue.msgs.w.Keys == old(queue.msgs.w).Keys && queue.nodes <= old(queue.nodes)
  {
    ghost var s := queue.sched.S();
    ReadyToReceive(s);
    var r, out;
    r, out, at, st' := CallRecv(queue, buf, true, st);
  }

  /** The receive is going to be cut at W1. */
  lemma ReadyToReceive(s: Sched)
    requires Scene(s, R, [], [W1, W2], -1)
    ensures AtTask(s) && List(s, SENDERS) == [W1, W2] && !HitsCpu(s, [W1, W2])
    ensures CutShort(s, [W1, W2]) && [W1, W2][FirstAwaiting(Forbid(s), [W1, W2])] == W1
    ensures Scene(AfterRecv(s, SENDERS, true), R, [W1], [W2], 0)
  {
    SceneOrderly(s);
    var s1 := FirstIsWoken(s);
    ForbidAwaits(s, [W1, W2]);
  }

  /** ... and W1 is put on the CPU. */
  method ReceiveAndLeave(queue: MQ.MessageQueue, buf: seq<bv8>, ghost st: QS.State)
    returns (at: Tid, ghost st': QS.State)
    requires InState(queue, st) && queue.waiters == SENDERS && Staged(queue.sched.S(), R, [], [W1, W2], -1)
    requires QS.Full(st.q) && st.q.max == 1 && |buf| >= queue.elemSz && R !in st.calls
    modifies queue`nodes, queue`freeSlots, queue.msgs, queue.sched, queue.sched.mem
    ensures InState(queue, st') && at == W1 && Staged(queue.sched.S(), W1, [R], [W2], -1)
    ensures st.q.stored != [] && st' == QS.Take(st)
    ensures queue.msgs.w.Keys == old(queue.msgs.w).Keys && queue.nodes <= old(queue.nodes)
  {
    assert Opened(0, queue.sched.S());
    at, st' := ReceiveFull(queue, buf, st);
    ReceiverLeaves(queue, st');
  }

  /** W1 sends the message that it was blocked with. */
  method Resend(queue: MQ.MessageQueue, node: int, m1: QS.Msg, ghost st: QS.State) returns (ghost st': QS.State)
    requires InState(queue, st) && Staged(queue.sched.S(), W1, [R], [W2], -1) && Room(queue, node)
    requires (m1.Data? ==> |m1.bytes| >= queue.elemSz) && st.q.free == 1
    requires W1 in st.calls && st.calls[W1] == QS.Sending(QS.Kept(m1, queue.elemSz))
    modifies queue`data, queue`nodes, queue`freeSlots, queue.msgs, queue.sched, queue.sched.mem
    ensures InState(queue, st') && queue.sched.S() == old(queue.sched.S())
    ensures QS.Full(st'.q) && st'.calls == st.calls - {W1}
  {
    assert Opened(0, queue.sched.S());
    var r;
    r, st' := RetrySend(queue, node, m1, st);
  }

  /** ... and blocks with its next one. */
  method SendNext(queue: MQ.MessageQueue, m3: QS.Msg, ghost st: QS.State) returns (ghost st': QS.State)
    requires InState(queue, st) && queue.waiters == SENDERS && Scene(queue.sched.S(), W1, [R], [W2], -1)
    requires (m3.Data? ==> |m3.bytes| >= queue.elemSz) && QS.Full(st.q) && W1 !in st.calls
    modifies queue`data, queue`nodes, queue`freeSlots, queue.msgs, queue.sched, queue.sched.mem
    ensures InState(queue, st') && Scene(queue.sched.S(), W1, [R], [W1, W2], 0)
    ensures st' == st.(calls := st.calls[W1 := QS.Sending(QS.Kept(m3, queue.elemSz))])
  {
    SenderBlocks(queue.sched.S());
    var r;
    r, st' := CallSend(queue, NULL, m3, true, st);
  }

  method SendNextAndLeave(queue: MQ.MessageQueue, m3: QS.Msg, ghost st: QS.State) returns (ghost st': QS.State)
    requires InState(queue, st) && queue.waiters == SENDERS && Staged(queue.sched.S(), W1, [R], [W2], -1)
    requires (m3.Data? ==> |m3.bytes| >= queue.elemSz) && QS.Full(st.q) && W1 !in st.calls
    modifies queue`data, queue`nodes, queue`freeSlots, queue.msgs, queue.sched, queue.sched.mem
    ensures InState(queue, st') && Staged(queue.sched.S(), R, [], [W1, W2], -1)
    ensures st' == st.(calls := st.calls[W1 := QS.Sending(QS.Kept(m3, queue.elemSz))])
  {
    assert Opened(0, queue.sched.S());
    st' := SendNext(queue, m3, st);
    SenderLeaves(queue, st');
  }

  method GoOnWalking(queue: MQ.MessageQueue, at: Tid, ghost st: QS.State) returns (at': Tid)
    requires InState(queue, st) && Staged(queue.sched.S(), R, [], [W1, W2], -1) && at == W1
    modifies queue.sched, queue.sched.mem
    ensures InState(queue, st) && at' == W2
  {
    assert Opened(0, queue.sched.S());
    SceneOrderly(queue.sched.S());
    ghost var s := SecondIsWoken(queue.sched.S());
    var r;
    r, at' := EndRecv(queue, at, SENDERS, 0, st);
  }

  /** The whole story on the machine, call by call: one receive signals W1 and, resumed, W2, when the
      queue is full again. */
  method TwoWoken(queue: MQ.MessageQueue, buf: seq<bv8>, node: int, m1: QS.Msg, m3: QS.Msg, ghost st: QS.State)
    returns (at1: Tid, at2: Tid, ghost st': QS.State)
    requires InState(queue, st) && queue.waiters == SENDERS && Scene(queue.sched.S(), R, [], [W1, W2], -1)
    requires QS.Full(st.q) && st.q.max == 1 && |buf| >= queue.elemSz && R !in st.calls
    requires (m1.Data? ==> |m1.bytes| >= queue.elemSz) && (m3.Data? ==> |m3.bytes| >= queue.elemSz)
    requires W1 in st.calls && st.calls[W1] == QS.Sending(QS.Kept(m1, queue.elemSz))
    requires NodeInMemory(queue.msgs.w, queue.L, node) && forall n :: n in queue.nodes ==> Apart(n, node)
    modifies queue`data, queue`nodes, queue`freeSlots, queue.msgs, queue.sched, queue.sched.mem
    ensures at1 == W1 && at2 == W2 && InState(queue, st')
    ensures QS.Full(st'.q) && st'.calls == st.calls[W1 := QS.Sending(QS.Kept(m3, queue.elemSz))]
  {
    assert Staged(queue.sched.S(), R, [], [W1, W2], -1);
    at1, st' := ReceiveAndLeave(queue, buf, st);
    st' := Resend(queue, node, m1, st');
    st' := SendNextAndLeave(queue, m3, st');
    Reentered(st.calls, W1, QS.Sending(QS.Kept(m3, queue.elemSz)));
    at2 := GoOnWalking(queue, at1, st');
  }

  lemma Reentered(calls: map<Tid, QS.Call>, t: Tid, c: QS.Call)
    ensures (calls - {t})[t := c] == calls[t := c]
  {
  }

  lemma SwitchGuarded(s: Sched)
    requires Wellformed(s) && s.reenter == 0 && !s.idle && s.lock == 0
    ensures Enabled(s, Exits) && Guard(s, Exits)
  {
  }
}
