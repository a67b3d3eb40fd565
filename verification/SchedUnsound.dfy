/** Runs on which the scheduler loses track of a task: an interrupt inside wait, before its yield or
    before it is queued. */
module SchedUnsound {
  import opened Markers
  import opened SchedSpec
  import opened SchedSafety
  import opened SchedRuns

  ghost predicate Legal(s: Sched, op: Op, s': Sched) {
    forall k {:trigger Opened(k, (s, s'))} :: Opened(k, (s, s')) ==> Step(s, op, s')
  }

  lemma SixAreARun(states: seq<Sched>, ops: seq<Op>)
    requires |ops| == 6 && |states| == 7 && Init(states[0])
    requires StepAt(states, ops, 0) && StepAt(states, ops, 1) && StepAt(states, ops, 2)
    requires StepAt(states, ops, 3) && StepAt(states, ops, 4) && StepAt(states, ops, 5)
    ensures Run(states, ops)
  {
  }

  lemma LegalStep(states: seq<Sched>, ops: seq<Op>, i: nat, s: Sched, op: Op, s': Sched)
    requires i < |ops| < |states| && states[i] == s && ops[i] == op && states[i + 1] == s' && Legal(s, op, s')
    ensures StepAt(states, ops, i)
  {
    assert Opened(0, (s, s'));
  }

  lemma InsertAlone(s: Sched, t: Tid)
    ensures InsertTask(s, [], t) == [t]
  {
  }

  lemma WithoutOnly(t: Tid)
    ensures Without([t], t) == []
  {
  }

  /** The kernel has one task, t, and only the two standard lists. */
  predicate Alone(s: Sched, t: Tid, ready: seq<Tid>, waiting: seq<Tid>) {
    s.tasks.Keys == {t} && s.running == t && !s.idle && s.lists == map[Ready := ready, Waiting := waiting]
    && (forall u :: u in ready ==> u == t) && (forall u :: u in waiting ==> u == t)
  }

  lemma AloneWellformed(s: Sched, t: Tid, ready: seq<Tid>, waiting: seq<Tid>)
    requires Alone(s, t, ready, waiting)
    ensures Wellformed(s)
  {
  }

  predicate AtRest(s: Sched) {
    s.forbid == 0 && s.lock == 0 && s.reenter == -1
  }

  lemma DelaySet(s: Sched, t: Tid) returns (s': Sched)
    requires Init(s) && s.running == t
    ensures Legal(s, SetsDelay(1), s') && Alone(s', t, [], []) && AtRest(s') && s'.tasks[t].ready
    ensures s'.tasks[t].waiting == {} && s'.tasks[t].delay == 1
  {
    AloneWellformed(s, t, [], []);
    s' := Next(s, SetsDelay(1));
  }

  lemma Marked(s: Sched, t: Tid) returns (s': Sched)
    requires Alone(s, t, [], []) && AtRest(s) && s.tasks[t].ready
    requires s.tasks[t].waiting == {} && s.tasks[t].delay == 1
    ensures Legal(s, Blocks({TB_DELAY}), s') && Alone(s', t, [], [])
    ensures s'.forbid == 1 && s'.lock == 1 && s'.reenter == -1
    ensures !s'.tasks[t].ready && s'.tasks[t].waiting == {TB_DELAY} && s'.tasks[t].delay == 1
  {
    AloneWellformed(s, t, [], []);
    s' := Next(s, Blocks({TB_DELAY}));
  }

  /** delay(1) has queued its task but not yielded yet. */
  predicate Queued(s: Sched, t: Tid) {
    Alone(s, t, [], [t]) && AtRest(s)
    && !s.tasks[t].ready && s.tasks[t].waiting == {TB_DELAY} && s.tasks[t].delay == 1
  }

  lemma QueuesUp(s: Sched, t: Tid) returns (s': Sched)
    requires Alone(s, t, [], []) && s.forbid == 1 && s.lock == 1 && s.reenter == -1
    requires !s.tasks[t].ready && s.tasks[t].waiting == {TB_DELAY} && s.tasks[t].delay == 1
    ensures Legal(s, Queues(Waiting), s') && Queued(s', t)
  {
    AloneWellformed(s, t, [], []);
    EnqueueAlone(s, t);
    s' := Next(s, Queues(Waiting));
  }

  lemma EnqueueAlone(s: Sched, t: Tid)
    requires s.lists == map[Ready := [], Waiting := []]
    ensures Enqueue(s, Waiting, t).lists == map[Ready := [], Waiting := [t]]
  {
    InsertAlone(s, t);
  }

  lemma Interrupted(s: Sched, t: Tid) returns (s': Sched)
    requires Queued(s, t)
    ensures Legal(s, Enters, s') && Alone(s', t, [], [t]) && s'.reenter == 0 && s'.tasks[t].waiting == {TB_DELAY}
    ensures Wellformed(s') && Seen(s') == [t] && Expires(s', t)
  {
    AloneWellformed(s, t, [], [t]);
    s' := Next(s, Enters);
    AloneWellformed(s', t, [], [t]);
    assert FirstExpiring(s', [t]) == 0;
  }

  lemma ReleaseAlone(s: Sched, t: Tid)
    requires Alone(s, t, [], [t])
    ensures Alone(Release(s, t, {TB_DELAY}), t, [t], [])
  {
    WithoutOnly(t);
    var r := Remove(SetTask(s, t, Signalled(s.tasks[t], {TB_DELAY})), t);
    assert r.lists == map[Ready := [], Waiting := []];
    InsertAlone(r, t);
    assert Enqueue(r, Ready, t).lists == map[Ready := [t], Waiting := []];
  }

  lemma TickWakesRunning(s: Sched, t: Tid) returns (s': Sched)
    requires Alone(s, t, [], [t]) && s.reenter == 0 && s.tasks[t].waiting == {TB_DELAY}
    requires Wellformed(s) && Seen(s) == [t] && Expires(s, t)
    ensures Legal(s, Ticks, s') && Alone(s', t, [t], []) && s'.tasks[t].ready && s'.need && s'.forbid == 0
    ensures s'.reenter == 0 && !Guard(s, Ticks)
  {
    var c := Counted(s, [t]);
    assert TB_DELAY in {TB_DELAY} * c.tasks[t].waiting;
    ReleaseAlone(c, t);
    s' := Next(s, Ticks);
    assert Releases(s, t);
  }

  lemma SwitchQueuesTwice(s: Sched, t: Tid) returns (s': Sched)
    requires Alone(s, t, [t], []) && s.tasks[t].ready && s.need && s.forbid == 0 && s.reenter == 0
    ensures Legal(s, Exits, s') && Alone(s', t, [t], [])
  {
    AloneWellformed(s, t, [t], []);
    var p := Saved(Preempted(s));
    assert InsertTask(s.(need := false), [t], t) == [t, t];
    assert p.lists == map[Ready := [t, t], Waiting := []];
    assert Without([t, t], t) == [t];
    assert RemovedFrom(p.lists, t) == map[Ready := [t], Waiting := []];
    s' := Next(s, Exits);
  }

  const TICK_INSIDE_WAIT := [SetsDelay(1), Blocks({TB_DELAY}), Queues(Waiting), Enters, Ticks, Exits]

  lemma SixSteps(s0: Sched, s1: Sched, s2: Sched, s3: Sched, s4: Sched, s5: Sched, s6: Sched)
    requires Init(s0) && Legal(s0, SetsDelay(1), s1) && Legal(s1, Blocks({TB_DELAY}), s2)
    requires Legal(s2, Queues(Waiting), s3) && Legal(s3, Enters, s4) && Legal(s4, Ticks, s5) && Legal(s5, Exits, s6)
    ensures Run([s0, s1, s2, s3, s4, s5, s6], TICK_INSIDE_WAIT)
  {
    var states, ops := [s0, s1, s2, s3, s4, s5, s6], TICK_INSIDE_WAIT;
    LegalStep(states, ops, 0, s0, SetsDelay(1), s1);
    LegalStep(states, ops, 1, s1, Blocks({TB_DELAY}), s2);
    LegalStep(states, ops, 2, s2, Queues(Waiting), s3);
    LegalStep(states, ops, 3, s3, Enters, s4);
    LegalStep(states, ops, 4, s4, Ticks, s5);
    LegalStep(states, ops, 5, s5, Exits, s6);
    SixAreARun(states, ops);
  }

  /** The one task calls delay(1), and the tick comes after wait has queued it but before its yield:
      the task ends up on the CPU and in the ready list. */
  lemma TickInsideWait(s: Sched) returns (states: seq<Sched>)
    requires Init(s)
    ensures Run(states, TICK_INSIDE_WAIT) && states[0] == s
    ensures !GuardAt(states, TICK_INSIDE_WAIT, 4) && OnCpu(states[6], s.running) && Listed(states[6], Ready, s.running)
  {
    var t := s.running;
    var s1 := DelaySet(s, t);
    var s2 := Marked(s1, t);
    var s3 := QueuesUp(s2, t);
    var s4 := Interrupted(s3, t);
    var s5 := TickWakesRunning(s4, t);
    var s6 := SwitchQueuesTwice(s5, t);
    SixSteps(s, s1, s2, s3, s4, s5, s6);
    states := [s, s1, s2, s3, s4, s5, s6];
  }

  // ---- A switch under wait_lock ---------------------------------------------------------

  lemma FourAreARun(states: seq<Sched>, ops: seq<Op>)
    requires |ops| == 4 && |states| == 5 && Init(states[0])
    requires StepAt(states, ops, 0) && StepAt(states, ops, 1) && StepAt(states, ops, 2) && StepAt(states, ops, 3)
    ensures Run(states, ops)
  {
  }

  /** The one task is between wait_lock++ and its queueing, at the given level of nesting. */
  predicate UnderLock(s: Sched, t: Tid, level: int) {
    Alone(s, t, [], []) && s.lock == 1 && s.reenter == level && !s.tasks[t].ready
  }

  lemma MarkedFirst(s: Sched, t: Tid) returns (s': Sched)
    requires Init(s) && s.running == t
    ensures Legal(s, Blocks({TB_DELAY}), s') && UnderLock(s', t, -1)
  {
    AloneWellformed(s, t, [], []);
    s' := Next(s, Blocks({TB_DELAY}));
  }

  lemma InterruptedUnderLock(s: Sched, t: Tid) returns (s': Sched)
    requires UnderLock(s, t, -1)
    ensures Legal(s, Enters, s') && UnderLock(s', t, 0)
  {
    AloneWellformed(s, t, [], []);
    s' := Next(s, Enters);
  }

  lemma HandlerYields(s: Sched, t: Tid) returns (s': Sched)
    requires UnderLock(s, t, 0)
    ensures Legal(s, Yields, s') && UnderLock(s', t, 0) && s'.need && CanSchedule(s')
  {
    AloneWellformed(s, t, [], []);
    s' := Next(s, Yields);
  }

  lemma SwitchedOut(s: Sched, t: Tid) returns (s': Sched)
    requires UnderLock(s, t, 0) && s.need && CanSchedule(s)
    ensures Legal(s, Exits, s') && s'.idle && s'.tasks.Keys == {t} && s'.lists == map[Ready := [], Waiting := []]
  {
    AloneWellformed(s, t, [], []);
    s' := Next(s, Exits);
  }

  const SWITCH_INSIDE_WAIT := [Blocks({TB_DELAY}), Enters, Yields, Exits]

  lemma FourSteps(s0: Sched, s1: Sched, s2: Sched, s3: Sched, s4: Sched)
    requires Init(s0) && Legal(s0, Blocks({TB_DELAY}), s1) && Legal(s1, Enters, s2)
    requires Legal(s2, Yields, s3) && Legal(s3, Exits, s4)
    ensures Run([s0, s1, s2, s3, s4], SWITCH_INSIDE_WAIT)
  {
    var states, ops := [s0, s1, s2, s3, s4], SWITCH_INSIDE_WAIT;
    LegalStep(states, ops, 0, s0, Blocks({TB_DELAY}), s1);
    LegalStep(states, ops, 1, s1, Enters, s2);
    LegalStep(states, ops, 2, s2, Yields, s3);
    LegalStep(states, ops, 3, s3, Exits, s4);
    FourAreARun(states, ops);
  }

  /** The one task calls wait, and an interrupt whose handler yields comes between wait_lock++ and
      enqueue(): the switch leaves the task blocked, in no list and off the CPU. */
  lemma SwitchInsideWait(s: Sched) returns (states: seq<Sched>)
    requires Init(s)
    ensures Run(states, SWITCH_INSIDE_WAIT) && states[0] == s
    ensures !GuardAt(states, SWITCH_INSIDE_WAIT, 3)
    ensures s.running in states[4].tasks && !InSomeList(states[4], s.running) && !OnCpu(states[4], s.running)
  {
    var t := s.running;
    var s1 := MarkedFirst(s, t);
    var s2 := InterruptedUnderLock(s1, t);
    var s3 := HandlerYields(s2, t);
    var s4 := SwitchedOut(s3, t);
    FourSteps(s, s1, s2, s3, s4);
    states := [s, s1, s2, s3, s4];
    assert forall l :: !Listed(s4, l, t);
  }

  // ---- A wait for two bits --------------------------------------------------------------

  /** The one task, in the list of the given name or in none, waits for both bits. */
  predicate WaitsForTwo(s: Sched, t: Tid, waiting: seq<Tid>, idle: bool, level: int, lock: nat) {
    && s.tasks.Keys == {t} && s.running == t && s.idle == idle && s.reenter == level && s.lock == lock
    && s.lists == map[Ready := [], Waiting := waiting] && (forall u :: u in waiting ==> u == t)
    && !s.tasks[t].ready && s.tasks[t].waiting == {TB_DELAY, TB_QUEUE}
  }

  lemma TwoWellformed(s: Sched, t: Tid, waiting: seq<Tid>, idle: bool, level: int, lock: nat)
    requires WaitsForTwo(s, t, waiting, idle, level, lock)
    ensures Wellformed(s)
  {
  }

  lemma TwoMarked(s: Sched, t: Tid) returns (s': Sched)
    requires Init(s) && s.running == t
    ensures Legal(s, Blocks({TB_DELAY, TB_QUEUE}), s') && WaitsForTwo(s', t, [], false, -1, 1)
  {
    AloneWellformed(s, t, [], []);
    s' := Next(s, Blocks({TB_DELAY, TB_QUEUE}));
    assert {} + {TB_DELAY, TB_QUEUE} == {TB_DELAY, TB_QUEUE};
  }

  lemma TwoQueued(s: Sched, t: Tid) returns (s': Sched)
    requires WaitsForTwo(s, t, [], false, -1, 1)
    ensures Legal(s, Queues(Waiting), s') && WaitsForTwo(s', t, [t], false, -1, 0)
  {
    TwoWellformed(s, t, [], false, -1, 1);
    EnqueueAlone(s, t);
    s' := Next(s, Queues(Waiting));
  }

  lemma TwoYields(s: Sched, t: Tid) returns (s': Sched)
    requires WaitsForTwo(s, t, [t], false, -1, 0)
    ensures Legal(s, Yields, s') && WaitsForTwo(s', t, [t], false, 0, 0) && s'.need && s'.forbid == 0
  {
    TwoWellformed(s, t, [t], false, -1, 0);
    s' := Next(s, Yields);
  }

  lemma TwoGoesIdle(s: Sched, t: Tid) returns (s': Sched)
    requires WaitsForTwo(s, t, [t], false, 0, 0) && s.need && s.forbid == 0
    ensures Legal(s, Exits, s') && WaitsForTwo(s', t, [t], true, 0, 0)
  {
    TwoWellformed(s, t, [t], false, 0, 0);
    s' := Next(s, Exits);
  }

  lemma TwoInterrupted(s: Sched, t: Tid) returns (s': Sched)
    requires WaitsForTwo(s, t, [t], true, 0, 0)
    ensures Legal(s, Enters, s') && WaitsForTwo(s', t, [t], true, 1, 0)
  {
    TwoWellformed(s, t, [t], true, 0, 0);
    s' := Next(s, Enters);
  }

  lemma OneOfTwo(s: Sched, t: Tid) returns (s': Sched)
    requires WaitsForTwo(s, t, [t], true, 1, 0)
    ensures Legal(s, Signals(t, {TB_QUEUE}), s') && Guard(s, Signals(t, {TB_QUEUE}))
    ensures t in s'.tasks && Listed(s', Ready, t) && s'.tasks[t].ready && s'.tasks[t].waiting == {TB_DELAY} && s'.idle
  {
    TwoWellformed(s, t, [t], true, 1, 0);
    assert TB_QUEUE in {TB_QUEUE} * s.tasks[t].waiting;
    EnqueueLists(Remove(SetTask(s, t, Signalled(s.tasks[t], {TB_QUEUE})), t), Ready, t);
    s' := Next(s, Signals(t, {TB_QUEUE}));
    assert {TB_DELAY, TB_QUEUE} - {TB_QUEUE} == {TB_DELAY};
  }

  const ONE_BIT_OF_TWO := [Blocks({TB_DELAY, TB_QUEUE}), Queues(Waiting), Yields, Exits, Enters]

  /** The one task waits for two bits, goes off the CPU, and gets one of them: it is in the ready list,
      and still waits. */
  lemma OneBitArrives(s: Sched) returns (states: seq<Sched>, ops: seq<Op>)
    requires Init(s)
    ensures Run(states, ops) && ops == ONE_BIT_OF_TWO + [Signals(s.running, {TB_QUEUE})] && states[0] == s
    ensures var s', t := states[6], s.running;
            !OnCpu(s', t) && t in s'.tasks && Listed(s', Ready, t) && s'.tasks[t].waiting != {}
  {
    var t := s.running;
    var s1 := TwoMarked(s, t);
    var s2 := TwoQueued(s1, t);
    var s3 := TwoYields(s2, t);
    var s4 := TwoGoesIdle(s3, t);
    var s5 := TwoInterrupted(s4, t);
    var s6 := OneOfTwo(s5, t);
    TwoSteps(t, s, s1, s2, s3, s4, s5, s6);
    states, ops := [s, s1, s2, s3, s4, s5, s6], ONE_BIT_OF_TWO + [Signals(t, {TB_QUEUE})];
  }

  lemma TwoSteps(t: Tid, s0: Sched, s1: Sched, s2: Sched, s3: Sched, s4: Sched, s5: Sched, s6: Sched)
    requires Init(s0) && Legal(s0, Blocks({TB_DELAY, TB_QUEUE}), s1) && Legal(s1, Queues(Waiting), s2)
    requires Legal(s2, Yields, s3) && Legal(s3, Exits, s4) && Legal(s4, Enters, s5)
    requires Legal(s5, Signals(t, {TB_QUEUE}), s6)
    ensures Run([s0, s1, s2, s3, s4, s5, s6], ONE_BIT_OF_TWO + [Signals(t, {TB_QUEUE})])
  {
    var states, ops := [s0, s1, s2, s3, s4, s5, s6], ONE_BIT_OF_TWO + [Signals(t, {TB_QUEUE})];
    LegalStep(states, ops, 0, s0, Blocks({TB_DELAY, TB_QUEUE}), s1);
    LegalStep(states, ops, 1, s1, Queues(Waiting), s2);
    LegalStep(states, ops, 2, s2, Yields, s3);
    LegalStep(states, ops, 3, s3, Exits, s4);
    LegalStep(states, ops, 4, s4, Enters, s5);
    LegalStep(states, ops, 5, s5, Signals(t, {TB_QUEUE}), s6);
    SixAreARun(states, ops);
  }
}
