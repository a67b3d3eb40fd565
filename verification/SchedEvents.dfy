/** What happens to a task, told from the events of a run: when the CPU is taken from it, what it is
    signalled, and with which registers it starts. */
module SchedEvents {
  import opened Lists
  import opened Markers
  import opened SchedSpec
  import opened SchedSafety
  import opened SchedRuns
  import opened SchedOrder
  import opened SchedTicks

  // ---- Why the CPU is taken -------------------------------------------------------------

  /** The step asks for a switch: a tick, a yield, or a signal to a task of no lower priority. */
  ghost predicate AsksForSwitch(s: Sched, op: Op) {
    op.Ticks? || CallsYield(s, op)
  }

  /** The outermost handler ends with a switch asked for and multitasking allowed. */
  predicate Switches(s: Sched, op: Op) {
    op.Exits? && s.need && s.forbid == 0 && s.reenter == 0
  }

  /** NEED_SCHEDULE goes up exactly when asked for, and down exactly at a switch. */
  lemma StepNeed(s: Sched, op: Op)
    requires Wellformed(s) && Enabled(s, op)
    ensures Next(s, op).need <==> !Switches(s, op) && (s.need || AsksForSwitch(s, op))
  {
    match op
    case Ticks => var released, t := TickIs(s);
    case Exits => ExitDoes(s);
    case _ =>
  }

  /** The end of a handler switches exactly then: the flag is down, and another handler's end or the idle
      loop has the CPU; otherwise it only leaves its level. */
  lemma ExitDoes(s: Sched)
    requires Wellformed(s) && InHandler(s)
    ensures if Switches(s, Exits) then !Exit(s).need && (Exit(s).idle || Exit(s).reenter == -1)
            else Exit(s) == s.(reenter := s.reenter - 1)
  {
  }

  ghost predicate AsksAt(states: seq<Sched>, ops: seq<Op>, m: nat)
    requires m < |ops| < |states|
  {
    AsksForSwitch(states[m], ops[m])
  }

  predicate SwitchesAt(states: seq<Sched>, ops: seq<Op>, m: nat)
    requires m < |ops| < |states|
  {
    Switches(states[m], ops[m])
  }

  /** Over every run: a raised flag was asked for since the last switch. */
  lemma {:induction false} NeedWasAsked(states: seq<Sched>, ops: seq<Op>, j: nat) returns (m: nat)
    requires Run(states, ops) && j <= |ops| && states[j].need
    ensures m < j && AsksAt(states, ops, m) && forall k: nat :: m <= k < j ==> !SwitchesAt(states, ops, k)
  {
    assert j > 0;
    assert StepAt(states, ops, j - 1);
    StepNeed(states[j - 1], ops[j - 1]);
    if AsksAt(states, ops, j - 1) {
      m := j - 1;
    } else {
      m := NeedWasAsked(states, ops, j - 1);
    }
  }

  /** Over every run: between two switches somebody asked for the second. No task is switched out
      unasked. */
  lemma NeverSwitchedUnasked(states: seq<Sched>, ops: seq<Op>, i: nat, j: nat) returns (m: nat)
    requires Run(states, ops) && i < j < |ops| && SwitchesAt(states, ops, i) && SwitchesAt(states, ops, j)
    ensures i < m < j && AsksAt(states, ops, m)
  {
    m := NeedWasAsked(states, ops, j);
  }

  /** A switch goes idle exactly if no task is ready. */
  lemma IdleIff(s: Sched)
    requires Good(s) && InHandler(s) && Switches(s, Exits) && s.lock == 0
    ensures Exit(s).idle <==> forall t :: t in s.tasks ==> !s.tasks[t].ready
  {
    PreemptedFiles(s);
    var p := Preempted(s);
    SavedKeeps(p);
    var ready := List(Saved(p), Ready);
    if ready != [] {
      assert Listed(p, Ready, ready[0]) && p.tasks[ready[0]].ready;
    }
    forall t | t in s.tasks && s.tasks[t].ready ensures ready != [] {
      assert InSomeList(p, t);
      var l :| Listed(p, l, t);
      assert l == Ready;
    }
  }

  /** The running flag of a task tells whether it is on the CPU. */
  predicate RunFlags(s: Sched) {
    forall t :: t in s.tasks ==> (s.tasks[t].run <==> OnCpu(s, t))
  }

  lemma StepRunFlags(s: Sched, op: Op)
    requires Wellformed(s) && Enabled(s, op) && RunFlags(s) && (s.idle ==> s.reenter >= 0)
    ensures RunFlags(Next(s, op))
  {
    match op
    case Signals(u, sigs) => SignalRunFlags(s, u, sigs);
    case Ticks => TickRunFlags(s);
    case Exits => ExitRunFlags(s);
    case Resumes => HeadIsTask(s);
    case _ =>
  }

  lemma SignalRunFlags(s: Sched, u: Tid, sigs: Sigs)
    requires RunFlags(s) && u in s.tasks
    ensures RunFlags(Signal(s, u, sigs))
  {
    SignalContext(s, u, sigs, u);
    forall t | t in s.tasks ensures t in Signal(s, u, sigs).tasks && Signal(s, u, sigs).tasks[t].run == s.tasks[t].run {
      SignalTask(s, u, sigs, t);
    }
    assert Signal(s, u, sigs).tasks.Keys == s.tasks.Keys;
  }

  lemma TickRunFlags(s: Sched)
    requires Wellformed(s) && RunFlags(s)
    ensures RunFlags(Tick(s))
  {
    var released, t := TickIs(s);
    var c := Counted(s, Seen(s));
    assert RunFlags(c);
    if released {
      SignalRunFlags(c, t, {TB_DELAY});
    }
  }

  lemma ExitRunFlags(s: Sched)
    requires Wellformed(s) && InHandler(s) && RunFlags(s)
    ensures RunFlags(Exit(s))
  {
    HeadIsTask(s);
  }

  /** Over every run: it does, at every moment. */
  lemma {:induction false} RunFlagTells(states: seq<Sched>, ops: seq<Op>, n: nat)
    requires Run(states, ops) && n <= |ops|
    ensures RunFlags(states[n])
  {
    if n > 0 {
      RunFlagTells(states, ops, n - 1);
      IdleInHandler(states, ops, n - 1);
      assert StepAt(states, ops, n - 1);
      StepRunFlags(states[n - 1], ops[n - 1]);
    }
  }

  // ---- What a task is signalled ---------------------------------------------------------

  predicate BlocksItself(s: Sched, op: Op, t: Tid) {
    op.Blocks? && s.running == t
  }

  /** The mask that the step delivers to t. */
  function Delivered(s: Sched, op: Op, t: Tid): Sigs {
    match op
    case Signals(u, sigs) => if u == t && t in s.tasks && sigs * s.tasks[t].waiting != {} then sigs else {}
    case Ticks => if Releases(s, t) then {TB_DELAY} else {}
    case _ => {}
  }

  /** Ticks off t's delay. */
  predicate CountsDown(s: Sched, op: Op, t: Tid) {
    op.Ticks? && t in Seen(s) && Delayed(s, t)
  }

  /** What a step does to a task's record: its own wait and delay() aside, only deliveries and counted
      ticks touch it, and its priority is for good. */
  lemma StepTask(s: Sched, op: Op, t: Tid)
    requires Wellformed(s) && Enabled(s, op) && t in s.tasks
    ensures t in Next(s, op).tasks
    ensures var k, k', d := s.tasks[t], Next(s, op).tasks[t], Delivered(s, op, t);
            && k'.pri == k.pri
            && k'.recvd == (if BlocksItself(s, op, t) then {} else k.recvd + d)
            && k'.waiting == (if BlocksItself(s, op, t) then k.waiting + op.sigs else k.waiting - d)
            && (k'.ready <==> !BlocksItself(s, op, t) && (k.ready || d != {}))
            && k'.delay == if op.SetsDelay? && s.running == t then op.n
                           else if CountsDown(s, op, t) then OneLess(k.delay) else k.delay
  {
    match op
    case Signals(u, sigs) => SignalTask(s, u, sigs, t);
    case Ticks => TickTask(s, t);
    case Exits => ExitTask(s, t);
    case Resumes => HeadIsTask(s);
    case _ =>
  }

  lemma SignalTask(s: Sched, u: Tid, sigs: Sigs, t: Tid)
    requires t in s.tasks && u in s.tasks
    ensures var s' := Signal(s, u, sigs);
            t in s'.tasks && s'.tasks[t] ==
            if u == t && sigs * s.tasks[t].waiting != {} then Signalled(s.tasks[t], sigs) else s.tasks[t]
  {
  }

  lemma TickTask(s: Sched, t: Tid)
    requires Wellformed(s) && t in s.tasks
    ensures var k, k', d := s.tasks[t], Tick(s).tasks[t], Delivered(s, Ticks, t);
            && t in Tick(s).tasks && k'.pri == k.pri && k'.recvd == k.recvd + d && k'.waiting == k.waiting - d
            && (k'.ready <==> k.ready || d != {})
            && k'.delay == if CountsDown(s, Ticks, t) then OneLess(k.delay) else k.delay
  {
    TickTasks(s, t);
  }

  lemma ExitTask(s: Sched, t: Tid)
    requires Wellformed(s) && InHandler(s) && t in s.tasks
    ensures t in Exit(s).tasks
    ensures var k, k' := s.tasks[t], Exit(s).tasks[t];
            && k'.pri == k.pri && k'.recvd == k.recvd && k'.waiting == k.waiting
            && k'.ready == k.ready && k'.delay == k.delay
  {
    HeadIsTask(s);
  }

  /** All that was delivered to t from step i up to step j. */
  function DeliveredIn(states: seq<Sched>, ops: seq<Op>, t: Tid, i: nat, j: nat): Sigs
    requires i <= j <= |ops| < |states|
    decreases j
  {
    if i == j then {} else DeliveredIn(states, ops, t, i, j - 1) + Delivered(states[j - 1], ops[j - 1], t)
  }

  /** Over every run: from a task's wait on until its next, the mask that wait is to return holds exactly
      what has been delivered to the task since. */
  lemma {:induction false} MaskIsWhatWasDelivered(states: seq<Sched>, ops: seq<Op>, t: Tid, i: nat, j: nat)
    requires Run(states, ops) && i < j <= |ops| && BlocksItself(states[i], ops[i], t)
    requires forall m :: i < m < j ==> !BlocksItself(states[m], ops[m], t)
    ensures t in states[j].tasks && states[j].tasks[t].recvd == DeliveredIn(states, ops, t, i + 1, j)
    decreases j
  {
    assert StepAt(states, ops, j - 1);
    if j > i + 1 {
      MaskIsWhatWasDelivered(states, ops, t, i, j - 1);
    }
    StepTask(states[j - 1], ops[j - 1], t);
  }

  lemma {:induction false} RunOneBit(states: seq<Sched>, ops: seq<Op>, n: nat)
    requires Run(states, ops) && n <= |ops| && forall m :: 0 <= m < n ==> OneBitOp(ops[m])
    ensures OneBit(states[n])
  {
    if n > 0 {
      RunOneBit(states, ops, n - 1);
      assert StepAt(states, ops, n - 1);
      StepOneBit(states[n - 1], ops[n - 1]);
    }
  }

  /** The step signals t, if at all, with one bit. */
  predicate SingleFor(op: Op, t: Tid) {
    op.Signals? && op.t == t ==> forall a, b :: a in op.sigs && b in op.sigs ==> a == b
  }

  /** What wait({b}) stands at: still waiting for b, with nothing received, or ready with b alone. */
  predicate StandsAt(k: Task, b: int) {
    if k.ready then k.recvd == {b} && k.waiting == {} else k.recvd == {} && k.waiting == {b}
  }

  lemma OnlyBit(d: Sigs, b: int)
    requires b in d && forall x, y :: x in d && y in d ==> x == y
    ensures d == {b}
  {
    forall x ensures x in d <==> x in {b} {
      if x in d { assert x == b; }
    }
  }

  lemma StepStands(s: Sched, op: Op, t: Tid, b: int)
    requires Wellformed(s) && Enabled(s, op) && t in s.tasks && StandsAt(s.tasks[t], b)
    requires !BlocksItself(s, op, t) && SingleFor(op, t)
    ensures t in Next(s, op).tasks && StandsAt(Next(s, op).tasks[t], b)
  {
    StepTask(s, op, t);
    var k, d := s.tasks[t], Delivered(s, op, t);
    if op.Signals? && d != {} {
      CommonBit(d, k.waiting);
      OnlyBit(d, b);
    } else if op.Ticks? && d != {} {
      ReleasedIs(s);
      assert TB_DELAY in k.waiting;
    }
  }

  /** Over every run with one bit per wait: if it is signalled with single bits, a task that waited for b
      is handed exactly b. */
  lemma {:induction false} WaitReturnsExactly(states: seq<Sched>, ops: seq<Op>, t: Tid, b: int, i: nat, j: nat)
    requires Run(states, ops) && i < j <= |ops| && forall m :: 0 <= m < j ==> OneBitOp(ops[m]) && SingleFor(ops[m], t)
    requires ops[i] == Blocks({b}) && states[i].running == t
    requires forall m :: i < m < j ==> !BlocksItself(states[m], ops[m], t)
    ensures t in states[j].tasks && StandsAt(states[j].tasks[t], b)
    decreases j
  {
    assert StepAt(states, ops, j - 1);
    if j == i + 1 {
      RunOneBit(states, ops, i);
      StepTask(states[i], ops[i], t);
      assert OneBitTask(states[i].tasks[t]);
    } else {
      WaitReturnsExactly(states, ops, t, b, i, j - 1);
      StepStands(states[j - 1], ops[j - 1], t, b);
    }
  }

  // ---- How a task starts ----------------------------------------------------------------

  /** A user-mode selector of the given descriptor. */
  predicate UserSelector(selector: int, descriptor: int) {
    selector == 8 * descriptor + 3
  }

  /** IF, bit 9, and both bits of IOPL, 12 and 13, and no other. */
  predicate InterruptsOn(eflags: int) {
    eflags == 512 + 4096 + 8192
  }

  const USER_CODE := 3
  const USER_DATA := 4

  /** The registers that create_task fills in. */
  lemma FirstRegsAre(code: int, stack: nat, size: nat)
    ensures var r := FirstRegs(code, stack, size);
            && r.eip == code && (r.esp == stack + size <==> stack + size < 0x1_0000_0000)
            && UserSelector(r.cs, USER_CODE) && UserSelector(r.ss, USER_DATA) && UserSelector(r.ds, USER_DATA)
            && InterruptsOn(r.eflags) && |r.general| == 10 && forall g :: g in r.general ==> g == 0
  {
  }

  /** A new task is ready, in the ready list, and waits for nothing. */
  lemma CreatedReady(s: Sched, t: Tid, pri: int, regs: Regs)
    requires Inv(s) && Enabled(s, CreatesTask(t, pri, regs))
    ensures var s' := Next(s, CreatesTask(t, pri, regs));
            && t in s'.tasks && Listed(s', Ready, t) && !OnCpu(s', t) && Pri(s', t) == pri
            && s'.tasks[t].ready && s'.tasks[t].waiting == {} && s'.tasks[t].recvd == {} && s'.tasks[t].delay == 0
            && forall u :: u in s.tasks ==> s'.tasks[u] == s.tasks[u]
  {
    EnqueueLists(SetTask(s, t, NewTask(pri, regs)), Ready, t);
  }

  /** Over every run: a task that create_task has made is put on the CPU for the first time at its code,
      with its stack pointer one past the last byte of its stack, in user mode, with interrupts and ports open and
      everything else zero. */
  lemma FirstDispatch(
      states: seq<Sched>, ops: seq<Op>, t: Tid, pri: int, code: int, stack: nat, size: nat, i: nat, j: nat)
    requires Run(states, ops) && i < j <= |ops| && ops[i] == CreatesTask(t, pri, FirstRegs(code, stack, size))
    requires OnCpu(states[j], t) && forall m :: i < m < j ==> !OnCpu(states[m], t)
    requires stack + size < 0x1_0000_0000
    ensures var r := states[j].cpu;
            && r.eip == code && r.esp == stack + size
            && UserSelector(r.cs, USER_CODE) && UserSelector(r.ss, USER_DATA) && UserSelector(r.ds, USER_DATA)
            && InterruptsOn(r.eflags) && |r.general| == 10 && forall g :: g in r.general ==> g == 0
  {
    assert StepAt(states, ops, i);
    assert states[i].running in states[i].tasks && states[i + 1].running != t;
    FirstRegsAre(code, stack, size);
    ContextKept(states, ops, t, i + 1, j);
  }
}
