/** The scheduler on the machine, seen over whole runs: each of its operations is a step of a run of
    SchedSpec, so that what holds over runs holds of the code. */
module SchedMachine {
  import opened Lists
  import opened Markers
  import opened SchedSpec
  import opened SchedSafety
  import opened SchedRuns
  import opened SchedOrder
  import opened TaskLists
  import SC = Scheduler

  /** The memory that a new task's node or a new list's head, at address W, is to take is there and
      clear of everything else. */
  ghost predicate Provided(sched: SC.Scheduler, op: Op, W: int)
    reads sched, sched.mem
  {
    match op
    case CreatesTask(t, _, _) =>
      Layout(sched.tasks.Keys + {t}, sched.heads)
      && 0 < t && t in sched.mem.w && t + 4 in sched.mem.w && t + PRI in sched.mem.w
    case CreatesList(l) =>
      Layout(sched.tasks.Keys, sched.heads[l := W]) && HeadInMemory(sched.mem.w, W)
    case _ => true
  }

  lemma StepOrderly(s: Sched, op: Op)
    requires Wellformed(s) && Orderly(s) && Enabled(s, op) && Guard(s, op) && OneBitOp(op)
    ensures Orderly(Next(s, op))
  {
    assert Opened(0, s);
    StepSafeIff(s, op);
    StepOneBit(s, op);
  }

  /** Whoever a guarded signal concerns is in a list. */
  lemma SignalledInList(s: Sched, t: Tid, sigs: Sigs)
    requires Wellformed(s) && Orderly(s) && Enabled(s, Signals(t, sigs)) && Guard(s, Signals(t, sigs))
    ensures sigs * s.tasks[t].waiting != {} ==> InSomeList(s, t)
  {
    assert Opened(0, s);
  }

  /** A task that is about to queue up is in no list yet. */
  lemma NotQueuedYet(s: Sched, l: ListName)
    requires Orderly(s) && Enabled(s, Queues(l))
    ensures !InSomeList(s, s.running)
  {
    assert Opened(0, s);
  }

  /** Nor is a ready one that is about to be switched out. */
  lemma NotPreemptedYet(s: Sched)
    requires Wellformed(s) && Orderly(s) && InHandler(s)
    ensures s.need && CanSchedule(s) && s.tasks[s.running].ready ==> !InSomeList(s, s.running)
  {
    assert Opened(0, s);
  }

  lemma OrderlyIs(s: Sched)
    requires Orderly(s)
    ensures Filed(s) && OneBit(s)
  {
    assert Opened(0, s);
  }

  /** One operation of the machine. */
  method Perform(sched: SC.Scheduler, op: Op, W: int)
    requires sched.Rep() && Orderly(sched.S()) && Enabled(sched.S(), op) && Provided(sched, op, W)
    requires Guard(sched.S(), op) && OneBitOp(op)
    modifies sched, sched.mem
    ensures sched.Rep() && Orderly(sched.S()) && Step(old(sched.S()), op, sched.S())
  {
    ghost var s := sched.S();
    StepOrderly(s, op);
    match op
    case Computes(regs) => sched.Compute(regs);
    case Forbids => sched.Forbid();
    case Permits => sched.Permit();
    case CreatesTask(t, pri, regs) => sched.AddTask(t, pri, regs);
    case CreatesList(l) => sched.NewTaskList(l, W);
    case SetsDelay(n) => sched.SetDelay(n);
    case Blocks(sigs) => var ok := sched.WaitMark(sigs);
    case Queues(l) =>
      NotQueuedYet(s, l);
      sched.WaitQueue(l);
    case Signals(t, sigs) =>
      SignalledInList(s, t, sigs);
      var delivered := sched.Signal(t, sigs);
    case Yields => sched.YieldCall();
    case Ticks =>
      OrderlyIs(s);
      sched.TimerCallback();
    case Enters => sched.HandlerEntry();
    case Exits =>
      NotPreemptedYet(s);
      sched.HandlerEnd();
    case Resumes => sched.Resume();
  }

  /** The machine has come to the end of this run, on which every guard held. */
  ghost predicate InRun(sched: SC.Scheduler, states: seq<Sched>, ops: seq<Op>)
    reads sched, sched.mem
  {
    && sched.Rep() && Orderly(sched.S()) && Run(states, ops) && states[|ops|] == sched.S() && Guarded(states, ops)
  }

  /** kernel_main's scheduler is at the beginning of a run. */
  lemma AtBoot(sched: SC.Scheduler)
    requires sched.Rep() && Init(sched.S())
    ensures InRun(sched, [sched.S()], [])
  {
    InitGood(sched.S());
  }

  /** Any operation whose guard holds takes the machine one step further along its run. */
  method Continue(sched: SC.Scheduler, op: Op, W: int, ghost states: seq<Sched>, ghost ops: seq<Op>)
    requires InRun(sched, states, ops)
    requires Enabled(sched.S(), op) && Provided(sched, op, W) && Guard(sched.S(), op) && OneBitOp(op)
    modifies sched, sched.mem
    ensures InRun(sched, states + [sched.S()], ops + [op])
  {
    Perform(sched, op, W);
    RunExtended(states, ops, op, sched.S());
  }
}
