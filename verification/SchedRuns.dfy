/** Runs of the scheduler: one place per task, contexts, nesting, and the runs on which it breaks. */
module SchedRuns {
  import opened SchedSpec
  import opened SchedSafety
  import opened Markers

  ghost predicate Step(s: Sched, op: Op, s': Sched) {
    Wellformed(s) && Enabled(s, op) && s' == Next(s, op)
  }

  ghost predicate StepAt(states: seq<Sched>, ops: seq<Op>, i: nat)
    requires i < |ops| < |states|
  {
    Step(states[i], ops[i], states[i + 1])
  }

  ghost predicate Run(states: seq<Sched>, ops: seq<Op>) {
    |states| == |ops| + 1 && Init(states[0]) && forall i: nat :: i < |ops| ==> StepAt(states, ops, i)
  }

  ghost predicate GuardAt(states: seq<Sched>, ops: seq<Op>, i: nat)
    requires Run(states, ops) && i < |ops|
  {
    assert StepAt(states, ops, i);
    Guard(states[i], ops[i])
  }

  lemma {:induction false} SafeWhileGuarded(states: seq<Sched>, ops: seq<Op>, n: nat)
    requires Run(states, ops) && n <= |ops|
    requires forall i: nat :: i < n ==> GuardAt(states, ops, i)
    ensures forall i :: 0 <= i <= n ==> Inv(states[i])
  {
    if n == 0 {
      InitSafe(states[0]);
    } else {
      SafeWhileGuarded(states, ops, n - 1);
      assert StepAt(states, ops, n - 1);
      assert GuardAt(states, ops, n - 1);
      StepSafeIff(states[n - 1], ops[n - 1]);
    }
  }

  lemma {:induction false} GuardedWhileOnePlace(states: seq<Sched>, ops: seq<Op>, n: nat)
    requires Run(states, ops) && n <= |ops|
    requires forall i :: 0 <= i <= n ==> OnePlace(states[i])
    ensures Inv(states[n])
    ensures forall i: nat :: i < n ==> GuardAt(states, ops, i)
  {
    if n == 0 {
      InitSafe(states[0]);
    } else {
      GuardedWhileOnePlace(states, ops, n - 1);
      assert StepAt(states, ops, n - 1);
      StepSafeIff(states[n - 1], ops[n - 1]);
    }
  }

  /** Over every run: all tasks have been in exactly one place throughout exactly when no step
      signalled the task on the CPU or switched away from one between wait_lock++ and wait_lock--. */
  lemma RunSafeIff(states: seq<Sched>, ops: seq<Op>)
    requires Run(states, ops)
    ensures (forall i :: 0 <= i <= |ops| ==> OnePlace(states[i]))
            <==> (forall i: nat :: i < |ops| ==> GuardAt(states, ops, i))
  {
    if forall i: nat :: i < |ops| ==> GuardAt(states, ops, i) {
      SafeWhileGuarded(states, ops, |ops|);
    }
    if forall i :: 0 <= i <= |ops| ==> OnePlace(states[i]) {
      GuardedWhileOnePlace(states, ops, |ops|);
    }
  }

  // ---- One signal bit per wait, and wait uninterrupted ----------------------------------

  predicate OneBitTask(k: Task) {
    (k.ready <==> k.waiting == {}) && forall a, b :: a in k.waiting && b in k.waiting ==> a == b
  }

  /** Ready tasks wait for nothing, blocked ones for a single signal bit. */
  predicate OneBit(s: Sched) {
    forall t :: t in s.tasks ==> OneBitTask(s.tasks[t])
  }

  /** Every task is in its one place and waits for one bit at most (Inv, OneBit), out of the verifier's
      sight where Opened is not mentioned. */
  ghost predicate Orderly(s: Sched) {
    forall k {:trigger Opened(k, s)} :: Opened(k, s) ==> Inv(s) && OneBit(s)
  }

  predicate OneBitOp(op: Op) {
    op.Blocks? ==> forall a, b :: a in op.sigs && b in op.sigs ==> a == b
  }

  lemma CommonBit(a: Sigs, b: Sigs)
    ensures a * b == {} || exists x :: x in a && x in b
  {
    if forall x :: x in a ==> x !in b {
      assert a * b == {};
    }
  }

  lemma SignalOneBit(s: Sched, t: Tid, sigs: Sigs)
    requires OneBit(s) && t in s.tasks
    ensures OneBit(Signal(s, t, sigs))
  {
    CommonBit(sigs, s.tasks[t].waiting);
    if sigs * s.tasks[t].waiting != {} {
      assert OneBitTask(s.tasks[t]);
      var b :| b in sigs && b in s.tasks[t].waiting;
      assert forall a :: a in s.tasks[t].waiting ==> a == b;
      assert s.tasks[t].waiting - sigs == {};
    }
  }

  /** Off the CPU, a task is in the ready list exactly if it is ready, and in a wait list exactly if it
      waits for a signal. */
  lemma PlaceTellsState(s: Sched, t: Tid)
    requires Inv(s) && OneBit(s) && t in s.tasks && !OnCpu(s, t)
    ensures Listed(s, Ready, t) <==> s.tasks[t].ready
    ensures (exists l :: l != Ready && Listed(s, l, t)) <==> s.tasks[t].waiting != {}
  {
    assert OneBitTask(s.tasks[t]);
    var l :| Listed(s, l, t);
  }

  /** A signal that is delivered leaves its task waiting for nothing, as its place in the ready list
      says, exactly if the task waited for no other bit. */
  lemma DeliveryTellsStateIff(s: Sched, t: Tid, sigs: Sigs)
    requires Inv(s) && t in s.tasks && !OnCpu(s, t) && sigs * s.tasks[t].waiting != {}
    ensures var s' := Signal(s, t, sigs);
            && t in s'.tasks && Listed(s', Ready, t) && (forall l :: Listed(s', l, t) ==> l == Ready)
            && (s'.tasks[t].waiting == {} <==> s.tasks[t].waiting <= sigs)
  {
    SignalIff(s, t, sigs);
    ReleaseFiles(s, t, sigs);
    SameLists(Release(s, t, sigs), Signal(s, t, sigs));
    NothingLeft(s.tasks[t].waiting, sigs);
  }

  lemma NothingLeft(a: Sigs, b: Sigs)
    ensures a - b == {} <==> a <= b
  {
    if a - b == {} {
      forall x | x in a ensures x in b {
        assert x in b || x in a - b;
      }
    }
  }

  lemma TickOneBit(s: Sched)
    requires Wellformed(s) && OneBit(s)
    ensures OneBit(Tick(s))
  {
    var released, t := TickIs(s);
    if released {
      SignalOneBit(Counted(s, Seen(s)), t, {TB_DELAY});
    }
  }

  lemma StepOneBit(s: Sched, op: Op)
    requires Wellformed(s) && Enabled(s, op) && OneBit(s) && OneBitOp(op)
    ensures OneBit(Next(s, op))
  {
    match op
    case Signals(t, sigs) => SignalOneBit(s, t, sigs);
    case Ticks => TickOneBit(s);
    case Exits => ExitOneBit(s);
    case Resumes =>
      HeadIsTask(s);
      DispatchOneBit(s);
    case _ =>
  }

  /** Whoever heads the ready list at a switch is a task. */
  lemma HeadIsTask(s: Sched)
    requires Wellformed(s)
    ensures List(s, Ready) != [] ==> List(s, Ready)[0] in s.tasks
    ensures var s1 := Saved(Preempted(s));
            List(s1, Ready) != [] ==> List(s1, Ready)[0] in s1.tasks
  {
    var s1 := Saved(Preempted(s));
    assert List(s, Ready) != [] ==> Listed(s, Ready, List(s, Ready)[0]);
    assert List(s1, Ready) != [] ==> List(s1, Ready)[0] == s.running || Listed(s, Ready, List(s1, Ready)[0]);
  }

  lemma DispatchOneBit(s: Sched)
    requires OneBit(s) && List(s, Ready) != [] && List(s, Ready)[0] in s.tasks
    ensures OneBit(Dispatch(s))
  {
  }

  lemma ExitOneBit(s: Sched)
    requires Wellformed(s) && OneBit(s) && InHandler(s)
    ensures OneBit(Exit(s))
  {
    if s.need && CanSchedule(s) {
      var s1 := Saved(Preempted(s));
      HeadIsTask(s);
      if List(s1, Ready) != [] {
        DispatchOneBit(s1);
      }
    }
  }

  /** The running task is inside wait. */
  predicate InWait(s: Sched) {
    !s.idle && s.running in s.tasks && !s.tasks[s.running].ready
  }

  /** Nothing but wait's own steps happens while the running task is inside wait. */
  predicate WaitAtomic(s: Sched, op: Op) {
    InWait(s) ==> op.Computes? || op.Queues? || op.Yields? || op.Exits?
  }

  predicate LockAtTask(s: Sched) {
    s.lock > 0 ==> s.reenter == -1
  }

  lemma AtomicStep(s: Sched, op: Op)
    requires Inv(s) && OneBit(s) && LockAtTask(s) && Enabled(s, op) && WaitAtomic(s, op)
    ensures Guard(s, op) && LockAtTask(Next(s, op))
  {
    match op
    case Signals(t, sigs) =>
      assert OneBitTask(s.tasks[t]);
    case Ticks =>
      forall t | Releases(s, t) ensures !OnCpu(s, t) {
        assert Listed(s, Waiting, t);
      }
      TickLock(s);
    case Exits => ExitLock(s);
    case _ =>
  }

  lemma TickLock(s: Sched)
    requires Wellformed(s)
    ensures Tick(s).lock == s.lock && (s.reenter != -1 ==> Tick(s).reenter == s.reenter)
  {
    ReleasedIs(s);
  }

  lemma ExitLock(s: Sched)
    requires Wellformed(s) && InHandler(s)
    ensures Exit(s).lock == s.lock
  {
  }

  /** With wait uninterruptible and one signal bit per wait, every run keeps every task in exactly
      one place. */
  lemma {:induction false} RunSafeWhenWaitAtomic(states: seq<Sched>, ops: seq<Op>, n: nat)
    requires Run(states, ops) && n <= |ops|
    requires forall i :: 0 <= i < n ==> WaitAtomic(states[i], ops[i]) && OneBitOp(ops[i])
    ensures Inv(states[n]) && OneBit(states[n]) && LockAtTask(states[n])
  {
    if n == 0 {
      InitSafe(states[0]);
    } else {
      RunSafeWhenWaitAtomic(states, ops, n - 1);
      var s, op := states[n - 1], ops[n - 1];
      assert StepAt(states, ops, n - 1);
      AtomicStep(s, op);
      StepSafeIff(s, op);
      StepOneBit(s, op);
    }
  }

  // ---- Going on with a run --------------------------------------------------------------

  /** Every guard on the run holds, and every wait is for one bit. */
  ghost predicate Guarded(states: seq<Sched>, ops: seq<Op>)
    requires Run(states, ops)
  {
    forall i: nat :: i < |ops| ==> OneBitOp(ops[i]) && GuardAt(states, ops, i)
  }

  lemma OneStepMore(states: seq<Sched>, ops: seq<Op>, op: Op, s: Sched)
    requires Run(states, ops) && Step(states[|ops|], op, s)
    ensures Run(states + [s], ops + [op])
  {
    forall i: nat | i < |ops| + 1 ensures StepAt(states + [s], ops + [op], i) {
      if i < |ops| {
        assert StepAt(states, ops, i);
        SameStep(states, ops, states + [s], ops + [op], i);
      }
    }
  }

  lemma SameStep(states: seq<Sched>, ops: seq<Op>, states': seq<Sched>, ops': seq<Op>, i: nat)
    requires i < |ops| < |states| && i < |ops'| < |states'| && StepAt(states, ops, i)
    requires states'[i] == states[i] && ops'[i] == ops[i] && states'[i + 1] == states[i + 1]
    ensures StepAt(states', ops', i)
  {
  }

  lemma SameGuard(states: seq<Sched>, ops: seq<Op>, states': seq<Sched>, ops': seq<Op>, i: nat)
    requires Run(states, ops) && Run(states', ops') && i < |ops| && i < |ops'|
    requires states'[i] == states[i] && ops'[i] == ops[i] && OneBitOp(ops[i]) && GuardAt(states, ops, i)
    ensures OneBitOp(ops'[i]) && GuardAt(states', ops', i)
  {
  }

  lemma NewGuard(states: seq<Sched>, ops: seq<Op>, i: nat, s: Sched, op: Op)
    requires Run(states, ops) && i < |ops| && states[i] == s && ops[i] == op
    requires Wellformed(s) && Enabled(s, op) && Guard(s, op)
    ensures GuardAt(states, ops, i)
  {
  }

  lemma RunExtended(states: seq<Sched>, ops: seq<Op>, op: Op, s: Sched)
    requires Run(states, ops) && Guarded(states, ops)
    requires Step(states[|ops|], op, s) && Guard(states[|ops|], op) && OneBitOp(op)
    ensures Run(states + [s], ops + [op]) && Guarded(states + [s], ops + [op])
  {
    var states', ops' := states + [s], ops + [op];
    OneStepMore(states, ops, op, s);
    forall i: nat | i < |ops'| ensures OneBitOp(ops'[i]) && GuardAt(states', ops', i) {
      if i < |ops| {
        SameGuard(states, ops, states', ops', i);
      } else {
        NewGuard(states', ops', i, states[|ops|], op);
      }
    }
  }

  /** Doing ops one after the other, each guard holding, takes s to s'. */
  ghost predicate Leads(s: Sched, ops: seq<Op>, s': Sched)
    decreases ops
  {
    if ops == [] then s' == s
    else
      Wellformed(s) && Enabled(s, ops[0]) && Guard(s, ops[0]) && OneBitOp(ops[0])
      && Leads(Next(s, ops[0]), ops[1..], s')
  }

  lemma LeadsFirst(s: Sched, op: Op, ops: seq<Op>, s': Sched)
    requires Wellformed(s) && Enabled(s, op) && Guard(s, op) && OneBitOp(op) && Leads(Next(s, op), ops, s')
    ensures Leads(s, [op] + ops, s')
  {
    assert ([op] + ops)[1..] == ops;
  }

  lemma {:induction false} LeadsOver(s: Sched, ops: seq<Op>, s1: Sched, more: seq<Op>, s2: Sched)
    requires Leads(s, ops, s1) && Leads(s1, more, s2)
    ensures Leads(s, ops + more, s2)
    decreases ops
  {
    if ops == [] {
      assert ops + more == more;
    } else {
      LeadsOver(Next(s, ops[0]), ops[1..], s1, more, s2);
      LeadsFirst(s, ops[0], ops[1..] + more, s2);
      HeadApart(ops, more);
    }
  }

  lemma HeadApart(ops: seq<Op>, more: seq<Op>)
    requires ops != []
    ensures [ops[0]] + (ops[1..] + more) == ops + more
  {
  }

  /** Such operations go on with a run. */
  lemma {:induction false} RunLeadsOn(states: seq<Sched>, ops: seq<Op>, more: seq<Op>, s: Sched)
    returns (states': seq<Sched>)
    requires Run(states, ops) && Guarded(states, ops) && Leads(states[|ops|], more, s)
    ensures Run(states', ops + more) && Guarded(states', ops + more)
    ensures states'[|ops + more|] == s && states <= states'
    decreases |more|
  {
    if more == [] {
      assert ops + more == ops;
      states' := states;
    } else {
      var s1 := Next(states[|ops|], more[0]);
      RunExtended(states, ops, more[0], s1);
      states' := RunLeadsOn(states + [s1], ops + [more[0]], more[1..], s);
      assert ops + [more[0]] + more[1..] == ops + more;
    }
  }

  // ---- Contexts -------------------------------------------------------------------------

  /** A task's register context: on the CPU while it runs, in its task_t otherwise. */
  function Context(s: Sched, t: Tid): Regs
    requires t in s.tasks
  {
    if OnCpu(s, t) then s.cpu else s.tasks[t].regs
  }

  /** Only its own computing changes a task's context: whatever switches, signals and ticks come in
      between, it is dispatched with the registers it was switched out with. */
  lemma StepContext(s: Sched, op: Op, t: Tid)
    requires Wellformed(s) && Enabled(s, op) && t in s.tasks
    requires s.idle ==> s.reenter >= 0
    ensures t in Next(s, op).tasks
    ensures Context(Next(s, op), t) == if op.Computes? && OnCpu(s, t) then op.regs else Context(s, t)
  {
    match op
    case Signals(u, sigs) => SignalContext(s, u, sigs, t);
    case Ticks => TickContext(s, t);
    case Exits => ExitContext(s, t);
    case Resumes => assert Listed(s, Ready, List(s, Ready)[0]);
    case _ =>
  }

  lemma SignalContext(s: Sched, u: Tid, sigs: Sigs, t: Tid)
    requires t in s.tasks && u in s.tasks
    ensures var s' := Signal(s, u, sigs);
            t in s'.tasks && s'.tasks[t].regs == s.tasks[t].regs && s'.cpu == s.cpu
            && s'.running == s.running && s'.idle == s.idle
  {
  }

  lemma TickContext(s: Sched, t: Tid)
    requires Wellformed(s) && t in s.tasks
    ensures t in Tick(s).tasks && Context(Tick(s), t) == Context(s, t)
  {
    var released, u := TickIs(s);
    if released {
      SignalContext(Counted(s, Seen(s)), u, {TB_DELAY}, t);
    }
  }

  lemma ExitContext(s: Sched, t: Tid)
    requires Wellformed(s) && InHandler(s) && t in s.tasks
    ensures t in Exit(s).tasks && Context(Exit(s), t) == Context(s, t)
  {
    if s.need && CanSchedule(s) {
      var s1 := Saved(Preempted(s));
      HeadIsTask(s);
      assert s1.tasks[t].regs == Context(s, t);
      if List(s1, Ready) != [] {
        DispatchContext(s1, t);
      }
    }
  }

  lemma DispatchContext(s: Sched, t: Tid)
    requires List(s, Ready) != [] && List(s, Ready)[0] in s.tasks && t in s.tasks
    ensures t in Dispatch(s).tasks && Context(Dispatch(s), t) == s.tasks[t].regs
  {
  }

  /** Over a run: from i to j, a task that did not compute has kept its context. */
  lemma {:induction false} ContextKept(states: seq<Sched>, ops: seq<Op>, t: Tid, i: nat, j: nat)
    requires Run(states, ops) && i <= j <= |ops| && t in states[i].tasks
    requires forall m :: i <= m < j ==> !(ops[m].Computes? && OnCpu(states[m], t))
    ensures t in states[j].tasks && Context(states[j], t) == Context(states[i], t)
    decreases j
  {
    IdleInHandler(states, ops, j);
    if i < j {
      ContextKept(states, ops, t, i, j - 1);
      IdleInHandler(states, ops, j - 1);
      assert StepAt(states, ops, j - 1);
      StepContext(states[j - 1], ops[j - 1], t);
    }
  }

  /** The idle loop runs inside a handler. */
  lemma {:induction false} IdleInHandler(states: seq<Sched>, ops: seq<Op>, n: nat)
    requires Run(states, ops) && n <= |ops|
    ensures states[n].reenter >= -1 && (states[n].idle ==> states[n].reenter >= 0)
  {
    if n > 0 {
      IdleInHandler(states, ops, n - 1);
      assert StepAt(states, ops, n - 1);
      StepIdle(states[n - 1], ops[n - 1]);
    }
  }

  lemma StepIdle(s: Sched, op: Op)
    requires Wellformed(s) && Enabled(s, op) && s.reenter >= -1 && (s.idle ==> s.reenter >= 0)
    ensures Next(s, op).reenter >= -1 && (Next(s, op).idle ==> Next(s, op).reenter >= 0)
  {
    match op
    case Ticks => ReleasedIs(s);
    case _ =>
  }

  // ---- Re-entry, NEED_SCHEDULE and forbid -----------------------------------------------

  /** A yield inside a handler is the nested system call in full: in, flag set, and out again
      without a switch. */
  lemma NestedYield(s: Sched)
    requires Wellformed(s) && s.reenter >= 0
    ensures var inner := Yield(s.(reenter := s.reenter + 1));
            Wellformed(inner) && Exit(inner) == Yield(s)
  {
    SameLists(s, Yield(s.(reenter := s.reenter + 1)));
  }

  /** The CPU changes hands, or goes idle, only where a handler at the outermost level ends with
      multitasking allowed, or out of the idle loop at that level. */
  lemma SwitchOnlyOutermost(s: Sched, op: Op)
    requires Wellformed(s) && Enabled(s, op)
    requires Next(s, op).running != s.running || Next(s, op).idle != s.idle
    ensures s.reenter == 0
    ensures (op.Exits? && s.need && s.forbid == 0) || (op.Resumes? && s.idle)
  {
    match op
    case Ticks => ReleasedIs(s);
    case _ =>
  }

  /** NEED_SCHEDULE goes away only in a handler's end that switches tasks. */
  lemma NeedClearedOnlyBySwitch(s: Sched, op: Op)
    requires Wellformed(s) && Enabled(s, op) && s.need && !Next(s, op).need
    ensures op.Exits? && s.reenter == 0 && s.forbid == 0
    ensures Next(s, op).idle || (Next(s, op).reenter == -1 && !Next(s, op).idle)
  {
    match op
    case Ticks => ReleasedIs(s);
    case _ =>
  }

  /** Over a run: a raised NEED_SCHEDULE stays raised until a switch. */
  lemma {:induction false} NeedNeverLost(states: seq<Sched>, ops: seq<Op>, i: nat, j: nat)
    requires Run(states, ops) && i <= j <= |ops| && states[i].need
    requires forall m :: i <= m < j && ops[m].Exits? ==> states[m].reenter != 0 || states[m].forbid > 0
    ensures states[j].need
    decreases j
  {
    if i < j {
      NeedNeverLost(states, ops, i, j - 1);
      assert StepAt(states, ops, j - 1);
      if !states[j].need {
        NeedClearedOnlyBySwitch(states[j - 1], ops[j - 1]);
      }
    }
  }

  /** Some task of at least the running one's priority gets a signal: signal() then yields. */
  predicate Delivers(s: Sched, t: Tid, sigs: Sigs) {
    t in s.tasks && sigs * s.tasks[t].waiting != {} && Pri(s, s.running) <= s.tasks[t].pri
  }

  /** The step contains a _yield, which zeroes forbid_counter. */
  ghost predicate CallsYield(s: Sched, op: Op) {
    match op
    case Yields => true
    case Signals(t, sigs) => Delivers(s, t, sigs)
    case Ticks => exists t :: Releases(s, t) && Delivers(s, t, {TB_DELAY})
    case _ => false
  }

  /** Effect of a step on the nesting of forbid() and permit(). */
  function ForbidChange(s: Sched, op: Op): int {
    match op
    case Forbids => 1
    case Blocks(_) => 1
    case Permits => if s.forbid > 0 then -1 else 0
    case Queues(_) => if s.forbid > 0 then -1 else 0
    case _ => 0
  }

  lemma StepForbid(s: Sched, op: Op)
    requires Wellformed(s) && Enabled(s, op)
    ensures Next(s, op).forbid == if CallsYield(s, op) then 0 else s.forbid + ForbidChange(s, op)
  {
    match op
    case Ticks => TickForbid(s);
    case _ =>
  }

  lemma TickForbid(s: Sched)
    requires Wellformed(s)
    ensures Tick(s).forbid == if CallsYield(s, Ticks) then 0 else s.forbid
  {
    var q := Seen(s);
    ReleasedIs(s);
    if q != [] && Expires(s, q[|q| - 1]) {
      var t := q[|q| - 1];
      assert TB_DELAY in {TB_DELAY} * s.tasks[t].waiting;
      assert Pri(Counted(s, q), s.running) == Pri(s, s.running);
      assert Releases(s, t);
    }
  }

  /** forbid() calls minus permit() calls between i and j. */
  function Forbidden(states: seq<Sched>, ops: seq<Op>, i: nat, j: nat): int
    requires i <= j <= |ops| < |states|
  {
    if i == j then 0 else Forbidden(states, ops, i, j - 1) + ForbidChange(states[j - 1], ops[j - 1])
  }

  /** Over a run: from a forbid() on, as long as its permit() has not come and nothing yields, the
      same task stays on the CPU, through any number of interrupts. */
  lemma {:induction false} ForbidHoldsTheCpu(states: seq<Sched>, ops: seq<Op>, i: nat, j: nat)
    requires Run(states, ops) && i <= j <= |ops| && states[i].forbid > 0 && !states[i].idle
    requires forall m :: i <= m < j ==> !CallsYield(states[m], ops[m])
    requires forall m :: i <= m <= j ==> Forbidden(states, ops, i, m) >= 0
    ensures states[j].forbid == states[i].forbid + Forbidden(states, ops, i, j)
    ensures states[j].running == states[i].running && !states[j].idle
    decreases j
  {
    if i < j {
      ForbidHoldsTheCpu(states, ops, i, j - 1);
      assert StepAt(states, ops, j - 1);
      StepForbid(states[j - 1], ops[j - 1]);
      if states[j].running != states[i].running || states[j].idle {
        SwitchOnlyOutermost(states[j - 1], ops[j - 1]);
      }
    }
  }

  /** The step enters a handler: an interrupt, or the yield system call of the running task. */
  ghost predicate EntersHandler(s: Sched, op: Op) {
    op.Enters? || (s.reenter == -1 && CallsYield(s, op))
  }

  /** The step is the end of a handler; one that goes idle has not ended yet. */
  ghost predicate LeavesHandler(s: Sched, op: Op)
    requires Wellformed(s) && Enabled(s, op)
  {
    op.Resumes? || (op.Exits? && (s.reenter > 0 || !Next(s, op).idle))
  }

  lemma StepDepth(s: Sched, op: Op)
    requires Wellformed(s) && Enabled(s, op) && s.reenter >= -1
    ensures Next(s, op).reenter == s.reenter + (if EntersHandler(s, op) then 1 else 0)
                                   - (if LeavesHandler(s, op) then 1 else 0)
  {
    match op
    case Ticks => TickLock(s);
    case _ =>
  }

  /** Handlers entered and not yet ended after n steps. */
  ghost function Depth(states: seq<Sched>, ops: seq<Op>, n: nat): int
    requires Run(states, ops) && n <= |ops|
  {
    if n == 0 then 0
    else
      assert StepAt(states, ops, n - 1);
      var s, op := states[n - 1], ops[n - 1];
      Depth(states, ops, n - 1) + (if EntersHandler(s, op) then 1 else 0) - (if LeavesHandler(s, op) then 1 else 0)
  }

  /** Over every run, k_reenter is the depth of nesting minus one. */
  lemma {:induction false} ReenterIsDepth(states: seq<Sched>, ops: seq<Op>, n: nat)
    requires Run(states, ops) && n <= |ops|
    ensures states[n].reenter == Depth(states, ops, n) - 1
  {
    if n > 0 {
      ReenterIsDepth(states, ops, n - 1);
      IdleInHandler(states, ops, n - 1);
      assert StepAt(states, ops, n - 1);
      StepDepth(states[n - 1], ops[n - 1]);
    }
  }
}
