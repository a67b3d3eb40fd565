/** Who is dispatched when: the ready list is kept by priority, first come first served among equals. */
module SchedOrder {
  import opened Lists
  import opened Markers
  import opened SchedSpec
  import opened SchedSafety
  import opened SchedRuns

  /** Every list is sorted by descending priority. */
  ghost predicate Sorted(s: Sched) {
    forall l :: l in s.lists ==> Descending(Pris(s, s.lists[l]))
  }

  lemma InsertPris(s: Sched, q: seq<Tid>, t: Tid)
    ensures var k := SlotOf(s, q, t);
            Pris(s, InsertTask(s, q, t)) == Pris(s, q)[..k] + [Pri(s, t)] + Pris(s, q)[k..]
  {
  }

  lemma EnqueueSorted(s: Sched, l: ListName, t: Tid)
    requires Sorted(s)
    ensures Sorted(Enqueue(s, l, t))
  {
    var q, s' := List(s, l), Enqueue(s, l, t);
    SlotKeepsOrder(Pris(s, q), Pri(s, t));
    InsertPris(s, q, t);
    SamePris(s, s');
  }

  /** Priorities never change. */
  lemma SamePris(s: Sched, s': Sched)
    requires forall t :: Pri(s', t) == Pri(s, t)
    ensures forall q :: Pris(s', q) == Pris(s, q)
  {
  }

  lemma WithoutSorted(s: Sched, q: seq<Tid>, t: Tid)
    requires Descending(Pris(s, q)) && Distinct(q)
    ensures Descending(Pris(s, Without(q, t)))
  {
    if t in q {
      var k :| 0 <= k < |q| && q[k] == t;
      WithoutAt(q, t, k);
      var ps, r := Pris(s, q), Without(q, t);
      forall i, j | 0 <= i < j < |r| ensures Pri(s, r[i]) >= Pri(s, r[j]) {
        var i', j' := if i < k then i else i + 1, if j < k then j else j + 1;
        assert r[i] == q[i'] && r[j] == q[j'] && ps[i'] >= ps[j'];
      }
    } else {
      WithoutIs(q, t);
    }
  }

  lemma RemoveSorted(s: Sched, t: Tid)
    requires Sorted(s) && forall l :: l in s.lists ==> Distinct(s.lists[l])
    ensures Sorted(Remove(s, t))
  {
    SamePris(s, Remove(s, t));
    forall l | l in s.lists ensures Descending(Pris(s, Without(s.lists[l], t))) {
      WithoutSorted(s, s.lists[l], t);
    }
  }

  lemma SameSorted(s: Sched, s': Sched)
    requires Sorted(s) && s'.lists == s.lists && forall t :: Pri(s', t) == Pri(s, t)
    ensures Sorted(s')
  {
    SamePris(s, s');
  }

  lemma ReleaseSorted(s: Sched, t: Tid, sigs: Sigs)
    requires Sorted(s) && Filed(s) && t in s.tasks
    ensures Sorted(Release(s, t, sigs))
  {
    var s1 := SetTask(s, t, Signalled(s.tasks[t], sigs));
    SameSorted(s, s1);
    RemoveSorted(s1, t);
    EnqueueSorted(Remove(s1, t), Ready, t);
  }

  lemma SignalSorted(s: Sched, t: Tid, sigs: Sigs)
    requires Sorted(s) && Filed(s) && t in s.tasks
    ensures Sorted(Signal(s, t, sigs))
  {
    ReleaseSorted(s, t, sigs);
    SameSorted(Release(s, t, sigs), Yield(Release(s, t, sigs)));
  }

  lemma TickSorted(s: Sched)
    requires Sorted(s) && Inv(s)
    ensures Sorted(Tick(s))
  {
    var released, t := TickIs(s);
    var c := Counted(s, Seen(s));
    CountedKeeps(s, Seen(s));
    SameSorted(s, c);
    if released {
      SignalSorted(c, t, {TB_DELAY});
    }
    var c' := if released then Signal(c, t, {TB_DELAY}) else c;
    SameSorted(c', c'.(need := true));
  }

  lemma DispatchSorted(s: Sched)
    requires Sorted(s) && Filed(s) && List(s, Ready) != [] && List(s, Ready)[0] in s.tasks
    ensures Sorted(Dispatch(s))
  {
    RemoveSorted(s, List(s, Ready)[0]);
    SameSorted(Remove(s, List(s, Ready)[0]), Dispatch(s));
  }

  lemma SwitchSorted(s: Sched)
    requires Sorted(s) && Wellformed(s)
    ensures Sorted(Saved(Preempted(s)))
  {
    var s1 := s.(need := false);
    SameSorted(s, s1);
    if s.tasks[s.running].ready {
      EnqueueSorted(s1, Ready, s.running);
    }
    SameSorted(Preempted(s), Saved(Preempted(s)));
  }

  lemma ExitSorted(s: Sched)
    requires Sorted(s) && Inv(s) && InHandler(s) && (s.need && CanSchedule(s) ==> s.lock == 0)
    ensures Sorted(Exit(s))
  {
    if s.need && CanSchedule(s) {
      SwitchSorted(s);
      PreemptedFiles(s);
      SavedKeeps(Preempted(s));
      HeadIsTask(s);
      var s1 := Saved(Preempted(s));
      if List(s1, Ready) == [] {
        SameSorted(s1, Exit(s));
      } else {
        DispatchSorted(s1);
        SameSorted(Dispatch(s1), Exit(s));
      }
    } else {
      SameSorted(s, Exit(s));
    }
  }

  lemma ResumeSorted(s: Sched)
    requires Sorted(s) && Inv(s) && Enabled(s, Resumes)
    ensures Sorted(Resume(s))
  {
    HeadIsTask(s);
    DispatchSorted(s);
    SameSorted(Dispatch(s), Resume(s));
  }

  lemma CreateSorted(s: Sched, t: Tid, pri: int, regs: Regs)
    requires Sorted(s) && Wellformed(s) && t !in s.tasks
    ensures Sorted(CreateTask(s, t, pri, regs))
  {
    var s1 := SetTask(s, t, NewTask(pri, regs));
    forall l | l in s.lists ensures Pris(s1, s.lists[l]) == Pris(s, s.lists[l]) {
      forall i | 0 <= i < |s.lists[l]| ensures Pri(s1, s.lists[l][i]) == Pri(s, s.lists[l][i]) {
        assert Listed(s, l, s.lists[l][i]);
      }
    }
    EnqueueSorted(s1, Ready, t);
  }

  lemma QueueSorted(s: Sched, l: ListName)
    requires Sorted(s) && s.lock > 0
    ensures Sorted(BlockEnd(s, l))
  {
    EnqueueSorted(s, l, s.running);
    SameSorted(Enqueue(s, l, s.running), BlockEnd(s, l));
  }

  lemma StepSorted(s: Sched, op: Op)
    requires Sorted(s) && Inv(s) && Enabled(s, op) && Guard(s, op)
    ensures Sorted(Next(s, op))
  {
    match op
    case CreatesTask(t, pri, regs) => CreateSorted(s, t, pri, regs);
    case CreatesList(l) => SamePris(s, Next(s, op));
    case Queues(l) => QueueSorted(s, l);
    case Signals(t, sigs) => SignalSorted(s, t, sigs);
    case Ticks => TickSorted(s);
    case Exits => ExitSorted(s);
    case Resumes => ResumeSorted(s);
    case _ => SameSorted(s, Next(s, op));
  }

  // ---- Dispatch -------------------------------------------------------------------------

  ghost predicate Good(s: Sched) {
    Inv(s) && OneBit(s) && Sorted(s)
  }

  /** The step puts a task on the CPU. */
  ghost predicate Dispatches(s: Sched, op: Op)
    requires Wellformed(s) && Enabled(s, op)
  {
    !Next(s, op).idle && (op.Resumes? || (op.Exits? && s.need && CanSchedule(s)))
  }

  /** The ready list at the moment a switching step looks at it. */
  function AtSwitch(s: Sched, op: Op): Sched
    requires s.running in s.tasks
  {
    if op.Exits? then Saved(Preempted(s)) else s
  }

  lemma AtSwitchIs(s: Sched, op: Op)
    requires Good(s) && Enabled(s, op) && Guard(s, op) && Dispatches(s, op)
    ensures var s1 := AtSwitch(s, op);
            && Filed(s1) && Sorted(s1) && s1.tasks.Keys == s.tasks.Keys && (forall t :: Pri(s1, t) == Pri(s, t))
            && List(s1, Ready) != [] && List(s1, Ready)[0] in s1.tasks
            && Next(s, op) == Dispatch(s1).(reenter := s.reenter - 1)
  {
    HeadIsTask(s);
    if op.Exits? {
      AtExitIs(s);
    }
  }

  lemma AtExitIs(s: Sched)
    requires Good(s) && InHandler(s) && s.need && CanSchedule(s) && s.lock == 0
    ensures var s1 := Saved(Preempted(s));
            Filed(s1) && Sorted(s1) && s1.tasks.Keys == s.tasks.Keys && forall t :: Pri(s1, t) == Pri(s, t)
  {
    PreemptedFiles(s);
    SavedKeeps(Preempted(s));
    SwitchSorted(s);
  }

  /** No ready task has a higher priority than the one that a switch puts on the CPU. */
  lemma HighestDispatched(s: Sched, op: Op)
    requires Good(s) && Enabled(s, op) && Guard(s, op) && Dispatches(s, op)
    ensures forall u :: Listed(Next(s, op), Ready, u) ==> Pri(s, u) <= Pri(s, Next(s, op).running)
    ensures !s.idle && s.tasks[s.running].ready ==> Pri(s, s.running) <= Pri(s, Next(s, op).running)
  {
    AtSwitchIs(s, op);
    var s1 := AtSwitch(s, op);
    var q := List(s1, Ready);
    forall u | u in q ensures Pri(s, u) <= Pri(s, q[0]) {
      var k :| 0 <= k < |q| && q[k] == u;
      assert Pris(s1, q)[0] >= Pris(s1, q)[k];
    }
    RemoveLists(s1, q[0]);
    SameLists(Remove(s1, q[0]), Next(s, op));
    assert forall u :: Listed(Next(s, op), Ready, u) ==> Listed(s1, Ready, u);
  }

  predicate Ranked(s: Sched, t: Tid, n: int) {
    0 <= n < |List(s, Ready)| && List(s, Ready)[n] == t
  }

  /** The step makes a task ready that goes ahead of t: one of strictly higher priority. */
  ghost predicate Overtakes(s: Sched, op: Op, t: Tid) {
    match op
    case CreatesTask(_, pri, _) => pri > Pri(s, t)
    case Signals(u, sigs) => u in s.tasks && sigs * s.tasks[u].waiting != {} && Pri(s, u) > Pri(s, t)
    case Ticks => exists u :: Releases(s, u) && Pri(s, u) > Pri(s, t)
    case Exits => s.need && CanSchedule(s) && s.running in s.tasks && s.tasks[s.running].ready
                  && Pri(s, s.running) > Pri(s, t)
    case _ => false
  }

  lemma InsertKeepsRank(s: Sched, u: Tid, t: Tid, n: int)
    requires Ranked(s, t, n) && Descending(Pris(s, List(s, Ready))) && Pri(s, u) <= Pri(s, t)
    ensures Ranked(Enqueue(s, Ready, u), t, n)
    ensures List(Enqueue(s, Ready, u), Ready)[0] == List(s, Ready)[0]
  {
    var q := List(s, Ready);
    SlotKeepsOrder(Pris(s, q), Pri(s, u));
    assert Pris(s, q)[n] == Pri(s, t);
  }

  lemma ReleaseKeepsRank(s: Sched, u: Tid, sigs: Sigs, t: Tid, n: int)
    requires Filed(s) && Sorted(s) && Ranked(s, t, n) && u in s.tasks && !s.tasks[u].ready && Pri(s, u) <= Pri(s, t)
    ensures Ranked(Release(s, u, sigs), t, n)
  {
    var s1 := SetTask(s, u, Signalled(s.tasks[u], sigs));
    assert !Listed(s, Ready, u);
    WithoutIs(s.lists[Ready], u);
    SameSorted(s, s1);
    SamePris(s1, Remove(s1, u));
    InsertKeepsRank(Remove(s1, u), u, t, n);
  }

  lemma SignalKeepsRank(s: Sched, u: Tid, sigs: Sigs, t: Tid, n: int)
    requires Filed(s) && OneBit(s) && Sorted(s) && Ranked(s, t, n) && u in s.tasks
    requires sigs * s.tasks[u].waiting != {} ==> Pri(s, u) <= Pri(s, t)
    ensures Ranked(Signal(s, u, sigs), t, n)
  {
    if sigs * s.tasks[u].waiting != {} {
      assert OneBitTask(s.tasks[u]);
      ReleaseKeepsRank(s, u, sigs, t, n);
    }
  }

  lemma TickKeepsRank(s: Sched, t: Tid, n: int)
    requires Good(s) && Ranked(s, t, n) && !Overtakes(s, Ticks, t)
    ensures Ranked(Tick(s), t, n)
  {
    var q := Seen(s);
    CountedGood(s, q);
    ReleasedIs(s);
    if q != [] && Expires(s, q[|q| - 1]) {
      assert Releases(s, q[|q| - 1]);
      SignalKeepsRank(Counted(s, q), q[|q| - 1], {TB_DELAY}, t, n);
    }
  }

  lemma CountedGood(s: Sched, q: seq<Tid>)
    requires Good(s)
    ensures Good(Counted(s, q)) && forall t :: Pri(Counted(s, q), t) == Pri(s, t)
  {
    CountedKeeps(s, q);
    SameSorted(s, Counted(s, q));
    forall t | t in s.tasks ensures OneBitTask(Counted(s, q).tasks[t]) {
      assert OneBitTask(s.tasks[t]);
    }
  }

  /** At a switch, everybody in the ready list moves up by one. */
  lemma DispatchRank(s: Sched, t: Tid, n: int)
    requires Filed(s) && Ranked(s, t, n) && List(s, Ready)[0] in s.tasks
    ensures if n == 0 then Dispatch(s).running == t else Ranked(Dispatch(s), t, n - 1)
  {
    assert Without(s.lists[Ready], s.lists[Ready][0]) == s.lists[Ready][1..];
  }

  lemma PreemptKeepsRank(s: Sched, t: Tid, n: int)
    requires Good(s) && !s.idle && s.lock == 0 && Ranked(s, t, n)
    requires s.tasks[s.running].ready ==> Pri(s, s.running) <= Pri(s, t)
    ensures Ranked(Saved(Preempted(s)), t, n)
  {
    var s1 := s.(need := false);
    SameSorted(s, s1);
    if s.tasks[s.running].ready {
      InsertKeepsRank(s1, s.running, t, n);
    }
  }

  lemma ExitKeepsRank(s: Sched, t: Tid, n: int)
    requires Good(s) && InHandler(s) && Guard(s, Exits) && Ranked(s, t, n) && !Overtakes(s, Exits, t)
    ensures if Dispatches(s, Exits) then if n == 0 then OnCpu(Exit(s), t) else Ranked(Exit(s), t, n - 1)
            else Ranked(Exit(s), t, n)
  {
    if s.need && CanSchedule(s) {
      PreemptKeepsRank(s, t, n);
      AtSwitchIs(s, Exits);
      DispatchRank(Saved(Preempted(s)), t, n);
    }
  }

  /** Unless somebody of strictly higher priority becomes ready, t keeps its place in the ready list,
      and each switch takes it one place nearer to the CPU. */
  lemma StepRank(s: Sched, op: Op, t: Tid, n: int)
    requires Good(s) && Enabled(s, op) && Guard(s, op) && Ranked(s, t, n) && !Overtakes(s, op, t)
    ensures if Dispatches(s, op) then if n == 0 then OnCpu(Next(s, op), t) else Ranked(Next(s, op), t, n - 1)
            else Ranked(Next(s, op), t, n)
  {
    match op
    case CreatesTask(u, pri, regs) => CreateKeepsRank(s, u, pri, regs, t, n);
    case Signals(u, sigs) => SignalKeepsRank(s, u, sigs, t, n);
    case Ticks => TickKeepsRank(s, t, n);
    case Exits => ExitKeepsRank(s, t, n);
    case Resumes =>
      HeadIsTask(s);
      DispatchRank(s, t, n);
    case _ =>
  }

  lemma CreateKeepsRank(s: Sched, u: Tid, pri: int, regs: Regs, t: Tid, n: int)
    requires Good(s) && u !in s.tasks && Ranked(s, t, n) && pri <= Pri(s, t)
    ensures Ranked(CreateTask(s, u, pri, regs), t, n)
  {
    var s1 := SetTask(s, u, NewTask(pri, regs));
    forall i | 0 <= i < |s.lists[Ready]| ensures Pri(s1, s.lists[Ready][i]) == Pri(s, s.lists[Ready][i]) {
      assert Listed(s, Ready, s.lists[Ready][i]);
    }
    assert Pris(s1, s.lists[Ready]) == Pris(s, s.lists[Ready]);
    InsertKeepsRank(s1, u, t, n);
  }

  // ---- Over runs ------------------------------------------------------------------------

  /** Good(states[m]), kept out of the verifier's sight where Opened is not mentioned. */
  ghost predicate GoodAt(states: seq<Sched>, m: nat)
    requires m < |states|
  {
    forall k {:trigger Opened(k, states[m])} :: Opened(k, states[m]) ==> Good(states[m])
  }

  ghost predicate GoodThroughout(states: seq<Sched>, ops: seq<Op>, i: nat, j: nat)
    requires i <= j <= |ops| < |states|
  {
    forall m: nat :: i <= m <= j ==> GoodAt(states, m)
  }

  ghost predicate DispatchesAt(states: seq<Sched>, ops: seq<Op>, m: nat)
    requires Run(states, ops) && m < |ops|
  {
    assert StepAt(states, ops, m);
    Dispatches(states[m], ops[m])
  }

  /** Number of switches between i and j. */
  ghost function Switches(states: seq<Sched>, ops: seq<Op>, i: nat, j: nat): nat
    requires Run(states, ops) && i <= j <= |ops|
    decreases j
  {
    if i == j then 0 else Switches(states, ops, i, j - 1) + if DispatchesAt(states, ops, j - 1) then 1 else 0
  }

  lemma OneTurn(states: seq<Sched>, ops: seq<Op>, m: nat, t: Tid, n: int)
    requires Run(states, ops) && m < |ops| && GoodAt(states, m) && GoodAt(states, m + 1)
    requires Ranked(states[m], t, n) && !Overtakes(states[m], ops[m], t) && !OnCpu(states[m + 1], t)
    ensures Ranked(states[m + 1], t, n - if DispatchesAt(states, ops, m) then 1 else 0)
  {
    assert Opened(0, states[m]) && Opened(0, states[m + 1]) && StepAt(states, ops, m);
    StepSafeIff(states[m], ops[m]);
    StepRank(states[m], ops[m], t, n);
  }

  lemma {:induction false} RankFalls(states: seq<Sched>, ops: seq<Op>, t: Tid, n: nat, i: nat, j: nat)
    requires Run(states, ops) && i <= j <= |ops| && GoodThroughout(states, ops, i, j) && Ranked(states[i], t, n)
    requires forall m :: i <= m < j ==> !Overtakes(states[m], ops[m], t)
    requires forall m :: i < m <= j ==> !OnCpu(states[m], t)
    ensures Ranked(states[j], t, n - Switches(states, ops, i, j))
    decreases j
  {
    if i < j {
      RankFalls(states, ops, t, n, i, j - 1);
      OneTurn(states, ops, j - 1, t, n - Switches(states, ops, i, j - 1));
    }
  }

  /** A task at place n of the ready list is on the CPU after at most n + 1 switches, provided that no
      task of strictly higher priority becomes ready in the meantime. */
  lemma DispatchedInTurn(states: seq<Sched>, ops: seq<Op>, t: Tid, n: nat, i: nat, j: nat)
    requires Run(states, ops) && i <= j <= |ops| && GoodThroughout(states, ops, i, j) && Ranked(states[i], t, n)
    requires forall m :: i <= m < j ==> !Overtakes(states[m], ops[m], t)
    requires Switches(states, ops, i, j) > n
    ensures exists m :: i < m <= j && OnCpu(states[m], t)
  {
    if forall m :: i < m <= j ==> !OnCpu(states[m], t) {
      RankFalls(states, ops, t, n, i, j);
    }
  }

  lemma InitGood(s: Sched)
    requires Init(s)
    ensures Good(s)
  {
    InitSafe(s);
  }

  lemma StepGood(s: Sched, op: Op)
    requires Good(s) && Enabled(s, op) && Guard(s, op) && OneBitOp(op)
    ensures Good(Next(s, op))
  {
    StepSafeIff(s, op);
    StepOneBit(s, op);
    StepSorted(s, op);
  }

  lemma NextGood(states: seq<Sched>, ops: seq<Op>, m: nat)
    requires Run(states, ops) && m < |ops| && GoodAt(states, m) && GuardAt(states, ops, m) && OneBitOp(ops[m])
    ensures GoodAt(states, m + 1)
  {
    assert Opened(0, states[m]) && StepAt(states, ops, m);
    StepGood(states[m], ops[m]);
  }

  /** With one signal bit per wait, a run is good for as long as no step signals the task on the CPU
      or switches away from one between wait_lock++ and wait_lock--, wherever interrupts strike. */
  lemma {:induction false} RunGood(states: seq<Sched>, ops: seq<Op>, n: nat)
    requires Run(states, ops) && n <= |ops|
    requires forall i: nat :: i < n ==> OneBitOp(ops[i]) && GuardAt(states, ops, i)
    ensures GoodThroughout(states, ops, 0, n)
  {
    if n == 0 {
      InitGood(states[0]);
    } else {
      RunGood(states, ops, n - 1);
      assert GuardAt(states, ops, n - 1);
      NextGood(states, ops, n - 1);
    }
  }

  /** Over such a run: off the CPU, a task is in the ready list exactly if it is ready, and in a wait
      list exactly if it waits for a signal. */
  lemma PlaceTellsStateInRun(states: seq<Sched>, ops: seq<Op>, n: nat, t: Tid)
    requires Run(states, ops) && n <= |ops| && t in states[n].tasks && !OnCpu(states[n], t)
    requires forall i: nat :: i < n ==> OneBitOp(ops[i]) && GuardAt(states, ops, i)
    ensures Listed(states[n], Ready, t) <==> states[n].tasks[t].ready
    ensures (exists l :: l != Ready && Listed(states[n], l, t)) <==> states[n].tasks[t].waiting != {}
  {
    RunGood(states, ops, n);
    assert GoodAt(states, n) && Opened(0, states[n]);
    PlaceTellsState(states[n], t);
  }

  /** Runs in which wait is uninterrupted and uses one signal bit are good throughout. */
  lemma RunGoodWhenWaitAtomic(states: seq<Sched>, ops: seq<Op>, n: nat)
    requires Run(states, ops) && n <= |ops|
    requires forall i :: 0 <= i < n ==> WaitAtomic(states[i], ops[i]) && OneBitOp(ops[i])
    ensures GoodThroughout(states, ops, 0, n)
  {
    forall i: nat | i < n ensures GuardAt(states, ops, i) {
      RunSafeWhenWaitAtomic(states, ops, i);
      assert StepAt(states, ops, i);
      AtomicStep(states[i], ops[i]);
    }
    RunGood(states, ops, n);
  }
}
