/** Sleeping: how many ticks a delayed task sits through, and what wait hands back. */
module SchedTicks {
  import opened Lists
  import opened Markers
  import opened SchedSpec
  import opened SchedSafety
  import opened SchedRuns
  import opened SchedOrder

  /** t is in tasks_wait for its delay to run out. */
  predicate Sleeping(s: Sched, t: Tid) {
    Listed(s, Waiting, t) && Delayed(s, t)
  }

  /** Ticks still to be counted: a delay of 0 means 2^32 of them. */
  function Left(s: Sched, t: Tid): (n: nat)
    requires t in s.tasks
    ensures n > 0
  {
    if s.tasks[t].delay == 0 then TICKS else s.tasks[t].delay
  }

  /** delay(n) puts the task to sleep for n ticks, or 2^32 if n is 0. */
  lemma DelaySleeps(s: Sched, n: nat)
    requires Good(s) && AtTask(s) && n < TICKS
    ensures var s1 := Next(s, SetsDelay(n));
            && Wellformed(s1) && AtTask(s1)
            && var s2 := Next(s1, Blocks({TB_DELAY}));
            && Wellformed(s2) && Enabled(s2, Queues(Waiting))
            && var s3 := Next(s2, Queues(Waiting));
            && Good(s3) && Sleeping(s3, s.running) && Left(s3, s.running) == (if n == 0 then TICKS else n)
  {
    var s1 := Next(s, SetsDelay(n));
    StepGood(s, SetsDelay(n));
    var s2 := Next(s1, Blocks({TB_DELAY}));
    StepGood(s1, Blocks({TB_DELAY}));
    StepGood(s2, Queues(Waiting));
    EnqueueLists(s2, Waiting, s.running);
  }

  /** What a tick does to each task: a count, and the signal for the one that it releases. */
  lemma TickTasks(s: Sched, t: Tid)
    requires Wellformed(s) && t in s.tasks
    ensures var k := Counted(s, Seen(s)).tasks[t];
            t in Tick(s).tasks && Tick(s).tasks[t] == if Releases(s, t) then Signalled(k, {TB_DELAY}) else k
  {
    ReleasedIs(s);
    var q := Seen(s);
    if q != [] && Expires(s, q[|q| - 1]) {
      assert TB_DELAY in {TB_DELAY} * s.tasks[q[|q| - 1]].waiting;
    }
  }

  /** ... and to the lists. */
  lemma TickLists(s: Sched)
    requires Filed(s)
    ensures forall l, u :: Listed(Tick(s), l, u) <==> if Releases(s, u) then l == Ready else Listed(s, l, u)
  {
    ReleasedIs(s);
    var q := Seen(s);
    var s1 := Counted(s, q);
    SameLists(s, s1);
    if q != [] && Expires(s, q[|q| - 1]) {
      var u := q[|q| - 1];
      assert TB_DELAY in {TB_DELAY} * s1.tasks[u].waiting;
      ReleaseLists(s1, u, {TB_DELAY});
      SameLists(Release(s1, u, {TB_DELAY}), Tick(s));
    } else {
      SameLists(s1, Tick(s));
    }
  }

  lemma ReleaseLists(s: Sched, t: Tid, sigs: Sigs)
    requires t in s.tasks && forall l :: l in s.lists ==> Distinct(s.lists[l])
    ensures forall l, u :: Listed(Release(s, t, sigs), l, u) <==> if u == t then l == Ready else Listed(s, l, u)
  {
    var s1 := SetTask(s, t, Signalled(s.tasks[t], sigs));
    SameLists(s, s1);
    RemoveLists(s1, t);
    EnqueueLists(Remove(s1, t), Ready, t);
  }

  /** A tick makes at most one task ready: the first in tasks_wait whose delay runs out. */
  lemma TickReleasesOne(s: Sched, t: Tid)
    requires Wellformed(s) && t in s.tasks && !s.tasks[t].ready
    ensures t in Tick(s).tasks && (Tick(s).tasks[t].ready <==> Releases(s, t))
    ensures forall u :: Releases(s, t) && Releases(s, u) ==> u == t
  {
    TickTasks(s, t);
  }

  // ---- One step of a sleeping task ------------------------------------------------------

  predicate WokenEarly(op: Op, t: Tid) {
    op.Signals? && op.t == t && TB_DELAY in op.sigs
  }

  /** The step is a tick, and its walk gets as far as t. */
  predicate Hit(s: Sched, op: Op, t: Tid) {
    op.Ticks? && t in Seen(s)
  }

  /** Of a signal to another task, or without the delay bit, a sleeper takes no notice. */
  lemma SignalSleep(s: Sched, u: Tid, sigs: Sigs, t: Tid)
    requires Inv(s) && OneBit(s) && Sleeping(s, t) && u in s.tasks && (u != t || TB_DELAY !in sigs)
    ensures Sleeping(Signal(s, u, sigs), t) && Left(Signal(s, u, sigs), t) == Left(s, t)
  {
    if sigs * s.tasks[u].waiting != {} {
      CommonBit(sigs, s.tasks[u].waiting);
      assert u != t by {
        assert OneBitTask(s.tasks[t]);
      }
      ReleaseLists(s, u, sigs);
      SameLists(Release(s, u, sigs), Signal(s, u, sigs));
    }
  }

  lemma TickSleep(s: Sched, t: Tid)
    requires Inv(s) && OneBit(s) && Sleeping(s, t)
    ensures if t !in Seen(s) then Sleeping(Tick(s), t) && Left(Tick(s), t) == Left(s, t)
            else if Left(s, t) == 1 then t in Tick(s).tasks && Tick(s).tasks[t].ready && Listed(Tick(s), Ready, t)
            else Sleeping(Tick(s), t) && Left(Tick(s), t) == Left(s, t) - 1
  {
    SeenExpires(s, t);
    TickTasks(s, t);
    TickLists(s);
    assert OneBitTask(s.tasks[t]);
    assert Listed(Tick(s), if Releases(s, t) then Ready else Waiting, t);
  }

  /** Among the tasks a tick sees, only the last can run out. */
  lemma SeenExpires(s: Sched, t: Tid)
    requires Inv(s)
    ensures t in Seen(s) && Expires(s, t) ==> Releases(s, t)
  {
    var W := List(s, Waiting);
    if t in Seen(s) && Expires(s, t) {
      var k :| 0 <= k < |Seen(s)| && Seen(s)[k] == t;
      assert W[k] == t;
    }
  }

  /** A sleeping task's count goes down by one at each tick that reaches it, and at nothing else; at
      the last one it is ready. */
  lemma StepSleep(s: Sched, op: Op, t: Tid)
    requires Good(s) && Enabled(s, op) && Guard(s, op) && Sleeping(s, t) && !WokenEarly(op, t)
    ensures if !Hit(s, op, t) then Sleeping(Next(s, op), t) && Left(Next(s, op), t) == Left(s, t)
            else if Left(s, t) == 1 then
              t in Next(s, op).tasks && Next(s, op).tasks[t].ready && Listed(Next(s, op), Ready, t)
            else Sleeping(Next(s, op), t) && Left(Next(s, op), t) == Left(s, t) - 1
  {
    match op
    case CreatesTask(u, pri, regs) => EnqueueLists(SetTask(s, u, NewTask(pri, regs)), Ready, u);
    case Queues(l) => EnqueueLists(s, l, s.running);
    case Signals(u, sigs) => SignalSleep(s, u, sigs, t);
    case Ticks => TickSleep(s, t);
    case Exits => ExitSleep(s, t);
    case Resumes =>
      HeadIsTask(s);
      DispatchSleep(s, t);
    case _ =>
  }

  lemma DispatchSleep(s: Sched, t: Tid)
    requires Filed(s) && Sleeping(s, t) && List(s, Ready) != [] && List(s, Ready)[0] in s.tasks
    ensures Sleeping(Dispatch(s), t) && Left(Dispatch(s), t) == Left(s, t)
  {
    var u := List(s, Ready)[0];
    assert Listed(s, Ready, u);
    RemoveLists(s, u);
    SameLists(Remove(s, u), Dispatch(s));
  }

  lemma ExitSleep(s: Sched, t: Tid)
    requires Good(s) && InHandler(s) && Guard(s, Exits) && Sleeping(s, t)
    ensures Sleeping(Exit(s), t) && Left(Exit(s), t) == Left(s, t)
  {
    if s.need && CanSchedule(s) {
      EnqueueLists(s.(need := false), Ready, s.running);
      HeadIsTask(s);
      PreemptedFiles(s);
      SavedKeeps(Preempted(s));
      var s1 := Saved(Preempted(s));
      assert Sleeping(s1, t) && Left(s1, t) == Left(s, t);
      if List(s1, Ready) != [] {
        DispatchSleep(s1, t);
      }
    }
  }

  /** A tick passes a sleeping task by exactly when wait_lock is held, or when it releases a task that
      stands further ahead. */
  lemma SkippedTickIff(s: Sched, t: Tid)
    requires Inv(s) && Sleeping(s, t)
    ensures var q := List(s, Waiting);
            t !in Seen(s) <==> s.lock != 0 || exists i, j :: 0 <= i < j < |q| && Releases(s, q[i]) && q[j] == t
  {
    var q := List(s, Waiting);
    if s.lock == 0 {
      var i := FirstExpiring(s, q);
      var j :| 0 <= j < |q| && q[j] == t;
      if i < |q| {
        SeenUpTo(s, q, i, j);
      } else {
        NoneReleased(s, q);
      }
    }
  }

  lemma SeenUpTo(s: Sched, q: seq<Tid>, i: nat, j: nat)
    requires q == List(s, Waiting) && Distinct(q) && s.lock == 0 && i == FirstExpiring(s, q) < |q| && j < |q|
    ensures q[j] in Seen(s) <==> j <= i
    ensures Releases(s, q[i])
    ensures forall k :: 0 <= k < |q| && Releases(s, q[k]) ==> k == i
  {
    assert Seen(s) == q[..i + 1];
    if j <= i {
      assert q[..i + 1][j] == q[j];
    }
    assert q[..i + 1][i] == q[i];
  }

  lemma NoneReleased(s: Sched, q: seq<Tid>)
    requires q == List(s, Waiting) && s.lock == 0 && FirstExpiring(s, q) == |q|
    ensures forall t :: t in q ==> t in Seen(s) && !Releases(s, t)
  {
  }

  // ---- Over runs ------------------------------------------------------------------------

  ghost predicate Undisturbed(ops: seq<Op>, t: Tid, i: nat, j: nat)
    requires i <= j <= |ops|
  {
    forall m :: i <= m < j ==> !WokenEarly(ops[m], t)
  }

  /** Ticks between i and j, and those among them that reached t. */
  function TicksIn(ops: seq<Op>, i: nat, j: nat): nat
    requires i <= j <= |ops|
    decreases j
  {
    if i == j then 0 else TicksIn(ops, i, j - 1) + if ops[j - 1].Ticks? then 1 else 0
  }

  function Hits(states: seq<Sched>, ops: seq<Op>, t: Tid, i: nat, j: nat): nat
    requires i <= j <= |ops| < |states|
    decreases j
  {
    if i == j then 0 else Hits(states, ops, t, i, j - 1) + if Hit(states[j - 1], ops[j - 1], t) then 1 else 0
  }

  /** Ticks that passed t by. */
  function Skips(states: seq<Sched>, ops: seq<Op>, t: Tid, i: nat, j: nat): nat
    requires i <= j <= |ops| < |states|
    decreases j
  {
    if i == j then 0
    else Skips(states, ops, t, i, j - 1) + if ops[j - 1].Ticks? && t !in Seen(states[j - 1]) then 1 else 0
  }

  lemma {:induction false} TicksAreHitsAndSkips(states: seq<Sched>, ops: seq<Op>, t: Tid, i: nat, j: nat)
    requires i <= j <= |ops| < |states|
    ensures TicksIn(ops, i, j) == Hits(states, ops, t, i, j) + Skips(states, ops, t, i, j)
    decreases j
  {
    if i < j {
      TicksAreHitsAndSkips(states, ops, t, i, j - 1);
    }
  }

  lemma SleepOn(states: seq<Sched>, ops: seq<Op>, m: nat, t: Tid)
    requires Run(states, ops) && m < |ops| && GoodAt(states, m) && GoodAt(states, m + 1)
    requires Sleeping(states[m], t) && !WokenEarly(ops[m], t)
    ensures if !Hit(states[m], ops[m], t) then
              Sleeping(states[m + 1], t) && Left(states[m + 1], t) == Left(states[m], t)
            else if Left(states[m], t) == 1 then
              t in states[m + 1].tasks && states[m + 1].tasks[t].ready && Listed(states[m + 1], Ready, t)
              && !Sleeping(states[m + 1], t)
            else Sleeping(states[m + 1], t) && Left(states[m + 1], t) == Left(states[m], t) - 1
  {
    assert Opened(0, states[m]) && Opened(0, states[m + 1]) && StepAt(states, ops, m);
    StepSafeIff(states[m], ops[m]);
    StepSleep(states[m], ops[m], t);
  }

  /** As long as fewer ticks than it asked for have reached it, a sleeping task sleeps on. */
  lemma {:induction false} StillAsleep(states: seq<Sched>, ops: seq<Op>, t: Tid, i: nat, j: nat)
    requires Run(states, ops) && i <= j <= |ops| && GoodThroughout(states, ops, i, j)
    requires Sleeping(states[i], t) && Undisturbed(ops, t, i, j)
    requires Hits(states, ops, t, i, j) < Left(states[i], t)
    ensures Sleeping(states[j], t) && Left(states[j], t) == Left(states[i], t) - Hits(states, ops, t, i, j)
    decreases j
  {
    if i < j {
      StillAsleep(states, ops, t, i, j - 1);
      SleepOn(states, ops, j - 1, t);
    }
  }

  /** No task wakes before its time. */
  lemma NeverEarly(states: seq<Sched>, ops: seq<Op>, t: Tid, i: nat, j: nat)
    requires Run(states, ops) && i <= j <= |ops| && GoodThroughout(states, ops, i, j)
    requires Sleeping(states[i], t) && Undisturbed(ops, t, i, j)
    requires TicksIn(ops, i, j) < Left(states[i], t)
    ensures Sleeping(states[j], t)
  {
    TicksAreHitsAndSkips(states, ops, t, i, j);
    StillAsleep(states, ops, t, i, j);
  }

  lemma {:induction false} SleptThrough(states: seq<Sched>, ops: seq<Op>, t: Tid, i: nat, j: nat)
    requires Run(states, ops) && i <= j <= |ops| && GoodThroughout(states, ops, i, j) && Undisturbed(ops, t, i, j)
    requires Sleeping(states[i], t) && Sleeping(states[j], t) && forall m :: i <= m <= j ==> Sleeping(states[m], t)
    ensures Left(states[j], t) == Left(states[i], t) - Hits(states, ops, t, i, j)
    decreases j
  {
    if i < j {
      SleptThrough(states, ops, t, i, j - 1);
      SleepOn(states, ops, j - 1, t);
    }
  }

  /** ... and once it no longer sleeps, it is ready, and as many ticks have passed as it asked for plus
      those that passed it by (SkippedTickIff). */
  lemma LateByTheSkipped(states: seq<Sched>, ops: seq<Op>, t: Tid, i: nat, j: nat)
    requires Run(states, ops) && i <= j < |ops| && GoodThroughout(states, ops, i, j + 1)
    requires Undisturbed(ops, t, i, j + 1)
    requires Sleeping(states[i], t) && (forall m :: i <= m <= j ==> Sleeping(states[m], t))
    requires !Sleeping(states[j + 1], t)
    ensures Listed(states[j + 1], Ready, t)
    ensures TicksIn(ops, i, j + 1) == Left(states[i], t) + Skips(states, ops, t, i, j + 1)
  {
    SleptThrough(states, ops, t, i, j);
    SleepOn(states, ops, j, t);
    TicksAreHitsAndSkips(states, ops, t, i, j + 1);
  }

  // ---- What wait returns ----------------------------------------------------------------

  /** Bit b is still awaited, or has arrived. */
  predicate Promised(s: Sched, t: Tid, b: int) {
    t in s.tasks && (b in s.tasks[t].waiting || b in s.tasks[t].recvd)
  }

  lemma StepPromise(s: Sched, op: Op, t: Tid, b: int)
    requires Wellformed(s) && Enabled(s, op) && Promised(s, t, b) && !(op.Blocks? && s.running == t)
    ensures Promised(Next(s, op), t, b)
  {
    match op
    case Signals(u, sigs) => SignalPromise(s, u, sigs, t, b);
    case Ticks => TickPromise(s, t, b);
    case Exits => ExitPromise(s, t, b);
    case Resumes => HeadIsTask(s);
    case _ =>
  }

  lemma SignalPromise(s: Sched, u: Tid, sigs: Sigs, t: Tid, b: int)
    requires u in s.tasks && Promised(s, t, b)
    ensures Promised(Signal(s, u, sigs), t, b)
  {
  }

  lemma TickPromise(s: Sched, t: Tid, b: int)
    requires Wellformed(s) && Promised(s, t, b)
    ensures Promised(Tick(s), t, b)
  {
    TickTasks(s, t);
  }

  lemma ExitPromise(s: Sched, t: Tid, b: int)
    requires Wellformed(s) && InHandler(s) && Promised(s, t, b)
    ensures Promised(Exit(s), t, b)
  {
    HeadIsTask(s);
    assert Promised(Saved(Preempted(s)), t, b);
  }

  /** Once a task that waited for bit b is ready again, wait returns a mask with b in it. */
  lemma {:induction false} WaitReturnsItsSignal(states: seq<Sched>, ops: seq<Op>, t: Tid, b: int, i: nat, j: nat)
    requires Run(states, ops) && i < j <= |ops| && ops[i] == Blocks({b}) && states[i].running == t
    requires forall m :: i < m < j ==> !(ops[m].Blocks? && states[m].running == t)
    ensures Promised(states[j], t, b)
    ensures OneBit(states[j]) && states[j].tasks[t].ready ==> b in states[j].tasks[t].recvd
    decreases j
  {
    assert StepAt(states, ops, j - 1);
    if j == i + 1 {
      assert b in states[j].tasks[t].waiting;
    } else {
      WaitReturnsItsSignal(states, ops, t, b, i, j - 1);
      StepPromise(states[j - 1], ops[j - 1], t, b);
    }
  }
}
