/** task.c, timer.c and the handler ends of idt.c on the machine: task nodes and list heads in memory,
    moved about by list.c. Every operation computes what SchedSpec says it does. */
module Scheduler {
  import opened Lists
  import opened Markers
  import opened SchedSpec
  import opened SchedSafety
  import opened SchedRuns
  import opened SchedOrder
  import opened TaskLists
  import opened TimerWalk

  const NEED_TASK_SWITCH := 4

  /** Storing a new node's priority leaves the lists alone. */
  lemma PriorityStored(w: Words, heads: map<ListName, int>, s: Sched, t: Tid, pri: int, l: ListName)
    requires Tidy(s) && Linked(w, heads, s) && t !in s.tasks && Layout(s.tasks.Keys + {t}, heads) && l in s.lists
    ensures IsList(w[t + PRI := pri], heads[l], s.lists[l])
  {
    forall n | n in s.lists[l] ensures !(n <= t + PRI < n + 8) {
      assert Listed(s, l, n);
    }
    ListFrame(w, w[t + PRI := pri], heads[l], s.lists[l]);
  }

  lemma NewTidy(s: Sched, t: Tid, k: Task)
    requires Tidy(s) && t !in s.tasks
    ensures Tidy(SetTask(s, t, k)) && !InSomeList(SetTask(s, t, k), t)
  {
    SameLists(s, SetTask(s, t, k));
  }

  /** Memory with a new node's priority set, and the node among the tasks. */
  lemma NewNode(w: Words, heads: map<ListName, int>, s: Sched, t: Tid, k: Task)
    requires Tidy(s) && InMemory(w, heads, s) && t !in s.tasks && Layout(s.tasks.Keys + {t}, heads)
    requires 0 < t && t in w && t + 4 in w && t + PRI in w
    ensures Tidy(SetTask(s, t, k)) && InMemory(w[t + PRI := k.pri], heads, SetTask(s, t, k))
    ensures !InSomeList(SetTask(s, t, k), t)
  {
    assert Opened(0, (w, s));
    var s', w' := SetTask(s, t, k), w[t + PRI := k.pri];
    NewTidy(s, t, k);
    forall l | l in s'.lists ensures IsList(w', heads[l], s'.lists[l]) {
      PriorityStored(w, heads, s, t, k.pri, l);
    }
    forall u | u in s'.tasks ensures NodeOk(w', u, s'.tasks[u].pri) {
      assert u != t ==> NodeOk(w, u, s.tasks[u].pri);
    }
    assert s'.tasks.Keys == s.tasks.Keys + {t};
    NowInMemory(w', heads, s');
  }

  /** The words of a list head that keeps clear of tasks and other heads belong to no other list. */
  lemma NewHeadForeign(heads: map<ListName, int>, s: Sched, m: ListName, l: ListName, L: int, a: int)
    requires Layout(s.tasks.Keys, heads[l := L]) && Wellformed(s) && m in s.lists && m in heads && m != l
    requires L <= a < L + 12
    ensures !Owns(heads[m], s.lists[m], a)
  {
    var hs := heads[l := L];
    assert hs[l] == L && hs[m] == heads[m];
    forall n | n in s.lists[m] ensures !(n <= a < n + 8) {
      assert Listed(s, m, n);
      assert n + NODE <= hs[l] || hs[l] + 12 <= n;
    }
  }

  lemma ListClearOfHead(w: Words, w': Words, heads: map<ListName, int>, s: Sched, m: ListName, l: ListName, L: int)
    requires Layout(s.tasks.Keys, heads[l := L]) && Wellformed(s) && m in s.lists && m in heads && m != l
    requires IsList(w, heads[m], s.lists[m]) && w' == w[L := L + 4][L + 4 := NULL][L + 8 := L]
    ensures IsList(w', heads[m], s.lists[m])
  {
    forall a | Owns(heads[m], s.lists[m], a) ensures !(L <= a < L + 12) {
      if L <= a < L + 12 { NewHeadForeign(heads, s, m, l, L, a); }
    }
    ListFrame(w, w', heads[m], s.lists[m]);
  }

  lemma OneMoreTidy(s: Sched, l: ListName)
    requires Tidy(s) && l !in s.lists
    ensures Tidy(s.(lists := s.lists[l := []]))
  {
    var s' := s.(lists := s.lists[l := []]);
    assert forall m, t :: Listed(s', m, t) <==> Listed(s, m, t);
  }

  lemma OneMoreList(w: Words, w': Words, heads: map<ListName, int>, s: Sched, l: ListName, L: int)
    requires Tidy(s) && InMemory(w, heads, s) && l !in s.lists && Layout(s.tasks.Keys, heads[l := L])
    requires w' == w[L := L + 4][L + 4 := NULL][L + 8 := L] && HeadInMemory(w, L) && IsList(w', L, [])
    ensures Tidy(s.(lists := s.lists[l := []])) && InMemory(w', heads[l := L], s.(lists := s.lists[l := []]))
  {
    var s', hs := s.(lists := s.lists[l := []]), heads[l := L];
    OneMoreTidy(s, l);
    assert Opened(0, (w, s));
    forall m | m in s'.lists ensures IsList(w', hs[m], s'.lists[m]) {
      if m != l {
        ListClearOfHead(w, w', heads, s, m, l, L);
      }
    }
    NodesClearOfHead(w, w', heads, s, l, L);
    NowInMemory(w', hs, s');
  }

  lemma NodesClearOfHead(w: Words, w': Words, heads: map<ListName, int>, s: Sched, l: ListName, L: int)
    requires Layout(s.tasks.Keys, heads[l := L]) && w' == w[L := L + 4][L + 4 := NULL][L + 8 := L]
    requires forall u :: u in s.tasks ==> NodeOk(w, u, s.tasks[u].pri)
    ensures forall u :: u in s.tasks ==> NodeOk(w', u, s.tasks[u].pri)
  {
    var hs := heads[l := L];
    forall u | u in s.tasks ensures NodeOk(w', u, s.tasks[u].pri) {
      assert NodeOk(w, u, s.tasks[u].pri);
      assert u + NODE <= hs[l] || hs[l] + 12 <= u;
    }
  }

  /** The second new_list leaves the first list alone, and the kernel task's priority. */
  lemma BothNew(w: Words, w': Words, heads: map<ListName, int>, s: Sched)
    requires heads.Keys == {Ready, Waiting} && s.tasks.Keys == {s.running} && Layout({s.running}, heads)
    requires s.lists == map[Ready := [], Waiting := []] && NodeOk(w, s.running, s.tasks[s.running].pri)
    requires IsList(w, heads[Ready], []) && IsList(w', heads[Waiting], [])
    requires var L := heads[Waiting]; w' == w[L := L + 4][L + 4 := NULL][L + 8 := L]
    ensures Tidy(s) && InMemory(w', heads, s)
  {
    ListFrame(w, w', heads[Ready], []);
    assert forall l, t :: !Listed(s, l, t);
  }

  /** The first new_list leaves the other list's head and the kernel task in place. */
  lemma FirstNew(w: Words, w': Words, heads: map<ListName, int>, t: Tid, pri: int)
    requires heads.Keys == {Ready, Waiting} && Layout({t}, heads) && NodeOk(w, t, pri)
    requires HeadInMemory(w, heads[Waiting])
    requires var L := heads[Ready]; w' == w[L := L + 4][L + 4 := NULL][L + 8 := L]
    ensures HeadInMemory(w', heads[Waiting]) && NodeOk(w', t, pri)
  {
  }

  lemma Booted(s: Sched, t: Tid, pri: int, regs: Regs)
    requires s == Sched(map[t := Task(pri, regs, true, true, {}, {}, 0)], map[Ready := [], Waiting := []],
                        t, false, regs, 0, 0, -1, false)
    ensures Init(s) && s.tasks.Keys == {s.running} && s.tasks[s.running].pri == pri
  {
  }

  class Scheduler {
    const mem: Memory
    /** Addresses of tasks_ready, tasks_wait and the queues' waiters lists. */
    var heads: map<ListName, int>
    /** The fields of each task_t; its list node is in memory. */
    var tasks: map<Tid, Task>
    ghost var lists: map<ListName, seq<Tid>>
    var runningTask: Tid
    var idle: bool
    /** The register context that a handler is given. */
    var cpuContext: Regs
    var forbidCounter: nat
    var waitLock: nat
    var kReenter: int
    /** The NEED_SCHEDULE bit of sched_state. */
    var needSchedule: bool

    ghost function S(): Sched
      reads this
    {
      Sched(tasks, lists, runningTask, idle, cpuContext, forbidCounter, waitLock, kReenter, needSchedule)
    }

    ghost predicate Rep()
      reads this, mem
    {
      Tidy(S()) && InMemory(mem.w, heads, S())
    }

    /** kernel_main: the kernel task on the CPU, both lists new (kernel_main.c:83-91). */
    constructor (mem: Memory, heads: map<ListName, int>, kernelTask: Tid, pri: int, regs: Regs)
      requires heads.Keys == {Ready, Waiting} && Layout({kernelTask}, heads) && NodeOk(mem.w, kernelTask, pri)
      requires HeadInMemory(mem.w, heads[Ready]) && HeadInMemory(mem.w, heads[Waiting])
      modifies mem
      ensures Rep() && Init(S()) && runningTask == kernelTask && cpuContext == regs
      ensures this.mem == mem && this.heads == heads
    {
      this.mem, this.heads := mem, heads;
      tasks := map[kernelTask := Task(pri, regs, true, true, {}, {}, 0)];
      lists := map[Ready := [], Waiting := []];
      runningTask, idle, cpuContext := kernelTask, false, regs;
      forbidCounter, waitLock, kReenter, needSchedule := 0, 0, -1, false;
      new;
      ghost var s := S();
      Booted(s, kernelTask, pri, regs);
      ghost var w := NewLists(s);
      Placed(w, s);
    }

    /** The two new_list of kernel_main. */
    method NewLists(ghost s: Sched) returns (ghost w: Words)
      requires heads.Keys == {Ready, Waiting} && s.tasks.Keys == {s.running} && Layout({s.running}, heads)
      requires s.lists == map[Ready := [], Waiting := []] && NodeOk(mem.w, s.running, s.tasks[s.running].pri)
      requires HeadInMemory(mem.w, heads[Ready]) && HeadInMemory(mem.w, heads[Waiting])
      modifies mem
      ensures Tidy(s) && InMemory(w, heads, s) && mem.w == w
    {
      mem.NewList(heads[Ready]);
      ghost var w1 := mem.w;
      FirstNew(old(mem.w), w1, heads, s.running, s.tasks[s.running].pri);
      mem.NewList(heads[Waiting]);
      w := mem.w;
      BothNew(w1, w, heads, s);
    }

    lemma Placed(w: Words, s: Sched)
      requires InMemory(w, heads, s) && mem.w == w && S() == s && Tidy(s)
      ensures Rep()
    {
    }

    // ---- list.c on the task lists ---------------------------------------------------------

    method EnqueueTask(l: ListName, t: Tid)
      requires Rep() && l in lists && t in tasks && !InSomeList(S(), t)
      modifies mem, `lists
      ensures Rep() && S() == Enqueue(old(S()), l, t)
    {
      ghost var w, s := mem.w, S();
      ReadyToEnqueue(w, heads, s, l, t);
      mem.Enqueue(heads[l], t, lists[l]);
      EnqueuedInMemory(w, mem.w, heads, s, l, t);
      EnqueueTidy(s, l, t);
      lists := Enqueue(s, l, t).lists;
      Placed(mem.w, Enqueue(s, l, t));
    }

    method RemoveTask(t: Tid, ghost l: ListName, ghost k: nat)
      requires Rep() && l in lists && k < |lists[l]| && lists[l][k] == t
      modifies mem, `lists
      ensures Rep() && S() == Remove(old(S()), t)
    {
      ghost var w, s := mem.w, S();
      ListInMemory(w, heads, s, l);
      mem.Remove(t, heads[l], lists[l], k);
      UnlinkedInMemory(w, mem.w, heads, s, l, k);
      RemoveTidy(s, t);
      lists := Remove(s, t).lists;
      Placed(mem.w, Remove(s, t));
    }

    /** get_head of a task list. */
    method HeadOf(l: ListName) returns (t: int)
      requires Rep() && l in lists
      ensures lists[l] == [] ==> t == NULL
      ensures lists[l] != [] ==> t == lists[l][0] && t in tasks && t != NULL
    {
      ListInMemory(mem.w, heads, S(), l);
      IterationVisits(mem.w, heads[l], lists[l]);
      t := GetHead(mem.w, heads[l]);
      if lists[l] != [] {
        TaskInMemory(mem.w, heads, S(), l, 0);
      }
    }

    /** get_next of the k-th task of list l. */
    method NextOf(t: Tid, ghost l: ListName, ghost k: nat) returns (n: int)
      requires Rep() && l in lists && k < |lists[l]| && lists[l][k] == t
      ensures k + 1 == |lists[l]| ==> n == NULL
      ensures k + 1 < |lists[l]| ==> n == lists[l][k + 1] && n in tasks && n != NULL
    {
      ListInMemory(mem.w, heads, S(), l);
      NextInList(mem.w, heads[l], lists[l], k);
      n := GetNext(mem.w, t);
      if k + 1 < |lists[l]| {
        TaskInMemory(mem.w, heads, S(), l, k + 1);
      }
    }

    // ---- task.c ---------------------------------------------------------------------------

    method Forbid()
      requires Rep()
      modifies `forbidCounter
      ensures Rep() && S() == SchedSpec.Forbid(old(S()))
    {
      ghost var s := S();
      forbidCounter := forbidCounter + 1;
      Unmoved(s);
    }

    method Permit()
      requires Rep()
      modifies `forbidCounter
      ensures Rep() && S() == SchedSpec.Permit(old(S()))
    {
      ghost var s := S();
      if forbidCounter > 0 {
        forbidCounter := forbidCounter - 1;
      }
      Unmoved(s);
    }

    lemma Unmoved(s: Sched)
      requires Tidy(s) && InMemory(mem.w, heads, s) && S().lists == s.lists && S().tasks.Keys == s.tasks.Keys
      requires S().running in s.tasks && forall t :: t in s.tasks ==> S().tasks[t].pri == s.tasks[t].pri
      ensures Rep()
    {
      SameInMemory(mem.w, heads, s, S());
      SameLists(s, S());
    }

    /** Write back a task's fields. */
    method StoreTask(t: Tid, k: Task)
      requires Rep() && t in tasks && tasks[t].pri == k.pri
      modifies `tasks
      ensures Rep() && S() == SetTask(old(S()), t, k)
    {
      ghost var s := S();
      tasks := tasks[t := k];
      Unmoved(s);
    }

    /** The yield system call, up to the end of its handler: _yield. */
    method YieldCall()
      requires Rep()
      modifies `needSchedule, `forbidCounter, `kReenter
      ensures Rep() && S() == Yield(old(S()))
    {
      ghost var s := S();
      if kReenter == -1 {
        kReenter := kReenter + 1;
      }
      needSchedule := true;
      forbidCounter := 0;
      Unmoved(s);
    }

    /** wait, up to wait_lock++; false for an empty mask. */
    method WaitMark(sigs: Sigs) returns (ok: bool)
      requires Rep()
      modifies `forbidCounter, `tasks, `waitLock
      ensures Rep() && ok == (sigs != {})
      ensures S() == if sigs == {} then old(S()) else BlockBegin(old(S()), sigs)
    {
      ok := sigs != {};
      if !ok {
        return;
      }
      Forbid();
      var k := tasks[runningTask];
      k := k.(waiting := k.waiting + sigs);
      k := k.(recvd := {});
      k := k.(ready := false);
      StoreTask(runningTask, k);
      ghost var s := S();
      waitLock := waitLock + 1;
      Unmoved(s);
    }

    /** wait, from enqueue to permit(). */
    method WaitQueue(l: ListName)
      requires Rep() && waitLock > 0 && l in lists && !InSomeList(S(), runningTask)
      modifies mem, `lists, `forbidCounter, `waitLock
      ensures Rep() && S() == BlockEnd(old(S()), l)
    {
      EnqueueTask(l, runningTask);
      ghost var s := S();
      waitLock := waitLock - 1;
      Unmoved(s);
      Permit();
    }

    /** signal; the task must be in some list if the signal concerns it. */
    method Signal(t: Tid, sigs: Sigs) returns (delivered: Sigs)
      requires Rep() && t in tasks && (sigs * tasks[t].waiting != {} ==> InSomeList(S(), t))
      modifies mem, `lists, `tasks, `forbidCounter, `needSchedule, `kReenter
      ensures Rep() && S() == SchedSpec.Signal(old(S()), t, sigs)
      ensures delivered == if sigs * old(tasks)[t].waiting != {} then sigs else {}
    {
      if sigs != {} && sigs * tasks[t].waiting != {} {
        Release(t, sigs);
        if tasks[runningTask].pri <= tasks[t].pri {
          YieldCall();
        }
        return sigs;
      }
      return {};
    }

    /** The part of signal between forbid() and permit(). */
    method Release(t: Tid, sigs: Sigs)
      requires Rep() && t in tasks && InSomeList(S(), t)
      modifies mem, `lists, `tasks, `forbidCounter
      ensures Rep() && S() == SchedSpec.Release(old(S()), t, sigs)
    {
      ghost var s := S();
      Forbid();
      var k := tasks[t];
      k := k.(ready := true);
      k := k.(waiting := k.waiting - sigs);
      k := k.(recvd := k.recvd + sigs);
      StoreTask(t, k);
      SameLists(s, S());
      ghost var l, i := Position(S(), t);
      RemoveTask(t, l, i);
      Gone(s, S(), t);
      EnqueueTask(Ready, t);
      Permit();
      ForbidAside(s, t, sigs);
    }

    lemma ForbidAside(s: Sched, t: Tid, sigs: Sigs)
      requires t in s.tasks
      ensures var s1 := SetTask(SchedSpec.Forbid(s), t, Signalled(s.tasks[t], sigs));
              SchedSpec.Permit(Enqueue(Remove(s1, t), Ready, t)) == SchedSpec.Release(s, t, sigs)
    {
      var k := Signalled(s.tasks[t], sigs);
      SamePris(Remove(SetTask(SchedSpec.Forbid(s), t, k), t), Remove(SetTask(s, t, k), t));
    }

    lemma Gone(s0: Sched, s: Sched, t: Tid)
      requires Tidy(s0) && s.lists == RemovedFrom(s0.lists, t)
      ensures !InSomeList(s, t)
    {
      RemoveLists(s0, t);
      SameLists(Remove(s0, t), s);
    }

    /** schedule() */
    method Schedule() returns (r: nat)
      requires Rep() && (CanSchedule(S()) && tasks[runningTask].ready ==> !InSomeList(S(), runningTask))
      modifies mem, `lists, `needSchedule
      ensures Rep() && (r == NEED_TASK_SWITCH <==> CanSchedule(old(S())))
      ensures S() == if CanSchedule(old(S())) then Preempted(old(S())) else old(S())
    {
      if forbidCounter > 0 || kReenter > 0 {
        return 0;
      }
      ghost var s := S();
      needSchedule := false;
      Unmoved(s);
      SameLists(s, S());
      if tasks[runningTask].ready {
        EnqueueTask(Ready, runningTask);
      }
      return NEED_TASK_SWITCH;
    }

    /** switch_tasks, up to its idle loop or through it. */
    method SwitchTasks()
      requires Rep() && !idle
      modifies mem, `lists, `tasks, `runningTask, `idle, `cpuContext
      ensures Rep()
      ensures var s1 := Saved(old(S()));
              if List(s1, Ready) == [] then S() == s1.(idle := true)
              else List(s1, Ready)[0] in s1.tasks && S() == Dispatch(s1)
    {
      var k := tasks[runningTask];
      k := k.(run := false);
      k := k.(regs := cpuContext);
      StoreTask(runningTask, k);
      var next := HeadOf(Ready);
      if next == NULL {
        ghost var s := S();
        idle := true;
        Unmoved(s);
      } else {
        RunNext(next);
      }
    }

    /** The rest of switch_tasks, once a task is ready (task.c:111-116). */
    method RunNext(next: Tid)
      requires Rep() && lists[Ready] != [] && lists[Ready][0] == next && next in tasks
      modifies mem, `lists, `tasks, `runningTask, `idle, `cpuContext
      ensures Rep() && S() == Dispatch(old(S()))
    {
      RemoveTask(next, Ready, 0);
      StoreTask(next, tasks[next].(run := true));
      RestoreContext(next);
    }

    method RestoreContext(next: Tid)
      requires Rep() && next in tasks
      modifies `runningTask, `idle, `cpuContext
      ensures Rep() && S() == old(S()).(running := next, idle := false, cpu := tasks[next].regs)
    {
      ghost var s := S();
      runningTask, idle := next, false;
      cpuContext := tasks[next].regs;
      Unmoved(s);
    }

    /** The beginning of idt_handler and irq_handler (idt.c:136, 162). */
    method HandlerEntry()
      requires Rep()
      modifies `kReenter
      ensures Rep() && S() == old(S()).(reenter := old(kReenter) + 1)
    {
      ghost var s := S();
      kReenter := kReenter + 1;
      Unmoved(s);
    }

    /** The running task computes. */
    method Compute(regs: Regs)
      requires Rep()
      modifies `cpuContext
      ensures Rep() && S() == old(S()).(cpu := regs)
    {
      ghost var s := S();
      cpuContext := regs;
      Unmoved(s);
    }

    /** The end of idt_handler and irq_handler. */
    method HandlerEnd()
      requires Rep() && InHandler(S())
      requires needSchedule && CanSchedule(S()) && tasks[runningTask].ready ==> !InSomeList(S(), runningTask)
      modifies mem, `lists, `tasks, `runningTask, `idle, `cpuContext, `needSchedule, `kReenter
      ensures Rep() && S() == Exit(old(S()))
    {
      if needSchedule {
        var r := Schedule();
        if r == NEED_TASK_SWITCH {
          SwitchTasks();
          if idle {
            return;
          }
        }
      }
      ghost var s := S();
      kReenter := kReenter - 1;
      Unmoved(s);
    }

    /** The idle loop's way out, and the end of the handler it ran in. */
    method Resume()
      requires Rep() && idle && kReenter == 0 && lists[Ready] != []
      modifies mem, `lists, `tasks, `runningTask, `idle, `cpuContext, `kReenter
      ensures Rep() && S() == SchedSpec.Resume(old(S()))
    {
      var next := HeadOf(Ready);
      RunNext(next);
      ghost var s := S();
      kReenter := kReenter - 1;
      Unmoved(s);
    }

    /** delay, up to its wait. */
    method SetDelay(ticks: nat)
      requires Rep() && ticks < TICKS
      modifies `forbidCounter, `tasks
      ensures Rep() && S() == SetTask(old(S()), runningTask, old(tasks)[runningTask].(delay := ticks))
    {
      Forbid();
      StoreTask(runningTask, tasks[runningTask].(delay := ticks));
      Permit();
    }

    /** create_task on a node that kmalloc has provided, clear of everything else. */
    method CreateTask(t: Tid, pri: int, code: int, stack: int, stackSize: int)
      requires Rep() && t !in tasks && Layout(tasks.Keys + {t}, heads)
      requires 0 < t && t in mem.w && t + 4 in mem.w && t + PRI in mem.w
      modifies mem, `tasks, `lists, `forbidCounter
      ensures Rep() && S() == SchedSpec.CreateTask(old(S()), t, pri, FirstRegs(code, stack, stackSize))
    {
      AddTask(t, pri, FirstRegs(code, stack, stackSize));
    }

    /** A new task with its first registers filled in. */
    method AddTask(t: Tid, pri: int, regs: Regs)
      requires Rep() && t !in tasks && Layout(tasks.Keys + {t}, heads)
      requires 0 < t && t in mem.w && t + 4 in mem.w && t + PRI in mem.w
      modifies mem, `tasks, `lists, `forbidCounter
      ensures Rep() && S() == SchedSpec.CreateTask(old(S()), t, pri, regs)
    {
      ghost var w, s := mem.w, S();
      var k := NewTask(pri, regs);
      mem.w := mem.w[t + PRI := pri];
      tasks := tasks[t := k];
      NewNode(w, heads, s, t, k);
      Forbid();
      SameLists(SetTask(s, t, k), S());
      EnqueueTask(Ready, t);
      Permit();
      SamePris(SchedSpec.Forbid(SetTask(s, t, k)), SetTask(s, t, k));
    }

    /** new_list for one more list of tasks. */
    method NewTaskList(l: ListName, L: int)
      requires Rep() && l !in lists && Layout(tasks.Keys, heads[l := L]) && HeadInMemory(mem.w, L)
      modifies mem, `heads, `lists
      ensures Rep() && S() == old(S()).(lists := old(lists)[l := []])
    {
      ghost var w, s := mem.w, S();
      mem.NewList(L);
      OneMoreList(w, mem.w, heads, s, l, L);
      heads := heads[l := L];
      lists := lists[l := []];
      Placed(mem.w, s.(lists := s.lists[l := []]));
    }

    // ---- timer.c --------------------------------------------------------------------------

    /** The body of the walk, for one task. */
    method Visit(t: Tid)
      requires Rep() && t in tasks && (Expires(S(), t) ==> InSomeList(S(), t))
      modifies mem, `lists, `tasks, `forbidCounter, `needSchedule, `kReenter
      ensures Rep() && S() == Visited(old(S()), t)
    {
      if TB_DELAY in tasks[t].waiting {
        ghost var s := S();
        StoreTask(t, tasks[t].(delay := OneLess(tasks[t].delay)));
        SameLists(s, S());
        if tasks[t].delay <= 0 {
          var r := Signal(t, {TB_DELAY});
        }
      }
    }

    /** How far the walk of timer_callback has come: to place i of tasks_wait (q, at the tick), or,
        once it has released a task, to place i of the ready list. */
    ghost predicate Walking(s: Sched, q: seq<Tid>, released: bool, i: nat, t: int)
      reads this, mem
    {
      && Rep() && WalkState(s, q, S(), released, i)
      && t == NodeAt(List(S(), if released then Ready else Waiting), i)
    }

    /** One round of the walk. */
    method WalkOn(t: Tid, ghost s: Sched, ghost q: seq<Tid>, ghost released: bool, ghost i: nat)
      returns (n: int, ghost released': bool, ghost i': nat)
      requires Walking(s, q, released, i, t) && i < |List(S(), ListOf(released))|
      requires Filed(s) && OneBit(s) && q == List(s, Waiting)
      modifies mem, `lists, `tasks, `forbidCounter, `needSchedule, `kReenter
      ensures Walking(s, q, released', i', n)
      ensures if released then released' && i' == i + 1 && S() == old(S()) else released' || i' == i + 1
    {
      ghost var c, k;
      c, released', k := Round(s, q, S(), released, i, t);
      i' := k + 1;
      n := VisitAndGo(t, c, ListOf(released'), k);
    }

    /** The loop body for task t, and the step to the next one, at place k of list l afterwards. */
    method VisitAndGo(t: Tid, ghost c: Sched, ghost l: ListName, ghost k: nat) returns (n: int)
      requires Rep() && t in tasks && (Expires(S(), t) ==> InSomeList(S(), t)) && c == Visited(S(), t)
      requires k < |List(c, l)| && List(c, l)[k] == t
      modifies mem, `lists, `tasks, `forbidCounter, `needSchedule, `kReenter
      ensures Rep() && S() == c && n == NodeAt(List(c, l), k + 1)
    {
      Visit(t);
      n := NextOf(t, l, k);
    }

    /** The walk ends with NULL, past the last task. */
    lemma AtEnd(s: Sched, q: seq<Tid>, released: bool, i: nat, t: int)
      requires Walking(s, q, released, i, t) && Filed(s) && OneBit(s) && q == List(s, Waiting)
      ensures t == NULL <==> i >= |List(S(), ListOf(released))|
      ensures !released ==> i <= |q| && List(S(), Waiting) == q
    {
      if !released {
        WaitingIsQ(s, q, S(), i);
      }
      if i < |List(S(), ListOf(released))| {
        TaskInMemory(mem.w, heads, S(), ListOf(released), i);
      }
    }

    /** The timer interrupt's handler. */
    method TimerCallback()
      requires Rep() && Filed(S()) && OneBit(S())
      modifies mem, `lists, `tasks, `forbidCounter, `needSchedule, `kReenter
      ensures Rep() && S() == Tick(old(S()))
    {
      ghost var s, q := S(), lists[Waiting];
      ghost var released: bool, i: nat := false, 0;
      var t := HeadOf(Waiting);
      if waitLock == 0 {
        CountNone(s);
        AtEnd(s, q, released, i, t);
        while t != NULL
          invariant Walking(s, q, released, i, t)
          invariant t == NULL <==> i >= |List(S(), ListOf(released))|
          invariant !released ==> i <= |q| && List(S(), Waiting) == q
          decreases !released, (if released then |List(S(), Ready)| else |q|) - i
        {
          t, released, i := WalkOn(t, s, q, released, i);
          AtEnd(s, q, released, i, t);
        }
        WholeWalk(s, q, S(), released, i);
      }
      CountNone(s);
      ghost var s1 := S();
      needSchedule := true;
      Unmoved(s1);
    }
  }
}
