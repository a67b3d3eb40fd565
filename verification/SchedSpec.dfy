/** What task.c, timer.c and idt.c compute, as steps on one state.

    A step is a stretch of kernel code between two points where an interrupt matters: `wait` is cut
    where it has marked the task blocked but not yet queued it, and again in front of its yield. */
module SchedSpec {
  import opened Lists

  /** Address of a task_t. */
  type Tid = int

  /** A 32-bit signal mask, as the set of its bits. */
  type Sigs = set<int>

  const TB_DELAY := 0
  const TB_QUEUE := 1

  const TICKS := 0x1_0000_0000

  datatype Regs = Regs(eip: int, esp: int, cs: int, ss: int, ds: int, eflags: int, general: seq<int>)

  datatype Task = Task(pri: int, regs: Regs, ready: bool, run: bool, waiting: Sigs, recvd: Sigs, delay: nat)

  /** tasks_ready, tasks_wait, and the list of senders blocked on a queue. */
  datatype ListName = Ready | Waiting | Waiters(queue: int)

  /** `idle` holds inside the loop of switch_tasks, where running_task still names the task switched
      out; `cpu` is the interrupted register context. */
  datatype Sched = Sched(
    tasks: map<Tid, Task>, lists: map<ListName, seq<Tid>>,
    running: Tid, idle: bool, cpu: Regs,
    forbid: nat, lock: nat, reenter: int, need: bool)

  // ---- Lists ----------------------------------------------------------------------------

  function List(s: Sched, l: ListName): seq<Tid> {
    if l in s.lists then s.lists[l] else []
  }

  function Pri(s: Sched, t: Tid): int {
    if t in s.tasks then s.tasks[t].pri else 0
  }

  function Pris(s: Sched, q: seq<Tid>): (ps: seq<int>)
    ensures |ps| == |q|
  {
    seq(|q|, i requires 0 <= i < |q| => Pri(s, q[i]))
  }

  /** Where enqueue puts t. */
  function SlotOf(s: Sched, q: seq<Tid>, t: Tid): (k: nat)
    ensures k <= |q|
  {
    Slot(Pris(s, q), Pri(s, t))
  }

  function InsertTask(s: Sched, q: seq<Tid>, t: Tid): (r: seq<Tid>)
    ensures forall u :: u in r <==> u == t || u in q
  {
    var k := SlotOf(s, q, t);
    assert q == q[..k] + q[k..];
    q[..k] + [t] + q[k..]
  }

  function Enqueue(s: Sched, l: ListName, t: Tid): Sched {
    s.(lists := s.lists[l := InsertTask(s, List(s, l), t)])
  }

  function Without(q: seq<Tid>, t: Tid): seq<Tid> {
    if q == [] then []
    else if q[0] == t then q[1..]
    else [q[0]] + Without(q[1..], t)
  }

  function RemovedFrom(lists: map<ListName, seq<Tid>>, t: Tid): map<ListName, seq<Tid>> {
    map l | l in lists :: Without(lists[l], t)
  }

  /** `remove` is given the node only. */
  function Remove(s: Sched, t: Tid): Sched {
    s.(lists := RemovedFrom(s.lists, t))
  }

  function SetTask(s: Sched, t: Tid, k: Task): Sched {
    s.(tasks := s.tasks[t := k])
  }

  // ---- task.c ---------------------------------------------------------------------------

  function Forbid(s: Sched): Sched {
    s.(forbid := s.forbid + 1)
  }

  function Permit(s: Sched): Sched {
    if s.forbid > 0 then s.(forbid := s.forbid - 1) else s
  }

  /** The yield system call up to the end of its handler. From a task it enters the kernel; inside a
      handler it is a nested call that comes back at once (NestedYield). */
  function Yield(s: Sched): Sched {
    s.(need := true, forbid := 0, reenter := if s.reenter == -1 then 0 else s.reenter)
  }

  /** Register context of a new task; `general` stands for the ten words from edi to err_code. */
  function FirstRegs(code: int, stack: int, stackSize: int): Regs {
    Regs(code, (stack + stackSize) % 0x1_0000_0000, 0x1b, 0x23, 0x23, 0x3200, seq(10, i => 0))
  }

  function NewTask(pri: int, regs: Regs): Task {
    Task(pri, regs, true, false, {}, {}, 0)
  }

  function CreateTask(s: Sched, t: Tid, pri: int, regs: Regs): Sched {
    Enqueue(SetTask(s, t, NewTask(pri, regs)), Ready, t)
  }

  function Blocked(k: Task, sigs: Sigs): Task {
    k.(ready := false, waiting := k.waiting + sigs, recvd := {})
  }

  /** wait, up to wait_lock++ (task.c:123-127). */
  function BlockBegin(s: Sched, sigs: Sigs): Sched
    requires s.running in s.tasks
  {
    SetTask(s, s.running, Blocked(s.tasks[s.running], sigs)).(forbid := s.forbid + 1, lock := s.lock + 1)
  }

  /** wait, up to permit() (task.c:128-130). */
  function BlockEnd(s: Sched, l: ListName): Sched
    requires s.lock > 0
  {
    Permit(Enqueue(s, l, s.running).(lock := s.lock - 1))
  }

  function Signalled(k: Task, sigs: Sigs): Task {
    k.(ready := true, waiting := k.waiting - sigs, recvd := k.recvd + sigs)
  }

  /** Move a task to the ready list with the signals delivered (task.c:139-145). */
  function Release(s: Sched, t: Tid, sigs: Sigs): Sched
    requires t in s.tasks
  {
    Enqueue(Remove(SetTask(s, t, Signalled(s.tasks[t], sigs)), t), Ready, t)
  }

  function Signal(s: Sched, t: Tid, sigs: Sigs): Sched
    requires t in s.tasks
  {
    if sigs * s.tasks[t].waiting == {} then s
    else if Pri(s, s.running) <= s.tasks[t].pri then Yield(Release(s, t, sigs))
    else Release(s, t, sigs)
  }

  /** The head of the ready list goes on the CPU (task.c:111-116). */
  function Dispatch(s: Sched): Sched
    requires List(s, Ready) != [] && List(s, Ready)[0] in s.tasks
  {
    var t := List(s, Ready)[0];
    SetTask(Remove(s, t), t, s.tasks[t].(run := true)).(running := t, idle := false, cpu := s.tasks[t].regs)
  }

  /** The part of schedule() behind its test: the running task queues up if it is ready. */
  function Preempted(s: Sched): Sched
    requires s.running in s.tasks
  {
    if s.tasks[s.running].ready then Enqueue(s.(need := false), Ready, s.running) else s.(need := false)
  }

  function Saved(s: Sched): Sched
    requires s.running in s.tasks
  {
    SetTask(s, s.running, s.tasks[s.running].(run := false, regs := s.cpu))
  }

  predicate CanSchedule(s: Sched) {
    s.forbid == 0 && s.reenter <= 0
  }

  /** The end of a handler (idt.c:144-150 and 173-190). */
  function Exit(s: Sched): Sched
    requires Wellformed(s)
  {
    if s.need && CanSchedule(s) then
      var s1 := Saved(Preempted(s));
      assert List(s1, Ready) != [] ==> List(s1, Ready)[0] == s.running || Listed(s, Ready, List(s1, Ready)[0]);
      if List(s1, Ready) == [] then s1.(idle := true) else Dispatch(s1).(reenter := s.reenter - 1)
    else s.(reenter := s.reenter - 1)
  }

  /** Names of tasks only, where names of tasks belong. */
  ghost predicate Wellformed(s: Sched) {
    s.running in s.tasks && Ready in s.lists && Waiting in s.lists
    && (forall l, t :: Listed(s, l, t) ==> t in s.tasks)
  }

  /** t is in list l. */
  predicate Listed(s: Sched, l: ListName, t: Tid) {
    l in s.lists && t in s.lists[l]
  }

  /** The idle loop finds a ready task (task.c:94, 111-116) and its handler ends. */
  function Resume(s: Sched): Sched
    requires Wellformed(s) && List(s, Ready) != []
  {
    assert Listed(s, Ready, List(s, Ready)[0]);
    Dispatch(s).(reenter := s.reenter - 1)
  }

  // ---- timer.c --------------------------------------------------------------------------

  predicate Delayed(s: Sched, t: Tid) {
    t in s.tasks && TB_DELAY in s.tasks[t].waiting
  }

  /** The unsigned pre-decrement: a delay of 0 wraps around. */
  function OneLess(n: nat): nat {
    if n == 0 then TICKS - 1 else n - 1
  }

  predicate Expires(s: Sched, t: Tid) {
    Delayed(s, t) && OneLess(s.tasks[t].delay) == 0
  }

  /** Index of the first task whose delay runs out, or |q|. */
  function FirstExpiring(s: Sched, q: seq<Tid>): (i: nat)
    ensures i <= |q|
    ensures i < |q| ==> Expires(s, q[i])
    ensures forall j :: 0 <= j < i ==> !Expires(s, q[j])
  {
    if q == [] || Expires(s, q[0]) then 0 else 1 + FirstExpiring(s, q[1..])
  }

  function CountedTasks(s: Sched, q: seq<Tid>): map<Tid, Task> {
    map t | t in s.tasks ::
      if t in q && TB_DELAY in s.tasks[t].waiting then s.tasks[t].(delay := OneLess(s.tasks[t].delay)) else s.tasks[t]
  }

  /** One tick off the delay of the delayed tasks among q. */
  function Counted(s: Sched, q: seq<Tid>): Sched {
    s.(tasks := CountedTasks(s, q))
  }

  /** The tasks of tasks_wait that this tick gets to see: up to the first that it releases, because
      the walk goes on behind that one's new place in the ready list. */
  function Seen(s: Sched): seq<Tid> {
    if s.lock != 0 then []
    else
      var q := List(s, Waiting);
      var i := FirstExpiring(s, q);
      if i < |q| then q[..i + 1] else q
  }

  /** The task released by a tick, if any. */
  predicate Releases(s: Sched, t: Tid) {
    var q := Seen(s);
    q != [] && q[|q| - 1] == t && Expires(s, t)
  }

  function Tick(s: Sched): Sched {
    var q := Seen(s);
    var s1 := Counted(s, q);
    if q != [] && Expires(s, q[|q| - 1]) then Signal(s1, q[|q| - 1], {TB_DELAY}).(need := true)
    else s1.(need := true)
  }

  // ---- Steps ----------------------------------------------------------------------------

  datatype Op =
    | Computes(regs: Regs)
    | Forbids
    | Permits
    | CreatesTask(t: Tid, pri: int, regs: Regs)
    | CreatesList(l: ListName)
    | SetsDelay(n: nat)
    | Blocks(sigs: Sigs)
    | Queues(l: ListName)
    | Signals(t: Tid, sigs: Sigs)
    | Yields
    | Ticks
    | Enters
    | Exits
    | Resumes

  /** A handler is executing. */
  predicate InHandler(s: Sched) {
    s.reenter > 0 || (s.reenter == 0 && !s.idle)
  }

  /** The running task is executing, outside of wait. */
  predicate AtTask(s: Sched) {
    s.reenter == -1 && s.lock == 0 && s.running in s.tasks && s.tasks[s.running].ready
  }

  predicate Enabled(s: Sched, op: Op) {
    match op
    case Computes(_) => s.reenter == -1
    case Forbids => InHandler(s) || AtTask(s)
    case Permits => InHandler(s) || AtTask(s)
    case CreatesTask(t, _, _) => (InHandler(s) || AtTask(s)) && t !in s.tasks
    case CreatesList(l) => (InHandler(s) || AtTask(s)) && l !in s.lists
    case SetsDelay(n) => AtTask(s) && n < TICKS
    case Blocks(sigs) => AtTask(s) && sigs != {}
    case Queues(l) => s.reenter == -1 && s.lock > 0 && l in s.lists && l != Ready
    case Signals(t, _) => (InHandler(s) || AtTask(s)) && t in s.tasks
    case Yields => InHandler(s) || (s.reenter == -1 && s.lock == 0)
    case Ticks => InHandler(s)
    case Enters => true
    case Exits => InHandler(s)
    case Resumes => s.idle && s.reenter == 0 && List(s, Ready) != []
  }

  function Next(s: Sched, op: Op): Sched
    requires Wellformed(s) && Enabled(s, op)
  {
    match op
    case Computes(regs) => s.(cpu := regs)
    case Forbids => Forbid(s)
    case Permits => Permit(s)
    case CreatesTask(t, pri, regs) => CreateTask(s, t, pri, regs)
    case CreatesList(l) => s.(lists := s.lists[l := []])
    case SetsDelay(n) => SetTask(s, s.running, s.tasks[s.running].(delay := n))
    case Blocks(sigs) => BlockBegin(s, sigs)
    case Queues(l) => BlockEnd(s, l)
    case Signals(t, sigs) => Signal(s, t, sigs)
    case Yields => Yield(s)
    case Ticks => Tick(s)
    case Enters => s.(reenter := s.reenter + 1)
    case Exits => Exit(s)
    case Resumes => Resume(s)
  }

  /** kernel_main: one task on the CPU, both lists empty. */
  predicate Init(s: Sched) {
    && s.tasks.Keys == {s.running} && s.tasks[s.running].ready && s.tasks[s.running].run
    && s.tasks[s.running].waiting == {}
    && s.lists == map[Ready := [], Waiting := []]
    && !s.idle && s.forbid == 0 && s.lock == 0 && s.reenter == -1 && !s.need
  }
}
