/** The message queue on the machine, seen over whole histories: every call of queue.c is a step of
    QueueSpec, so that what holds over its runs holds of the code. */
module QueueMachine {
  import opened Lists
  import opened SchedSpec
  import opened SchedSafety
  import opened SchedRuns
  import opened SchedMachine
  import opened QueueWalk
  import opened QS = QueueSpec
  import MQ = MessageQueue

  /** The queue in state st of a run. */
  ghost predicate InState(queue: MQ.MessageQueue, st: State)
    reads queue, queue.msgs, queue.sched, queue.sched.mem
  {
    queue.Rep() && queue.V() == st.q && QS.Inv(st)
  }

  /** A place in memory for one more message, if it is to go in. */
  ghost predicate Room(queue: MQ.MessageQueue, node: int)
    reads queue, queue.msgs
  {
    queue.freeSlots > 0 ==> NodeInMemory(queue.msgs.w, queue.L, node) && forall n :: n in queue.nodes ==> Apart(n, node)
  }

  /** queue_send as a step: what goes in is the caller's first elem_sz bytes, and a call that has to
      wait is noted with them. */
  method CallSend(queue: MQ.MessageQueue, node: int, msg: Msg, blocking: bool, ghost st: State)
    returns (r: MQ.Outcome, ghost st': State)
    requires InState(queue, st) && MayCall(queue.sched.S(), blocking) && Room(queue, node)
    requires blocking ==> queue.sched.runningTask !in st.calls
    requires st.q.stored == [] && !Full(st.q) && Awaits(queue.sched.S(), queue.owner) ==>
               !OnCpu(queue.sched.S(), queue.owner)
    requires msg.Data? ==> |msg.bytes| >= queue.elemSz
    modifies queue`data, queue`nodes, queue`freeSlots, queue.msgs, queue.sched, queue.sched.mem
    ensures InState(queue, st') && (r.Done? || r.Away? <==> !Full(st.q)) && (r.Blocked? <==> Full(st.q) && blocking)
    ensures QS.Step(st, Send(old(queue.sched.runningTask), Kept(msg, queue.elemSz), blocking), st')
    ensures !Full(st.q) ==> queue.sched.S() == AfterSend(old(queue.sched.S()), queue.owner, st.q.stored == [])
    ensures r.Away? <==> !Full(st.q) && st.q.stored == [] && SwitchesAway(old(queue.sched.S()), queue.owner)
    ensures r.Blocked? ==> queue.sched.S() == AfterWait(Forbid(old(queue.sched.S())), queue.waiters)
  {
    ghost var t, m := queue.sched.runningTask, Kept(msg, queue.elemSz);
    r := queue.QueueSend(node, msg, blocking);
    st' := if !Full(st.q) then Put(st, m) else if blocking then st.(calls := st.calls[t := Sending(m)]) else st;
    StepKeeps(st, Send(t, m, blocking), st');
  }

  /** A blocked queue_send that runs again, as a step: it sends the message that it was blocked with. */
  method RetrySend(queue: MQ.MessageQueue, node: int, msg: Msg, ghost st: State)
    returns (r: MQ.Outcome, ghost st': State)
    requires InState(queue, st) && AtTask(queue.sched.S()) && Room(queue, node)
    requires msg.Data? ==> |msg.bytes| >= queue.elemSz
    requires var t := queue.sched.runningTask; t in st.calls && st.calls[t] == Sending(Kept(msg, queue.elemSz))
    modifies queue`data, queue`nodes, queue`freeSlots, queue.msgs, queue.sched, queue.sched.mem
    ensures InState(queue, st') && r == if Full(st.q) then MQ.Blocked else MQ.Done
    ensures QS.Step(st, Retry(old(queue.sched.runningTask)), st')
    ensures queue.sched.S() == if Full(st.q) then AfterWait(Forbid(old(queue.sched.S())), queue.waiters)
                               else old(queue.sched.S())
  {
    ghost var t, m := queue.sched.runningTask, Kept(msg, queue.elemSz);
    r := queue.SendAgain(node, msg);
    st' := if Full(st.q) then st else Put(st.(calls := st.calls - {t}), m);
    StepKeeps(st, Retry(t), st');
  }

  /** queue_recv as a step: what comes out is the oldest message not yet received. */
  method CallRecv(queue: MQ.MessageQueue, buf: seq<bv8>, blocking: bool, ghost st: State)
    returns (r: MQ.Outcome, out: seq<bv8>, at: Tid, ghost st': State)
    requires InState(queue, st) && MayCall(queue.sched.S(), blocking) && |buf| >= queue.elemSz
    requires blocking ==> queue.sched.runningTask !in st.calls
    requires Full(st.q) && !Empty(st.q) ==> !HitsCpu(queue.sched.S(), List(queue.sched.S(), queue.waiters))
    modifies queue`nodes, queue`freeSlots, queue.msgs, queue.sched, queue.sched.mem
    ensures InState(queue, st') && (r.Done? || r.Away? <==> !Empty(st.q)) && (r.Blocked? <==> Empty(st.q) && blocking)
    ensures QS.Step(st, Recv(old(queue.sched.runningTask), blocking), st')
    ensures queue.msgs.w.Keys == old(queue.msgs.w).Keys && queue.nodes <= old(queue.nodes)
    ensures !Empty(st.q) ==> queue.sched.S() == AfterRecv(old(queue.sched.S()), queue.waiters, Full(st.q))
    ensures r.Away? <==> !Empty(st.q) && Full(st.q)
                         && CutShort(old(queue.sched.S()), old(List(queue.sched.S(), queue.waiters)))
    ensures r.Away? ==>
              CutAt(Forbid(old(queue.sched.S())), old(List(queue.sched.S(), queue.waiters)), queue.sched.S(), at)
    ensures r.Blocked? ==> queue.sched.S() == AfterWait(Forbid(old(queue.sched.S())), Waiting)
    ensures !Empty(st.q) ==> |st.received| < |st.sent| && out == Filled(buf, st.sent[|st.received|], queue.elemSz)
  {
    ghost var t := queue.sched.runningTask;
    r, out, at := queue.QueueRecv(buf, blocking);
    st' := if !Empty(st.q) then Take(st) else if blocking then st.(calls := st.calls[t := Receiving]) else st;
    StepKeeps(st, Recv(t, blocking), st');
    if !Empty(st.q) {
      TakeKeeps(st);
    }
  }

  /** A blocked queue_recv that runs again, as a step. */
  method RetryRecv(queue: MQ.MessageQueue, buf: seq<bv8>, ghost st: State)
    returns (r: MQ.Outcome, out: seq<bv8>, ghost st': State)
    requires InState(queue, st) && AtTask(queue.sched.S()) && |buf| >= queue.elemSz
    requires var t := queue.sched.runningTask; t in st.calls && st.calls[t].Receiving?
    modifies queue`nodes, queue`freeSlots, queue.msgs, queue.sched, queue.sched.mem
    ensures InState(queue, st') && r == if Empty(st.q) then MQ.Blocked else MQ.Done
    ensures QS.Step(st, Retry(old(queue.sched.runningTask)), st')
    ensures queue.sched.S() == if Empty(st.q) then AfterWait(Forbid(old(queue.sched.S())), Waiting)
                               else old(queue.sched.S())
    ensures !Empty(st.q) ==> |st.received| < |st.sent| && out == Filled(buf, st.sent[|st.received|], queue.elemSz)
  {
    ghost var t := queue.sched.runningTask;
    r, out := queue.RecvAgain(buf);
    st' := if Empty(st.q) then st else Take(st.(calls := st.calls - {t}));
    StepKeeps(st, Retry(t), st');
    if !Empty(st.q) {
      TakeKeeps(st);
    }
  }

  // ---- Between the calls ----------------------------------------------------------------

  /** The rest of a call that was switched out touches the scheduler only: the queue is in the same state
      of its run. */
  method EndSend(queue: MQ.MessageQueue, ghost st: State)
    requires InState(queue, st) && AtTask(queue.sched.S())
    modifies queue.sched
    ensures InState(queue, st) && queue.sched.S() == Permit(old(queue.sched.S()))
  {
    queue.SendOn();
  }

  method EndRecv(queue: MQ.MessageQueue, at: Tid, ghost l: ListName, ghost k: nat, ghost st: State)
    returns (r: MQ.Outcome, at': Tid)
    requires InState(queue, st) && AtTask(queue.sched.S())
    requires l in queue.sched.lists && k < |queue.sched.lists[l]| && queue.sched.lists[l][k] == at
    modifies queue.sched, queue.sched.mem
    ensures InState(queue, st)
    ensures r == if CutShort(old(queue.sched.S()), old(Rest(queue.sched.S(), l, k + 1))) then MQ.Away else MQ.Done
    ensures queue.sched.S() == AfterWalk(old(queue.sched.S()), old(Rest(queue.sched.S(), l, k + 1)))
    ensures r.Away? ==> CutAt(old(queue.sched.S()), old(Rest(queue.sched.S(), l, k + 1)), queue.sched.S(), at')
  {
    r, at' := queue.RecvOn(at, l, k);
  }

  lemma StepNames(s: Sched, op: SchedSpec.Op)
    requires Wellformed(s) && Enabled(s, op)
    ensures s.tasks.Keys <= Next(s, op).tasks.Keys && s.lists.Keys <= Next(s, op).lists.Keys
  {
    match op
    case Ticks => var released, t := TickIs(s);
    case _ =>
  }

  /** So does everything else that happens on the machine between two calls: switches, ticks, signals and
      what other tasks do. */
  method Meanwhile(queue: MQ.MessageQueue, op: SchedSpec.Op, W: int, ghost st: State)
    requires InState(queue, st) && Enabled(queue.sched.S(), op) && Provided(queue.sched, op, W)
    requires Guard(queue.sched.S(), op) && OneBitOp(op)
    modifies queue.sched, queue.sched.mem
    ensures InState(queue, st) && SchedRuns.Step(old(queue.sched.S()), op, queue.sched.S())
  {
    StepNames(queue.sched.S(), op);
    Perform(queue.sched, op, W);
  }
}
