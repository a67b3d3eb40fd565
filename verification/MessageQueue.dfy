/** queue.c on the machine: message nodes on an intrusive list, callers blocked and woken through the
    scheduler. Message nodes and task nodes lie in separate parts of memory. */
module MessageQueue {
  import opened Lists
  import opened SchedSpec
  import opened SchedSafety
  import opened SchedRuns
  import opened QueueWalk
  import Scheduler
  import TaskLists
  import QS = QueueSpec

  /** What a stretch of queue_send or queue_recv ends with: success, NULL, a wait, or a signal that
      has switched away from the caller. */
  datatype Outcome = Done | Failed | Blocked | Away

  /** The messages of a list, from head to tail. */
  function Messages(nodes: seq<int>, data: map<int, QS.Msg>): (r: seq<QS.Msg>)
    requires forall n :: n in nodes ==> n in data
    ensures |r| == |nodes|
  {
    if nodes == [] then []
    else
      var n := nodes[0];
      assert n in nodes;
      [data[n]] + Messages(nodes[1..], data)
  }

  lemma {:induction false} MessageAt(nodes: seq<int>, data: map<int, QS.Msg>, k: nat)
    requires k < |nodes| && forall n :: n in nodes ==> n in data
    ensures Messages(nodes, data)[k] == data[nodes[k]]
    ensures Messages(nodes[..k], data) == Messages(nodes, data)[..k]
  {
    if k > 0 {
      MessageAt(nodes[1..], data, k - 1);
      assert nodes[..k][1..] == nodes[1..][..k - 1];
    }
  }

  lemma {:induction false} NewDataElsewhere(nodes: seq<int>, data: map<int, QS.Msg>, node: int, m: QS.Msg)
    requires node !in nodes && forall n :: n in nodes ==> n in data
    ensures Messages(nodes, data[node := m]) == Messages(nodes, data)
  {
    if nodes != [] {
      NewDataElsewhere(nodes[1..], data, node, m);
    }
  }

  class MessageQueue {
    const sched: Scheduler.Scheduler
    const msgs: Memory
    /** Address of msg_list, the queue's first member. */
    const L: int
    /** The list of blocked senders, in the scheduler. */
    const waiters: ListName
    var freeSlots: nat
    var maxSlots: nat
    var elemSz: nat
    var owner: Tid
    /** What data_ptr of each message node refers to. */
    var data: map<int, QS.Msg>
    ghost var nodes: seq<int>

    ghost predicate Rep()
      reads this, msgs, sched, sched.mem
    {
      && sched.Rep() && Orderly(sched.S()) && msgs != sched.mem
      && waiters in sched.lists && waiters != Ready && owner in sched.tasks
      && MsgsOk()
    }

    /** The message list is in memory, with data for every message, and free_slots counts the rest. */
    ghost predicate MsgsOk()
      reads this, msgs
    {
      IsList(msgs.w, L, nodes) && (forall n :: n in nodes ==> n in data) && freeSlots + |nodes| == maxSlots
    }

    ghost function V(): QS.Queue
      requires forall n :: n in nodes ==> n in data
      reads this
    {
      QS.Queue(freeSlots, maxSlots, elemSz, Messages(nodes, data))
    }

    /** create_queue */
    constructor (
        sched: Scheduler.Scheduler, msgs: Memory, L: int, waiters: ListName, W: int, slots: nat, size: nat)
      requires sched.Rep() && Orderly(sched.S()) && msgs != sched.mem && AtTask(sched.S())
      requires HeadInMemory(msgs.w, L) && HeadInMemory(sched.mem.w, W)
      requires waiters !in sched.lists && waiters != Ready
      requires TaskLists.Layout(sched.tasks.Keys, sched.heads[waiters := W])
      modifies msgs, sched, sched.mem
      ensures Rep() && V() == QS.NewQueue(slots, size) && owner == sched.runningTask
      ensures this.sched == sched && this.msgs == msgs && this.L == L && this.waiters == waiters
      ensures sched.S() == Next(old(sched.S()), CreatesList(waiters))
    {
      this.sched, this.msgs, this.L, this.waiters := sched, msgs, L, waiters;
      freeSlots, maxSlots, elemSz, owner := slots, slots, size, sched.runningTask;
      data, nodes := map[], [];
      new;
      ghost var s := sched.S();
      sched.Forbid();
      msgs.NewList(L);
      sched.NewTaskList(waiters, W);
      sched.Permit();
      CreateKeepsOrder(s, waiters);
    }

    /** A new node with its copy of the caller's data (queue.c:41-59 and 71-87). */
    method AddMessage(node: int, msg: QS.Msg)
      requires MsgsOk() && freeSlots > 0 && NodeInMemory(msgs.w, L, node) && forall n :: n in nodes ==> Apart(n, node)
      requires msg.Data? ==> |msg.bytes| >= elemSz
      modifies `data, `nodes, `freeSlots, msgs
      ensures MsgsOk() && V() == QS.Accept(old(V()), QS.Kept(msg, elemSz))
    {
      assert node !in nodes;
      NewDataElsewhere(nodes, data, node, QS.Kept(msg, elemSz));
      data := data[node := if msg.Data? then QS.Data(msg.bytes[..elemSz]) else QS.NoData];
      msgs.AddHead(L, node, nodes);
      nodes := [node] + nodes;
      freeSlots := freeSlots - 1;
      assert nodes[1..] == old(nodes);
    }

    /** The oldest message, copied out (queue.c:100-106 and 122-128). */
    method TakeMessage(buf: seq<bv8>) returns (r: seq<bv8>)
      requires MsgsOk() && nodes != [] && |buf| >= elemSz
      modifies `nodes, `freeSlots, msgs
      ensures MsgsOk() && V() == QS.Deliver(old(V())) && r == QS.Filled(buf, QS.Oldest(old(V())), elemSz)
      ensures msgs.w.Keys == old(msgs.w).Keys && nodes <= old(nodes)
    {
      MessageAt(nodes, data, |nodes| - 1);
      var msg, fault := msgs.RemoveTail(L, nodes);
      r := if data[msg].Data? then data[msg].bytes + buf[elemSz..] else buf;
      nodes := nodes[..|nodes| - 1];
      freeSlots := freeSlots + 1;
    }

    lemma Settled(s: Sched)
      requires Orderly(s) && sched.S() == s
      ensures Orderly(sched.S())
    {
    }

    /** queue_send, up to its end, its first wait, or the switch to its owner. */
    method QueueSend(node: int, msg: QS.Msg, blocking: bool) returns (r: Outcome)
      requires Rep() && MayCall(sched.S(), blocking)
      requires V().stored == [] && !QS.Full(V()) && Awaits(sched.S(), owner) ==> !OnCpu(sched.S(), owner)
      requires !QS.Full(V()) ==> NodeInMemory(msgs.w, L, node) && forall n :: n in nodes ==> Apart(n, node)
      requires msg.Data? ==> |msg.bytes| >= elemSz
      modifies `data, `nodes, `freeSlots, msgs, sched, sched.mem
      ensures Rep()
      ensures r == if QS.Full(old(V())) then if blocking then Blocked else Failed
                   else if old(V()).stored == [] && SwitchesAway(old(sched.S()), owner) then Away else Done
      ensures r.Done? || r.Away? ==> V() == QS.Accept(old(V()), QS.Kept(msg, elemSz))
                                     && sched.S() == AfterSend(old(sched.S()), owner, old(V()).stored == [])
      ensures r.Failed? ==> V() == old(V()) && sched.S() == Forbid(old(sched.S()))
      ensures r.Blocked? ==> V() == old(V()) && sched.S() == AfterWait(Forbid(old(sched.S())), waiters)
    {
      ghost var s := sched.S();
      ForbidOrderly(s);
      sched.Forbid();
      if freeSlots > 0 {
        ghost var first := freeSlots == maxSlots;
        SendKeeps(s, owner, first);
        var away := SendNow(node, msg);
        Settled(AfterSend(s, owner, first));
        return if away then Away else Done;
      }
      r := NotNow(blocking, waiters);
    }

    /** What becomes of a call that cannot be served at once: the failed one has no permit(). */
    method NotNow(blocking: bool, l: ListName) returns (r: Outcome)
      requires Rep() && (blocking ==> AtTask(sched.S())) && l in sched.lists && l != Ready
      modifies sched, sched.mem
      ensures Rep() && r == if blocking then Blocked else Failed
      ensures sched.S() == if blocking then AfterWait(old(sched.S()), l) else old(sched.S())
    {
      if !blocking {
        return Failed;
      }
      Wait(l);
      return Blocked;
    }

    /** The send of a message that finds room: the first one is announced to the owner. */
    method SendNow(node: int, msg: QS.Msg) returns (away: bool)
      requires MsgsOk() && freeSlots > 0 && NodeInMemory(msgs.w, L, node) && forall n :: n in nodes ==> Apart(n, node)
      requires msg.Data? ==> |msg.bytes| >= elemSz
      requires sched.Rep() && msgs != sched.mem && owner in sched.tasks
      requires nodes == [] && {TB_QUEUE} * sched.tasks[owner].waiting != {} ==> InSomeList(sched.S(), owner)
      modifies `data, `nodes, `freeSlots, msgs, sched, sched.mem
      ensures MsgsOk() && sched.Rep() && V() == QS.Accept(old(V()), QS.Kept(msg, elemSz))
      ensures away == (old(V()).stored == [] && SwitchesAway(old(sched.S()), owner))
      ensures sched.S() == Permitted(if old(V()).stored == [] then Wake(old(sched.S()), owner)
                                     else old(sched.S()), away)
    {
      AddMessage(node, msg);
      away := false;
      if freeSlots + 1 == maxSlots {
        away := WakeTask(owner);
      }
      if !away {
        sched.Permit();
      }
    }

    /** The rest of a queue_send that was switched out, once its caller runs again. */
    method SendOn()
      requires Rep() && AtTask(sched.S())
      modifies sched
      ensures Rep() && V() == old(V()) && sched.S() == Permit(old(sched.S()))
    {
      ForbidOrderly(sched.S());
      sched.Permit();
    }

    /** queue_send once a blocked caller runs again (queue.c:69-89): it looks again, and either sends,
        without telling the owner, or waits again. */
    method SendAgain(node: int, msg: QS.Msg) returns (r: Outcome)
      requires Rep() && AtTask(sched.S())
      requires !QS.Full(V()) ==> NodeInMemory(msgs.w, L, node) && forall n :: n in nodes ==> Apart(n, node)
      requires msg.Data? ==> |msg.bytes| >= elemSz
      modifies `data, `nodes, `freeSlots, msgs, sched, sched.mem
      ensures Rep() && r == if !QS.Full(old(V())) then Done else Blocked
      ensures r.Done? ==> V() == QS.Accept(old(V()), QS.Kept(msg, elemSz)) && sched.S() == old(sched.S())
      ensures r.Blocked? ==> V() == old(V()) && sched.S() == AfterWait(Forbid(old(sched.S())), waiters)
    {
      ForbidOrderly(sched.S());
      sched.Forbid();
      if freeSlots == 0 {
        Wait(waiters);
        return Blocked;
      }
      AddMessage(node, msg);
      sched.Permit();
      return Done;
    }

    /** queue_recv, up to its end, its first wait, or the switch to a sender. A caller that finds the
        queue full wakes a blocked sender: `at`, if that switches away. */
    method QueueRecv(buf: seq<bv8>, blocking: bool) returns (r: Outcome, out: seq<bv8>, at: Tid)
      requires Rep() && MayCall(sched.S(), blocking) && |buf| >= elemSz
      requires QS.Full(V()) && !QS.Empty(V()) ==> !HitsCpu(sched.S(), List(sched.S(), waiters))
      modifies `nodes, `freeSlots, msgs, sched, sched.mem
      ensures Rep()
      ensures r == if QS.Empty(old(V())) then if blocking then Blocked else Failed
                   else if QS.Full(old(V())) && CutShort(old(sched.S()), old(List(sched.S(), waiters))) then Away
                   else Done
      ensures r.Done? || r.Away? ==> old(V()).stored != [] && V() == QS.Deliver(old(V()))
                                     && out == QS.Filled(buf, QS.Oldest(old(V())), elemSz)
                                     && sched.S() == AfterRecv(old(sched.S()), waiters, QS.Full(old(V())))
      ensures r.Away? ==> CutAt(Forbid(old(sched.S())), old(List(sched.S(), waiters)), sched.S(), at)
      ensures r.Failed? || r.Blocked? ==> V() == old(V()) && out == buf
      ensures r.Failed? ==> sched.S() == Forbid(old(sched.S()))
      ensures r.Blocked? ==> sched.S() == AfterWait(Forbid(old(sched.S())), Waiting)
      ensures msgs.w.Keys == old(msgs.w).Keys && nodes <= old(nodes)
    {
      ghost var s := sched.S();
      ForbidOrderly(s);
      sched.Forbid();
      if freeSlots < maxSlots {
        ghost var full := freeSlots == 0;
        RecvKeeps(s, waiters, full);
        ForbidAwaits(s, List(s, waiters));
        var away;
        out, away, at := RecvNow(buf);
        Settled(AfterRecv(s, waiters, full));
        return if away then Away else Done, out, at;
      }
      out, at := buf, NULL;
      r := NotNow(blocking, Waiting);
    }

    method RecvNow(buf: seq<bv8>) returns (out: seq<bv8>, away: bool, at: Tid)
      requires MsgsOk() && nodes != [] && |buf| >= elemSz
      requires sched.Rep() && msgs != sched.mem && waiters in sched.lists && Orderly(sched.S())
      modifies `nodes, `freeSlots, msgs, sched, sched.mem
      ensures MsgsOk() && sched.Rep() && V() == QS.Deliver(old(V()))
      ensures out == QS.Filled(buf, QS.Oldest(old(V())), elemSz)
      ensures msgs.w.Keys == old(msgs.w).Keys && nodes <= old(nodes)
      ensures away == (QS.Full(old(V())) && CutShort(old(sched.S()), old(List(sched.S(), waiters))))
      ensures away ==> CutAt(old(sched.S()), old(List(sched.S(), waiters)), sched.S(), at)
      ensures sched.S() == if QS.Full(old(V())) then AfterWalk(old(sched.S()), old(List(sched.S(), waiters)))
                           else Permit(old(sched.S()))
    {
      out := TakeMessage(buf);
      away, at := false, NULL;
      if freeSlots - 1 == 0 {
        var head := sched.HeadOf(waiters);
        away, at := WakeFrom(head, waiters, 0);
        assert Rest(old(sched.S()), waiters, 0) == old(List(sched.S(), waiters));
      }
      if !away {
        sched.Permit();
      }
    }

    /** The rest of a queue_recv that was switched out when it woke `at`, once its caller runs again
        and finds `at` at place k of list l: the walk goes on behind it there. */
    method RecvOn(at: Tid, ghost l: ListName, ghost k: nat) returns (r: Outcome, at': Tid)
      requires Rep() && AtTask(sched.S()) && l in sched.lists && k < |sched.lists[l]| && sched.lists[l][k] == at
      modifies sched, sched.mem
      ensures Rep() && V() == old(V())
      ensures r == if CutShort(old(sched.S()), old(Rest(sched.S(), l, k + 1))) then Away else Done
      ensures sched.S() == AfterWalk(old(sched.S()), old(Rest(sched.S(), l, k + 1)))
      ensures r.Away? ==> CutAt(old(sched.S()), old(Rest(sched.S(), l, k + 1)), sched.S(), at')
    {
      ghost var s, q := sched.S(), Rest(sched.S(), l, k + 1);
      CallerAwaitsNothing(s, sched.runningTask);
      WokenOrderly(s, q);
      WokenNames(s, q);
      var away;
      away, at' := WalkOn(at, l, k);
      Settled(AfterWalk(s, q));
      r := if away then Away else Done;
    }

    /** The walk behind task `at`, and permit() unless it is cut. */
    method WalkOn(at: Tid, ghost l: ListName, ghost k: nat) returns (away: bool, at': Tid)
      requires sched.Rep() && Orderly(sched.S()) && l in sched.lists
      requires k < |sched.lists[l]| && sched.lists[l][k] == at
      modifies sched, sched.mem
      ensures sched.Rep() && sched.S() == AfterWalk(old(sched.S()), old(Rest(sched.S(), l, k + 1)))
      ensures away == CutShort(old(sched.S()), old(Rest(sched.S(), l, k + 1)))
      ensures away ==> CutAt(old(sched.S()), old(Rest(sched.S(), l, k + 1)), sched.S(), at')
    {
      var next := sched.NextOf(at, l, k);
      away, at' := WakeFrom(next, l, k + 1);
      if !away {
        sched.Permit();
      }
    }

    /** queue_recv once a blocked caller runs again (queue.c:120-130); it wakes no sender. */
    method RecvAgain(buf: seq<bv8>) returns (r: Outcome, out: seq<bv8>)
      requires Rep() && AtTask(sched.S()) && |buf| >= elemSz
      modifies `nodes, `freeSlots, msgs, sched, sched.mem
      ensures Rep() && r == if !QS.Empty(old(V())) then Done else Blocked
      ensures r.Done? ==> old(V()).stored != [] && V() == QS.Deliver(old(V()))
                          && out == QS.Filled(buf, QS.Oldest(old(V())), elemSz) && sched.S() == old(sched.S())
      ensures r.Blocked? ==> V() == old(V()) && out == buf
                             && sched.S() == AfterWait(Forbid(old(sched.S())), Waiting)
    {
      ForbidOrderly(sched.S());
      sched.Forbid();
      if freeSlots == maxSlots {
        Wait(Waiting);
        return Blocked, buf;
      }
      out := TakeMessage(buf);
      sched.Permit();
      return Done, out;
    }

    /** The loop over the blocked senders, from `aux` at place k of list l, up to its end or to the
        signal that switches away. */
    method WakeFrom(head: int, ghost l: ListName, ghost k: nat) returns (away: bool, at: Tid)
      requires sched.Rep() && Orderly(sched.S()) && l in sched.lists && k <= |sched.lists[l]|
      requires head == NodeAt(sched.lists[l], k)
      modifies sched, sched.mem
      ensures sched.Rep() && sched.S() == Woken(old(sched.S()), old(Rest(sched.S(), l, k)))
      ensures away == CutShort(old(sched.S()), old(Rest(sched.S(), l, k)))
      ensures away ==> CutAt(old(sched.S()), old(Rest(sched.S(), l, k)), sched.S(), at)
    {
      ghost var s, released: bool, i: nat := sched.S(), false, k;
      WakeStart(s, l, k);
      var aux := head;
      AtEnd(s, l, k, released, i);
      while aux != NULL
        invariant sched.Rep() && WakeState(s, l, k, sched.S(), released, i)
        invariant aux == NodeAt(List(sched.S(), WalkList(l, released)), i)
        invariant aux != NULL <==> i < |List(sched.S(), WalkList(l, released))|
        invariant !released ==> i <= |s.lists[l]| && List(sched.S(), l) == s.lists[l]
        decreases !released, (if released then |List(sched.S(), Ready)| else |s.lists[l]|) - i
      {
        var next;
        ghost var c;
        away, next, c, released, i := WakeOne(aux, s, l, k, released, i);
        if away {
          return true, aux;
        }
        aux := next;
        AtEnd(s, l, k, released, i);
      }
      WakeDone(s, l, k, sched.S(), released, i);
      return false, NULL;
    }

    method WakeOne(aux: Tid, ghost s: Sched, ghost l: ListName, ghost k: nat, ghost released: bool, ghost i: nat)
      returns (away: bool, next: int, ghost c: Sched, ghost released': bool, ghost i': nat)
      requires sched.Rep() && Orderly(s) && l in s.lists && k <= |s.lists[l]|
      requires WakeState(s, l, k, sched.S(), released, i) && i < |List(sched.S(), WalkList(l, released))|
      requires List(sched.S(), WalkList(l, released))[i] == aux
      modifies sched, sched.mem
      ensures sched.Rep() && sched.S() == c && (away ==> CutAt(s, Rest(s, l, k), c, aux))
      ensures !away ==> WakeState(s, l, k, c, released', i') && next == NodeAt(List(c, WalkList(l, released')), i')
      ensures !away ==> if released then released' && i' == i + 1 && c == old(sched.S()) else released' || i' == i + 1
    {
      ghost var j;
      c, released', j := WakeRound(s, l, k, sched.S(), released, i, aux);
      i' := j + 1;
      away, next := WakeAndGo(aux, c, WalkList(l, released'), j);
    }

    /** The signal to a task, and the step to the next one, at place j of list l afterwards. */
    method WakeAndGo(aux: Tid, ghost c: Sched, ghost l: ListName, ghost j: nat) returns (away: bool, next: int)
      requires sched.Rep() && aux in sched.tasks && InSomeList(sched.S(), aux) && c == Wake(sched.S(), aux)
      requires !SwitchesAway(sched.S(), aux) ==> j < |List(c, l)| && List(c, l)[j] == aux
      modifies sched, sched.mem
      ensures sched.Rep() && sched.S() == c && away == SwitchesAway(old(sched.S()), aux)
      ensures !away ==> next == NodeAt(List(c, l), j + 1)
    {
      away := WakeTask(aux);
      next := NULL;
      if !away {
        next := sched.NextOf(aux, l, j);
      }
    }

    /** A signal for the queue; `away` if it has switched away from the caller. */
    method WakeTask(t: Tid) returns (away: bool)
      requires sched.Rep() && t in sched.tasks
      requires {TB_QUEUE} * sched.tasks[t].waiting != {} ==> InSomeList(sched.S(), t)
      modifies sched, sched.mem
      ensures sched.Rep() && sched.S() == Wake(old(sched.S()), t) && away == SwitchesAway(old(sched.S()), t)
    {
      LevelTells(sched.S(), t);
      var level := sched.kReenter;
      var delivered := sched.Signal(t, {TB_QUEUE});
      away := level == -1 && sched.kReenter == 0;
    }

    /** The walk ends with NULL, past the last task. */
    lemma AtEnd(s: Sched, l: ListName, k: nat, released: bool, i: nat)
      requires sched.Rep() && WakeState(s, l, k, sched.S(), released, i) && l in s.lists && k <= |s.lists[l]|
      ensures NodeAt(List(sched.S(), WalkList(l, released)), i) != NULL <==>
              i < |List(sched.S(), WalkList(l, released))|
      ensures !released ==> i <= |s.lists[l]| && List(sched.S(), l) == s.lists[l]
    {
      if !released {
        WaitersAre(s, l, k, sched.S(), i);
      }
      if i < |List(sched.S(), WalkList(l, released))| {
        TaskLists.TaskInMemory(sched.mem.w, sched.heads, sched.S(), WalkList(l, released), i);
      }
    }

    /** wait(TB_QUEUE, l) */
    method Wait(l: ListName)
      requires Rep() && AtTask(sched.S()) && l in sched.lists && l != Ready
      modifies sched, sched.mem
      ensures Rep() && sched.S() == AfterWait(old(sched.S()), l)
    {
      WaitKeeps(sched.S(), l);
      var ok := sched.WaitMark({TB_QUEUE});
      sched.WaitQueue(l);
      sched.YieldCall();
    }
  }
}
