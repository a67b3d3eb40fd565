/** The walk of queue_recv over the blocked senders (queue.c:107-111), and what the calls of queue.c
    make of the scheduler's state.

    signal() ends with a yield when the signalled task's priority is not below the caller's. In a
    handler that is a nested call which returns at once; from a task it switches away, and the walk
    goes on when the caller is dispatched again, from wherever the signalled task is by then. */
module QueueWalk {
  import opened Lists
  import opened Markers
  import opened SchedSpec
  import opened SchedSafety
  import opened SchedRuns
  import opened SchedOrder
  import opened SchedTicks
  import opened TimerWalk

  predicate Awaits(s: Sched, t: Tid) {
    t in s.tasks && TB_QUEUE in s.tasks[t].waiting
  }

  /** Index of the first task that waits for TB_QUEUE, or |q|. */
  function FirstAwaiting(s: Sched, q: seq<Tid>): (i: nat)
    ensures i <= |q|
    ensures i < |q| ==> Awaits(s, q[i])
    ensures forall j :: 0 <= j < i ==> !Awaits(s, q[j])
  {
    if q == [] || Awaits(s, q[0]) then 0 else 1 + FirstAwaiting(s, q[1..])
  }

  function Wake(s: Sched, t: Tid): Sched
    requires t in s.tasks
  {
    Signal(s, t, {TB_QUEUE})
  }

  /** What a walk over q comes to, up to its end or to the switch that cuts it short: it wakes one
      sender only, because it goes on from there in the ready list, where nobody waits. */
  function Woken(s: Sched, q: seq<Tid>): Sched {
    var n := FirstAwaiting(s, q);
    if n < |q| then Wake(s, q[n]) else s
  }

  /** A signal to t switches away from the caller. */
  predicate SwitchesAway(s: Sched, t: Tid) {
    Awaits(s, t) && s.reenter == -1 && Pri(s, s.running) <= Pri(s, t)
  }

  /** The walk over q ends in such a switch. */
  predicate CutShort(s: Sched, q: seq<Tid>) {
    var n := FirstAwaiting(s, q);
    n < |q| && SwitchesAway(s, q[n])
  }

  /** The walk over q would signal the task on the CPU. */
  predicate HitsCpu(s: Sched, q: seq<Tid>) {
    var n := FirstAwaiting(s, q);
    n < |q| && OnCpu(s, q[n])
  }

  /** The tasks of list l from place k on. */
  function Rest(s: Sched, l: ListName, k: nat): seq<Tid> {
    if k <= |List(s, l)| then List(s, l)[k..] else []
  }

  /** permit(), which a call that has switched away comes to only later. */
  function Permitted(s: Sched, away: bool): Sched {
    if away then s else Permit(s)
  }

  /** A walk over q, and permit(). */
  function AfterWalk(s: Sched, q: seq<Tid>): Sched {
    Permitted(Woken(s, q), CutShort(s, q))
  }

  /** The scheduler after a send that found room: the owner is told of the first message. */
  function AfterSend(s: Sched, owner: Tid, first: bool): Sched
    requires owner in s.tasks
  {
    if first then Permitted(Wake(Forbid(s), owner), SwitchesAway(s, owner)) else Permit(Forbid(s))
  }

  /** ... after a receive that found a message: a blocked sender is woken if the queue was full. */
  function AfterRecv(s: Sched, waiters: ListName, full: bool): Sched {
    if full then AfterWalk(Forbid(s), List(s, waiters)) else Permit(Forbid(s))
  }

  /** ... and after the wait of a blocked call on list l, up to the end of its yield system call. */
  function AfterWait(s: Sched, l: ListName): Sched
    requires s.running in s.tasks
  {
    Yield(BlockEnd(BlockBegin(s, {TB_QUEUE}), l))
  }

  /** The call comes from a task, or, if it need not block, from a handler. */
  predicate MayCall(s: Sched, blocking: bool) {
    AtTask(s) || (!blocking && InHandler(s))
  }

  // ---- What a walk does -----------------------------------------------------------------

  /** c is s with task t made ready and handed the queue's bit. */
  ghost predicate WokenAlone(s: Sched, c: Sched, t: Tid) {
    && c.tasks.Keys == s.tasks.Keys && t in c.tasks
    && c.tasks[t].ready && TB_QUEUE in c.tasks[t].recvd && c.tasks[t].waiting == {}
    && (forall u :: u in s.tasks && u != t ==> c.tasks[u] == s.tasks[u])
    && (forall l, u :: Listed(c, l, u) <==> if u == t then l == Ready else Listed(s, l, u))
  }

  /** The first task of q that waits for the queue becomes ready with its bit, and the walk leaves
      every other task where it is and as it is. */
  lemma OnlyFirstWoken(s: Sched, q: seq<Tid>)
    requires Filed(s) && OneBit(s) && FirstAwaiting(s, q) < |q|
    ensures WokenAlone(s, Woken(s, q), q[FirstAwaiting(s, q)])
  {
    var t := q[FirstAwaiting(s, q)];
    BitDelivered(s.tasks[t]);
    ReleaseLists(s, t, {TB_QUEUE});
    SameLists(Release(s, t, {TB_QUEUE}), Woken(s, q));
  }

  lemma BitDelivered(k: Task)
    requires OneBitTask(k) && TB_QUEUE in k.waiting
    ensures {TB_QUEUE} * k.waiting != {} && k.waiting - {TB_QUEUE} == {}
  {
    assert TB_QUEUE in {TB_QUEUE} * k.waiting;
    assert forall a :: a in k.waiting ==> a == TB_QUEUE;
  }

  /** The switch that cuts a walk short takes the caller off the CPU: the woken task, or another that
      is not below it, goes first. */
  lemma CallerSwitchedOut(s: Sched, q: seq<Tid>)
    requires Good(s) && AtTask(s) && CutShort(s, q)
    ensures var c := Woken(s, q);
            Wellformed(c) && InHandler(c) && Exit(c).running != s.running && Listed(Exit(c), Ready, s.running)
  {
    var t, c := q[FirstAwaiting(s, q)], Woken(s, q);
    assert OneBitTask(s.tasks[s.running]);
    StepGood(s, Signals(t, {TB_QUEUE}));
    OnlyFirstWoken(s, q);
    var ready := List(c, Ready);
    var k := PlaceIn(ready, t);
    assert Pris(c, ready)[0] >= Pris(c, ready)[k];
    assert !Listed(c, Ready, c.running) by { assert OnCpu(c, c.running); }
    PreemptedHead(c);
  }

  lemma PreemptedHead(c: Sched)
    requires Good(c) && InHandler(c) && !c.idle && c.lock == 0 && c.need && CanSchedule(c)
    requires c.tasks[c.running].ready && !Listed(c, Ready, c.running) && List(c, Ready) != []
    requires Pri(c, c.running) <= Pri(c, List(c, Ready)[0])
    ensures Exit(c).running != c.running && Listed(Exit(c), Ready, c.running)
  {
    var ready, s1 := List(c, Ready), Saved(Preempted(c));
    SameSorted(c, c.(need := false));
    SlotKeepsOrder(Pris(c, ready), Pri(c, c.running));
    assert Pris(c, ready)[0] == Pri(c, ready[0]);
    assert List(s1, Ready)[0] == ready[0] && Listed(c, Ready, ready[0]);
    assert c.running in List(s1, Ready)[1..];
  }

  // ---- The walk, one task at a time -----------------------------------------------------

  /** State c is s with the walk come to place i: of list l, where it began at place k, or of the ready
      list once it has woken a task without being cut short. */
  ghost predicate WakeBody(s: Sched, l: ListName, k: nat, c: Sched, released: bool, i: nat) {
    var q := Rest(s, l, k);
    var n := FirstAwaiting(s, q);
    if released then n < |q| && c == Woken(s, q) && !CutShort(s, q) && i <= |List(c, Ready)|
    else k <= i <= k + n && c == s
  }

  /** WakeBody, out of the verifier's sight where Opened is not mentioned for i. */
  ghost predicate WakeState(s: Sched, l: ListName, k: nat, c: Sched, released: bool, i: nat) {
    forall m {:trigger Opened(m, i)} :: Opened(m, i) ==> WakeBody(s, l, k, c, released, i)
  }

  function WalkList(l: ListName, released: bool): ListName {
    if released then Ready else l
  }

  /** The walk is cut short at task t, in state c. */
  ghost predicate CutAt(s: Sched, q: seq<Tid>, c: Sched, t: Tid) {
    c == Woken(s, q) && CutShort(s, q) && t == q[FirstAwaiting(s, q)]
  }

  lemma WokenOk(s: Sched, q: seq<Tid>)
    requires Filed(s) && OneBit(s) && FirstAwaiting(s, q) < |q|
    ensures var c, t := Woken(s, q), q[FirstAwaiting(s, q)];
            Filed(c) && OneBit(c) && Listed(c, Ready, t)
  {
    var t := q[FirstAwaiting(s, q)];
    assert TB_QUEUE in {TB_QUEUE} * s.tasks[t].waiting;
    SignalOneBit(s, t, {TB_QUEUE});
    ReleaseFiles(s, t, {TB_QUEUE});
    SameLists(Release(s, t, {TB_QUEUE}), Signal(s, t, {TB_QUEUE}));
  }

  /** A task that does not wait takes no notice. */
  lemma NoNotice(s: Sched, t: Tid)
    requires t in s.tasks && !Awaits(s, t)
    ensures Wake(s, t) == s && !SwitchesAway(s, t)
  {
    assert {TB_QUEUE} * s.tasks[t].waiting == {};
  }

  /** Where the walk stands, as long as it has woken nobody. */
  lemma StandsAt(s: Sched, l: ListName, k: nat, c: Sched, i: nat, t: Tid)
    requires Orderly(s) && l in s.lists && k <= |s.lists[l]| && WakeState(s, l, k, c, false, i)
    requires i < |s.lists[l]| && s.lists[l][i] == t
    ensures c == s && t in s.tasks && InSomeList(s, t)
    ensures var q := Rest(s, l, k); Awaits(s, t) <==> FirstAwaiting(s, q) < |q| && t == q[FirstAwaiting(s, q)]
    ensures !Awaits(s, t) ==> WakeState(s, l, k, s, false, i + 1)
  {
    var q := Rest(s, l, k);
    assert Opened(0, i) && Opened(0, s) && Listed(s, l, t) && q[i - k] == t;
  }

  lemma FirstReleased(s: Sched, l: ListName, k: nat, t: Tid) returns (j: nat)
    requires Orderly(s) && t in s.tasks && !SwitchesAway(s, t)
    requires var q := Rest(s, l, k); FirstAwaiting(s, q) < |q| && t == q[FirstAwaiting(s, q)]
    ensures var c := Wake(s, t);
            j < |List(c, Ready)| && List(c, Ready)[j] == t && WakeState(s, l, k, c, true, j + 1)
  {
    assert Opened(0, s);
    WokenOk(s, Rest(s, l, k));
    j := PlaceIn(List(Wake(s, t), Ready), t);
  }

  lemma WakeInList(s: Sched, l: ListName, k: nat, c: Sched, i: nat, t: Tid)
    returns (c': Sched, released: bool, j: nat)
    requires Orderly(s) && l in s.lists && k <= |s.lists[l]| && WakeState(s, l, k, c, false, i)
    requires i < |s.lists[l]| && s.lists[l][i] == t
    ensures t in c.tasks && InSomeList(c, t) && c' == Wake(c, t)
    ensures SwitchesAway(c, t) ==> CutAt(s, Rest(s, l, k), c', t)
    ensures !SwitchesAway(c, t) ==>
              j < |List(c', WalkList(l, released))| && List(c', WalkList(l, released))[j] == t
              && WakeState(s, l, k, c', released, j + 1) && (released || j == i)
  {
    StandsAt(s, l, k, c, i, t);
    released, j, c' := Awaits(s, t), i, Wake(s, t);
    if !released {
      NoNotice(s, t);
    } else if !SwitchesAway(s, t) {
      j := FirstReleased(s, l, k, t);
    }
  }

  lemma WakeInReady(s: Sched, l: ListName, k: nat, c: Sched, i: nat, t: Tid)
    requires Orderly(s) && WakeState(s, l, k, c, true, i) && i < |List(c, Ready)| && List(c, Ready)[i] == t
    ensures t in c.tasks && InSomeList(c, t) && c == Wake(c, t) && !SwitchesAway(c, t)
    ensures WakeState(s, l, k, c, true, i + 1)
  {
    assert Opened(0, i) && Opened(0, s);
    WokenOk(s, Rest(s, l, k));
    assert Listed(c, Ready, t) && OneBitTask(c.tasks[t]);
    NoNotice(c, t);
  }

  /** One round of the walk at task t: where t is afterwards, and hence where the walk goes on. */
  lemma WakeRound(s: Sched, l: ListName, k: nat, c: Sched, released: bool, i: nat, t: Tid)
    returns (c': Sched, released': bool, j: nat)
    requires Orderly(s) && l in s.lists && k <= |s.lists[l]| && WakeState(s, l, k, c, released, i)
    requires i < |List(c, WalkList(l, released))| && List(c, WalkList(l, released))[i] == t
    ensures t in c.tasks && InSomeList(c, t) && c' == Wake(c, t)
    ensures SwitchesAway(c, t) ==> CutAt(s, Rest(s, l, k), c', t)
    ensures !SwitchesAway(c, t) ==>
              j < |List(c', WalkList(l, released'))| && List(c', WalkList(l, released'))[j] == t
              && WakeState(s, l, k, c', released', j + 1)
              && if released then released' && j == i && c' == c else released' || j == i
  {
    if released {
      WakeInReady(s, l, k, c, i, t);
      return c, true, i;
    }
    WaitersAre(s, l, k, c, i);
    c', released', j := WakeInList(s, l, k, c, i, t);
  }

  lemma WaitersAre(s: Sched, l: ListName, k: nat, c: Sched, i: nat)
    requires k <= |List(s, l)| && WakeState(s, l, k, c, false, i)
    ensures List(c, l) == List(s, l) && i <= |List(s, l)|
  {
    assert Opened(0, i);
  }

  lemma WakeDone(s: Sched, l: ListName, k: nat, c: Sched, released: bool, i: nat)
    requires k <= |List(s, l)| && WakeState(s, l, k, c, released, i) && (!released ==> i == |List(s, l)|)
    ensures c == Woken(s, Rest(s, l, k)) && !CutShort(s, Rest(s, l, k))
  {
    assert Opened(0, i);
  }

  lemma WakeStart(s: Sched, l: ListName, k: nat)
    ensures WakeState(s, l, k, s, false, k)
  {
  }

  // ---- Every task stays in its place ----------------------------------------------------

  lemma CreateKeepsOrder(s: Sched, l: ListName)
    requires Orderly(s) && AtTask(s) && l !in s.lists
    ensures Wellformed(s) && Orderly(Next(s, CreatesList(l)))
  {
    assert Opened(0, s);
    StepSafeIff(s, CreatesList(l));
    StepOneBit(s, CreatesList(l));
  }

  /** s' has the tasks and lists of s, by name. */
  predicate SameNames(s: Sched, s': Sched) {
    s'.tasks.Keys == s.tasks.Keys && s'.lists.Keys == s.lists.Keys
  }

  lemma SignalNames(s: Sched, t: Tid)
    requires t in s.tasks && Ready in s.lists
    ensures SameNames(s, Wake(s, t))
  {
  }

  lemma ForbidKeeps(s: Sched)
    requires Inv(s) && OneBit(s)
    ensures Inv(Forbid(s)) && OneBit(Forbid(s)) && Inv(Permit(s)) && OneBit(Permit(s))
  {
    SameLists(s, Forbid(s));
    SameLists(s, Permit(s));
  }

  lemma ForbidOrderly(s: Sched)
    requires Orderly(s)
    ensures Orderly(Forbid(s)) && Orderly(Permit(s))
  {
    assert Opened(0, s);
    ForbidKeeps(s);
  }

  /** No task signals itself: the one on the CPU waits for nothing, unless it is inside wait. */
  lemma CallerAwaitsNothing(s: Sched, t: Tid)
    requires Orderly(s) && AtTask(s)
    ensures OnCpu(s, t) ==> !Awaits(s, t)
  {
    assert Opened(0, s);
    assert OneBitTask(s.tasks[s.running]);
  }

  /** Off the CPU, whoever waits is in a list. */
  lemma AwaitsInList(s: Sched, t: Tid)
    requires Orderly(s) && Awaits(s, t) && !OnCpu(s, t)
    ensures InSomeList(s, t)
  {
    assert Opened(0, s);
  }

  /** A caller that is dispatched again finds every other task in a list. */
  lemma OthersInLists(s: Sched, t: Tid)
    requires Orderly(s) && AtTask(s) && t in s.tasks && t != s.running
    ensures InSomeList(s, t)
  {
    assert Opened(0, s);
  }

  /** A signal that switches away is told by the level of nesting. */
  lemma LevelTells(s: Sched, t: Tid)
    requires t in s.tasks
    ensures s.reenter == -1 && Wake(s, t).reenter == 0 <==> SwitchesAway(s, t)
  {
    if Awaits(s, t) {
      assert TB_QUEUE in {TB_QUEUE} * s.tasks[t].waiting;
    } else {
      NoNotice(s, t);
    }
  }

  lemma WokenOrderly(s: Sched, q: seq<Tid>)
    requires Orderly(s) && !HitsCpu(s, q)
    ensures Orderly(Woken(s, q)) && Orderly(AfterWalk(s, q))
  {
    assert Opened(0, s);
    var n := FirstAwaiting(s, q);
    if n < |q| {
      SignalIff(s, q[n], {TB_QUEUE});
      SignalOneBit(s, q[n], {TB_QUEUE});
    }
    ForbidKeeps(Woken(s, q));
  }

  lemma WokenNames(s: Sched, q: seq<Tid>)
    requires Ready in s.lists
    ensures SameNames(s, Woken(s, q))
  {
    var n := FirstAwaiting(s, q);
    if n < |q| {
      SignalNames(s, q[n]);
    }
  }

  /** A send leaves every task in its one place, and finds its owner in a list if it is waiting. */
  lemma SendKeeps(s: Sched, owner: Tid, first: bool)
    requires Orderly(s) && owner in s.tasks && (first && Awaits(s, owner) ==> !OnCpu(s, owner))
    ensures Orderly(Forbid(s)) && Orderly(AfterSend(s, owner, first)) && SameNames(s, AfterSend(s, owner, first))
    ensures first && {TB_QUEUE} * s.tasks[owner].waiting != {} ==> InSomeList(Forbid(s), owner)
  {
    ForbidOrderly(s);
    ForbidOrderly(Forbid(s));
    if first {
      WakeKeeps(Forbid(s), owner);
      ForbidOrderly(Wake(Forbid(s), owner));
    }
  }

  lemma WakeKeeps(s: Sched, t: Tid)
    requires Orderly(s) && t in s.tasks && (Awaits(s, t) ==> !OnCpu(s, t))
    ensures Orderly(Wake(s, t)) && SameNames(s, Wake(s, t))
    ensures {TB_QUEUE} * s.tasks[t].waiting != {} ==> InSomeList(s, t)
  {
    assert Opened(0, s);
    SignalIff(s, t, {TB_QUEUE});
    SignalOneBit(s, t, {TB_QUEUE});
    SignalNames(s, t);
    if Awaits(s, t) {
      AwaitsInList(s, t);
    } else {
      NoNotice(s, t);
    }
  }

  lemma RecvKeeps(s: Sched, waiters: ListName, full: bool)
    requires Orderly(s) && Ready in s.lists && waiters in s.lists && (full ==> !HitsCpu(s, List(s, waiters)))
    ensures Orderly(Forbid(s)) && Orderly(AfterRecv(s, waiters, full)) && SameNames(s, AfterRecv(s, waiters, full))
  {
    ForbidOrderly(s);
    ForbidOrderly(Forbid(s));
    if full {
      var q := List(s, waiters);
      ForbidAwaits(s, q);
      WokenOrderly(Forbid(s), q);
      WokenNames(Forbid(s), q);
    }
  }

  lemma {:induction false} ForbidAwaits(s: Sched, q: seq<Tid>)
    ensures FirstAwaiting(Forbid(s), q) == FirstAwaiting(s, q)
    ensures CutShort(Forbid(s), q) == CutShort(s, q) && HitsCpu(Forbid(s), q) == HitsCpu(s, q)
  {
    if q != [] {
      ForbidAwaits(s, q[1..]);
    }
  }

  lemma WaitKeeps(s: Sched, l: ListName)
    requires Orderly(s) && AtTask(s) && l in s.lists && l != Ready
    ensures Orderly(AfterWait(s, l))
    ensures !InSomeList(BlockBegin(s, {TB_QUEUE}), s.running)
  {
    assert Opened(0, s);
    var s1 := Next(s, Blocks({TB_QUEUE}));
    StepSafeIff(s, Blocks({TB_QUEUE}));
    StepOneBit(s, Blocks({TB_QUEUE}));
    var s2 := Next(s1, Queues(l));
    StepSafeIff(s1, Queues(l));
    StepOneBit(s1, Queues(l));
    StepSafeIff(s2, Yields);
  }

  // ---- What the calls do to the tasks ---------------------------------------------------

  /** c has the tasks and lists of s. */
  predicate NobodyWoken(s: Sched, c: Sched) {
    c.tasks == s.tasks && c.lists == s.lists
  }

  /** A send wakes its owner exactly with the first message, and only if the owner waits for one. */
  lemma SendWakesOwner(s: Sched, owner: Tid, first: bool)
    requires Orderly(s) && owner in s.tasks
    ensures if first && Awaits(s, owner) then WokenAlone(s, AfterSend(s, owner, first), owner)
            else NobodyWoken(s, AfterSend(s, owner, first))
  {
    assert Opened(0, s);
    if first && Awaits(s, owner) {
      ForbidKeeps(s);
      OnlyFirstWoken(Forbid(s), [owner]);
      PermittedIs(Forbid(s), Wake(Forbid(s), owner), owner, SwitchesAway(s, owner));
      SameLists(s, Forbid(s));
    } else if first {
      NoNotice(Forbid(s), owner);
    }
  }

  lemma PermittedIs(s: Sched, c: Sched, t: Tid, away: bool)
    requires WokenAlone(s, c, t)
    ensures WokenAlone(s, Permitted(c, away), t)
  {
    SameLists(c, Permitted(c, away));
  }

  /** A receive wakes the first blocked sender exactly if the queue was full. */
  lemma RecvWakesSender(s: Sched, waiters: ListName, full: bool)
    requires Orderly(s)
    ensures var q := List(s, waiters);
            var n := FirstAwaiting(s, q);
            if full && n < |q| then WokenAlone(s, AfterRecv(s, waiters, full), q[n])
            else NobodyWoken(s, AfterRecv(s, waiters, full))
  {
    assert Opened(0, s);
    var q := List(s, waiters);
    var n := FirstAwaiting(s, q);
    ForbidAwaits(s, q);
    if full && n < |q| {
      ForbidKeeps(s);
      OnlyFirstWoken(Forbid(s), q);
      PermittedIs(Forbid(s), Woken(Forbid(s), q), q[n], CutShort(Forbid(s), q));
      SameLists(s, Forbid(s));
    }
  }

  /** A call that has to wait is left in its list, waiting for the queue's bit and nothing else, with
      nothing received; at the end of its yield it will be switched out. */
  lemma BlockedCallWaits(s: Sched, l: ListName)
    requires Orderly(s) && AtTask(s) && l in s.lists && l != Ready
    ensures var c, t := AfterWait(Forbid(s), l), s.running;
            && t in c.tasks && !c.tasks[t].ready && c.tasks[t].waiting == {TB_QUEUE} && c.tasks[t].recvd == {}
            && (forall u :: u in s.tasks && u != t ==> u in c.tasks && c.tasks[u] == s.tasks[u])
            && (forall k, u :: Listed(c, k, u) <==> if u == t then k == l else Listed(s, k, u))
            && c.running == t && c.need && c.forbid == 0 && c.lock == s.lock && c.reenter == 0
  {
    assert Opened(0, s);
    assert OneBitTask(s.tasks[s.running]);
    var s1 := BlockBegin(Forbid(s), {TB_QUEUE});
    SameLists(s, s1);
    EnqueueLists(s1, l, s.running);
    SameLists(Enqueue(s1, l, s.running), AfterWait(Forbid(s), l));
  }

  // ---- The calls as steps of a run ------------------------------------------------------

  function WaitOps(l: ListName): seq<Op> {
    [Forbids, Blocks({TB_QUEUE}), Queues(l), Yields]
  }

  /** Signals to at most one task, and permit() unless that has switched away. */
  function WakeOps(ts: seq<Tid>, away: bool): seq<Op> {
    (if ts == [] then [] else [Signals(ts[0], {TB_QUEUE})]) + if away then [] else [Permits]
  }

  /** Whom a walk over q signals to some effect. */
  function WokenIn(s: Sched, q: seq<Tid>): seq<Tid> {
    var n := FirstAwaiting(s, q);
    if n < |q| then [q[n]] else []
  }

  lemma QueuedWell(s: Sched, l: ListName)
    requires Wellformed(s) && s.lock > 0 && l in s.lists
    ensures Wellformed(BlockEnd(s, l))
  {
    EnqueueLists(s, l, s.running);
    SameLists(Enqueue(s, l, s.running), BlockEnd(s, l));
  }

  lemma QueueingLeads(s: Sched, l: ListName)
    requires Wellformed(s) && Enabled(s, Queues(l)) && s.lock == 1
    ensures Leads(s, [Queues(l)] + [Yields], Yield(BlockEnd(s, l)))
  {
    QueuedWell(s, l);
    LastLeads(BlockEnd(s, l), Yields);
    LeadsFirst(s, Queues(l), [Yields], Yield(BlockEnd(s, l)));
  }

  lemma BlockingLeads(s: Sched, l: ListName)
    requires Wellformed(s) && AtTask(s) && l in s.lists && l != Ready
    ensures Leads(s, [Blocks({TB_QUEUE})] + ([Queues(l)] + [Yields]), AfterWait(s, l))
  {
    SameLists(s, BlockBegin(s, {TB_QUEUE}));
    QueueingLeads(BlockBegin(s, {TB_QUEUE}), l);
    LeadsFirst(s, Blocks({TB_QUEUE}), [Queues(l)] + [Yields], AfterWait(s, l));
  }

  /** The wait of a blocked call is four steps. */
  lemma WaitLeads(s: Sched, l: ListName)
    requires Wellformed(s) && AtTask(s) && l in s.lists && l != Ready
    ensures Leads(s, WaitOps(l), AfterWait(Forbid(s), l))
  {
    SameLists(s, Forbid(s));
    BlockingLeads(Forbid(s), l);
    LeadsFirst(s, Forbids, [Blocks({TB_QUEUE})] + ([Queues(l)] + [Yields]), AfterWait(Forbid(s), l));
    assert [Forbids] + ([Blocks({TB_QUEUE})] + ([Queues(l)] + [Yields])) == WaitOps(l);
  }

  lemma LastLeads(s: Sched, op: Op)
    requires Wellformed(s) && Enabled(s, op) && Guard(s, op) && OneBitOp(op)
    ensures Leads(s, [op], Next(s, op))
  {
    LeadsFirst(s, op, [], Next(s, op));
    assert [op] + [] == [op];
  }

  /** A walk, up to its end or to where it is cut, is a signal to the first task that waits, and permit()
      if it is not cut. */
  lemma WalkLeads(s: Sched, q: seq<Tid>)
    requires Orderly(s) && MayCall(s, false) && !HitsCpu(s, q)
    ensures Leads(s, WakeOps(WokenIn(s, q), CutShort(s, q)), AfterWalk(s, q))
  {
    assert Opened(0, s);
    var n := FirstAwaiting(s, q);
    if n == |q| {
      LastLeads(s, Permits);
      assert WakeOps([], false) == [Permits];
    } else {
      var op, c := Signals(q[n], {TB_QUEUE}), Wake(s, q[n]);
      if CutShort(s, q) {
        LastLeads(s, op);
        assert WakeOps([q[n]], true) == [op];
      } else {
        StepSafeIff(s, op);
        StaysAtCall(s, q[n]);
        LastLeads(c, Permits);
        LeadsFirst(s, op, [Permits], Permit(c));
        assert WakeOps([q[n]], false) == [op] + [Permits];
      }
    }
  }

  /** After a signal that has not switched away, its caller is still there. */
  lemma StaysAtCall(s: Sched, t: Tid)
    requires Inv(s) && OneBit(s) && MayCall(s, false) && Awaits(s, t) && !SwitchesAway(s, t) && !OnCpu(s, t)
    ensures MayCall(Wake(s, t), false)
  {
    assert TB_QUEUE in {TB_QUEUE} * s.tasks[t].waiting;
  }

  /** A receive that finds a message, likewise, behind a forbid(). */
  lemma RecvLeads(s: Sched, waiters: ListName, full: bool)
    requires Orderly(s) && MayCall(s, false) && (full ==> !HitsCpu(s, List(s, waiters)))
    ensures var q := if full then List(s, waiters) else [];
            Leads(s, [Forbids] + WakeOps(WokenIn(s, q), CutShort(s, q)), AfterRecv(s, waiters, full))
  {
    var q := if full then List(s, waiters) else [];
    ForbidOrderly(s);
    ForbidAwaits(s, q);
    WalkLeads(Forbid(s), q);
    assert Opened(0, s);
    LeadsFirst(s, Forbids, WakeOps(WokenIn(s, q), CutShort(s, q)), AfterWalk(Forbid(s), q));
  }

  /** ... and so is a send that finds room: the walk is over the owner alone. */
  lemma SendLeads(s: Sched, owner: Tid, first: bool)
    requires Orderly(s) && MayCall(s, false) && owner in s.tasks && (first && Awaits(s, owner) ==> !OnCpu(s, owner))
    ensures var q := if first then [owner] else [];
            Leads(s, [Forbids] + WakeOps(WokenIn(s, q), CutShort(s, q)), AfterSend(s, owner, first))
  {
    var q := if first then [owner] else [];
    ForbidOrderly(s);
    ForbidAwaits(s, q);
    WalkLeads(Forbid(s), q);
    assert Opened(0, s);
    if first && !Awaits(s, owner) {
      NoNotice(Forbid(s), owner);
    }
    LeadsFirst(s, Forbids, WakeOps(WokenIn(s, q), CutShort(s, q)), AfterWalk(Forbid(s), q));
  }
}
