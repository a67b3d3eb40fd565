/** Every task is always in exactly one place: which steps keep that, and exactly when. */
module SchedSafety {
  import opened Lists
  import opened SchedSpec

  ghost predicate InSomeList(s: Sched, t: Tid) {
    exists l :: Listed(s, l, t)
  }

  predicate OnCpu(s: Sched, t: Tid) {
    t == s.running && !s.idle
  }

  /** On the CPU and not (yet) in a list: it is ready, or it is in the middle of queueing up. */
  predicate OffLists(s: Sched, t: Tid)
    requires t in s.tasks
  {
    OnCpu(s, t) && (s.tasks[t].ready || s.lock > 0)
  }

  /** The lists hold tasks, each at most once over all lists; the ready list holds ready ones only,
      the others blocked ones only. */
  ghost predicate Filed(s: Sched) {
    && Wellformed(s)
    && (forall l :: l in s.lists ==> Distinct(s.lists[l]))
    && (forall l, m, t :: Listed(s, l, t) && Listed(s, m, t) ==> l == m)
    && (forall l, t :: Listed(s, l, t) ==> (l == Ready <==> s.tasks[t].ready))
  }

  /** Exactly one place for every task: the CPU, the ready list if it is ready, one wait list if not. */
  ghost predicate OnePlace(s: Sched) {
    Filed(s) && forall t :: t in s.tasks ==> (InSomeList(s, t) <==> !OffLists(s, t))
  }

  /** wait_lock is held only by a task that has marked itself blocked and is about to queue up. */
  predicate LockOk(s: Sched) {
    s.lock <= 1 && (s.lock == 1 ==> s.running in s.tasks && !s.idle && !s.tasks[s.running].ready)
  }

  ghost predicate Inv(s: Sched) {
    OnePlace(s) && LockOk(s) && s.reenter >= -1 && (s.idle ==> s.reenter >= 0)
  }

  // ---- The two list operations ----------------------------------------------------------

  lemma EnqueueLists(s: Sched, l: ListName, t: Tid)
    ensures forall m, u :: Listed(Enqueue(s, l, t), m, u) <==> Listed(s, m, u) || (m == l && u == t)
  {
  }

  lemma EnqueueDistinct(s: Sched, q: seq<Tid>, t: Tid)
    requires Distinct(q) && t !in q
    ensures Distinct(InsertTask(s, q, t))
  {
  }

  lemma {:induction false} WithoutIs(q: seq<Tid>, t: Tid)
    requires Distinct(q)
    ensures Distinct(Without(q, t))
    ensures forall u :: u in Without(q, t) <==> u in q && u != t
    ensures t !in q ==> Without(q, t) == q
  {
    if q != [] {
      assert forall u :: u in q <==> u == q[0] || u in q[1..];
      assert q[0] !in q[1..];
      if q[0] != t {
        WithoutIs(q[1..], t);
        assert q[0] !in Without(q[1..], t);
      } else {
        assert q == [t] + q[1..];
      }
    }
  }

  lemma FirstKept(q: seq<Tid>, k: nat)
    requires 0 < k < |q|
    ensures [q[0]] + (q[1..][..k - 1] + q[1..][k..]) == q[..k] + q[k + 1..]
  {
  }

  /** Without takes out the one element in question. */
  lemma {:induction false} WithoutAt(q: seq<Tid>, t: Tid, k: nat)
    requires Distinct(q) && k < |q| && q[k] == t
    ensures Without(q, t) == q[..k] + q[k + 1..]
  {
    if k > 0 {
      WithoutAt(q[1..], t, k - 1);
      FirstKept(q, k);
    }
  }

  lemma RemoveLists(s: Sched, t: Tid)
    requires forall l :: l in s.lists ==> Distinct(s.lists[l])
    ensures forall m, u :: Listed(Remove(s, t), m, u) <==> Listed(s, m, u) && u != t
    ensures forall l :: l in Remove(s, t).lists ==> Distinct(Remove(s, t).lists[l])
    ensures Remove(s, t).lists.Keys == s.lists.Keys
  {
    forall l | l in s.lists ensures Distinct(Without(s.lists[l], t))
      && forall u :: u in Without(s.lists[l], t) <==> u in s.lists[l] && u != t
    {
      WithoutIs(s.lists[l], t);
    }
  }

  // ---- Steps ----------------------------------------------------------------------------

  /** What must hold for a step to leave every task in one place: nobody signals the task on the CPU,
      and no task switch strikes between wait_lock++ and wait_lock--. */
  ghost predicate Guard(s: Sched, op: Op)
    requires Wellformed(s) && Enabled(s, op)
  {
    match op
    case Signals(t, sigs) => sigs * s.tasks[t].waiting == {} || !OnCpu(s, t)
    case Ticks => forall t :: Releases(s, t) ==> !OnCpu(s, t)
    case Exits => s.need && CanSchedule(s) ==> s.lock == 0
    case _ => true
  }

  /** A task that is off every list goes to list l. */
  lemma FileTask(s: Sched, l: ListName, t: Tid)
    requires Filed(s) && t in s.tasks && !InSomeList(s, t) && l in s.lists
    requires l == Ready <==> s.tasks[t].ready
    ensures Filed(Enqueue(s, l, t))
    ensures forall u :: InSomeList(Enqueue(s, l, t), u) <==> InSomeList(s, u) || u == t
  {
    EnqueueLists(s, l, t);
    assert t in s.lists[l] ==> Listed(s, l, t);
    EnqueueDistinct(s, s.lists[l], t);
    var s' := Enqueue(s, l, t);
    assert Listed(s', l, t);
    forall u | InSomeList(s, u) ensures InSomeList(s', u) {
      var m :| Listed(s, m, u);
      assert Listed(s', m, u);
    }
    forall u | InSomeList(s', u) ensures InSomeList(s, u) || u == t {
      var m :| Listed(s', m, u);
      assert Listed(s, m, u) || u == t;
    }
  }

  lemma UnfileTask(s: Sched, t: Tid)
    requires Filed(s) && t in s.tasks
    ensures Filed(Remove(s, t))
    ensures forall u :: InSomeList(Remove(s, t), u) <==> InSomeList(s, u) && u != t
  {
    RemoveLists(s, t);
    var s' := Remove(s, t);
    forall u | InSomeList(s, u) && u != t ensures InSomeList(s', u) {
      var m :| Listed(s, m, u);
      assert Listed(s', m, u);
    }
    forall u | InSomeList(s', u) ensures InSomeList(s, u) && u != t {
      var m :| Listed(s', m, u);
      assert Listed(s, m, u);
    }
  }

  /** Changing a task that is in no list does not disturb the lists. */
  lemma SetOffList(s: Sched, t: Tid, k: Task)
    requires Filed(s) && !InSomeList(s, t)
    ensures Filed(SetTask(s, t, k))
    ensures forall u :: InSomeList(SetTask(s, t, k), u) <==> InSomeList(s, u)
  {
    SameLists(s, SetTask(s, t, k));
  }

  lemma SameLists(s: Sched, s': Sched)
    requires s'.lists == s.lists
    ensures forall l, t :: Listed(s', l, t) <==> Listed(s, l, t)
    ensures forall t :: InSomeList(s', t) <==> InSomeList(s, t)
  {
    assert forall l, t :: Listed(s', l, t) <==> Listed(s, l, t);
    forall t | InSomeList(s, t) ensures InSomeList(s', t) {
      var m :| Listed(s, m, t);
      assert Listed(s', m, t);
    }
    forall t | InSomeList(s', t) ensures InSomeList(s, t) {
      var m :| Listed(s', m, t);
      assert Listed(s, m, t);
    }
  }

  /** Delivering a signal files the task in the ready list, wherever it was before. */
  lemma ReleaseFiles(s: Sched, t: Tid, sigs: Sigs)
    requires Filed(s) && t in s.tasks
    ensures Filed(Release(s, t, sigs)) && Listed(Release(s, t, sigs), Ready, t)
    ensures forall u :: InSomeList(Release(s, t, sigs), u) <==> InSomeList(s, u) || u == t
  {
    var k := Signalled(s.tasks[t], sigs);
    UnfileTask(s, t);
    SetOffList(Remove(s, t), t, k);
    assert SetTask(Remove(s, t), t, k) == Remove(SetTask(s, t, k), t);
    FileTask(SetTask(Remove(s, t), t, k), Ready, t);
    EnqueueLists(SetTask(Remove(s, t), t, k), Ready, t);
  }

  /** A signal that is delivered leaves every task in one place exactly when its target is not the
      task on the CPU. */
  lemma ReleaseOnePlaceIff(s: Sched, t: Tid, sigs: Sigs)
    requires Inv(s) && t in s.tasks
    ensures OnePlace(Release(s, t, sigs)) <==> !OnCpu(s, t)
    ensures Inv(Release(s, t, sigs)) <==> !OnCpu(s, t)
  {
    ReleaseFiles(s, t, sigs);
    var s' := Release(s, t, sigs);
    assert InSomeList(s', t);
    forall u | u in s.tasks && u != t ensures OffLists(s', u) <==> OffLists(s, u) {
    }
  }

  lemma SignalIff(s: Sched, t: Tid, sigs: Sigs)
    requires Inv(s) && t in s.tasks
    ensures OnePlace(Signal(s, t, sigs)) <==> sigs * s.tasks[t].waiting == {} || !OnCpu(s, t)
    ensures Inv(Signal(s, t, sigs)) <==> OnePlace(Signal(s, t, sigs))
  {
    ReleaseOnePlaceIff(s, t, sigs);
    SameLists(Release(s, t, sigs), Yield(Release(s, t, sigs)));
  }

  /** Counting down delays moves nobody. */
  lemma CountedKeeps(s: Sched, q: seq<Tid>)
    requires Inv(s)
    ensures Inv(Counted(s, q)) && Counted(s, q).tasks.Keys == s.tasks.Keys
    ensures forall t :: t in s.tasks ==> Counted(s, q).tasks[t].waiting == s.tasks[t].waiting
  {
    SameLists(s, Counted(s, q));
  }

  lemma NeedIsNoMatter(s: Sched)
    ensures OnePlace(s.(need := true)) <==> OnePlace(s)
    ensures Inv(s.(need := true)) <==> Inv(s)
  {
    SameLists(s, s.(need := true));
  }

  lemma ReleasedIs(s: Sched)
    requires Wellformed(s)
    ensures var q := Seen(s);
            if q != [] && Expires(s, q[|q| - 1]) then
              q[|q| - 1] in s.tasks && forall t :: Releases(s, t) <==> t == q[|q| - 1]
            else forall t :: !Releases(s, t)
  {
  }

  /** A tick counts, and releases at most one task. */
  lemma TickIs(s: Sched) returns (released: bool, t: Tid)
    requires Wellformed(s)
    ensures released ==> Releases(s, t) && t in s.tasks && forall u :: Releases(s, u) ==> u == t
    ensures !released ==> forall u :: !Releases(s, u)
    ensures var c := Counted(s, Seen(s));
            Tick(s) == (if released then Signal(c, t, {TB_DELAY}) else c).(need := true)
  {
    ReleasedIs(s);
    var q := Seen(s);
    released := q != [] && Expires(s, q[|q| - 1]);
    t := if released then q[|q| - 1] else s.running;
  }

  lemma TickReleaseIff(s: Sched, t: Tid)
    requires Inv(s) && Releases(s, t)
    ensures OnePlace(Tick(s)) <==> !OnCpu(s, t)
    ensures Inv(Tick(s)) <==> OnePlace(Tick(s))
  {
    var s1 := Counted(s, Seen(s));
    CountedKeeps(s, Seen(s));
    SignalIff(s1, t, {TB_DELAY});
    assert TB_DELAY in {TB_DELAY} * s1.tasks[t].waiting;
    NeedIsNoMatter(Signal(s1, t, {TB_DELAY}));
  }

  lemma TickIff(s: Sched)
    requires Inv(s)
    ensures OnePlace(Tick(s)) <==> forall t :: Releases(s, t) ==> !OnCpu(s, t)
    ensures Inv(Tick(s)) <==> OnePlace(Tick(s))
  {
    var released, t := TickIs(s);
    if released {
      TickReleaseIff(s, t);
    } else {
      CountedKeeps(s, Seen(s));
      NeedIsNoMatter(Counted(s, Seen(s)));
    }
  }

  lemma DispatchKeeps(s: Sched)
    requires Filed(s) && List(s, Ready) != []
    requires forall t :: t in s.tasks ==> InSomeList(s, t)
    ensures List(s, Ready)[0] in s.tasks && s.tasks[List(s, Ready)[0]].ready
    ensures OnePlace(Dispatch(s)) && !Dispatch(s).idle
  {
    var t := List(s, Ready)[0];
    assert Listed(s, Ready, t);
    UnfileTask(s, t);
    SetOffList(Remove(s, t), t, s.tasks[t].(run := true));
    SameLists(SetTask(Remove(s, t), t, s.tasks[t].(run := true)), Dispatch(s));
  }

  lemma SavedKeeps(s: Sched)
    requires Filed(s)
    ensures Filed(Saved(s))
    ensures forall u :: InSomeList(Saved(s), u) <==> InSomeList(s, u)
  {
    SameLists(s, Saved(s));
  }

  /** Once the running task has queued up again (or was blocked and queued already), everybody is in
      a list. */
  lemma PreemptedFiles(s: Sched)
    requires Inv(s) && !s.idle && s.lock == 0
    ensures Filed(Preempted(s))
    ensures forall t :: t in s.tasks ==> InSomeList(Preempted(s), t)
  {
    var s1 := s.(need := false);
    SameLists(s, s1);
    if s.tasks[s.running].ready {
      FileTask(s1, Ready, s.running);
    }
  }

  lemma SwitchKeeps(s: Sched)
    requires Inv(s) && InHandler(s) && s.need && CanSchedule(s) && s.lock == 0
    ensures Inv(Exit(s))
  {
    PreemptedFiles(s);
    SavedKeeps(Preempted(s));
    var s1 := Saved(Preempted(s));
    if List(s1, Ready) == [] {
      SameLists(s1, Exit(s));
    } else {
      DispatchKeeps(s1);
      SameLists(Dispatch(s1), Exit(s));
    }
  }

  /** A task switched out between wait_lock++ and its queueing is in no list: it is lost. */
  lemma SwitchUnderLockLoses(s: Sched)
    requires Inv(s) && InHandler(s) && s.need && CanSchedule(s) && s.lock != 0
    ensures s.running in Exit(s).tasks && !InSomeList(Exit(s), s.running) && !OnCpu(Exit(s), s.running)
    ensures !OnePlace(Exit(s))
  {
    var t, s' := s.running, Exit(s);
    var s1 := Saved(Preempted(s));
    SameLists(s, s1);
    assert !InSomeList(s, t);
    if List(s1, Ready) == [] {
      SameLists(s1, s');
    } else {
      var u := List(s1, Ready)[0];
      assert Listed(s1, Ready, u) && Listed(s, Ready, u);
      RemoveLists(s1, u);
      SameLists(Remove(s1, u), s');
      forall l ensures !Listed(s', l, t) {
        assert !Listed(s, l, t);
      }
    }
  }

  lemma ExitIff(s: Sched)
    requires Inv(s) && InHandler(s)
    ensures OnePlace(Exit(s)) <==> (s.need && CanSchedule(s) ==> s.lock == 0)
    ensures Inv(Exit(s)) <==> OnePlace(Exit(s))
  {
    if s.need && CanSchedule(s) {
      if s.lock == 0 { SwitchKeeps(s); } else { SwitchUnderLockLoses(s); }
    } else {
      SameLists(s, Exit(s));
    }
  }

  lemma ResumeKeeps(s: Sched)
    requires Inv(s) && Enabled(s, Resumes)
    ensures Inv(Resume(s))
  {
    assert forall t :: t in s.tasks ==> !OffLists(s, t);
    DispatchKeeps(s);
    SameLists(Dispatch(s), Resume(s));
  }

  lemma BlockKeeps(s: Sched, sigs: Sigs)
    requires Inv(s) && AtTask(s)
    ensures Inv(BlockBegin(s, sigs))
  {
    SetOffList(s, s.running, Blocked(s.tasks[s.running], sigs));
    SameLists(s, BlockBegin(s, sigs));
  }

  lemma QueueKeeps(s: Sched, l: ListName)
    requires Inv(s) && Enabled(s, Queues(l))
    ensures Inv(BlockEnd(s, l))
  {
    FileTask(s, l, s.running);
    SameLists(Enqueue(s, l, s.running), BlockEnd(s, l));
  }

  lemma CreateKeeps(s: Sched, t: Tid, pri: int, regs: Regs)
    requires Inv(s) && t !in s.tasks
    ensures Inv(CreateTask(s, t, pri, regs))
  {
    assert !InSomeList(s, t);
    SetOffList(s, t, NewTask(pri, regs));
    FileTask(SetTask(s, t, NewTask(pri, regs)), Ready, t);
  }

  lemma CreateListKeeps(s: Sched, l: ListName)
    requires Inv(s) && l !in s.lists
    ensures Inv(s.(lists := s.lists[l := []]))
  {
    var s' := s.(lists := s.lists[l := []]);
    assert forall m, t :: Listed(s', m, t) <==> Listed(s, m, t);
    forall t ensures InSomeList(s', t) <==> InSomeList(s, t) {
      if InSomeList(s, t) {
        var m :| Listed(s, m, t);
        assert Listed(s', m, t);
      }
      if InSomeList(s', t) {
        var m :| Listed(s', m, t);
        assert Listed(s, m, t);
      }
    }
  }

  /** Steps of the task on the CPU, and bookkeeping of handlers. */
  lemma QuietKeeps(s: Sched, op: Op)
    requires Inv(s) && Enabled(s, op)
    requires op.Computes? || op.Forbids? || op.Permits? || op.SetsDelay? || op.Yields? || op.Enters?
    ensures Inv(Next(s, op))
  {
    SameLists(s, Next(s, op));
  }

  /** From a state with every task in one place, a step leads to one exactly when it neither signals
      the task on the CPU nor switches away from a task between wait_lock++ and wait_lock--. */
  lemma StepSafeIff(s: Sched, op: Op)
    requires Inv(s) && Enabled(s, op)
    ensures OnePlace(Next(s, op)) <==> Guard(s, op)
    ensures Inv(Next(s, op)) <==> Guard(s, op)
  {
    match op
    case CreatesTask(t, pri, regs) => CreateKeeps(s, t, pri, regs);
    case CreatesList(l) => CreateListKeeps(s, l);
    case Blocks(sigs) => BlockKeeps(s, sigs);
    case Queues(l) => QueueKeeps(s, l);
    case Signals(t, sigs) => SignalIff(s, t, sigs);
    case Ticks => TickIff(s);
    case Exits => ExitIff(s);
    case Resumes => ResumeKeeps(s);
    case _ => QuietKeeps(s, op);
  }

  lemma InitSafe(s: Sched)
    requires Init(s)
    ensures Inv(s)
  {
    assert forall l, t :: !Listed(s, l, t);
  }
}
