/** The walk of timer_callback, one task at a time, and that it adds up to a tick. */
module TimerWalk {
  import opened Lists
  import opened Markers
  import opened SchedSpec
  import opened SchedSafety
  import opened SchedRuns

  /** What the loop body does for task t (timer.c:25-30). */
  function Visited(s: Sched, t: Tid): Sched
    requires t in s.tasks
  {
    if TB_DELAY in s.tasks[t].waiting then
      var s1 := SetTask(s, t, s.tasks[t].(delay := OneLess(s.tasks[t].delay)));
      if OneLess(s.tasks[t].delay) == 0 then Signal(s1, t, {TB_DELAY}) else s1
    else s
  }

  /** State c is s with the walk come to place i: of tasks_wait, which was q at the start, or of the
      ready list once a task has been released. */
  ghost predicate WalkBody(s: Sched, q: seq<Tid>, c: Sched, released: bool, i: nat) {
    var n := FirstExpiring(s, q);
    if released then
      n < |q| && q[n] in s.tasks && c == Signal(Counted(s, q[..n + 1]), q[n], {TB_DELAY}) && i <= |List(c, Ready)|
    else i <= n && c == Counted(s, q[..i])
  }

  /** WalkBody, out of the verifier's sight where Opened is not mentioned for i. */
  ghost predicate WalkState(s: Sched, q: seq<Tid>, c: Sched, released: bool, i: nat) {
    forall k {:trigger Opened(k, i)} :: Opened(k, i) ==> WalkBody(s, q, c, released, i)
  }

  lemma CountNext(s: Sched, q: seq<Tid>, i: nat)
    requires Distinct(q) && i < |q| && q[i] in s.tasks
    ensures Counted(s, q[..i]).tasks[q[i]] == s.tasks[q[i]]
    ensures Counted(s, q[..i + 1]) ==
            if TB_DELAY in s.tasks[q[i]].waiting then
              SetTask(Counted(s, q[..i]), q[i], s.tasks[q[i]].(delay := OneLess(s.tasks[q[i]].delay)))
            else Counted(s, q[..i])
  {
    assert q[..i + 1] == q[..i] + [q[i]];
    assert q[i] !in q[..i];
  }

  /** The walk over tasks_wait: a visit counts, and releases exactly at the first task to run out. */
  lemma VisitWaiting(s: Sched, q: seq<Tid>, i: nat)
    requires Distinct(q) && i < |q| && i <= FirstExpiring(s, q) && q[i] in s.tasks
    ensures q[i] in Counted(s, q[..i]).tasks
    ensures Expires(s, q[i]) <==> i == FirstExpiring(s, q)
    ensures Visited(Counted(s, q[..i]), q[i]) ==
            if Expires(s, q[i]) then Signal(Counted(s, q[..i + 1]), q[i], {TB_DELAY}) else Counted(s, q[..i + 1])
  {
    CountNext(s, q, i);
  }

  lemma WholeWalk(s: Sched, q: seq<Tid>, c: Sched, released: bool, i: nat)
    requires s.lock == 0 && q == List(s, Waiting) && WalkState(s, q, c, released, i)
    requires !released ==> i == |q|
    ensures Tick(s) == c.(need := true)
  {
    assert Opened(0, i);
    if released {
      TickThatReleases(s, q);
    } else {
      assert q[..|q|] == q;
      TickThatCounts(s, q);
    }
  }

  lemma TickThatReleases(s: Sched, q: seq<Tid>)
    requires s.lock == 0 && q == List(s, Waiting) && FirstExpiring(s, q) < |q| && q[FirstExpiring(s, q)] in s.tasks
    ensures var n := FirstExpiring(s, q);
            Tick(s) == Signal(Counted(s, q[..n + 1]), q[n], {TB_DELAY}).(need := true)
  {
    SeenIs(s, q);
  }

  lemma TickThatCounts(s: Sched, q: seq<Tid>)
    requires s.lock == 0 && q == List(s, Waiting) && FirstExpiring(s, q) == |q|
    ensures Tick(s) == Counted(s, q).(need := true)
  {
    SeenIs(s, q);
  }

  lemma SeenIs(s: Sched, q: seq<Tid>)
    requires s.lock == 0 && q == List(s, Waiting)
    ensures var n := FirstExpiring(s, q);
            if n < |q| then Seen(s) == q[..n + 1] && Seen(s)[|Seen(s)| - 1] == q[n] && Expires(s, q[n])
            else Seen(s) == q && (q != [] ==> !Expires(s, q[|q| - 1]))
  {
  }

  lemma CountedFiled(s: Sched, q: seq<Tid>)
    requires Filed(s) && OneBit(s)
    ensures Filed(Counted(s, q)) && OneBit(Counted(s, q))
  {
    SameLists(s, Counted(s, q));
    forall t | t in s.tasks ensures OneBitTask(Counted(s, q).tasks[t]) {
      assert OneBitTask(s.tasks[t]);
    }
  }

  /** Once a task has been released, the lists are still in order, with that task in the ready list. */
  lemma ReleasedOk(s: Sched, q: seq<Tid>, n: nat, c: Sched)
    requires Filed(s) && OneBit(s) && q == List(s, Waiting) && n == FirstExpiring(s, q) < |q| && q[n] in s.tasks
    requires c == Signal(Counted(s, q[..n + 1]), q[n], {TB_DELAY})
    ensures Filed(c) && OneBit(c) && Listed(c, Ready, q[n])
  {
    var s1 := Counted(s, q[..n + 1]);
    CountedFiled(s, q[..n + 1]);
    SignalOneBit(s1, q[n], {TB_DELAY});
    SignalFiles(s1, q[n]);
  }

  /** ... whatever place of the ready list the walk has come to. */
  lemma StaysOk(s: Sched, q: seq<Tid>, c: Sched, i: nat)
    requires Filed(s) && OneBit(s) && q == List(s, Waiting) && WalkState(s, q, c, true, i)
    ensures Filed(c) && OneBit(c)
  {
    assert Opened(0, i);
    ReleasedOk(s, q, FirstExpiring(s, q), c);
  }

  lemma ReadyIgnores(c: Sched, t: Tid)
    requires Filed(c) && OneBit(c) && Listed(c, Ready, t)
    ensures t in c.tasks && Visited(c, t) == c && !Expires(c, t)
  {
    assert OneBitTask(c.tasks[t]);
  }

  lemma SignalFiles(s: Sched, t: Tid)
    requires Filed(s) && Delayed(s, t)
    ensures Filed(Signal(s, t, {TB_DELAY})) && Listed(Signal(s, t, {TB_DELAY}), Ready, t)
  {
    assert TB_DELAY in {TB_DELAY} * s.tasks[t].waiting;
    ReleaseFiles(s, t, {TB_DELAY});
    SameLists(Release(s, t, {TB_DELAY}), Signal(s, t, {TB_DELAY}));
  }

  /** One round of the walk, in tasks_wait. */
  lemma WaitingRound(s: Sched, q: seq<Tid>, c: Sched, i: nat)
    requires Filed(s) && OneBit(s) && q == List(s, Waiting) && WalkState(s, q, c, false, i) && i < |q|
    ensures Listed(c, Waiting, q[i]) && q[i] in c.tasks
    ensures var c' := Visited(c, q[i]);
            if i == FirstExpiring(s, q) then WalkState(s, q, c', true, 0) && Listed(c', Ready, q[i])
            else WalkState(s, q, c', false, i + 1) && c'.lists == c.lists
  {
    assert Opened(0, i);
    assert Listed(s, Waiting, q[i]);
    VisitWaiting(s, q, i);
    if i == FirstExpiring(s, q) {
      ReleasedOk(s, q, i, Visited(c, q[i]));
    }
  }

  /** One round of the walk, in the ready list. */
  lemma ReadyRound(s: Sched, q: seq<Tid>, c: Sched, i: nat)
    requires Filed(s) && OneBit(s) && q == List(s, Waiting) && WalkState(s, q, c, true, i) && i < |List(c, Ready)|
    ensures List(c, Ready)[i] in c.tasks && Visited(c, List(c, Ready)[i]) == c && !Expires(c, List(c, Ready)[i])
  {
    StaysOk(s, q, c, i);
    assert Listed(c, Ready, List(c, Ready)[i]);
    ReadyIgnores(c, List(c, Ready)[i]);
  }

  /** The list that the walk is in. */
  function ListOf(released: bool): ListName {
    if released then Ready else Waiting
  }

  lemma WaitingIsQ(s: Sched, q: seq<Tid>, c: Sched, i: nat)
    requires q == List(s, Waiting) && WalkState(s, q, c, false, i)
    ensures List(c, Waiting) == q && i <= |q|
  {
    assert Opened(0, i);
  }

  lemma FurtherInReady(s: Sched, q: seq<Tid>, c: Sched, i: nat, k: nat)
    requires WalkState(s, q, c, true, i) && k <= |List(c, Ready)|
    ensures WalkState(s, q, c, true, k)
  {
    assert Opened(0, i);
  }

  lemma RoundInWaiting(s: Sched, q: seq<Tid>, c: Sched, i: nat, t: Tid) returns (c': Sched, released: bool, k: nat)
    requires Filed(s) && OneBit(s) && q == List(s, Waiting) && WalkState(s, q, c, false, i)
    requires i < |q| && q[i] == t
    ensures t in c.tasks && InSomeList(c, t) && c' == Visited(c, t)
    ensures k < |List(c', ListOf(released))| && List(c', ListOf(released))[k] == t
    ensures WalkState(s, q, c', released, k + 1) && (released || k == i)
  {
    WaitingRound(s, q, c, i);
    WaitingIsQ(s, q, c, i);
    c', released, k := Visited(c, t), i == FirstExpiring(s, q), i;
    if released {
      k := PlaceIn(List(c', Ready), t);
      FurtherInReady(s, q, c', 0, k + 1);
    }
  }

  lemma RoundInReady(s: Sched, q: seq<Tid>, c: Sched, i: nat, t: Tid)
    requires Filed(s) && OneBit(s) && q == List(s, Waiting) && WalkState(s, q, c, true, i)
    requires i < |List(c, Ready)| && List(c, Ready)[i] == t
    ensures t in c.tasks && InSomeList(c, t) && c == Visited(c, t)
    ensures WalkState(s, q, c, true, i + 1)
  {
    ReadyRound(s, q, c, i);
    assert Listed(c, Ready, t);
    FurtherInReady(s, q, c, i, i + 1);
  }

  lemma PlaceIn(q: seq<Tid>, t: Tid) returns (k: nat)
    requires t in q
    ensures k < |q| && q[k] == t
  {
    k :| 0 <= k < |q| && q[k] == t;
  }

  /** One round of the walk at task t: where t is afterwards, and hence where the walk goes on. */
  lemma Round(s: Sched, q: seq<Tid>, c: Sched, released: bool, i: nat, t: Tid)
    returns (c': Sched, released': bool, k: nat)
    requires Filed(s) && OneBit(s) && q == List(s, Waiting) && WalkState(s, q, c, released, i)
    requires i < |List(c, ListOf(released))| && List(c, ListOf(released))[i] == t
    ensures t in c.tasks && InSomeList(c, t) && c' == Visited(c, t)
    ensures k < |List(c', ListOf(released'))| && List(c', ListOf(released'))[k] == t
    ensures WalkState(s, q, c', released', k + 1)
    ensures if released then released' && k == i && c' == c else released' || k == i
  {
    if released {
      RoundInReady(s, q, c, i, t);
      return c, true, i;
    }
    WaitingIsQ(s, q, c, i);
    c', released', k := RoundInWaiting(s, q, c, i, t);
  }

  lemma CountNone(s: Sched)
    ensures Counted(s, []) == s
    ensures Wellformed(s) ==> WalkState(s, List(s, Waiting), s, false, 0)
    ensures s.lock != 0 ==> Tick(s) == s.(need := true)
  {
    assert CountedTasks(s, []) == s.tasks;
    assert List(s, Waiting)[..0] == [];
  }
}
