/** The scheduler's lists in memory: several list heads, and task nodes that are each in one list at
    most. What list.c does to one of them leaves the others alone. */
module TaskLists {
  import opened Lists
  import opened Markers
  import opened SchedSpec
  import opened SchedSafety

  /** Bytes of a list_node_s up to and including its priority. */
  const NODE := 16

  /** Task nodes and list heads do not overlap. */
  ghost predicate Layout(ts: set<Tid>, heads: map<ListName, int>) {
    && (forall t, u :: t in ts && u in ts && t != u ==> t + NODE <= u || u + NODE <= t)
    && (forall t, l :: t in ts && l in heads ==> t + NODE <= heads[l] || heads[l] + 12 <= t)
    && (forall l, m :: l in heads && m in heads && l != m ==> heads[l] + 12 <= heads[m] || heads[m] + 12 <= heads[l])
  }

  predicate NodeOk(w: Words, t: Tid, pri: int) {
    0 < t && t in w && t + 4 in w && t + PRI in w && w[t + PRI] == pri
  }

  ghost predicate Linked(w: Words, heads: map<ListName, int>, s: Sched) {
    && heads.Keys == s.lists.Keys && Layout(s.tasks.Keys, heads)
    && (forall t :: t in s.tasks ==> NodeOk(w, t, s.tasks[t].pri))
    && (forall l :: l in s.lists ==> IsList(w, heads[l], s.lists[l]))
  }

  /** Memory w holds the lists of s at the given heads (Linked), out of the verifier's sight where
      Opened is not mentioned. */
  ghost predicate InMemory(w: Words, heads: map<ListName, int>, s: Sched) {
    forall k {:trigger Opened(k, (w, s))} :: Opened(k, (w, s)) ==> Linked(w, heads, s)
  }

  lemma NowInMemory(w: Words, heads: map<ListName, int>, s: Sched)
    requires heads.Keys == s.lists.Keys && Layout(s.tasks.Keys, heads)
    requires forall t :: t in s.tasks ==> NodeOk(w, t, s.tasks[t].pri)
    requires forall l :: l in s.lists ==> IsList(w, heads[l], s.lists[l])
    ensures InMemory(w, heads, s)
  {
  }

  /** Lists of tasks, each task once at most over all of them. */
  ghost predicate Tidy(s: Sched) {
    && Wellformed(s)
    && (forall l :: l in s.lists ==> Distinct(s.lists[l]))
    && (forall l, m, t :: Listed(s, l, t) && Listed(s, m, t) ==> l == m)
  }

  /** Word a belongs to the links of task t or to head L. */
  predicate LinkWord(L: int, q: seq<Tid>, a: int) {
    a == L || a == L + 8 || exists t :: t in q && (a == t || a == t + 4)
  }

  lemma TaskWordForeign(heads: map<ListName, int>, s: Sched, m: ListName, u: Tid, a: int)
    requires Layout(s.tasks.Keys, heads) && Wellformed(s) && m in s.lists && m in heads
    requires u in s.tasks && !Listed(s, m, u) && u <= a < u + 8
    ensures !Owns(heads[m], s.lists[m], a)
  {
    forall n | n in s.lists[m] ensures !(n <= a < n + 8) {
      assert Listed(s, m, n);
    }
  }

  lemma HeadWordForeign(heads: map<ListName, int>, s: Sched, l: ListName, m: ListName, a: int)
    requires Layout(s.tasks.Keys, heads) && Wellformed(s) && m in s.lists && m in heads && l in heads && l != m
    requires heads[l] <= a < heads[l] + 12
    ensures !Owns(heads[m], s.lists[m], a)
  {
    forall n | n in s.lists[m] ensures !(n <= a < n + 8) {
      assert Listed(s, m, n);
    }
  }

  /** Link words of list l, and of a task that is not in list m, are foreign to list m. */
  lemma LinkWordForeign(heads: map<ListName, int>, s: Sched, l: ListName, m: ListName, t: Tid, a: int)
    requires Layout(s.tasks.Keys, heads) && Tidy(s) && heads.Keys == s.lists.Keys
    requires l in s.lists && m in s.lists && l != m
    requires t in s.tasks && !Listed(s, m, t) && LinkWord(heads[l], s.lists[l] + [t], a)
    ensures !Owns(heads[m], s.lists[m], a)
  {
    if a == heads[l] || a == heads[l] + 8 {
      HeadWordForeign(heads, s, l, m, a);
    } else {
      var u :| u in s.lists[l] + [t] && (a == u || a == u + 4);
      assert u == t || Listed(s, l, u);
      TaskWordForeign(heads, s, m, u, a);
    }
  }

  /** w' differs from w in link words of head L and nodes q only. */
  ghost predicate OnlyLinkWords(w: Words, w': Words, L: int, q: seq<Tid>) {
    w'.Keys == w.Keys && forall a :: a in w && !LinkWord(L, q, a) ==> w'[a] == w[a]
  }

  lemma OtherListKept(w: Words, w': Words, heads: map<ListName, int>, s: Sched, l: ListName, m: ListName, t: Tid)
    requires Linked(w, heads, s) && Tidy(s) && l in s.lists && m in s.lists && l != m
    requires t in s.tasks && !Listed(s, m, t) && OnlyLinkWords(w, w', heads[l], s.lists[l] + [t])
    ensures IsList(w', heads[m], s.lists[m])
  {
    forall a | a in w && Owns(heads[m], s.lists[m], a) ensures w'[a] == w[a] {
      if LinkWord(heads[l], s.lists[l] + [t], a) {
        LinkWordForeign(heads, s, l, m, t, a);
      }
    }
    ListFrame(w, w', heads[m], s.lists[m]);
  }

  /** Priorities are no link words. */
  lemma PrioritiesKept(w: Words, w': Words, heads: map<ListName, int>, s: Sched, l: ListName, t: Tid)
    requires Linked(w, heads, s) && Tidy(s) && l in s.lists && t in s.tasks
    requires OnlyLinkWords(w, w', heads[l], s.lists[l] + [t])
    ensures forall u :: u in s.tasks ==> NodeOk(w', u, s.tasks[u].pri)
  {
    forall u | u in s.tasks ensures NodeOk(w', u, s.tasks[u].pri) {
      assert NodeOk(w, u, s.tasks[u].pri);
      forall v | v in s.lists[l] + [t] ensures u + PRI != v && u + PRI != v + 4 {
        assert v == t || Listed(s, l, v);
      }
    }
  }

  /** The links changed by taking a node out of list l, or putting one in, are link words. */
  lemma NeighboursAreLinkWords(L: int, q: seq<Tid>, t: Tid, i: int)
    requires -1 <= i <= |q|
    ensures i < |q| ==> LinkWord(L, q + [t], At(L, q, i))
    ensures i > -1 ==> LinkWord(L, q + [t], At(L, q, i) + 4)
    ensures LinkWord(L, q + [t], t) && LinkWord(L, q + [t], t + 4)
  {
    assert 0 <= i < |q| ==> q[i] in q + [t];
    assert t in q + [t];
  }

  /** List l becomes q' by stores to its own links and those of t. */
  lemma ListChanged(
      w: Words, w': Words, heads: map<ListName, int>, s: Sched, s': Sched, l: ListName, q': seq<Tid>, t: Tid)
    requires InMemory(w, heads, s) && Tidy(s) && l in s.lists && l in heads && t in s.tasks
    requires OnlyLinkWords(w, w', heads[l], s.lists[l] + [t]) && IsList(w', heads[l], q')
    requires forall m :: m in s.lists && m != l ==> !Listed(s, m, t)
    requires s'.tasks == s.tasks && s'.lists == s.lists[l := q']
    ensures InMemory(w', heads, s')
  {
    AllElseKept(w, w', heads, s, l, t);
    Relinked(w', heads, s, s', l, q');
  }

  lemma Relinked(w: Words, heads: map<ListName, int>, s: Sched, s': Sched, l: ListName, q: seq<Tid>)
    requires heads.Keys == s.lists.Keys && Layout(s.tasks.Keys, heads) && l in heads
    requires forall u :: u in s.tasks ==> NodeOk(w, u, s.tasks[u].pri)
    requires forall m :: m in s.lists && m != l ==> IsList(w, heads[m], s.lists[m])
    requires IsList(w, heads[l], q) && s'.tasks == s.tasks && s'.lists == s.lists[l := q]
    ensures InMemory(w, heads, s')
  {
    forall m | m in s'.lists ensures IsList(w, heads[m], s'.lists[m]) {
      assert m != l ==> IsList(w, heads[m], s.lists[m]);
    }
    NowInMemory(w, heads, s');
  }

  lemma AllElseKept(w: Words, w': Words, heads: map<ListName, int>, s: Sched, l: ListName, t: Tid)
    requires InMemory(w, heads, s) && Tidy(s) && l in s.lists && l in heads && t in s.tasks
    requires OnlyLinkWords(w, w', heads[l], s.lists[l] + [t])
    requires forall m :: m in s.lists && m != l ==> !Listed(s, m, t)
    ensures heads.Keys == s.lists.Keys && Layout(s.tasks.Keys, heads)
    ensures forall u :: u in s.tasks ==> NodeOk(w', u, s.tasks[u].pri)
    ensures forall m :: m in s.lists && m != l ==> IsList(w', heads[m], s.lists[m])
  {
    assert Opened(0, (w, s));
    PrioritiesKept(w, w', heads, s, l, t);
    OtherListsKept(w, w', heads, s, l, t);
  }

  lemma OtherListsKept(w: Words, w': Words, heads: map<ListName, int>, s: Sched, l: ListName, t: Tid)
    requires Linked(w, heads, s) && Tidy(s) && l in s.lists && t in s.tasks
    requires OnlyLinkWords(w, w', heads[l], s.lists[l] + [t])
    requires forall m :: m in s.lists && m != l ==> !Listed(s, m, t)
    ensures forall m :: m in s.lists && m != l ==> IsList(w', heads[m], s.lists[m])
  {
    forall m | m in s.lists && m != l ensures IsList(w', heads[m], s.lists[m]) {
      OtherListKept(w, w', heads, s, l, m, t);
    }
  }

  lemma RemoveOnlyLinkWords(w: Words, L: int, q: seq<Tid>, k: nat)
    requires IsList(w, L, q) && k < |q|
    ensures var p, n := At(L, q, k - 1), At(L, q, k + 1); OnlyLinkWords(w, w[p := n][n + 4 := p], L, q + [q[k]])
  {
    NeighboursAreLinkWords(L, q, q[k], k - 1);
    NeighboursAreLinkWords(L, q, q[k], k + 1);
    assert LinkOk(w, L, q, k) && LinkOk(w, L, q, k + 1);
  }

  lemma InsertOnlyLinkWords(w: Words, L: int, q: seq<Tid>, k: nat, t: Tid)
    requires IsList(w, L, q) && k <= |q| && NodeInMemory(w, L, t)
    ensures OnlyLinkWords(w, LinkBetween(w, At(L, q, k - 1), t, At(L, q, k)), L, q + [t])
  {
    NeighboursAreLinkWords(L, q, t, k - 1);
    NeighboursAreLinkWords(L, q, t, k);
    assert LinkOk(w, L, q, k);
  }

  /** The k-th task of list l taken out of memory's lists. */
  lemma UnlinkedInMemory(w: Words, w': Words, heads: map<ListName, int>, s: Sched, l: ListName, k: nat)
    requires InMemory(w, heads, s) && Tidy(s) && l in s.lists && k < |s.lists[l]| && l in heads
    requires var L, q := heads[l], s.lists[l];
             IsList(w, L, q) && w' == w[At(L, q, k - 1) := At(L, q, k + 1)][At(L, q, k + 1) + 4 := At(L, q, k - 1)]
             && IsList(w', L, q[..k] + q[k + 1..])
    ensures InMemory(w', heads, Remove(s, s.lists[l][k]))
  {
    var q, t := s.lists[l], s.lists[l][k];
    assert Listed(s, l, t);
    RemovedIs(s, l, k);
    RemoveOnlyLinkWords(w, heads[l], q, k);
    ListChanged(w, w', heads, s, Remove(s, t), l, q[..k] + q[k + 1..], t);
  }

  lemma RemovedIs(s: Sched, l: ListName, k: nat)
    requires Tidy(s) && l in s.lists && k < |s.lists[l]|
    ensures RemovedFrom(s.lists, s.lists[l][k]) == s.lists[l := s.lists[l][..k] + s.lists[l][k + 1..]]
  {
    var t := s.lists[l][k];
    assert Listed(s, l, t);
    WithoutAt(s.lists[l], t, k);
    forall m | m in s.lists && m != l ensures Without(s.lists[m], t) == s.lists[m] {
      assert !Listed(s, m, t);
      WithoutIs(s.lists[m], t);
    }
  }

  /** A task in no list queued into list l of memory's lists. */
  lemma EnqueuedInMemory(w: Words, w': Words, heads: map<ListName, int>, s: Sched, l: ListName, t: Tid)
    requires InMemory(w, heads, s) && Tidy(s) && l in s.lists && l in heads && t in s.tasks && !InSomeList(s, t)
    requires var L, q := heads[l], s.lists[l]; var k: int := SlotOf(s, q, t);
             IsList(w, L, q) && NodeInMemory(w, L, t)
             && w' == LinkBetween(w, At(L, q, k - 1), t, At(L, q, k)) && IsList(w', L, InsertTask(s, q, t))
    ensures InMemory(w', heads, Enqueue(s, l, t))
  {
    var q := s.lists[l];
    InsertOnlyLinkWords(w, heads[l], q, SlotOf(s, q, t), t);
    assert forall m :: m in s.lists ==> !Listed(s, m, t);
    ListChanged(w, w', heads, s, Enqueue(s, l, t), l, InsertTask(s, q, t), t);
  }

  /** What enqueue needs, and where it puts the task. */
  lemma ReadyToEnqueue(w: Words, heads: map<ListName, int>, s: Sched, l: ListName, t: Tid)
    requires InMemory(w, heads, s) && Tidy(s) && l in s.lists && t in s.tasks && !InSomeList(s, t)
    ensures l in heads && IsList(w, heads[l], s.lists[l]) && NodeInMemory(w, heads[l], t) && t + PRI in w
    ensures forall u :: u in s.lists[l] ==> Apart(u, t) && u + PRI in w
    ensures Priorities(w, s.lists[l]) == Pris(s, s.lists[l]) && w[t + PRI] == Pri(s, t)
  {
    assert Opened(0, (w, s));
    assert NodeOk(w, t, s.tasks[t].pri);
    assert !Listed(s, l, t);
    forall u | u in s.lists[l] ensures Apart(u, t) && u + PRI in w && w[u + PRI] == Pri(s, u) {
      assert Listed(s, l, u);
      assert NodeOk(w, u, s.tasks[u].pri);
    }
  }

  /** Changing a task without its priority, or nothing but the rest of the state, concerns no list. */
  lemma SameInMemory(w: Words, heads: map<ListName, int>, s: Sched, s': Sched)
    requires InMemory(w, heads, s) && s'.lists == s.lists && s'.tasks.Keys == s.tasks.Keys
    requires forall t :: t in s.tasks ==> s'.tasks[t].pri == s.tasks[t].pri
    ensures InMemory(w, heads, s')
  {
    assert Opened(0, (w, s));
  }

  lemma EnqueueTidy(s: Sched, l: ListName, t: Tid)
    requires Tidy(s) && l in s.lists && t in s.tasks && !InSomeList(s, t)
    ensures Tidy(Enqueue(s, l, t))
  {
    assert !Listed(s, l, t);
    assert forall m :: !Listed(s, m, t);
    EnqueueLists(s, l, t);
    EnqueueDistinct(s, s.lists[l], t);
  }

  lemma RemoveTidy(s: Sched, t: Tid)
    requires Tidy(s)
    ensures Tidy(Remove(s, t))
  {
    RemoveLists(s, t);
  }

  lemma ListInMemory(w: Words, heads: map<ListName, int>, s: Sched, l: ListName)
    requires InMemory(w, heads, s) && l in s.lists
    ensures l in heads && IsList(w, heads[l], s.lists[l])
  {
    assert Opened(0, (w, s));
  }

  lemma TaskInMemory(w: Words, heads: map<ListName, int>, s: Sched, l: ListName, k: nat)
    requires InMemory(w, heads, s) && Tidy(s) && l in s.lists && k < |s.lists[l]|
    ensures s.lists[l][k] in s.tasks && s.lists[l][k] != NULL
  {
    assert Opened(0, (w, s));
    assert Listed(s, l, s.lists[l][k]);
    assert NodeOk(w, s.lists[l][k], s.tasks[s.lists[l][k]].pri);
  }

  lemma Position(s: Sched, t: Tid) returns (l: ListName, k: nat)
    requires InSomeList(s, t)
    ensures l in s.lists && k < |s.lists[l]| && s.lists[l][k] == t
  {
    l :| Listed(s, l, t);
    k :| 0 <= k < |s.lists[l]| && s.lists[l][k] == t;
  }
}
