/** The doubly linked list of list.c, on word-addressed memory.

    A list head at address L occupies three words: `head` at L, `tail` at L+4 (always NULL) and
    `tailPrev` at L+8. Read as a node, address L is the front sentinel (next = head, prev = tail)
    and address L+4 is the back sentinel (next = tail = NULL, prev = tailPrev). A node at address n
    keeps `next` at n and `prev` at n+4, and its payload above. */
module Lists {

  const NULL := 0

  /** Offset of the signed priority inside a list_node_s. */
  const PRI := 12

  type Words = map<int, int>

  /** Address of the i-th node, where -1 and |s| are the two sentinels. */
  function At(L: int, s: seq<int>, i: int): int
    requires -1 <= i <= |s|
  {
    if i == -1 then L else if i == |s| then L + 4 else s[i]
  }

  /** Address of the i-th node, or NULL past the end: what an iteration is at. */
  function NodeAt(s: seq<int>, i: nat): int {
    if i < |s| then s[i] else NULL
  }

  /** No element occurs twice. */
  ghost predicate Distinct<T>(s: seq<T>) {
    forall i, j :: 0 <= i < j < |s| ==> s[i] != s[j]
  }

  predicate Apart(a: int, b: int) {
    a + 8 <= b || b + 8 <= a
  }

  predicate NodeInMemory(w: Words, L: int, n: int) {
    0 < n && n in w && n + 4 in w && (n + 8 <= L || L + 12 <= n)
  }

  predicate HeadInMemory(w: Words, L: int) {
    0 < L && L in w && L + 4 in w && L + 8 in w
  }

  /** The two links between position i-1 and position i agree with each other. */
  ghost predicate LinkOk(w: Words, L: int, s: seq<int>, i: int)
    requires 0 <= i <= |s|
  {
    var p, q := At(L, s, i - 1), At(L, s, i);
    p in w && q + 4 in w && w[p] == q && w[q + 4] == p
  }

  ghost predicate Separate(s: seq<int>) {
    forall i, j :: 0 <= i < j < |s| ==> Apart(s[i], s[j])
  }

  /** Memory w holds at L a well-linked list whose nodes are exactly s, in order. */
  ghost predicate IsList(w: Words, L: int, s: seq<int>) {
    && HeadInMemory(w, L) && w[L + 4] == NULL
    && (forall n :: n in s ==> NodeInMemory(w, L, n))
    && Separate(s)
    && (forall i :: 0 <= i <= |s| ==> LinkOk(w, L, s, i))
  }

  /** The words a list is made of: its head and the two links of each node. */
  ghost predicate Owns(L: int, s: seq<int>, a: int) {
    L <= a < L + 12 || exists n :: n in s && n <= a < n + 8
  }

  /** The four stores that link `node` in between the neighbours p and q. */
  function LinkBetween(w: Words, p: int, node: int, q: int): Words {
    w[node := q][node + 4 := p][q + 4 := node][p := node]
  }

  /** The two stores that `remove` does. */
  function Unlink(w: Words, node: int): Words
    requires node in w && node + 4 in w
  {
    var p, q := w[node + 4], w[node];
    w[p := q][q + 4 := p]
  }

  lemma OwnsNode(L: int, s: seq<int>, n: int, a: int)
    requires n in s && n <= a < n + 8
    ensures Owns(L, s, a)
  {
  }

  /** What a list is depends only on the words it owns. */
  lemma ListFrame(w: Words, w': Words, L: int, s: seq<int>)
    requires IsList(w, L, s)
    requires forall a :: a in w && Owns(L, s, a) ==> a in w' && w'[a] == w[a]
    ensures IsList(w', L, s)
  {
    forall n | n in s ensures NodeInMemory(w', L, n) {
      assert NodeInMemory(w, L, n);
      OwnsNode(L, s, n, n);
      OwnsNode(L, s, n, n + 4);
    }
    forall i | 0 <= i <= |s| ensures LinkOk(w', L, s, i) {
      assert LinkOk(w, L, s, i);
      var p, q := At(L, s, i - 1), At(L, s, i);
      assert Owns(L, s, p) by { if i > 0 { OwnsNode(L, s, s[i - 1], p); } }
      assert Owns(L, s, q + 4) by { if i < |s| { OwnsNode(L, s, s[i], q + 4); } }
    }
  }

  /** No two of a list's link words coincide. */
  lemma LinkWordsDiffer(w: Words, L: int, s: seq<int>, i: int, j: int)
    requires IsList(w, L, s) && 0 <= i <= |s| && 0 <= j <= |s|
    ensures i != j ==> At(L, s, i - 1) != At(L, s, j - 1) && At(L, s, i) != At(L, s, j)
    ensures At(L, s, i - 1) != At(L, s, j) + 4
  {
    assert i > 0 ==> NodeInMemory(w, L, s[i - 1]);
    assert j > 0 ==> NodeInMemory(w, L, s[j - 1]);
    assert i < |s| ==> NodeInMemory(w, L, s[i]);
    assert j < |s| ==> NodeInMemory(w, L, s[j]);
  }

  /** A link of s that reappears in s' at j, with neither of its two words rewritten. */
  lemma LinkKept(w: Words, w': Words, L: int, s: seq<int>, s': seq<int>, i: nat, j: nat)
    requires i <= |s| && j <= |s'| && LinkOk(w, L, s, i)
    requires At(L, s', j - 1) == At(L, s, i - 1) && At(L, s', j) == At(L, s, i)
    requires At(L, s, i - 1) in w' && w'[At(L, s, i - 1)] == w[At(L, s, i - 1)]
    requires At(L, s, i) + 4 in w' && w'[At(L, s, i) + 4] == w[At(L, s, i) + 4]
    ensures LinkOk(w', L, s', j)
  {
  }

  lemma AtApart(w: Words, L: int, s: seq<int>, node: int, i: int)
    requires IsList(w, L, s) && -1 <= i <= |s|
    requires NodeInMemory(w, L, node) && forall n :: n in s ==> Apart(n, node)
    ensures i < |s| ==> At(L, s, i) != node && At(L, s, i) != node + 4
    ensures i > -1 ==> At(L, s, i) + 4 != node && At(L, s, i) != node
  {
    if 0 <= i < |s| {
      assert s[i] in s;
    }
  }

  /** What linking a node in front of position k leaves of the link at position i. */
  lemma LinkKeptByInsert(w: Words, L: int, s: seq<int>, k: nat, node: int, i: nat)
    requires IsList(w, L, s) && k <= |s| && i <= |s| && i != k
    requires NodeInMemory(w, L, node) && forall n :: n in s ==> Apart(n, node)
    ensures LinkOk(LinkBetween(w, At(L, s, k - 1), node, At(L, s, k)), L, s[..k] + [node] + s[k..],
                   if i < k then i else i + 1)
  {
    LinkWordsDiffer(w, L, s, i, k);
    LinkWordsDiffer(w, L, s, k, i);
    AtApart(w, L, s, node, i - 1);
    AtApart(w, L, s, node, i);
    assert LinkOk(w, L, s, i);
    LinkKept(w, LinkBetween(w, At(L, s, k - 1), node, At(L, s, k)), L, s, s[..k] + [node] + s[k..],
             i, if i < k then i else i + 1);
  }

  /** Linking a fresh node in front of position k inserts it there. */
  lemma InsertAt(w: Words, L: int, s: seq<int>, k: nat, node: int)
    requires IsList(w, L, s) && k <= |s|
    requires NodeInMemory(w, L, node) && forall n :: n in s ==> Apart(n, node)
    ensures IsList(LinkBetween(w, At(L, s, k - 1), node, At(L, s, k)), L, s[..k] + [node] + s[k..])
  {
    var p, q := At(L, s, k - 1), At(L, s, k);
    var w' := LinkBetween(w, p, node, q);
    var s' := s[..k] + [node] + s[k..];
    assert LinkOk(w, L, s, k);
    AtApart(w, L, s, node, k - 1);
    AtApart(w, L, s, node, k);
    LinkWordsDiffer(w, L, s, k, k);
    forall n | n in s' ensures NodeInMemory(w', L, n) {
      assert n == node || n in s;
    }
    forall i | 0 <= i <= |s'| ensures LinkOk(w', L, s', i) {
      if i < k {
        LinkKeptByInsert(w, L, s, k, node, i);
      } else if i > k + 1 {
        LinkKeptByInsert(w, L, s, k, node, i - 1);
      }
    }
    BackSentinelKept(w, L, s, k);
    forall i | 0 <= i < |s| ensures Apart(s[i], node) {
      assert s[i] in s;
    }
  }

  /** The constant NULL word between the two sentinels is nobody's link. */
  lemma BackSentinelKept(w: Words, L: int, s: seq<int>, k: nat)
    requires IsList(w, L, s) && k <= |s|
    ensures At(L, s, k - 1) != L + 4 && At(L, s, k) + 4 != L + 4
  {
    assert k > 0 ==> NodeInMemory(w, L, s[k - 1]);
    assert k < |s| ==> NodeInMemory(w, L, s[k]);
  }

  /** Every other link is kept when the k-th node is taken out. */
  lemma LinkKeptByRemove(w: Words, L: int, s: seq<int>, k: nat, i: nat)
    requires IsList(w, L, s) && k < |s| && i < |s| && i != k
    requires s[k] in w && s[k] + 4 in w && w[s[k]] == At(L, s, k + 1) && w[s[k] + 4] == At(L, s, k - 1)
    ensures LinkOk(Unlink(w, s[k]), L, s[..k] + s[k + 1..], i)
  {
    var w', s', j := Unlink(w, s[k]), s[..k] + s[k + 1..], if i < k then i else i + 1;
    LinkWordsDiffer(w, L, s, j, k);
    LinkWordsDiffer(w, L, s, j, k + 1);
    LinkWordsDiffer(w, L, s, k, j);
    LinkWordsDiffer(w, L, s, k + 1, j);
    assert LinkOk(w, L, s, j);
    LinkKept(w, w', L, s, s', j, i);
  }

  /** `remove` takes out the node it is given, wherever in the list it stands. */
  lemma RemoveAt(w: Words, L: int, s: seq<int>, k: nat)
    requires IsList(w, L, s) && k < |s|
    ensures s[k] in w && s[k] + 4 in w
    ensures w[s[k]] == At(L, s, k + 1) && w[s[k] + 4] == At(L, s, k - 1)
    ensures IsList(Unlink(w, s[k]), L, s[..k] + s[k + 1..])
  {
    assert LinkOk(w, L, s, k) && LinkOk(w, L, s, k + 1);
    var w', s' := Unlink(w, s[k]), s[..k] + s[k + 1..];
    LinkWordsDiffer(w, L, s, k, k + 1);
    forall n | n in s' ensures NodeInMemory(w', L, n) {
      assert n in s;
    }
    BackSentinelKept(w, L, s, k);
    BackSentinelKept(w, L, s, k + 1);
    forall i | 0 <= i <= |s'| ensures LinkOk(w', L, s', i) {
      if i != k {
        LinkKeptByRemove(w, L, s, k, i);
      }
    }
  }

  /** get_next: the successor, or NULL when it is the back sentinel. */
  function GetNext(w: Words, node: int): int
    requires node == NULL || (node in w && (w[node] == NULL || w[node] in w))
  {
    if node != NULL && w[node] != NULL && w[w[node]] != NULL then w[node] else NULL
  }

  /** get_head and get_tail: NULL on an empty list. */
  function GetHead(w: Words, L: int): int
    requires L in w && w[L] in w
  {
    if w[w[L]] != NULL then w[L] else NULL
  }

  function GetTail(w: Words, L: int): int
    requires L in w && w[L] in w && L + 8 in w
  {
    if w[w[L]] != NULL then w[L + 8] else NULL
  }

  /** Iteration with get_head and get_next visits s[0], s[1], ... and then stops. */
  lemma IterationVisits(w: Words, L: int, s: seq<int>)
    requires IsList(w, L, s)
    ensures L in w && w[L] in w && L + 8 in w
    ensures GetHead(w, L) == if s == [] then NULL else s[0]
    ensures GetTail(w, L) == if s == [] then NULL else s[|s| - 1]
    ensures forall k :: 0 <= k < |s| ==> NextIs(w, s, k)
  {
    assert LinkOk(w, L, s, 0) && LinkOk(w, L, s, |s|);
    if s != [] {
      assert LinkOk(w, L, s, 1) && NodeInMemory(w, L, s[0]);
      assert |s| > 1 ==> NodeInMemory(w, L, s[1]);
    }
    forall k | 0 <= k < |s| ensures NextIs(w, s, k) {
      NextInList(w, L, s, k);
    }
  }

  ghost predicate NextIs(w: Words, s: seq<int>, k: nat)
    requires k < |s|
  {
    && s[k] in w && w[s[k]] in w
    && GetNext(w, s[k]) == (if k + 1 < |s| then s[k + 1] else NULL)
  }

  lemma NextInList(w: Words, L: int, s: seq<int>, k: nat)
    requires IsList(w, L, s) && k < |s|
    ensures NextIs(w, s, k)
  {
    assert LinkOk(w, L, s, k + 1) && NodeInMemory(w, L, s[k]);
    if k + 1 < |s| {
      assert LinkOk(w, L, s, k + 2) && NodeInMemory(w, L, s[k + 1]);
      if k + 2 < |s| {
        assert NodeInMemory(w, L, s[k + 2]);
      }
    }
  }

  /** remove_tail on an empty list takes the front sentinel for a node and writes through its NULL
      `prev`; on every other list the node it unlinks is the last one. */
  lemma RemoveTailWritesThroughNullIff(w: Words, L: int, s: seq<int>)
    requires IsList(w, L, s)
    ensures L + 8 in w && w[L + 8] + 4 in w
    ensures w[w[L + 8] + 4] == NULL <==> s == []
  {
    assert LinkOk(w, L, s, |s|);
    if s != [] {
      assert LinkOk(w, L, s, |s| - 1) && NodeInMemory(w, L, s[|s| - 1]);
      assert |s| > 1 ==> NodeInMemory(w, L, s[|s| - 2]);
    }
  }

  /** Index where `enqueue` puts priority p among priorities ps: in front of the first lower one. */
  function Slot(ps: seq<int>, p: int): (k: nat)
    ensures k <= |ps|
    ensures forall j :: 0 <= j < k ==> p <= ps[j]
    ensures k < |ps| ==> ps[k] < p
  {
    if ps == [] || p > ps[0] then 0 else 1 + Slot(ps[1..], p)
  }

  ghost predicate Descending(ps: seq<int>) {
    forall i, j :: 0 <= i < j < |ps| ==> ps[i] >= ps[j]
  }

  /** In a descending list the slot splits exactly the not-lower priorities from the lower ones, so
      the list stays descending and a newcomer queues behind its equals. */
  lemma SlotKeepsOrder(ps: seq<int>, p: int)
    requires Descending(ps)
    ensures var k := Slot(ps, p);
            && Descending(ps[..k] + [p] + ps[k..])
            && (forall j :: 0 <= j < |ps| ==> (j < k <==> p <= ps[j]))
  {
  }

  function Priorities(w: Words, s: seq<int>): (ps: seq<int>)
    requires forall n :: n in s ==> n + PRI in w
    ensures |ps| == |s|
  {
    seq(|s|, i requires 0 <= i < |s| => assert s[i] in s; w[s[i] + PRI])
  }

  /** The two stores of remove_head. */
  lemma HeadOut(w: Words, L: int, s: seq<int>)
    requires IsList(w, L, s) && s != []
    ensures L in w && w[L] == s[0] && s[0] in w && w[s[0]] != NULL && w[s[0]] + 4 != L && w[s[0]] + 4 != s[0]
    ensures IsList(w[w[s[0]] + 4 := L][L := w[s[0]]], L, s[1..])
  {
    assert LinkOk(w, L, s, 0) && LinkOk(w, L, s, 1) && NodeInMemory(w, L, s[0]);
    assert |s| > 1 ==> NodeInMemory(w, L, s[1]);
    LinkWordsDiffer(w, L, s, 0, 1);
    RemoveAt(w, L, s, 0);
    assert s[..0] + s[1..] == s[1..];
    assert Unlink(w, s[0]) == w[w[s[0]] + 4 := L][L := w[s[0]]];
  }

  /** The kernel's memory, with the operations of list.c. */
  class Memory {
    var w: Words

    constructor (words: Words)
      ensures w == words
    {
      w := words;
    }

    method NewList(L: int)
      requires HeadInMemory(w, L)
      modifies this
      ensures IsList(w, L, [])
      ensures w == old(w)[L := L + 4][L + 4 := NULL][L + 8 := L]
    {
      w := w[L := L + 4];
      w := w[L + 4 := NULL];
      w := w[L + 8 := L];
      assert LinkOk(w, L, [], 0);
    }

    method AddHead(L: int, node: int, ghost s: seq<int>)
      requires IsList(w, L, s) && NodeInMemory(w, L, node)
      requires forall n :: n in s ==> Apart(n, node)
      modifies this
      ensures IsList(w, L, [node] + s)
      ensures w == LinkBetween(old(w), L, node, At(L, s, 0))
    {
      InsertAt(w, L, s, 0, node);
      assert s[..0] + [node] + s[0..] == [node] + s;
      assert LinkOk(w, L, s, 0);
      AtApart(w, L, s, node, 0);
      var head := w[L];
      w := w[node := head];
      w := w[node + 4 := L];
      w := w[w[L] + 4 := node];
      w := w[L := node];
    }

    method AddTail(L: int, node: int, ghost s: seq<int>)
      requires IsList(w, L, s) && NodeInMemory(w, L, node)
      requires forall n :: n in s ==> Apart(n, node)
      modifies this
      ensures IsList(w, L, s + [node])
      ensures w == LinkBetween(old(w), At(L, s, |s| - 1), node, L + 4)
    {
      InsertAt(w, L, s, |s|, node);
      assert s[..|s|] + [node] + s[|s|..] == s + [node];
      assert LinkOk(w, L, s, |s|);
      AtApart(w, L, s, node, |s| - 1);
      LinkWordsDiffer(w, L, s, |s|, |s|);
      w := w[node := L + 4];
      w := w[node + 4 := w[L + 8]];
      w := w[w[L + 8] := node];
      w := w[L + 8 := node];
      assert w == LinkBetween(old(w), At(L, s, |s| - 1), node, L + 4);
    }

    /** The node to take out is all that `remove` is given. */
    method Remove(node: int, ghost L: int, ghost s: seq<int>, ghost k: nat)
      requires IsList(w, L, s) && k < |s| && s[k] == node
      modifies this
      ensures IsList(w, L, s[..k] + s[k + 1..])
      ensures w == old(w)[At(L, s, k - 1) := At(L, s, k + 1)][At(L, s, k + 1) + 4 := At(L, s, k - 1)]
    {
      RemoveAt(w, L, s, k);
      LinkWordsDiffer(w, L, s, k, k);
      LinkWordsDiffer(w, L, s, k, k + 1);
      w := w[w[node + 4] := w[node]];
      w := w[w[node] + 4 := w[node + 4]];
    }

    method RemoveHead(L: int, ghost s: seq<int>) returns (node: int)
      requires IsList(w, L, s)
      modifies this
      ensures s == [] ==> node == NULL && w == old(w)
      ensures s != [] ==> node == s[0] && IsList(w, L, s[1..])
    {
      IterationVisits(w, L, s);
      assert LinkOk(w, L, s, 0);
      node := w[w[L]];
      if s != [] {
        HeadOut(w, L, s);
      }
      if node != NULL {
        w := w[node + 4 := L];
        node := w[L];
        w := w[L := w[node]];
      }
    }

    /** The last node; `fault` tells that the first store went through a null `prev`, where the model
        stops. */
    method RemoveTail(L: int, ghost s: seq<int>) returns (node: int, fault: bool)
      requires IsList(w, L, s)
      modifies this
      ensures fault <==> s == []
      ensures fault ==> w == old(w)
      ensures s != [] ==> node == s[|s| - 1] && IsList(w, L, s[..|s| - 1])
      ensures w.Keys == old(w).Keys
    {
      RemoveTailWritesThroughNullIff(w, L, s);
      assert LinkOk(w, L, s, |s|);
      assert s != [] ==> NodeInMemory(w, L, s[|s| - 1]);
      node := w[L + 8];
      if node != NULL {
        if w[node + 4] == NULL {
          return node, true;
        }
        assert s[..|s| - 1] + s[|s|..] == s[..|s| - 1];
        assert LinkOk(w, L, s, |s| - 1);
        Remove(node, L, s, |s| - 1);
      }
      fault := false;
    }

    /** The four stores with which `enqueue` and `insert_chunk` put a node in front of another, in the
        order of `insert_chunk`; `enqueue` does the last two the other way round. */
    method InsertBefore(node: int, next: int, ghost L: int, ghost s: seq<int>, ghost k: nat)
      requires IsList(w, L, s) && NodeInMemory(w, L, node)
      requires forall n :: n in s ==> Apart(n, node)
      requires k < |s| && s[k] == next
      modifies this
      ensures IsList(w, L, s[..k] + [node] + s[k..])
      ensures w == LinkBetween(old(w), At(L, s, k - 1), node, next)
    {
      InsertAt(w, L, s, k, node);
      assert LinkOk(w, L, s, k);
      AtApart(w, L, s, node, k);
      AtApart(w, L, s, node, k - 1);
      LinkWordsDiffer(w, L, s, k, k);
      w := w[node := next];
      w := w[node + 4 := w[next + 4]];
      w := w[next + 4 := node];
      w := w[w[node + 4] := node];
      assert w == LinkBetween(old(w), At(L, s, k - 1), node, next);
    }

    /** Priority insertion: the walk stops at the first node of lower priority. */
    method Enqueue(L: int, node: int, ghost s: seq<int>)
      requires IsList(w, L, s) && NodeInMemory(w, L, node)
      requires forall n :: n in s ==> Apart(n, node)
      requires node + PRI in w && forall n :: n in s ==> n + PRI in w
      modifies this
      ensures var k := Slot(Priorities(old(w), s), old(w)[node + PRI]);
              && IsList(w, L, s[..k] + [node] + s[k..])
              && w == LinkBetween(old(w), At(L, s, k - 1), node, At(L, s, k))
    {
      IterationVisits(w, L, s);
      ghost var ps := Priorities(w, s);
      var next := GetHead(w, L);
      ghost var i := 0;
      while next != NULL
        invariant w == old(w) && 0 <= i <= |s|
        invariant next == if i < |s| then s[i] else NULL
        invariant forall j :: 0 <= j < i ==> w[node + PRI] <= ps[j]
        decreases |s| - i
      {
        assert s[i] in s && NextIs(w, s, i);
        assert ps[i] == w[next + PRI];
        if w[node + PRI] > w[next + PRI] {
          SlotIs(ps, w[node + PRI], i);
          InsertBefore(node, next, L, s, i);
          return;
        }
        next := GetNext(w, next);
        i := i + 1;
        assert i < |s| ==> NodeInMemory(w, L, s[i]);
      }
      assert i < |s| ==> NodeInMemory(w, L, s[i]);
      SlotIs(ps, w[node + PRI], |s|);
      assert s[..|s|] + [node] + s[|s|..] == s + [node];
      AddTail(L, node, s);
    }
  }

  lemma SlotIs(ps: seq<int>, p: int, k: nat)
    requires k <= |ps|
    requires forall j :: 0 <= j < k ==> p <= ps[j]
    requires k < |ps| ==> ps[k] < p
    ensures Slot(ps, p) == k
  {
  }
}
