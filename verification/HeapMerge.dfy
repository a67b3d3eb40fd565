/** Freeing: insertion in address order, full coalescing and trimming. */
module HeapMerge {
  import opened HeapSpec
  import opened HeapSafety

  /** No free chunk ends where the next one starts. */
  ghost predicate Coalesced(F: seq<Chunk>) {
    forall k :: 0 < k < |F| ==> !Adjacent(F[k - 1], F[k])
  }

  /** Coalesced up to and including position k. */
  ghost predicate CoalescedTo(F: seq<Chunk>, k: nat) {
    forall j :: 0 < j <= k && j < |F| ==> !Adjacent(F[j - 1], F[j])
  }

  lemma InsertKeeps(h: Heap, c: Chunk)
    requires FreeOk(h) && ChunkOk(c, h.end)
    requires forall d :: d in h.free ==> Disjoint(c, d)
    ensures FreeOk(Heap(Insert(h.free, c), h.end))
    ensures Elems(Insert(h.free, c)) == Elems(h.free) + {c}
  {
    var F := h.free;
    var i := Position(F, c.addr);
    forall k | 0 <= k < |F| ensures if k < i then Before(F[k], c) else Before(c, F[k]) {
      assert F[k] in F && Disjoint(c, F[k]);
      assert k >= i ==> k == i || Before(F[i], F[k]);
    }
    Splice(h, i, i, [c]);
    assert Elems(F[i..i]) == {} && Elems([c]) == {c};
  }

  /** Freeing a live block moves it to the free list. */
  lemma InsertKeepsInv(h: Heap, live: set<Chunk>, c: Chunk)
    requires Inv(h, live) && c in live
    ensures Inv(Heap(Insert(h.free, c), h.end), live - {c})
  {
    assert c in Elems(h.free) + live;
    forall d | d in h.free ensures Disjoint(c, d) {
      assert d in Elems(h.free) && d in Elems(h.free) + live;
    }
    InsertKeeps(h, c);
    assert Elems(h.free) + {c} + (live - {c}) == Elems(h.free) + live;
  }

  /** Joining two neighbours: same bytes, one chunk less. */
  lemma JoinKeeps(h: Heap, k: nat)
    requires FreeOk(h) && k + 1 < |h.free| && Adjacent(h.free[k], h.free[k + 1])
    ensures var c, d, G := h.free[k], h.free[k + 1], h.free[..k] + [Joined(h.free[k], h.free[k + 1])] + h.free[k + 2..];
            && FreeOk(Heap(G, h.end))
            && {c, d} <= Elems(h.free)
            && Elems(G) == Elems(h.free) - {c, d} + {Joined(c, d)}
            && c.addr == Joined(c, d).addr && d.End() == Joined(c, d).End() && ChunkOk(Joined(c, d), h.end)
            && forall x :: Covered({c, d}, x) <==> Covered({Joined(c, d)}, x)
  {
    var F, c, d := h.free, h.free[k], h.free[k + 1];
    var j := Joined(c, d);
    assert c in F && d in F;
    forall l, g | 0 <= l < k && g in [j] ensures Before(F[l], g) {
      assert Before(F[l], c);
    }
    forall l, g | k + 2 <= l < |F| && g in [j] ensures Before(g, F[l]) {
      assert Before(d, F[l]);
    }
    Splice(h, k, k + 2, [j]);
    assert F[k..k + 2] == [c, d];
    assert Elems([c, d]) == {c, d} && Elems([j]) == {j};
    forall x ensures Covered({c, d}, x) <==> Covered({j}, x) {
      assert c in {c, d} && d in {c, d} && j in {j};
    }
  }

  lemma JoinKeepsInv(h: Heap, live: set<Chunk>, k: nat)
    requires Inv(h, live) && k + 1 < |h.free| && Adjacent(h.free[k], h.free[k + 1])
    ensures Inv(Heap(h.free[..k] + [Joined(h.free[k], h.free[k + 1])] + h.free[k + 2..], h.end), live)
  {
    var c, d := h.free[k], h.free[k + 1];
    var all, j := Elems(h.free) + live, Joined(c, d);
    JoinKeeps(h, k);
    Retile(all, {c, d}, {j}, h.end);
    var G := h.free[..k] + [j] + h.free[k + 2..];
    assert Elems(G) + live == all - {c, d} + {j};
    assert j !in live by {
      assert j !in all - {c, d};
    }
  }

  lemma JoinedCoalescedTo(F: seq<Chunk>, k: nat)
    requires k + 1 < |F| && CoalescedTo(F, k) && Adjacent(F[k], F[k + 1])
    ensures var G := F[..k] + [Joined(F[k], F[k + 1])] + F[k + 2..];
            CoalescedTo(G, k) && |G| == |F| - 1 && Last(G).End() == Last(F).End()
  {
    var G := F[..k] + [Joined(F[k], F[k + 1])] + F[k + 2..];
    forall j | 0 < j <= k && j < |G| ensures !Adjacent(G[j - 1], G[j]) {
      assert !Adjacent(F[j - 1], F[j]);
    }
  }

  /** What one pass of merge_heap does to a free list. */
  lemma {:induction false} MergeKeeps(h: Heap, k: nat)
    requires FreeOk(h) && k <= |h.free| && CoalescedTo(h.free, k)
    ensures var G := MergeFrom(h.free, k);
            && FreeOk(Heap(G, h.end))
            && Coalesced(G)
            && (h.free != [] ==> G != [] && Last(G).End() == Last(h.free).End())
    decreases |h.free| - k
  {
    var F := h.free;
    if k < |F| {
      if k + 1 < |F| && Adjacent(F[k], F[k + 1]) {
        JoinKeeps(h, k);
        JoinedCoalescedTo(F, k);
        MergeKeeps(Heap(F[..k] + [Joined(F[k], F[k + 1])] + F[k + 2..], h.end), k);
      } else {
        MergeKeeps(h, k + 1);
      }
    }
  }

  /** merge_heap frees or loses no byte. */
  lemma {:induction false} MergeKeepsBytes(h: Heap, k: nat, x: nat)
    requires FreeOk(h) && k <= |h.free|
    ensures Covered(Elems(MergeFrom(h.free, k)), x) <==> Covered(Elems(h.free), x)
    decreases |h.free| - k
  {
    var F := h.free;
    if k < |F| {
      if k + 1 < |F| && Adjacent(F[k], F[k + 1]) {
        JoinKeeps(h, k);
        var c, d := F[k], F[k + 1];
        var G := F[..k] + [Joined(c, d)] + F[k + 2..];
        CoveredSwap(Elems(F), {c, d}, {Joined(c, d)}, x);
        MergeKeepsBytes(Heap(G, h.end), k, x);
      } else {
        MergeKeepsBytes(h, k + 1, x);
      }
    }
  }

  lemma CoveredSwap(all: set<Chunk>, del: set<Chunk>, ins: set<Chunk>, x: nat)
    requires del <= all && (Covered(del, x) <==> Covered(ins, x))
    ensures Covered(all - del + ins, x) <==> Covered(all, x)
  {
    var all' := all - del + ins;
    if Covered(all, x) {
      var c :| c in all && Holds(c, x);
      if c in del {
        var d :| d in ins && Holds(d, x);
        assert d in all';
      } else {
        assert c in all';
      }
    }
    if Covered(all', x) {
      var c :| c in all' && Holds(c, x);
      if c in ins {
        var d :| d in del && Holds(d, x);
        assert d in all;
      }
    }
  }

  lemma {:induction false} MergeKeepsInv(h: Heap, live: set<Chunk>, k: nat)
    requires Inv(h, live) && k <= |h.free|
    ensures Inv(Heap(MergeFrom(h.free, k), h.end), live)
    decreases |h.free| - k
  {
    var F := h.free;
    if k < |F| {
      if k + 1 < |F| && Adjacent(F[k], F[k + 1]) {
        JoinKeepsInv(h, live, k);
        MergeKeepsInv(Heap(F[..k] + [Joined(F[k], F[k + 1])] + F[k + 2..], h.end), live, k);
      } else {
        MergeKeepsInv(h, live, k + 1);
      }
    }
  }

  /** merge_heap is idempotent: it leaves a coalesced list alone. */
  lemma {:induction false} MergeIdempotent(F: seq<Chunk>, k: nat)
    requires Coalesced(F) && k <= |F|
    ensures MergeFrom(F, k) == F
    decreases |F| - k
  {
    if k < |F| {
      assert k + 1 < |F| ==> !Adjacent(F[k + 1 - 1], F[k + 1]);
      MergeIdempotent(F, k + 1);
    }
  }

  // ---- Coalesced lists are canonical ----------------------------------------------------

  ghost predicate SameBytesFree(F: seq<Chunk>, G: seq<Chunk>) {
    forall x :: Covered(Elems(F), x) <==> Covered(Elems(G), x)
  }

  /** A byte of an ascending list lies in the first chunk or behind it. */
  lemma HeadHolds(F: seq<Chunk>, x: nat)
    requires Ascending(F) && F != []
    ensures Covered(Elems(F), x) <==> Holds(F[0], x) || Covered(Elems(F[1..]), x)
    ensures Covered(Elems(F[1..]), x) ==> F[0].End() <= x
    ensures Coalesced(F) ==> !Covered(Elems(F), F[0].End())
    ensures Coalesced(F) ==> Coalesced(F[1..])
    ensures Ascending(F[1..])
  {
    assert F[0] in Elems(F);
    forall c | c in Elems(F[1..]) ensures Before(F[0], c) && c in Elems(F) && (Coalesced(F) ==> F[0].End() < c.addr) {
      var k :| 0 <= k < |F[1..]| && F[1..][k] == c;
      assert F[k + 1] == c;
      assert k > 0 ==> Before(F[1], F[k + 1]);
      assert Coalesced(F) ==> !Adjacent(F[1 - 1], F[1]);
    }
    forall c | c in Elems(F) && c != F[0] ensures c in Elems(F[1..]) {
      var k :| 0 <= k < |F| && F[k] == c;
      assert F[1..][k - 1] == c;
    }
    forall k | 0 < k < |F[1..]| && Coalesced(F) ensures !Adjacent(F[1..][k - 1], F[1..][k]) {
      assert !Adjacent(F[k + 1 - 1], F[k + 1]);
    }
  }

  lemma FirstByte(F: seq<Chunk>, G: seq<Chunk>)
    requires Ascending(F) && F != [] && SameBytesFree(F, G) && Ascending(G)
    ensures G != [] && G[0].addr <= F[0].addr
  {
    assert F[0] in Elems(F) && Holds(F[0], F[0].addr);
    assert Covered(Elems(F), F[0].addr);
    assert Covered(Elems(G), F[0].addr);
    HeadHolds(G, F[0].addr);
  }

  lemma FirstEnd(F: seq<Chunk>, G: seq<Chunk>)
    requires Ascending(F) && Ascending(G) && Coalesced(F) && SameBytesFree(F, G)
    requires F != [] && G != [] && F[0].addr == G[0].addr
    ensures G[0].End() <= F[0].End()
  {
    var x := F[0].End();
    HeadHolds(F, x);
    HeadHolds(G, x);
    assert !Covered(Elems(G), x);
  }

  /** There is only one coalesced list over given bytes, so what merge_heap computes is determined
      by the bytes that are free and by nothing else. */
  lemma {:induction false} CoalescedIsCanonical(F: seq<Chunk>, G: seq<Chunk>)
    requires Ascending(F) && Ascending(G) && Coalesced(F) && Coalesced(G) && SameBytesFree(F, G)
    ensures F == G
  {
    if F != [] || G != [] {
      if F != [] { FirstByte(F, G); } else { FirstByte(G, F); }
      FirstByte(F, G);
      FirstByte(G, F);
      FirstEnd(F, G);
      FirstEnd(G, F);
      forall x ensures Covered(Elems(F[1..]), x) <==> Covered(Elems(G[1..]), x) {
        HeadHolds(F, x);
        HeadHolds(G, x);
      }
      HeadHolds(F, 0);
      HeadHolds(G, 0);
      CoalescedIsCanonical(F[1..], G[1..]);
      assert F == [F[0]] + F[1..] && G == [G[0]] + G[1..];
    }
  }
}
