/** Trimming, _kfree as a whole, and all runs of _kmalloc and _kfree. */
module HeapRuns {
  import opened HeapSpec
  import opened HeapSafety
  import opened HeapMerge

  // ---- Trimming (kmalloc.c:262-269) -----------------------------------------------------

  /** Pages the trimming loop gives back. */
  function Trimmed(F: seq<Chunk>): nat {
    if F == [] || Last(F).size <= PAGE_SIZE then 0 else (Last(F).size - 1) / PAGE_SIZE
  }

  /** k pages off the tail and off the heap end. */
  function Shrunk(h: Heap, k: nat): Heap
    requires k > 0 ==> h.free != [] && Last(h.free).size >= k * PAGE_SIZE && h.end >= k * PAGE_SIZE
  {
    if k == 0 then h
    else Heap(Resized(h.free, Last(h.free).size - k * PAGE_SIZE), h.end - k * PAGE_SIZE)
  }

  lemma {:induction false} TrimClosed(h: Heap)
    requires h.free != [] ==> h.end >= Last(h.free).size
    ensures Trim(h) == Shrunk(h, Trimmed(h.free))
    decreases if h.free == [] then 0 else Last(h.free).size
  {
    var F, k := h.free, Trimmed(h.free);
    if k > 0 {
      var g := Shrunk(h, 1);
      assert Trim(h) == Trim(g);
      assert Trimmed(g.free) == k - 1;
      TrimClosed(g);
      if k > 1 {
        ResizedTwice(F, Last(F).size - PAGE_SIZE, Last(F).size - k * PAGE_SIZE);
      }
    }
  }

  lemma TrimmedRange(F: seq<Chunk>)
    requires F != [] && Last(F).size > 0
    ensures var k := Trimmed(F);
            0 <= k * PAGE_SIZE < Last(F).size <= (k + 1) * PAGE_SIZE
  {
  }

  lemma ShrunkKeepsFree(h: Heap, k: nat)
    requires FreeOk(h) && h.free != [] && k * PAGE_SIZE < Last(h.free).size
    ensures h.end >= k * PAGE_SIZE && Last(h.free).size <= h.end
    ensures FreeOk(Shrunk(h, k)) && (TailAtEnd(Shrunk(h, k)) <==> TailAtEnd(h))
  {
    var t := Last(h.free);
    assert t in h.free && ChunkOk(t, h.end);
    if k > 0 {
      FewerPages(t.size, h.end, k);
      ResizeKeepsFree(h, t.size - k * PAGE_SIZE, h.end - k * PAGE_SIZE);
    }
  }

  lemma TrimIs(h: Heap)
    requires FreeOk(h)
    ensures FreeOk(Trim(h))
    ensures h.free == [] ==> Trim(h) == h
    ensures h.free != [] ==> var k := Trimmed(h.free);
                             k * PAGE_SIZE < Last(h.free).size <= h.end && Trim(h) == Shrunk(h, k)
    ensures h.free != [] ==> Trim(h).free != [] && Last(Trim(h).free).size <= PAGE_SIZE
                             && (TailAtEnd(Trim(h)) <==> TailAtEnd(h))
  {
    if h.free != [] {
      assert Last(h.free) in h.free && ChunkOk(Last(h.free), h.end);
      TrimmedRange(h.free);
      ShrunkKeepsFree(h, Trimmed(h.free));
      TrimClosed(h);
    }
  }

  /** One page less. */
  lemma TrimOnceKeepsInv(h: Heap, live: set<Chunk>)
    requires Inv(h, live) && TailAtEnd(h) && Last(h.free).size > PAGE_SIZE
    ensures Inv(Heap(Resized(h.free, Last(h.free).size - PAGE_SIZE), h.end - PAGE_SIZE), live)
  {
    var all, t := Elems(h.free) + live, Last(h.free);
    var t' := Chunk(t.addr, t.size - PAGE_SIZE);
    assert t in Elems(h.free) && ChunkOk(t, h.end);
    FewerPages(t.size, h.end, 1);
    ResizeKeepsFree(h, t.size - PAGE_SIZE, h.end - PAGE_SIZE);
    ShrinkTiling(all, t, h.end);
    NoDoubleStart(all, t, t', h.end);
    assert Elems(Resized(h.free, t.size - PAGE_SIZE)) + live == all - {t} + {t'};
  }

  lemma {:induction false} TrimKeepsInv(h: Heap, live: set<Chunk>)
    requires Inv(h, live) && (h.free == [] || Last(h.free).size <= PAGE_SIZE || TailAtEnd(h))
    ensures Inv(Trim(h), live)
    decreases if h.free == [] then 0 else Last(h.free).size
  {
    if h.free != [] && Last(h.free).size > PAGE_SIZE {
      TrimOnceKeepsInv(h, live);
      TrimKeepsInv(Heap(Resized(h.free, Last(h.free).size - PAGE_SIZE), h.end - PAGE_SIZE), live);
    }
  }

  /** The chunk in front of the heap end. */
  lemma ChunkAtEnd(h: Heap, live: set<Chunk>) returns (d: Chunk)
    requires Inv(h, live) && h.free != [] && !TailAtEnd(h)
    ensures d in live && d.End() == h.end
  {
    var all, t := Elems(h.free) + live, Last(h.free);
    assert t in Elems(h.free) && ChunkOk(t, h.end);
    forall c | c in Elems(h.free) ensures c.End() < h.end {
      var k :| 0 <= k < |h.free| && h.free[k] == c;
      assert k < |h.free| - 1 ==> Before(c, t);
    }
    assert Covered(all, h.end - 1);
    d :| d in all && Holds(d, h.end - 1);
    assert ChunkOk(d, h.end);
  }

  /** Trimming keeps the heap sound exactly when it has nothing to trim or the tail of the free list
      is the last chunk of the heap; otherwise it unmaps a page of a live block. */
  lemma TrimSoundIff(h: Heap, live: set<Chunk>)
    requires Inv(h, live)
    ensures Inv(Trim(h), live) <==> h.free == [] || Last(h.free).size <= PAGE_SIZE || TailAtEnd(h)
  {
    if h.free == [] || Last(h.free).size <= PAGE_SIZE || TailAtEnd(h) {
      TrimKeepsInv(h, live);
    } else {
      TrimIs(h);
      TrimmedRange(h.free);
      var d := ChunkAtEnd(h, live);
      assert d in Elems(Trim(h).free) + live && !ChunkOk(d, Trim(h).end);
    }
  }

  // ---- _kfree ---------------------------------------------------------------------------

  /** The free list of _kfree before its trimming. */
  function Coalesce(F: seq<Chunk>, c: Chunk): seq<Chunk> {
    MergeFrom(Insert(F, c), 0)
  }

  predicate TrimGuard(h: Heap, c: Chunk) {
    var G := Coalesce(h.free, c);
    G == [] || Last(G).size <= PAGE_SIZE || TailAtEnd(h) || c.End() == h.end
  }

  lemma LastOfInsert(h: Heap, c: Chunk)
    requires FreeOk(h) && ChunkOk(c, h.end) && forall d :: d in h.free ==> Disjoint(c, d)
    ensures Insert(h.free, c) != []
    ensures Last(Insert(h.free, c)).End() == h.end <==> TailAtEnd(h) || c.End() == h.end
  {
    var F := h.free;
    if F != [] {
      assert Last(F) in F && Disjoint(c, Last(F)) && ChunkOk(Last(F), h.end);
    }
  }

  lemma LiveIsApart(h: Heap, live: set<Chunk>, c: Chunk)
    requires Inv(h, live) && c in live
    ensures ChunkOk(c, h.end) && forall d :: d in h.free ==> Disjoint(c, d)
  {
    assert c in Elems(h.free) + live;
    forall d | d in h.free ensures Disjoint(c, d) {
      assert d in Elems(h.free) && d in Elems(h.free) + live;
    }
  }

  /** _kfree of a live block: the free list comes out coalesced, its tail no larger than a page; the
      heap as a whole stays sound exactly when the trimming it did (if any) was harmless. */
  lemma FreeSoundIff(h: Heap, live: set<Chunk>, c: Chunk)
    requires Inv(h, live) && c in live
    ensures FreeOk(Free(h, c)) && Coalesced(Free(h, c).free)
    ensures Free(h, c).free != [] && Last(Free(h, c).free).size <= PAGE_SIZE
    ensures Inv(Free(h, c), live - {c}) <==> TrimGuard(h, c)
    ensures TailAtEnd(Free(h, c)) <==> TailAtEnd(h) || c.End() == h.end
  {
    LiveIsApart(h, live, c);
    InsertKeepsInv(h, live, c);
    LastOfInsert(h, c);
    var i := Heap(Insert(h.free, c), h.end);
    MergeKeepsInv(i, live - {c}, 0);
    MergeKeeps(i, 0);
    var m := Heap(MergeFrom(i.free, 0), h.end);
    TrimIs(m);
    TrimSoundIff(m, live - {c});
    TrimKeepsCoalesced(m);
  }

  lemma TrimKeepsCoalesced(h: Heap)
    requires FreeOk(h) && Coalesced(h.free)
    ensures Coalesced(Trim(h).free)
  {
    TrimIs(h);
    ResizeKeepsCoalesced(h.free, if h.free == [] then 0 else Last(Trim(h).free).size);
  }

  lemma ResizeKeepsCoalesced(F: seq<Chunk>, size: nat)
    requires Coalesced(F)
    ensures F != [] ==> Coalesced(Resized(F, size))
  {
    if F != [] {
      var G := Resized(F, size);
      forall k | 0 < k < |G| ensures !Adjacent(G[k - 1], G[k]) {
        assert !Adjacent(F[k - 1], F[k]);
      }
    }
  }

  // ---- Full coalescing and the last chunk through _kmalloc ------------------------------

  lemma TakeKeepsCoalesced(h: Heap, i: nat, a: nat)
    requires FreeOk(h) && Coalesced(h.free) && i < |h.free| && Request(a) && Fits(h.free[i], a)
    ensures Coalesced(Take(h.free, i, a))
  {
    var F := h.free;
    assert F[i] in F;
    TakeIs(h, i, a);
    Carving(F[i], a, h.end);
    RemainderKeepsCoalesced(h, i, Remainder(F[i], a));
  }

  lemma RemainderKeepsCoalesced(h: Heap, i: nat, R: seq<Chunk>)
    requires FreeOk(h) && Coalesced(h.free) && i < |h.free| && |R| <= 1
    requires |R| == 1 ==> h.free[i].addr < R[0].addr && R[0].End() == h.free[i].End()
    ensures Coalesced(h.free[..i] + R + h.free[i + 1..])
  {
    var F := h.free;
    var G := F[..i] + R + F[i + 1..];
    forall k | 0 < k < |G| ensures !Adjacent(G[k - 1], G[k]) {
      if k < i {
        assert !Adjacent(F[k - 1], F[k]);
      } else if k == i {
        assert Before(F[i - 1], F[i]);
        assert |R| == 0 ==> Before(F[i], F[i + 1]);
      } else {
        var l := k + 1 - |R|;
        assert !Adjacent(F[l - 1], F[l]);
      }
    }
  }

  lemma ServeKeepsCoalesced(h: Heap, a: nat)
    requires FreeOk(h) && Coalesced(h.free) && Request(a) && FreeOk(Grown(h, a))
    ensures Coalesced(Serve(h, a).free)
  {
    var g := Grown(h, a);
    if FirstFit(h.free, a) == |h.free| {
      if h.free == [] {
        GrownFromNothing(h, a);
      } else {
        GrownTail(h, a);
        ResizeKeepsCoalesced(h.free, Last(g.free).size);
      }
    }
    TakeKeepsCoalesced(g, FirstFit(g.free, a), a);
  }

  /** Nothing mapped yet, or the last chunk of the heap is free. */
  predicate LastFree(h: Heap) {
    h.end == HEAP_START || TailAtEnd(h)
  }

  /** The one way to lose LastFree: the first chunk to fit a 16-byte request is the heap's last chunk
      and has 32 bytes, so that it goes out whole. */
  predicate TakesLastWhole(h: Heap, a: nat) {
    var i := FirstFit(h.free, a);
    a == 16 && i < |h.free| && h.free[i].size == 32 && h.free[i].End() == h.end
  }

  lemma ServeLastFreeIff(h: Heap, live: set<Chunk>, a: nat)
    requires Inv(h, live) && LastFree(h) && Request(a) && Grown(h, a).end <= HEAP_LIMIT
    ensures GrowGuard(h, a)
    ensures LastFree(Serve(h, a)) <==> !TakesLastWhole(h, a)
  {
    assert h.end == HEAP_START ==> h.free == [] by {
      if h.free != [] { assert h.free[0] in h.free; }
    }
    GrownSoundIff(h, live, a);
    var g := Grown(h, a);
    var i := FirstFit(g.free, a);
    assert TailAtEnd(g);
    TakeLastFreeIff(g, i, a);
    if FirstFit(h.free, a) == |h.free| {
      GrownTailIsLarge(h, a);
    }
  }

  /** A chunk that has just grown to fit, or has just appeared, is larger than 32 bytes. */
  lemma GrownTailIsLarge(h: Heap, a: nat)
    requires FreeOk(h) && Request(a) && FirstFit(h.free, a) == |h.free|
    ensures Grown(h, a).free != [] && FirstFit(Grown(h, a).free, a) == |Grown(h, a).free| - 1
    ensures Last(Grown(h, a).free).size > 32
  {
    if h.free == [] {
      GrownFromNothing(h, a);
    } else {
      GrownTail(h, a);
    }
  }

  lemma TakeLastFreeIff(g: Heap, i: nat, a: nat)
    requires FreeOk(g) && TailAtEnd(g) && Request(a) && i < |g.free| && Fits(g.free[i], a)
    ensures var c := g.free[i];
            LastFree(Heap(Take(g.free, i, a), g.end)) <==> !(a == 16 && c.size == 32 && c.End() == g.end)
  {
    var F, c := g.free, g.free[i];
    assert c in F && Last(F) in F && ChunkOk(Last(F), g.end);
    assert i < |F| - 1 ==> Before(c, Last(F));
    Carving(c, a, g.end);
    TakeIs(g, i, a);
    LastAfterSplice(g, i, Remainder(c, a));
  }

  lemma LastAfterSplice(g: Heap, i: nat, R: seq<Chunk>)
    requires FreeOk(g) && TailAtEnd(g) && i < |g.free| && |R| <= 1
    requires |R| == 1 ==> R[0].End() == g.free[i].End()
    ensures LastFree(Heap(g.free[..i] + R + g.free[i + 1..], g.end)) <==> i < |g.free| - 1 || |R| == 1
  {
    var F := g.free;
    var G := F[..i] + R + F[i + 1..];
    assert Last(F) in F && ChunkOk(Last(F), g.end);
    if i < |F| - 1 {
      assert Last(G) == Last(F);
    } else if R == [] && G != [] {
      assert Last(G) == F[i - 1] && Before(F[i - 1], F[i]);
    }
  }

  // ---- Runs -----------------------------------------------------------------------------

  datatype Op = Kmalloc(n: nat) | Kfree(c: Chunk)

  datatype State = State(h: Heap, live: set<Chunk>)

  /** The effect of one call, as the code computes it. A request that would take the heap past the
      end of RAM panics in pa_alloc and is no step. */
  ghost predicate Step(s: State, op: Op, s': State) {
    match op
    case Kmalloc(n) =>
      1 <= n <= MAX_REQUEST && Grown(s.h, Rounded(n)).end <= HEAP_LIMIT
      && s' == State(Malloc(s.h, n), s.live + {MallocBlock(s.h, n)})
    case Kfree(c) =>
      c in s.live && s' == State(Free(s.h, c), s.live - {c})
  }

  predicate Guard(s: State, op: Op) {
    match op
    case Kmalloc(n) => GrowGuard(s.h, Rounded(n))
    case Kfree(c) => TrimGuard(s.h, c)
  }

  const INIT := State(Heap([], HEAP_START), {})

  ghost predicate StepAt(states: seq<State>, ops: seq<Op>, i: int)
    requires 0 <= i < |ops| < |states|
  {
    Step(states[i], ops[i], states[i + 1])
  }

  ghost predicate Run(states: seq<State>, ops: seq<Op>) {
    |states| == |ops| + 1 && states[0] == INIT
    && forall i :: 0 <= i < |ops| ==> StepAt(states, ops, i)
  }

  ghost predicate Sound(s: State) {
    Inv(s.h, s.live)
  }

  lemma StepSoundIff(s: State, op: Op, s': State)
    requires Sound(s) && Step(s, op, s')
    ensures Sound(s') <==> Guard(s, op)
    ensures Coalesced(s.h.free) ==> Coalesced(s'.h.free)
  {
    match op
    case Kmalloc(n) =>
      MallocSoundIff(s.h, s.live, n);
      RoundedOk(n);
      GrownSoundIff(s.h, s.live, Rounded(n));
      if Coalesced(s.h.free) { ServeKeepsCoalesced(s.h, Rounded(n)); }
    case Kfree(c) =>
      FreeSoundIff(s.h, s.live, c);
  }

  lemma InitSound()
    ensures Sound(INIT) && LastFree(INIT.h) && Coalesced(INIT.h.free)
  {
  }

  lemma {:induction false} SoundWhileGuarded(states: seq<State>, ops: seq<Op>, n: nat)
    requires Run(states, ops) && n <= |ops| && forall i :: 0 <= i < n ==> Guard(states[i], ops[i])
    ensures forall i :: 0 <= i <= n ==> Sound(states[i])
    ensures Coalesced(states[n].h.free)
  {
    if n == 0 {
      InitSound();
    } else {
      SoundWhileGuarded(states, ops, n - 1);
      assert StepAt(states, ops, n - 1) && Guard(states[n - 1], ops[n - 1]);
      StepSoundIff(states[n - 1], ops[n - 1], states[n]);
    }
  }

  /** Over every run: the heap has been sound throughout exactly when no call on the way grew or
      trimmed the heap at a tail that was not its last chunk; it is then fully coalesced as well. */
  lemma RunSoundIff(states: seq<State>, ops: seq<Op>)
    requires Run(states, ops)
    ensures (forall i :: 0 <= i <= |ops| ==> Sound(states[i])) <==>
            (forall i :: 0 <= i < |ops| ==> Guard(states[i], ops[i]))
    ensures (forall i :: 0 <= i <= |ops| ==> Sound(states[i])) ==> Coalesced(states[|ops|].h.free)
  {
    if forall i :: 0 <= i <= |ops| ==> Sound(states[i]) {
      forall i | 0 <= i < |ops| ensures Guard(states[i], ops[i]) {
        assert StepAt(states, ops, i) && Sound(states[i]) && Sound(states[i + 1]);
        StepSoundIff(states[i], ops[i], states[i + 1]);
      }
    }
    if forall i :: 0 <= i < |ops| ==> Guard(states[i], ops[i]) {
      SoundWhileGuarded(states, ops, |ops|);
    }
  }

  /** One call that does not hand out a 32-byte last chunk whole. */
  lemma StepKeepsLastFree(s: State, op: Op, s': State)
    requires Sound(s) && LastFree(s.h) && Coalesced(s.h.free) && Step(s, op, s')
    requires op.Kmalloc? ==> !TakesLastWhole(s.h, Rounded(op.n))
    ensures Guard(s, op) && Sound(s') && LastFree(s'.h) && Coalesced(s'.h.free)
  {
    match op
    case Kmalloc(m) =>
      RoundedOk(m);
      ServeLastFreeIff(s.h, s.live, Rounded(m));
      StepSoundIff(s, op, s');
    case Kfree(c) =>
      FreeSoundIff(s.h, s.live, c);
      LiveIsApart(s.h, s.live, c);
      StepSoundIff(s, op, s');
  }

  /** Runs that never hand out a 32-byte last chunk whole are sound throughout, with no condition on
      growth or trimming left: the last chunk is then always free. */
  lemma {:induction false} RunSoundWhileLastFree(states: seq<State>, ops: seq<Op>, n: nat)
    requires Run(states, ops) && n <= |ops|
    requires forall i :: 0 <= i < n && ops[i].Kmalloc? ==> !TakesLastWhole(states[i].h, Rounded(ops[i].n))
    ensures Sound(states[n]) && LastFree(states[n].h) && Coalesced(states[n].h.free)
  {
    if n == 0 {
      InitSound();
    } else {
      RunSoundWhileLastFree(states, ops, n - 1);
      assert StepAt(states, ops, n - 1);
      StepKeepsLastFree(states[n - 1], ops[n - 1], states[n]);
    }
  }

  /** Live blocks stay put: a sound step adds at most the block it hands out and removes at most the
      one it is given. */
  lemma LiveBlocksStay(s: State, op: Op, s': State)
    requires Sound(s) && Step(s, op, s') && Guard(s, op)
    ensures match op
            case Kmalloc(n) => s'.live == s.live + {MallocBlock(s.h, n)} && MallocBlock(s.h, n) !in s.live
                               && forall c :: c in s.live ==> Disjoint(MallocBlock(s.h, n), c)
            case Kfree(c) => s'.live == s.live - {c} && s.live == s'.live + {c}
  {
    if op.Kmalloc? {
      BlockHandedOut(s.h, s.live, op.n);
      MallocSoundIff(s.h, s.live, op.n);
    }
  }

  /** What the call hands out, if anything, is clear of c. */
  predicate ClearOf(s: State, op: Op, c: Chunk) {
    op.Kmalloc? ==> Disjoint(MallocBlock(s.h, op.n), c)
  }

  lemma StepKeepsLive(s: State, op: Op, s': State, c: Chunk)
    requires Sound(s) && Step(s, op, s') && Guard(s, op) && c in s.live && op != Kfree(c)
    ensures c in s'.live && ClearOf(s, op, c)
  {
    LiveBlocksStay(s, op, s');
  }

  /** Over every sound run: a block, once handed out, stays live at its place until it is itself given
      back, and everything handed out meanwhile is clear of it. */
  lemma {:induction false} LiveUntilFreed(states: seq<State>, ops: seq<Op>, i: nat, j: nat, c: Chunk)
    requires Run(states, ops) && i <= j <= |ops| && c in states[i].live
    requires forall m :: 0 <= m <= j ==> Sound(states[m])
    requires forall m :: i <= m < j ==> ops[m] != Kfree(c)
    ensures c in states[j].live
    ensures forall m :: i <= m < j ==> ClearOf(states[m], ops[m], c)
    decreases j
  {
    if i < j {
      LiveUntilFreed(states, ops, i, j - 1, c);
      assert StepAt(states, ops, j - 1) && Sound(states[j - 1]) && Sound(states[j]);
      StepSoundIff(states[j - 1], ops[j - 1], states[j]);
      StepKeepsLive(states[j - 1], ops[j - 1], states[j], c);
    }
  }
}
