/** A reference for kmalloc.c that makes sure of what the code takes for granted: that the last free
    chunk is the last chunk of the heap. Where it is not, growing appends a chunk of its own, and there
    is nothing to trim. The code is this allocator for exactly as long as its heap is sound. */
module HeapReference {
  import opened HeapSpec
  import opened HeapSafety
  import opened HeapMerge
  import opened HeapRuns

  function GrowAtEnd(h: Heap): Heap {
    if TailAtEnd(h) then Grow(h)
    else Heap(h.free + [Chunk(h.end, PAGE_SIZE - HEADER)], h.end + PAGE_SIZE)
  }

  /** From the first page on, the last chunk is free, and further pages go to it. */
  function GrownAtEnd(h: Heap, a: nat): (g: Heap)
    ensures FirstFit(g.free, a) < |g.free|
  {
    if FirstFit(h.free, a) < |h.free| then h else Grown(GrowAtEnd(h), a)
  }

  function TrimAtEnd(h: Heap): Heap {
    if TailAtEnd(h) then Trim(h) else h
  }

  function BlockAtEnd(h: Heap, a: nat): Chunk {
    var F := GrownAtEnd(h, a).free;
    Block(F[FirstFit(F, a)], a)
  }

  function ServeAtEnd(h: Heap, a: nat): Heap {
    var g := GrownAtEnd(h, a);
    Heap(Take(g.free, FirstFit(g.free, a), a), g.end)
  }

  function FreeAtEnd(h: Heap, c: Chunk): Heap {
    TrimAtEnd(Heap(Coalesce(h.free, c), h.end))
  }

  ghost predicate RefStep(s: State, op: Op, s': State) {
    match op
    case Kmalloc(n) =>
      1 <= n <= MAX_REQUEST && GrownAtEnd(s.h, Rounded(n)).end <= HEAP_LIMIT
      && s' == State(ServeAtEnd(s.h, Rounded(n)), s.live + {BlockAtEnd(s.h, Rounded(n))})
    case Kfree(c) =>
      c in s.live && s' == State(FreeAtEnd(s.h, c), s.live - {c})
  }

  ghost predicate RefStepAt(states: seq<State>, ops: seq<Op>, i: int)
    requires 0 <= i < |ops| < |states|
  {
    RefStep(states[i], ops[i], states[i + 1])
  }

  ghost predicate RefRun(states: seq<State>, ops: seq<Op>) {
    |states| == |ops| + 1 && states[0] == INIT
    && forall i :: 0 <= i < |ops| ==> RefStepAt(states, ops, i)
  }

  // ---- It is always sound ---------------------------------------------------------------

  lemma AppendedOk(h: Heap)
    requires FreeOk(h) && h.end + PAGE_SIZE <= HEAP_LIMIT
    ensures FreeOk(Heap(h.free + [Chunk(h.end, PAGE_SIZE - HEADER)], h.end + PAGE_SIZE))
  {
    var d := Chunk(h.end, PAGE_SIZE - HEADER);
    var k := h.end / PAGE_SIZE;
    Multiple(0, 16, k * 256);
    assert h.end == 0 + 16 * (k * 256);
    assert ChunkOk(d, h.end + PAGE_SIZE);
    forall i | 0 <= i < |h.free| ensures Before(h.free[i], d) && ChunkOk(h.free[i], h.end + PAGE_SIZE) {
      assert h.free[i] in h.free;
    }
  }

  lemma GrowAtEndSound(h: Heap, live: set<Chunk>)
    requires Inv(h, live) && h.end + PAGE_SIZE <= HEAP_LIMIT
    ensures Inv(GrowAtEnd(h), live) && TailAtEnd(GrowAtEnd(h))
  {
    if TailAtEnd(h) {
      LargerTailSound(h, live);
    } else {
      var d, all := Chunk(h.end, PAGE_SIZE - HEADER), Elems(h.free) + live;
      AppendTiling(all, h.end);
      AppendedOk(h);
      assert Elems(h.free + [d]) == Elems(h.free) + {d};
      assert Elems(h.free + [d]) + live == all + {d};
    }
  }

  lemma GrownEnds(h: Heap, a: nat)
    requires Request(a)
    ensures Grown(h, a).end >= h.end
  {
    if FirstFit(h.free, a) == |h.free| {
      if h.free == [] { GrownFromNothing(h, a); } else { GrownTail(h, a); }
    }
  }

  lemma ServeAtEndSound(h: Heap, live: set<Chunk>, a: nat)
    requires Inv(h, live) && Request(a) && GrownAtEnd(h, a).end <= HEAP_LIMIT
    ensures Inv(ServeAtEnd(h, a), live + {BlockAtEnd(h, a)})
  {
    if FirstFit(h.free, a) == |h.free| {
      GrownEnds(GrowAtEnd(h), a);
      GrowAtEndSound(h, live);
      GrownSound(GrowAtEnd(h), live, a);
    }
    var g := GrownAtEnd(h, a);
    TakeKeepsInv(g, live, FirstFit(g.free, a), a);
  }

  lemma FreeAtEndSound(h: Heap, live: set<Chunk>, c: Chunk)
    requires Inv(h, live) && c in live
    ensures Inv(FreeAtEnd(h, c), live - {c})
  {
    InsertKeepsInv(h, live, c);
    MergeKeepsInv(Heap(Insert(h.free, c), h.end), live - {c}, 0);
    var m := Heap(Coalesce(h.free, c), h.end);
    if TailAtEnd(m) {
      TrimKeepsInv(m, live - {c});
    }
  }

  lemma RefStepSound(s: State, op: Op, s': State)
    requires Sound(s) && RefStep(s, op, s')
    ensures Sound(s')
  {
    match op
    case Kmalloc(n) =>
      RoundedOk(n);
      ServeAtEndSound(s.h, s.live, Rounded(n));
    case Kfree(c) => FreeAtEndSound(s.h, s.live, c);
  }

  /** Every run of the reference allocator is sound throughout, with no condition. */
  lemma {:induction false} RefRunSound(states: seq<State>, ops: seq<Op>, n: nat)
    requires RefRun(states, ops) && n <= |ops|
    ensures forall i :: 0 <= i <= n ==> Sound(states[i])
  {
    if n == 0 {
      InitSound();
    } else {
      RefRunSound(states, ops, n - 1);
      assert RefStepAt(states, ops, n - 1);
      RefStepSound(states[n - 1], ops[n - 1], states[n]);
    }
  }

  // ---- ... and the code is it, exactly while it is sound --------------------------------

  lemma SameServing(h: Heap, a: nat)
    requires GrowGuard(h, a)
    ensures GrownAtEnd(h, a) == Grown(h, a) && ServeAtEnd(h, a) == Serve(h, a) && BlockAtEnd(h, a) == ServedBlock(h, a)
  {
    if FirstFit(h.free, a) == |h.free| {
      assert h.free == [] ==> h.free + [Chunk(h.end, PAGE_SIZE - HEADER)] == [Chunk(h.end, PAGE_SIZE - HEADER)];
      assert GrowAtEnd(h) == Grow(h);
    }
  }

  lemma SameFreeing(h: Heap, live: set<Chunk>, c: Chunk)
    requires Inv(h, live) && c in live && TrimGuard(h, c)
    ensures FreeAtEnd(h, c) == Free(h, c)
  {
    LiveIsApart(h, live, c);
    InsertKeepsInv(h, live, c);
    LastOfInsert(h, c);
    MergeKeeps(Heap(Insert(h.free, c), h.end), 0);
  }

  /** From a sound heap, a call of the code does what the reference allocator does exactly if it keeps
      the heap sound: if it does not grow or trim at a tail that is not the last chunk. */
  lemma StepIsReferenceIff(s: State, op: Op, s': State)
    requires Sound(s) && Step(s, op, s')
    ensures RefStep(s, op, s') <==> Guard(s, op)
    ensures RefStep(s, op, s') <==> Sound(s')
  {
    StepSoundIff(s, op, s');
    if Guard(s, op) {
      match op
      case Kmalloc(n) => SameServing(s.h, Rounded(n));
      case Kfree(c) => SameFreeing(s.h, s.live, c);
    }
    if RefStep(s, op, s') {
      RefStepSound(s, op, s');
    }
  }

  /** A run of the code is sound throughout exactly if it is a run of the reference allocator. */
  lemma RunSoundIffReference(states: seq<State>, ops: seq<Op>)
    requires Run(states, ops)
    ensures (forall i :: 0 <= i <= |ops| ==> Sound(states[i])) <==> RefRun(states, ops)
  {
    if forall i :: 0 <= i <= |ops| ==> Sound(states[i]) {
      forall i | 0 <= i < |ops| ensures RefStepAt(states, ops, i) {
        assert StepAt(states, ops, i) && Sound(states[i]) && Sound(states[i + 1]);
        StepIsReferenceIff(states[i], ops[i], states[i + 1]);
      }
    }
    if RefRun(states, ops) {
      RefRunSound(states, ops, |ops|);
    }
  }
}
