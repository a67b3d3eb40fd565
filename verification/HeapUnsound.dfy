/** Runs of the code as written that end in an unsound heap. Both first hand out the last chunk whole,
    when it has come down to 32 bytes. In one, the 16-byte block before it is freed, and the next request
    grows that freed chunk instead of the end of the heap; in the other, two large blocks before it are
    freed, and trimming the chunk that they make unmaps the page behind it. */
module HeapUnsound {
  import opened HeapSpec
  import opened HeapSafety
  import opened HeapRuns

  const FIRST_PAGE_END := HEAP_START + PAGE_SIZE
  const SECOND_PAGE_END := HEAP_START + 2 * PAGE_SIZE

  /** A heap up to `end` can have a last chunk of the given size. */
  predicate Room(size: nat, end: nat) {
    size % 16 == 0 && end % PAGE_SIZE == 0 && HEAP_START + HEADER + size <= end <= HEAP_LIMIT
  }

  /** A heap whose only free chunk is its last one, of the given size. */
  function Lone(size: nat, end: nat): Heap
    requires Room(size, end)
  {
    Heap([Tail(size, end)], end)
  }

  function Tail(size: nat, end: nat): Chunk
    requires Room(size, end)
  {
    Chunk(end - HEADER - size, size)
  }

  /** A request that can be served from a lone chunk of the given size. */
  predicate Takes(size: nat, n: nat) {
    Request(n) && 2 * n <= size && n + 32 <= size
  }

  lemma RoomAfter(size: nat, end: nat, n: nat)
    requires Room(size, end) && Takes(size, n)
    ensures Room(size - n - HEADER, end)
  {
  }

  lemma MallocLone(size: nat, end: nat, n: nat)
    requires Room(size, end) && size >= 16 && Takes(size, n)
    ensures Grown(Lone(size, end), n) == Lone(size, end) && GrowGuard(Lone(size, end), n) && Rounded(n) == n
    ensures Room(size - n - HEADER, end) && Malloc(Lone(size, end), n) == Lone(size - n - HEADER, end)
    ensures MallocBlock(Lone(size, end), n) == Chunk(Tail(size, end).addr, n)
  {
    var h := Lone(size, end);
    RoundedOk(n);
    FitsIs(h.free[0], n);
    RoomAfter(size, end, n);
    LoneOk(size, end);
    Carving(h.free[0], n, h.end);
    TakeIs(h, 0, n);
  }

  lemma LoneOk(size: nat, end: nat)
    requires Room(size, end) && size >= 16
    ensures FreeOk(Lone(size, end)) && ChunkOk(Tail(size, end), end)
  {
    EndAligned(end, size + HEADER);
  }

  lemma EndAligned(end: nat, used: nat)
    requires end % PAGE_SIZE == 0 && used % 16 == 0
    ensures (end - used) % 16 == 0
  {
    var k: int := end / PAGE_SIZE * 256 - used / 16;
    Multiple(0, 16, k);
    assert end - used == 0 + 16 * k;
  }

  /** One more request served from the lone chunk. */
  lemma Served(s: State, size: nat, end: nat, n: nat) returns (s': State)
    requires Sound(s) && Room(size, end) && s.h == Lone(size, end) && size >= 16 && Takes(size, n)
    ensures Room(size - n - HEADER, end) && Step(s, Kmalloc(n), s')
    ensures Sound(s') && s'.h == Lone(size - n - HEADER, end)
    ensures s'.live == s.live + {Chunk(Tail(size, end).addr, n)}
  {
    MallocLone(size, end, n);
    s' := State(Malloc(s.h, n), s.live + {MallocBlock(s.h, n)});
    StepSoundIff(s, Kmalloc(n), s');
  }

  /** The 32-byte last chunk goes out whole and leaves the free list empty. */
  lemma LastGoesWhole(s: State, end: nat) returns (s': State)
    requires Sound(s) && Room(32, end) && s.h == Lone(32, end)
    ensures Step(s, Kmalloc(16), s') && Sound(s') && s'.h == Heap([], end)
    ensures s'.live == s.live + {Tail(32, end)}
  {
    RoundedOk(16);
    assert Fits(s.h.free[0], 16);
    LoneOk(32, end);
    Carving(s.h.free[0], 16, s.h.end);
    TakeIs(s.h, 0, 16);
    s' := State(Malloc(s.h, 16), s.live + {MallocBlock(s.h, 16)});
    StepSoundIff(s, Kmalloc(16), s');
  }

  /** A block of at most a page is freed into an empty free list. */
  lemma FreeIntoEmpty(s: State, c: Chunk) returns (s': State)
    requires Sound(s) && s.h.free == [] && c in s.live && c.size <= PAGE_SIZE
    ensures Step(s, Kfree(c), s') && Sound(s') && s' == State(Heap([c], s.h.end), s.live - {c})
  {
    assert Insert([], c) == [c];
    assert MergeFrom([c], 0) == MergeFrom([c], 1) == [c];
    s' := State(Free(s.h, c), s.live - {c});
    StepSoundIff(s, Kfree(c), s');
  }

  /** Growing at a tail that is not the last chunk. */
  lemma GrowthBreaks(s: State, c: Chunk) returns (s': State)
    requires Sound(s) && s.h == Heap([c], FIRST_PAGE_END) && c.size == 16 && c.End() < FIRST_PAGE_END
    ensures Step(s, Kmalloc(16), s') && !Sound(s')
  {
    RoundedOk(16);
    assert !Fits(c, 16);
    GrownTail(s.h, 16);
    s' := State(Malloc(s.h, 16), s.live + {MallocBlock(s.h, 16)});
    StepSoundIff(s, Kmalloc(16), s');
  }

  /** Trimming at a tail that is not the last chunk. */
  lemma TrimmingBreaks(s: State, c: Chunk, d: Chunk) returns (s': State)
    requires Sound(s) && s.h.free == [c] && d in s.live && Adjacent(c, d)
    requires c.size + d.size > PAGE_SIZE && d.End() < s.h.end
    ensures Step(s, Kfree(d), s') && !Sound(s')
  {
    LiveIsApart(s.h, s.live, d);
    assert c in s.h.free && c.addr < d.addr;
    assert Position([c], d.addr) == 1 by { assert Position([c][1..], d.addr) == 0; }
    assert Insert([c], d) == [c, d];
    assert [c, d][..0] + [Joined(c, d)] + [c, d][2..] == [Joined(c, d)];
    assert MergeFrom([Joined(c, d)], 0) == MergeFrom([Joined(c, d)], 1) == [Joined(c, d)];
    assert Coalesce(s.h.free, d) == [Joined(c, d)];
    s' := State(Free(s.h, d), s.live - {d});
    StepSoundIff(s, Kfree(d), s');
  }

  lemma Extend(states: seq<State>, ops: seq<Op>, op: Op, s: State)
    requires Run(states, ops) && Step(states[|ops|], op, s)
    ensures Run(states + [s], ops + [op])
  {
    var states', ops' := states + [s], ops + [op];
    forall i | 0 <= i < |ops'| ensures StepAt(states', ops', i) {
      assert i < |ops| ==> StepAt(states, ops, i);
    }
  }

  /** The run so far, ending in a sound state with the given heap and with `held` among the live blocks. */
  ghost predicate Reached(states: seq<State>, ops: seq<Op>, n: nat, h: Heap, held: set<Chunk>) {
    Run(states, ops) && |ops| == n && Sound(states[n]) && states[n].h == h && held <= states[n].live
  }

  /** The first request brings the first k pages in. */
  lemma FirstRequest(n: nat, k: nat) returns (states: seq<State>, ops: seq<Op>)
    requires Request(n) && k == 1 + CeilPages(2 * n - (PAGE_SIZE - HEADER)) && k <= 2
    requires Takes(k * PAGE_SIZE - HEADER, n)
    ensures Room(k * PAGE_SIZE - n - 2 * HEADER, HEAP_START + k * PAGE_SIZE)
    ensures Reached(states, ops, 1, Lone(k * PAGE_SIZE - n - 2 * HEADER, HEAP_START + k * PAGE_SIZE),
                    {Chunk(HEAP_START, n)})
  {
    var size, end := k * PAGE_SIZE - HEADER, HEAP_START + k * PAGE_SIZE;
    assert Room(size, end);
    RoundedOk(n);
    GrownFromNothing(INIT.h, n);
    MallocLone(size, end, n);
    InitSound();
    var s := State(Malloc(INIT.h, n), INIT.live + {MallocBlock(INIT.h, n)});
    StepSoundIff(INIT, Kmalloc(n), s);
    states, ops := [INIT, s], [Kmalloc(n)];
    assert StepAt(states, ops, 0);
  }

  /** One more request served from the lone chunk of a run. */
  lemma Serving(states: seq<State>, ops: seq<Op>, k: nat, size: nat, end: nat, held: set<Chunk>, n: nat)
      returns (states': seq<State>, ops': seq<Op>)
    requires Room(size, end) && size >= 16 && Takes(size, n) && Reached(states, ops, k, Lone(size, end), held)
    ensures Room(size - n - HEADER, end)
    ensures Reached(states', ops', k + 1, Lone(size - n - HEADER, end), held + {Chunk(Tail(size, end).addr, n)})
  {
    var s := Served(states[k], size, end, n);
    Extend(states, ops, Kmalloc(n), s);
    states', ops' := states + [s], ops + [Kmalloc(n)];
  }

  /** Requests that can be served from a lone chunk one after the other. */
  predicate Chain(size: nat, ns: seq<nat>) {
    ns != [] ==> Takes(size, ns[0]) && Chain(size - ns[0] - HEADER, ns[1..])
  }

  /** Free bytes left by a chain. */
  function After(size: nat, ns: seq<nat>): nat
    requires Chain(size, ns)
  {
    if ns == [] then size else After(size - ns[0] - HEADER, ns[1..])
  }

  /** A chain of requests; the last of their blocks lies in front of what is left. */
  lemma {:induction false} ServingAll(
      states: seq<State>, ops: seq<Op>, k: nat, size: nat, end: nat, held: set<Chunk>, ns: seq<nat>)
      returns (states': seq<State>, ops': seq<Op>, c: Chunk)
    requires Room(size, end) && size >= 16 && ns != [] && Chain(size, ns)
    requires Reached(states, ops, k, Lone(size, end), held)
    ensures Room(After(size, ns), end)
    ensures Reached(states', ops', k + |ns|, Lone(After(size, ns), end), held + {c})
    ensures c.size == ns[|ns| - 1] && c.End() == end - HEADER - After(size, ns)
    decreases |ns|
  {
    var n, left := ns[0], size - ns[0] - HEADER;
    states', ops' := Serving(states, ops, k, size, end, held, n);
    c := Chunk(Tail(size, end).addr, n);
    if |ns| > 1 {
      assert ns[1..][|ns| - 2] == ns[|ns| - 1];
      states', ops', c := ServingAll(states', ops', k + 1, left, end, held + {c}, ns[1..]);
    }
  }

  /** A chain that uses 2032 bytes up to the last 32. */
  lemma RequestsFit() returns (ns: seq<nat>)
    ensures |ns| == 6 && ns[5] == 16 && Chain(2032, ns) && After(2032, ns) == 32
  {
    ns := [1008, 496, 240, 112, 32, 16];
    assert ns[1..] == [496, 240, 112, 32, 16] && ns[1..][1..] == [240, 112, 32, 16];
    assert ns[1..][1..][1..] == [112, 32, 16] && [112, 32, 16][1..] == [32, 16] && [32, 16][1..] == [16];
    assert Chain(64, [16]) && After(64, [16]) == 32;
    assert Chain(112, [32, 16]) && After(112, [32, 16]) == 32;
  }

  /** From 2032 free bytes on: the last chunk goes out whole; c is the block in front of it. */
  lemma UsedUp(states: seq<State>, ops: seq<Op>, k: nat, end: nat, held: set<Chunk>)
      returns (states': seq<State>, ops': seq<Op>, c: Chunk)
    requires Room(2032, end) && Reached(states, ops, k, Lone(2032, end), held)
    ensures Reached(states', ops', k + 7, Heap([], end), held + {c}) && c.size == 16 && c.End() < end
  {
    var ns := RequestsFit();
    states', ops', c := ServingAll(states, ops, k, 2032, end, held, ns);
    var s := LastGoesWhole(states'[k + 6], end);
    Extend(states', ops', Kmalloc(16), s);
    states', ops' := states' + [s], ops' + [Kmalloc(16)];
  }

  lemma Freeing(states: seq<State>, ops: seq<Op>, k: nat, end: nat, held: set<Chunk>, c: Chunk)
      returns (states': seq<State>, ops': seq<Op>)
    requires Reached(states, ops, k, Heap([], end), held) && c in held && c.size <= PAGE_SIZE
    ensures Reached(states', ops', k + 1, Heap([c], end), held - {c})
  {
    var s := FreeIntoEmpty(states[k], c);
    Extend(states, ops, Kfree(c), s);
    states', ops' := states + [s], ops + [Kfree(c)];
  }

  /** Ten calls from a fresh heap, each legal, the last of which grows the heap: a free chunk and a live
      block overlap. */
  lemma UnsoundRun() returns (states: seq<State>, ops: seq<Op>)
    ensures Run(states, ops) && |ops| == 10 && ops[9].Kmalloc? && Sound(states[9]) && !Sound(states[10])
  {
    var c;
    states, ops := FirstRequest(2032, 1);
    states, ops, c := UsedUp(states, ops, 1, FIRST_PAGE_END, {Chunk(HEAP_START, 2032)});
    states, ops := Freeing(states, ops, 8, FIRST_PAGE_END, {Chunk(HEAP_START, 2032), c}, c);
    var s := GrowthBreaks(states[9], c);
    Extend(states, ops, Kmalloc(16), s);
    states, ops := states + [s], ops + [Kmalloc(16)];
  }

  /** Eleven calls from a fresh heap, each legal, the last of which trims the heap: it unmaps a page that
      live blocks lie in. */
  lemma UnsoundTrimmingRun() returns (states: seq<State>, ops: seq<Op>)
    ensures Run(states, ops) && |ops| == 11 && ops[10].Kfree? && Sound(states[10]) && !Sound(states[11])
  {
    var c, d, e := Chunk(HEAP_START, 4080), Chunk(HEAP_START + PAGE_SIZE, 2032), Chunk(0, 0);
    states, ops := FirstRequest(4080, 2);
    states, ops := Serving(states, ops, 1, 4080, SECOND_PAGE_END, {c}, 2032);
    states, ops, e := UsedUp(states, ops, 2, SECOND_PAGE_END, {c, d});
    states, ops := Freeing(states, ops, 9, SECOND_PAGE_END, {c, d, e}, c);
    var s := TrimmingBreaks(states[10], c, d);
    Extend(states, ops, Kfree(d), s);
    states, ops := states + [s], ops + [Kfree(d)];
  }
}
