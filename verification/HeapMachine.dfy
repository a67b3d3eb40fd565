/** The heap on the machine, seen by its callers: one step of a run, with what happens to the bytes of
    the blocks they hold. */
module HeapMachine {
  import opened Lists
  import opened Markers
  import opened HeapSpec
  import opened HeapSafety
  import opened HeapRuns
  import opened HeapMemory
  import KH = KernelHeap
  import opened Options
  import HeapPages
  import PageRights
  import PageTables
  import Paging

  /** The header of every live block is in place. */
  ghost predicate HeadersOk(w: Words, live: set<Chunk>) {
    forall c :: c in live ==> HeaderOk(w, c)
  }

  /** Every word of every block in `live`, header and payload, has the same value in w and w'. */
  ghost predicate SameContents(w: Words, w': Words, live: set<Chunk>) {
    forall c, a :: c in live && a in w && Contains(c, a) ==> a in w' && w'[a] == w[a]
  }

  /** The words of a live block lie outside the free list. */
  lemma LiveOutside(h: Heap, live: set<Chunk>, c: Chunk, L: int, a: int)
    requires Inv(h, live) && c in live && HeadOk(L) && Contains(c, a)
    ensures Outside(L, h.free, a) && a < h.end
  {
    LiveIsApart(h, live, c);
    forall d | d in h.free ensures !Contains(d, a) {
      assert Disjoint(c, d);
    }
  }

  lemma KmallocKeepsContents(h: Heap, live: set<Chunk>, a: nat, L: int, w: Words, w': Words)
    requires Inv(h, live) && HeadOk(L) && Request(a) && Grown(h, a).end <= HEAP_LIMIT && GrowGuard(h, a)
    requires Preserved(w, w', h.end, L, Grown(h, a).free)
    ensures SameContents(w, w', live)
  {
    GrownSoundIff(h, live, a);
    forall c, x | c in live && x in w && Contains(c, x) ensures x in w' && w'[x] == w[x] {
      LiveOutside(Grown(h, a), live, c, L, x);
      LiveOutside(h, live, c, L, x);
    }
  }

  lemma KfreeKeepsContents(h: Heap, live: set<Chunk>, c: Chunk, L: int, w: Words, w': Words)
    requires Inv(h, live) && HeadOk(L) && c in live && TrimGuard(h, c)
    requires Preserved(w, w', Free(h, c).end, L, h.free + [c])
    ensures SameContents(w, w', live - {c})
  {
    FreeSoundIff(h, live, c);
    forall d, x | d in live - {c} && x in w && Contains(d, x) ensures x in w' && w'[x] == w[x] {
      LiveOutside(h, live, d, L, x);
      LiveOutside(Free(h, c), live - {c}, d, L, x);
      assert Disjoint(c, d) by {
        assert c in Elems(h.free) + live && d in Elems(h.free) + live;
      }
    }
  }

  lemma ContentsHoldHeaders(w: Words, w': Words, live: set<Chunk>)
    requires HeadersOk(w, live) && SameContents(w, w', live)
    ensures HeadersOk(w', live)
  {
    forall c | c in live ensures HeaderOk(w', c) {
      assert Contains(c, c.addr + SIZE) && Contains(c, c.addr + MAGIC);
    }
  }

  /** The machine in state s of a run. */
  ghost predicate InState(heap: KH.KernelHeap, s: State)
    reads heap, heap.mem, heap.pages, heap.pages.space, heap.pages.space.frames, heap.pages.space.frames.lowRamBitF
  {
    heap.Rep() && HeadOk(heap.L) && heap.H() == s.h && Sound(s) && HeadersOk(heap.mem.w, s.live)
  }

  lemma InRange(heap: KH.KernelHeap)
    requires heap.Rep()
    ensures FreeOk(heap.H())
  {
    assert Opened(0, (heap.mem.w, heap.H()));
  }

  /** A request for n bytes as a step of a run: a block disjoint from all live ones, whose contents
      stay as they are; failure exactly if the pages that it needs take more frames than are free. */
  method Allocate(heap: KH.KernelHeap, n: nat, ghost s: State) returns (r: Option<nat>, ghost s': State)
    requires InState(heap, s) && 1 <= n <= MAX_REQUEST && Guard(s, Kmalloc(n))
    modifies heap, heap.mem, heap.pages, heap.pages.space, heap.pages.space.frames, heap.pages.space.frames.lowRamBitF
    ensures r.None? <==> old(heap.pages.Wanted(PagesNeeded(s.h, Rounded(n)))) > |old(heap.pages.space.frames.free)|
    ensures r.Some? ==> Step(s, Kmalloc(n), s') && InState(heap, s') && r.value == MallocBlock(s.h, n).addr + HEADER
    ensures r.Some? ==> SameContents(old(heap.mem.w), heap.mem.w, s.live)
    ensures r.Some? ==> heap.pages.Total() == old(heap.pages.Total())
  {
    ghost var w, b := heap.mem.w, MallocBlock(s.h, n);
    s' := State(Malloc(s.h, n), s.live + {b});
    r := heap.Kmalloc(n);
    if r.Some? {
      InRange(heap);
      RoundedOk(n);
      StepSoundIff(s, Kmalloc(n), s');
      KmallocKeepsContents(s.h, s.live, Rounded(n), heap.L, w, heap.mem.w);
      ContentsHoldHeaders(w, heap.mem.w, s.live);
    }
  }

  /** Giving a live block back as a step of a run: every other live block keeps its contents. */
  method Release(heap: KH.KernelHeap, ptr: int, ghost c: Chunk, ghost s: State) returns (ghost s': State)
    requires InState(heap, s) && c in s.live && ptr == c.addr + HEADER && Guard(s, Kfree(c))
    modifies heap, heap.mem, heap.pages, heap.pages.space, heap.pages.space.frames, heap.pages.space.frames.lowRamBitF
    ensures Step(s, Kfree(c), s') && InState(heap, s')
    ensures SameContents(old(heap.mem.w), heap.mem.w, s'.live)
    ensures heap.pages.Total() == old(heap.pages.Total())
  {
    ghost var w := heap.mem.w;
    s' := State(Free(s.h, c), s.live - {c});
    LiveIsApart(s.h, s.live, c);
    assert HeaderOk(w, c);
    var ok := heap.Kfree(ptr, c);
    StepSoundIff(s, Kfree(c), s');
    KfreeKeepsContents(s.h, s.live, c, heap.L, w, heap.mem.w);
    ContentsHoldHeaders(w, heap.mem.w, s'.live);
  }

  /** Whoever holds a block may read and write all of it, in user mode too. */
  lemma BlockAccessible(heap: KH.KernelHeap, s: State, c: Chunk, a: nat)
    requires InState(heap, s) && c in s.live && Contains(c, a)
    ensures PageTables.TablesOk(heap.pages.space.M()) && Paging.VPage(a) < PageTables.VPAGES
    ensures PageRights.RightsOf(heap.pages.space.M(), Paging.VPage(a)) == Some(PageRights.ALL)
  {
    LiveIsApart(s.h, s.live, c);
    var i := (a - HEAP_START) / PAGE_SIZE;
    HeapPages.HeapPageRights(heap.pages.space.M(), heap.pages.space.frames.free, heap.pages.backing, i);
    assert Paging.VPage(a) == HeapPages.FIRST_PAGE + i;
  }

  /** A word of a block that its holder may write: any but the four of the header. */
  predicate InPayload(c: Chunk, a: int) {
    Contains(c, a) && a >= c.addr + HEADER && a % 4 == 0
  }

  lemma PayloadIsNoHeader(h: Heap, live: set<Chunk>, c: Chunk, d: Chunk, L: int, a: int)
    requires Inv(h, live) && HeadOk(L) && c in live && InPayload(c, a) && (d in live || d in h.free)
    ensures a != d.addr + SIZE && a != d.addr + MAGIC && (d != c ==> !Contains(d, a))
  {
    LiveIsApart(h, live, c);
    assert d != c ==> Disjoint(c, d);
  }

  lemma PayloadStored(h: Heap, live: set<Chunk>, c: Chunk, L: int, w: Words, a: int, v: int)
    requires KH.MemState(w, L, h) && Inv(h, live) && HeadOk(L) && c in live && InPayload(c, a)
    ensures a in w && KH.MemState(w[a := v], L, h)
  {
    assert Opened(0, (w, h));
    LiveOutside(h, live, c, L, a);
    StoreKeepsList(w, L, h.free, a, v);
    forall d | d in h.free ensures HeaderOk(w[a := v], d) {
      PayloadIsNoHeader(h, live, c, d, L, a);
    }
  }

  /** A store of a block's holder into its payload leaves the heap and all other blocks as they are, so
      that calls of kmalloc and kfree may have any number of such stores in between. */
  method Store(heap: KH.KernelHeap, a: int, v: int, ghost c: Chunk, ghost s: State)
    requires InState(heap, s) && c in s.live && InPayload(c, a)
    modifies heap.mem
    ensures InState(heap, s) && a in old(heap.mem.w) && heap.mem.w == old(heap.mem.w)[a := v]
    ensures SameContents(old(heap.mem.w), heap.mem.w, s.live - {c})
  {
    ghost var w := heap.mem.w;
    PayloadStored(s.h, s.live, c, heap.L, w, a, v);
    heap.mem.w := heap.mem.w[a := v];
    forall d | d in s.live ensures HeaderOk(heap.mem.w, d) && (d != c ==> !Contains(d, a)) {
      assert HeaderOk(w, d);
      PayloadIsNoHeader(s.h, s.live, c, d, heap.L, a);
    }
  }
}
