/** kmalloc.c on the machine: chunk headers and list links in word-addressed memory, pages from the
    frame allocator through the page tables. Every operation computes what HeapSpec says it does. */
module KernelHeap {
  import opened Lists
  import opened Markers
  import opened HeapSpec
  import opened HeapSafety
  import opened HeapMerge
  import opened HeapRuns
  import opened HeapMemory
  import opened HeapPages
  import opened Options

  ghost predicate MemBody(w: Words, L: int, h: Heap) {
    HeadOk(L) && FreeOk(h) && HeapMem(w, L, h.free) && WordsMapped(w, h.end)
  }

  /** The free list h.free is in memory, in order, inside the mapped heap (MemBody), kept out of the
      verifier's sight where Opened is not mentioned. */
  ghost predicate MemState(w: Words, L: int, h: Heap) {
    forall k {:trigger Opened(k, (w, h))} :: Opened(k, (w, h)) ==> MemBody(w, L, h)
  }

  lemma PositionIs(F: seq<Chunk>, addr: nat, i: nat)
    requires i <= |F|
    requires forall j :: 0 <= j < i ==> F[j].addr < addr
    requires i < |F| ==> F[i].addr >= addr
    ensures Position(F, addr) == i
  {
  }

  lemma FirstFitIs(F: seq<Chunk>, a: nat, i: nat)
    requires i <= |F|
    requires forall j :: 0 <= j < i ==> !Fits(F[j], a)
    requires i < |F| ==> Fits(F[i], a)
    ensures FirstFit(F, a) == i
  {
  }

  class KernelHeap {
    const mem: Memory
    const pages: PageSupply
    /** Address of k_heap_start. */
    const L: int
    var kHeapEnd: nat
    ghost var free: seq<Chunk>

    /** kheap_init */
    constructor (mem: Memory, pages: PageSupply, L: int)
      requires HeadOk(L) && HeadInMemory(mem.w, L) && forall a :: a in mem.w ==> a < HEAP_START
      requires pages.Valid() && pages.backing == []
      modifies mem
      ensures this.mem == mem && this.pages == pages && this.L == L
      ensures Rep() && H() == INIT.h
      ensures mem.w.Keys == old(mem.w.Keys)
    {
      this.mem, this.pages, this.L := mem, pages, L;
      kHeapEnd, free := HEAP_START, [];
      new;
      mem.NewList(L);
      assert MemBody(mem.w, L, H());
    }

    ghost function H(): Heap
      reads this
    {
      Heap(free, kHeapEnd)
    }

    /** The free list is in memory, in order, inside the mapped heap. */
    ghost predicate MemOk()
      reads this, mem
    {
      MemState(mem.w, L, H())
    }

    /** ... and the heap's pages are exactly those mapped for it, each backed by a frame of its own. */
    ghost predicate Rep()
      reads this, mem, pages, pages.space, pages.space.frames, pages.space.frames.lowRamBitF
    {
      MemOk() && pages.Valid() && kHeapEnd == HEAP_START + |pages.backing| * PAGE_SIZE
    }

    lemma Settled(w: Words, h: Heap)
      requires MemState(w, L, h) && mem.w == w && H() == h
      ensures MemOk()
    {
    }

    lemma FreeIsOk()
      requires MemOk()
      ensures FreeOk(H())
    {
      assert Opened(0, (mem.w, H()));
    }

    lemma ListIsThere()
      requires MemOk()
      ensures IsList(mem.w, L, Addrs(free))
    {
      assert Opened(0, (mem.w, H()));
    }

    lemma ListFacts()
      requires MemOk()
      ensures L in mem.w && mem.w[L] in mem.w && L + 8 in mem.w
      ensures GetHead(mem.w, L) == NodeAt(Addrs(free), 0)
      ensures GetTail(mem.w, L) == if free == [] then NULL else Last(free).addr
    {
      assert Opened(0, (mem.w, H()));
      IterationVisits(mem.w, L, Addrs(free));
    }

    lemma NodeFacts(k: nat)
      requires MemOk() && k < |free|
      ensures free[k].addr != NULL && free[k].addr in mem.w && mem.w[free[k].addr] in mem.w
      ensures GetNext(mem.w, free[k].addr) == NodeAt(Addrs(free), k + 1)
      ensures HeaderOk(mem.w, free[k]) && ChunkOk(free[k], kHeapEnd)
    {
      assert Opened(0, (mem.w, H()));
      NextInList(mem.w, L, Addrs(free), k);
      assert free[k] in free;
    }

    /** The walk of insert_chunk. */
    method FindPlace(chunk: int, ghost F: seq<Chunk>) returns (aux: int, ghost i: nat)
      requires IsList(mem.w, L, Addrs(F)) && chunk >= 0
      ensures aux == var p := Position(F, chunk); if p < |F| then F[p].addr else NULL
      ensures aux == NULL <==> Position(F, chunk) == |F|
      ensures i == Position(F, chunk)
    {
      IterationVisits(mem.w, L, Addrs(F));
      aux := GetHead(mem.w, L);
      i := 0;
      while aux != NULL && aux < chunk
        invariant i <= |F| && aux == if i < |F| then F[i].addr else NULL
        invariant forall j :: 0 <= j < i ==> F[j].addr < chunk
        decreases |F| - i
      {
        NextInList(mem.w, L, Addrs(F), i);
        aux := GetNext(mem.w, aux);
        i := i + 1;
      }
      if i < |F| {
        NextInList(mem.w, L, Addrs(F), i);
        assert NodeInMemory(mem.w, L, Addrs(F)[i]);
      }
      PositionIs(F, chunk, i);
    }

    /** insert_chunk: link a chunk at its place in address order. It looks at addresses only. */
    method InsertChunk(chunk: int, ghost F: seq<Chunk>, ghost c: Chunk)
      requires IsList(mem.w, L, Addrs(F)) && c.addr == chunk && NodeInMemory(mem.w, L, chunk)
      requires forall n :: n in Addrs(F) ==> Apart(n, chunk)
      modifies mem
      ensures IsList(mem.w, L, Addrs(Insert(F, c)))
      ensures OnlyLinks(old(mem.w), mem.w, L, Insert(F, c))
    {
      ghost var s, w := Addrs(F), mem.w;
      var aux; ghost var i;
      aux, i := FindPlace(chunk, F);
      AddrsInsert(F, i, c);
      InsertHolds(F, c);
      LinkedOnlyLinks(L, w, F, Insert(F, c), i, c);
      if aux == NULL {
        assert s[..i] + [c.addr] + s[i..] == s + [c.addr];
        mem.AddTail(L, chunk, s);
      } else {
        mem.InsertBefore(chunk, aux, L, s, i);
      }
    }

    /** remove() of the k-th node. */
    method Unlink(chunk: int, ghost F: seq<Chunk>, ghost k: nat)
      requires IsList(mem.w, L, Addrs(F)) && k < |F| && F[k].addr == chunk
      modifies mem
      ensures IsList(mem.w, L, Addrs(F[..k] + F[k + 1..]))
      ensures OnlyLinks(old(mem.w), mem.w, L, F)
    {
      ghost var w := mem.w;
      mem.Remove(chunk, L, Addrs(F), k);
      RemovedOnlyLinks(L, w, mem.w, F, k);
      AddrsDrop(F, k);
    }

    // ---- merge_heap -----------------------------------------------------------------------

    /** Join the k-th free chunk with the one right behind it (kmalloc.c:253-255). */
    method JoinNext(aux: int, auxNext: int, ghost k: nat)
      requires MemOk() && k + 1 < |free| && free[k].addr == aux && free[k + 1].addr == auxNext
      requires Adjacent(free[k], free[k + 1])
      modifies mem, `free
      ensures MemOk()
      ensures free == AfterJoin(old(free), k)
      ensures Preserved(old(mem.w), mem.w, kHeapEnd, L, old(free))
    {
      ghost var w, h := mem.w, H();
      JoinReady(h, L, w, k);
      var size := (mem.w[aux + SIZE] + mem.w[auxNext + SIZE] + HEADER) % WORD;
      mem.w := mem.w[aux + SIZE := size];
      Unlink(auxNext, free, k + 1);
      JoinedMem(h, L, w, w[aux + SIZE := size], mem.w, k);
      free := AfterJoin(free, k);
    }

    /** One round of the trimming loop: a page off the tail, off the heap end and out of the page
        tables (kmalloc.c:264-268). */
    method TrimPage(tail: int)
      requires Rep() && free != [] && tail == Last(free).addr && Last(free).size > PAGE_SIZE
      modifies this, mem, pages, pages.space, pages.space.frames, pages.space.frames.lowRamBitF
      ensures Rep() && Last(old(free)).size >= PAGE_SIZE && old(kHeapEnd) >= PAGE_SIZE
      ensures H() == Shrunk(old(H()), 1) && Preserved(old(mem.w), mem.w, kHeapEnd, L, old(free))
      ensures pages.Total() == old(pages.Total())
    {
      ghost var w, h := mem.w, H();
      TailSize();
      TrimmedMem(h, L, w);
      mem.w := mem.w[tail + SIZE := mem.w[tail + SIZE] - PAGE_SIZE];
      kHeapEnd := kHeapEnd - PAGE_SIZE;
      pages.UnmapPage(kHeapEnd);
      mem.w := Cut(mem.w, kHeapEnd);
      free := Resized(free, Last(free).size - PAGE_SIZE);
      Settled(TrimmedWords(w, h), Shrunk(h, 1));
    }

    /** How far the trimming loop has come, from memory w with free list F towards heap `goal`. */
    ghost predicate Trimming(tail: int, w: Words, F: seq<Chunk>, goal: Heap)
      reads this, mem, pages, pages.space, pages.space.frames, pages.space.frames.lowRamBitF
    {
      && Rep() && free != [] && tail == Last(free).addr
      && tail + SIZE in mem.w && mem.w[tail + SIZE] == Last(free).size
      && Trim(H()) == goal && Preserved(w, mem.w, kHeapEnd, L, F) && Inside(free, F)
    }

    method TrimRound(tail: int, ghost w: Words, ghost F: seq<Chunk>, ghost goal: Heap)
      requires Trimming(tail, w, F, goal) && mem.w[tail + SIZE] > PAGE_SIZE
      modifies this, mem, pages, pages.space, pages.space.frames, pages.space.frames.lowRamBitF
      ensures Trimming(tail, w, F, goal) && kHeapEnd <= old(kHeapEnd)
      ensures mem.w[tail + SIZE] == old(mem.w[tail + SIZE]) - PAGE_SIZE
      ensures pages.Total() == old(pages.Total())
    {
      FreeIsOk();
      ghost var w1, h1 := mem.w, H();
      TrimOnce(h1);
      InsideShrunk(h1, F);
      TrimPage(tail);
      PreservedTwice(w, w1, mem.w, h1.end, kHeapEnd, L, F, h1.free);
      TailSize();
    }

    /** The trimming loop. */
    method TrimTail()
      requires Rep()
      modifies this, mem, pages, pages.space, pages.space.frames, pages.space.frames.lowRamBitF
      ensures Rep() && H() == Trim(old(H())) && kHeapEnd <= old(kHeapEnd)
      ensures Preserved(old(mem.w), mem.w, kHeapEnd, L, old(free))
      ensures old(free) == [] || Last(old(free)).size <= PAGE_SIZE ==> mem.w == old(mem.w)
      ensures pages.Total() == old(pages.Total())
    {
      ghost var w, F, goal := mem.w, free, Trim(H());
      EmptyOrNot();
      var tail := GetTail(mem.w, L);
      if tail == NULL {
        return;
      }
      TailSize();
      InsideSelf(F);
      while mem.w[tail + SIZE] > PAGE_SIZE
        invariant Trimming(tail, w, F, goal)
        invariant kHeapEnd <= old(kHeapEnd) && pages.Total() == old(pages.Total())
        invariant Last(F).size <= PAGE_SIZE ==> mem.w == w
        decreases mem.w[tail + SIZE]
      {
        TrimRound(tail, w, F, goal);
      }
    }

    /** merge_heap from the k-th free chunk on: two ways to recurse, each followed by the trimming
        loop. The end-of-list NULL never equals the end of a chunk, because no chunk reaches 2^32. */
    method MergeHeap(aux: int, ghost k: nat)
      requires Rep() && k <= |free| && aux == NodeAt(Addrs(free), k)
      modifies this, mem, pages, pages.space, pages.space.frames, pages.space.frames.lowRamBitF
      ensures Rep() && kHeapEnd <= old(kHeapEnd) && pages.Total() == old(pages.Total())
      ensures H() == if k == |old(free)| then old(H()) else Trim(Heap(MergeFrom(old(free), k), old(kHeapEnd)))
      ensures Preserved(old(mem.w), mem.w, kHeapEnd, L, old(free))
      decreases |free| - k, 1
    {
      ghost var w, F := mem.w, free;
      if aux == NULL {
        NodeNotNull(k);
        return;
      }
      MergeNext(aux, k);
      ghost var w1, F1 := mem.w, free;
      TrimTail();
      assert mem.w == w1 || F1 == F;
    }

    /** Join chunk k to the next one and stay, or go on to the next one. */
    method MergeNext(aux: int, ghost k: nat)
      requires Rep() && k < |free| && aux == NodeAt(Addrs(free), k)
      modifies this, mem, pages, pages.space, pages.space.frames, pages.space.frames.lowRamBitF
      ensures Rep() && kHeapEnd <= old(kHeapEnd) && pages.Total() == old(pages.Total())
      ensures Trim(H()) == Trim(Heap(MergeFrom(old(free), k), old(kHeapEnd)))
      ensures Preserved(old(mem.w), mem.w, kHeapEnd, L, old(free))
      ensures free == old(free) || free == [] || Last(free).size <= PAGE_SIZE
      decreases |free| - k, 0
    {
      ghost var w, h := mem.w, H();
      NodeFacts(k);
      assert mem.w[aux + MAGIC] == CHUNK_MAGIC;
      var auxNext := GetNext(mem.w, aux);
      AdjacentOnMachine(k);
      TrimFixed(Heap(MergeFrom(free, k), kHeapEnd));
      if auxNext == (aux + mem.w[aux + SIZE] + HEADER) % WORD {
        InsideJoin(free, k);
        JoinNext(aux, auxNext, k);
        ghost var w1, h1 := mem.w, H();
        MergeHeap(aux, k);
        PreservedTwice(w, w1, mem.w, h.end, kHeapEnd, L, h.free, h1.free);
      } else {
        MergeHeap(auxNext, k + 1);
      }
      FreeIsOk();
    }

    /** Link chunk c, whose header is filled in, into the free list (kmalloc.c:78). */
    method AddFree(chunk: int, ghost c: Chunk)
      requires MemOk() && c.addr == chunk && ChunkOk(c, kHeapEnd) && HeaderOk(mem.w, c)
      requires forall d :: d in free ==> Disjoint(c, d)
      modifies mem, `free
      ensures MemOk() && free == Insert(old(free), c)
      ensures OnlyLinks(old(mem.w), mem.w, L, free)
    {
      assert Opened(0, (mem.w, H()));
      ghost var w, h := mem.w, H();
      NodesApart(h, c);
      NodeFits(w, L, c, kHeapEnd);
      InsertChunk(chunk, free, c);
      InsertedMem(h, L, w, mem.w, c);
      free := Insert(free, c);
    }

    /** _kfree of the block at ptr, which must be a chunk's payload clear of the free list. The result
        is false when the magic word is damaged, where the code panics. */
    method Kfree(ptr: int, ghost c: Chunk) returns (ok: bool)
      requires Rep() && ptr == c.addr + HEADER && ChunkOk(c, kHeapEnd)
      requires c.addr + SIZE in mem.w && c.addr + MAGIC in mem.w && mem.w[c.addr + SIZE] == c.size
      requires forall d :: d in free ==> Disjoint(c, d)
      modifies this, mem, pages, pages.space, pages.space.frames, pages.space.frames.lowRamBitF
      ensures ok <==> old(mem.w[c.addr + MAGIC]) == CHUNK_MAGIC
      ensures !ok ==> H() == old(H()) && mem.w == old(mem.w)
      ensures ok ==> Rep() && H() == Free(old(H()), c) && pages.Total() == old(pages.Total())
      ensures ok ==> Preserved(old(mem.w), mem.w, kHeapEnd, L, old(free) + [c])
    {
      assert Opened(0, (mem.w, H()));
      ghost var w, h := mem.w, H();
      var chunk := ptr - HEADER;
      NodeFits(w, L, c, kHeapEnd);
      if mem.w[chunk + MAGIC] != CHUNK_MAGIC {
        return false;
      }
      AddFree(chunk, c);
      ghost var w1, h1 := mem.w, H();
      ListFacts();
      MergeHeap(GetHead(mem.w, L), 0);
      FreedPreserved(w, w1, mem.w, h, c, L, kHeapEnd);
      return true;
    }

    // ---- _kmalloc -------------------------------------------------------------------------

    /** Build the new chunk and link it in, while the size of the old one still covers it; only
        addresses matter to the insertion (kmalloc.c:142-149). */
    method LinkRest(chunk: int, allocSz: nat, ghost k: nat, ghost b: Chunk, ghost r: Chunk)
      requires MemOk() && k < |free| && free[k].addr == chunk && Cuts(free[k], b, r, kHeapEnd)
      requires b.size == allocSz < WORD
      modifies mem
      ensures SplitLinked(H(), L, old(mem.w), mem.w, k, b, r)
    {
      ghost var w := mem.w;
      SplitReady(H(), L, w, k, b, r);
      var newChunk := (chunk + HEADER + allocSz) % WORD;
      StoreHeader(newChunk, Sub32(Sub32(mem.w[chunk + SIZE], allocSz), HEADER), free[k := b]);
      assert mem.w == WithHeader(w, r);
      InsertChunk(newChunk, free[k := b], r);
      assert Opened(0, (w, H()));
      assert SplitBody(H(), L, w, mem.w, k, b, r);
    }

    /** Cut the k-th free chunk in two (kmalloc.c:142-151). */
    method SplitChunk(chunk: int, allocSz: nat, ghost k: nat, ghost b: Chunk, ghost r: Chunk)
      requires MemOk() && k < |free| && free[k].addr == chunk && Cuts(free[k], b, r, kHeapEnd)
      requires b.size == allocSz < WORD
      modifies mem, `free
      ensures MemOk() && free == Halves(old(free), k, b, r)
      ensures Preserved(old(mem.w), mem.w, kHeapEnd, L, old(free))
    {
      ghost var w, h := mem.w, H();
      LinkRest(chunk, allocSz, k, b, r);
      ghost var w2 := mem.w;
      SplitDone(h, L, w, w2, k, b, r);
      mem.w := mem.w[chunk + SIZE := allocSz];
      free := Halves(free, k, b, r);
      Settled(w2[h.free[k].addr + SIZE := b.size], Heap(Halves(h.free, k, b, r), h.end));
    }

    /** Size and magic of a chunk that is not linked yet. */
    method StoreHeader(chunk: int, size: int, ghost F: seq<Chunk>)
      requires IsList(mem.w, L, Addrs(F)) && !Link(L, F, chunk + SIZE) && !Link(L, F, chunk + MAGIC)
      modifies mem
      ensures IsList(mem.w, L, Addrs(F))
      ensures mem.w == old(mem.w)[chunk + SIZE := size][chunk + MAGIC := CHUNK_MAGIC]
    {
      StoreKeepsList(mem.w, L, F, chunk + SIZE, size);
      mem.w := mem.w[chunk + SIZE := size];
      StoreKeepsList(mem.w, L, F, chunk + MAGIC, CHUNK_MAGIC);
      mem.w := mem.w[chunk + MAGIC := CHUNK_MAGIC];
    }

    /** Serve a request from the k-th free chunk (kmalloc.c:123-181). */
    method TakeChunk(chunk: int, allocSz: nat, ghost k: nat)
      requires MemOk() && k < |free| && free[k].addr == chunk
      requires Request(allocSz) && Fits(free[k], allocSz)
      modifies mem, `free
      ensures MemOk() && free == Take(old(free), k, allocSz)
      ensures HeaderOk(mem.w, Block(old(free)[k], allocSz))
      ensures Preserved(old(mem.w), mem.w, kHeapEnd, L, old(free))
    {
      FreeIsOk();
      ghost var w, F, b, r := mem.w, free, Block(free[k], allocSz), Rest(free[k], allocSz);
      NodeFacts(k);
      var next := GetNext(mem.w, chunk);
      if next != NULL {
        NodeFacts(k + 1);
        assert mem.w[next + MAGIC] == CHUNK_MAGIC;
      }
      CarvedCuts(H(), k, allocSz);
      InsideSelf(F);
      if allocSz >= Sub32(mem.w[chunk + SIZE], HEADER) {
        // The whole chunk goes out.
      } else {
        InsideHalves(H(), k, b, r);
        SplitChunk(chunk, allocSz, k, b, r);
      }
      ghost var w1, F1 := mem.w, free;
      HandOut(chunk, k);
      PreservedTwice(w, w1, mem.w, kHeapEnd, kHeapEnd, L, F, F1);
    }

    /** Unlink the chunk that goes out (kmalloc.c:176). */
    method HandOut(chunk: int, ghost k: nat)
      requires MemOk() && k < |free| && free[k].addr == chunk
      modifies mem, `free
      ensures MemOk() && free == old(free)[..k] + old(free)[k + 1..]
      ensures HeaderOk(mem.w, old(free)[k]) && Preserved(old(mem.w), mem.w, kHeapEnd, L, old(free))
    {
      ghost var w, h := mem.w, H();
      ListIsThere();
      Unlink(chunk, free, k);
      TakenMem(h, L, w, mem.w, k);
      OnlyLinksPreserves(w, mem.w, kHeapEnd, L, h.free);
      free := free[..k] + free[k + 1..];
      Settled(mem.w, Heap(h.free[..k] + h.free[k + 1..], h.end));
    }

    /** The search loop of _kmalloc: the first chunk that fits, or NULL. */
    method FindFit(a: nat) returns (chunk: int, ghost k: nat)
      requires MemOk()
      ensures chunk == NodeAt(Addrs(free), FirstFit(free, a)) && (chunk == NULL <==> FirstFit(free, a) == |free|)
      ensures k == FirstFit(free, a)
    {
      ListFacts();
      chunk := GetHead(mem.w, L);
      k := 0;
      while chunk != NULL
        invariant k <= |free| && chunk == NodeAt(Addrs(free), k)
        invariant forall j :: 0 <= j < k ==> !Fits(free[j], a)
        decreases |free| - k
      {
        NodeFacts(k);
        assert mem.w[chunk + MAGIC] == CHUNK_MAGIC;
        if mem.w[chunk + SIZE] >= a * 2 % WORD {
          FirstFitIs(free, a, k);
          return;
        }
        chunk := GetNext(mem.w, chunk);
        k := k + 1;
      }
      NodeNotNull(k);
      FirstFitIs(free, a, k);
    }

    /** The first chunk of an exhausted heap, right behind the old end (kmalloc.c:201-207). */
    method FirstChunk(chunk: int)
      requires MemState(mem.w, L, H()) && free == [] && chunk + PAGE_SIZE == kHeapEnd
      requires chunk >= HEAP_START && chunk % PAGE_SIZE == 0
      modifies mem, `free
      ensures MemOk() && free == [Chunk(chunk, PAGE_SIZE - HEADER)]
      ensures Preserved(old(mem.w), mem.w, chunk, L, [])
    {
      ghost var w, c := mem.w, Chunk(chunk, PAGE_SIZE - HEADER);
      FirstReady(H(), L, w, c);
      StoreHeader(chunk, kHeapEnd - chunk - HEADER, []);
      ghost var w1 := mem.w;
      mem.AddTail(L, chunk, Addrs([]));
      FirstDone(H(), L, w, w1, mem.w, c);
      free := [c];
    }

    /** One page more for the heap (kmalloc.c:188-210); false when pa_alloc panics. The new page's
        contents are unknown. */
    method GrowHeap() returns (ok: bool)
      requires Rep()
      modifies this, mem, pages, pages.space, pages.space.frames, pages.space.frames.lowRamBitF
      ensures ok ==> Rep() && H() == Grow(old(H())) && pages.Total() == old(pages.Total())
      ensures ok ==> Preserved(old(mem.w), mem.w, old(kHeapEnd), L, old(free))
      ensures !ok ==> pages.space.frames.free == {}
      ensures ok <==> old(pages.Wanted(1)) <= |old(pages.space.frames.free)|
      ensures ok ==> forall p: nat ::
                old(pages.Wanted(p + 1)) - |old(pages.space.frames.free)| == pages.Wanted(p) - |pages.space.frames.free|
    {
      ghost var w, h := mem.w, H();
      var heapEnd := kHeapEnd;
      ok := pages.MapPage(kHeapEnd);
      if !ok {
        return;
      }
      RoomInHeap();
      var page: Words := UnknownPage(heapEnd);
      PageAppears(h, L, w, page);
      mem.w := mem.w + page;
      kHeapEnd := kHeapEnd + PAGE_SIZE;
      TakePage(heapEnd, h, w, page);
    }

    /** The heap cannot outgrow the machine: it has no more pages than there are frames. */
    lemma RoomInHeap()
      requires pages.Valid() && pages.backing != [] && kHeapEnd + PAGE_SIZE == HEAP_START + |pages.backing| * PAGE_SIZE
      ensures kHeapEnd + PAGE_SIZE <= HEAP_LIMIT
    {
      BackedIsSmall(pages.space.M(), pages.space.frames.free, pages.backing);
    }

    /** Give a page just mapped to the last free chunk, or make it the first one (kmalloc.c:193-208). */
    method TakePage(heapEnd: int, ghost h: Heap, ghost w: Words, ghost page: Words)
      requires MemState(w, L, h) && page.Keys == PageWords(h.end) && h.end + PAGE_SIZE <= HEAP_LIMIT
      requires heapEnd == h.end && mem.w == w + page && H() == Heap(h.free, h.end + PAGE_SIZE) && MemOk()
      modifies mem, `free
      ensures MemOk() && H() == Grow(h) && Preserved(w, mem.w, h.end, L, h.free)
    {
      EmptyOrNot();
      PageAppears(h, L, w, page);
      var tail := GetTail(mem.w, L);
      if tail != NULL {
        TailSize();
        GrownMem(h, L, w, page);
        mem.w := mem.w[tail + SIZE := mem.w[tail + SIZE] + PAGE_SIZE];
        free := Resized(free, Last(free).size + PAGE_SIZE);
        Settled(WithTailSize(w + page, h.free, Last(h.free).size + PAGE_SIZE), Grow(h));
      } else {
        FirstChunk(heapEnd);
        FirstPreserves(h, L, w, page, mem.w);
      }
    }

    method UnknownPage(start: nat) returns (page: Words)
      ensures page.Keys == PageWords(start)
    {
      var contents: Words := map a | a in PageWords(start) :: 0;
      page :| page.Keys == contents.Keys;
    }

    /** _kmalloc. None is the out-of-memory panic; it happens exactly if the pages to be added and the
        page tables that they need take more frames than are free. */
    method Kmalloc(allocSz: nat) returns (r: Option<nat>)
      requires Rep() && 1 <= allocSz <= MAX_REQUEST
      modifies this, mem, pages, pages.space, pages.space.frames, pages.space.frames.lowRamBitF
      ensures r.None? ==> pages.space.frames.free == {}
      ensures r.None? <==> old(pages.Wanted(PagesNeeded(H(), Rounded(allocSz)))) > |old(pages.space.frames.free)|
      ensures r.Some? ==> Rep() && H() == Malloc(old(H()), allocSz) && pages.Total() == old(pages.Total())
      ensures r.Some? ==> var b := MallocBlock(old(H()), allocSz);
                          r.value == b.addr + HEADER && HeaderOk(mem.w, b)
      ensures r.Some? ==> Preserved(old(mem.w), mem.w, old(kHeapEnd), L, Grown(old(H()), Rounded(allocSz)).free)
      decreases PagesNeeded(H(), Rounded(allocSz)), 1
    {
      RoundedOk(allocSz);
      var a := if allocSz % 16 != 0 then (allocSz + 16) / 16 * 16 % WORD else allocSz;
      var chunk; ghost var k;
      chunk, k := FindFit(a);
      if chunk != NULL {
        var p := ServeFit(chunk, a, k);
        return Some(p);
      }
      r := GrowAndRetry(a);
    }

    /** The rest of _kmalloc once a chunk has been found. */
    method ServeFit(chunk: int, a: nat, ghost k: nat) returns (p: nat)
      requires Rep() && Request(a) && k == FirstFit(free, a) < |free| && free[k].addr == chunk
      modifies mem, `free
      ensures Rep() && H() == Serve(old(H()), a) && PagesNeeded(old(H()), a) == 0
      ensures p == ServedBlock(old(H()), a).addr + HEADER && HeaderOk(mem.w, ServedBlock(old(H()), a))
      ensures Preserved(old(mem.w), mem.w, kHeapEnd, L, Grown(old(H()), a).free)
    {
      FreeIsOk();
      TakeChunk(chunk, a, k);
      p := chunk + HEADER;
    }

    /** ... and if none has been found: a page more, and all over again. */
    method GrowAndRetry(a: nat) returns (r: Option<nat>)
      requires Rep() && Request(a) && FirstFit(free, a) == |free|
      modifies this, mem, pages, pages.space, pages.space.frames, pages.space.frames.lowRamBitF
      ensures r.None? ==> pages.space.frames.free == {}
      ensures r.None? <==> old(pages.Wanted(PagesNeeded(H(), a))) > |old(pages.space.frames.free)|
      ensures r.Some? ==> Rep() && H() == Serve(old(H()), a) && pages.Total() == old(pages.Total())
      ensures r.Some? ==> r.value == ServedBlock(old(H()), a).addr + HEADER
                          && HeaderOk(mem.w, ServedBlock(old(H()), a))
      ensures r.Some? ==> Preserved(old(mem.w), mem.w, old(kHeapEnd), L, Grown(old(H()), a).free)
      decreases PagesNeeded(H(), a), 0
    {
      ghost var w, h, p := mem.w, H(), PagesNeeded(H(), a) - 1;
      RoundedOk(a);
      FirstOfMore(pages.Slots(), |pages.backing|, p + 1);
      var ok := GrowHeap();
      if !ok {
        return None;
      }
      ghost var w1 := mem.w;
      assert H() == Grow(h) && PagesNeeded(Grow(h), a) == p;
      r := Kmalloc(a);
      if r.Some? {
        MallocPreserved(w, w1, mem.w, L, h, a);
      }
    }

    lemma NodeNotNull(k: nat)
      requires MemOk() && k <= |free| && NodeAt(Addrs(free), k) == NULL
      ensures k == |free|
    {
      if k < |free| {
        NodeFacts(k);
      }
    }

    /** The 32-bit test of merge_heap is the adjacency of chunks k and k+1. */
    lemma AdjacentOnMachine(k: nat)
      requires MemOk() && k < |free| && free[k].addr + SIZE in mem.w && mem.w[free[k].addr + SIZE] == free[k].size
      ensures NodeAt(Addrs(free), k + 1) == (free[k].addr + free[k].size + HEADER) % WORD <==>
              k + 1 < |free| && Adjacent(free[k], free[k + 1])
    {
      assert Opened(0, (mem.w, H()));
      NodeFacts(k);
    }

    lemma EmptyOrNot()
      requires MemOk()
      ensures GetTailDefined() && (GetTail(mem.w, L) == NULL <==> free == [])
      ensures free != [] ==> GetTail(mem.w, L) == Last(free).addr
      ensures free == [] ==> Trim(H()) == H()
    {
      ListFacts();
      if free != [] {
        NodeFacts(|free| - 1);
      }
    }

    ghost predicate GetTailDefined()
      reads this, mem
    {
      L in mem.w && mem.w[L] in mem.w && L + 8 in mem.w
    }

    lemma TailSize()
      requires MemOk() && free != []
      ensures Last(free).addr + SIZE in mem.w && mem.w[Last(free).addr + SIZE] == Last(free).size
    {
      NodeFacts(|free| - 1);
    }
  }

  /** Trimming twice is trimming once. */
  lemma {:induction false} TrimFixed(h: Heap)
    ensures Trim(Trim(h)) == Trim(h)
    ensures Trim(h).free == [] || Last(Trim(h).free).size <= PAGE_SIZE || Trim(h).end < PAGE_SIZE
    decreases if h.free == [] then 0 else Last(h.free).size
  {
    if h.free != [] && Last(h.free).size > PAGE_SIZE && h.end >= PAGE_SIZE {
      TrimFixed(Shrunk(h, 1));
    }
  }

  lemma InsideJoin(F: seq<Chunk>, k: nat)
    ensures k + 1 < |F| && Adjacent(F[k], F[k + 1]) ==> Inside(AfterJoin(F, k), F)
  {
    if k + 1 < |F| && Adjacent(F[k], F[k + 1]) {
      forall c, a: int | c in AfterJoin(F, k) && Contains(c, a) ensures exists d :: d in F && Contains(d, a) {
        if c == Joined(F[k], F[k + 1]) {
          assert F[k] in F && F[k + 1] in F;
          assert Contains(F[k], a) || Contains(F[k + 1], a);
        } else {
          assert c in F;
        }
      }
    }
  }

  lemma TrimOnce(h: Heap)
    requires FreeOk(h) && h.free != [] && Last(h.free).size > PAGE_SIZE
    ensures h.end >= PAGE_SIZE && Trim(h) == Trim(Shrunk(h, 1))
    ensures Trim(Shrunk(h, 1)) == Trim(h)
  {
    assert Last(h.free) in h.free;
  }

  lemma InsideShrunk(h: Heap, F: seq<Chunk>)
    requires h.free != [] && Last(h.free).size > PAGE_SIZE && h.end >= PAGE_SIZE && Inside(h.free, F)
    ensures Inside(Shrunk(h, 1).free, F)
  {
    var G := Shrunk(h, 1).free;
    forall c, a: int | c in G && Contains(c, a) ensures exists d :: d in F && Contains(d, a) {
      if c in h.free {
      } else {
        assert Last(h.free) in h.free && Contains(Last(h.free), a);
      }
    }
  }

  function WithTailSize(w: Words, F: seq<Chunk>, size: int): Words
    requires F != []
  {
    w[Last(F).addr + SIZE := size]
  }

  /** Rewriting the size of the tail keeps the other headers. */
  lemma ResizedHeaders(h: Heap, w: Words, size: nat)
    requires Ascending(h.free) && h.free != [] && forall c :: c in h.free ==> HeaderOk(w, c)
    ensures forall c :: c in Resized(h.free, size) ==> HeaderOk(WithTailSize(w, h.free, size), c)
  {
    var F, t := h.free, Last(h.free);
    assert HeaderOk(w, t);
    forall c | c in Resized(F, size) ensures HeaderOk(WithTailSize(w, F, size), c) {
      var k :| 0 <= k < |F| && Resized(F, size)[k] == c;
      if k < |F| - 1 {
        assert c == F[k] && Before(c, t);
        assert HeaderOk(w, c);
      }
    }
  }

  lemma ResizedMem(h: Heap, L: int, w: Words, size: nat)
    requires MemState(w, L, h) && h.free != []
    ensures HeapMem(WithTailSize(w, h.free, size), L, Resized(h.free, size))
    ensures WordsMapped(WithTailSize(w, h.free, size), h.end)
    ensures forall end :: Preserved(w, WithTailSize(w, h.free, size), end, L, h.free)
  {
    assert Opened(0, (w, h));
    var F, t := h.free, Last(h.free);
    assert t in F && HeaderOk(w, t);
    HeaderIsNoLink(h, L, t);
    StoreKeepsList(w, L, F, t.addr + SIZE, size);
    AddrsResized(F, size);
    ResizedHeaders(h, w, size);
    assert Contains(t, t.addr + SIZE);
    SameWords(w, WithTailSize(w, F, size), h.end);
  }

  /** Memory after one round of trimming. */
  function TrimmedWords(w: Words, h: Heap): Words
    requires h.free != [] && h.end >= PAGE_SIZE
  {
    Cut(WithTailSize(w, h.free, Last(h.free).size - PAGE_SIZE), h.end - PAGE_SIZE)
  }

  lemma TrimmedMem(h: Heap, L: int, w: Words)
    requires MemState(w, L, h) && h.free != [] && Last(h.free).size > PAGE_SIZE
    ensures h.end >= PAGE_SIZE && HEAP_START < h.end
    ensures MemState(TrimmedWords(w, h), L, Shrunk(h, 1))
    ensures Preserved(w, TrimmedWords(w, h), h.end - PAGE_SIZE, L, h.free)
  {
    ShrunkState(h, L, w);
    CutState(WithTailSize(w, h.free, Last(h.free).size - PAGE_SIZE), L, Shrunk(h, 1), h.end);
    InsideSelf(h.free);
    assert Preserved(w, TrimmedWords(w, h), h.end - PAGE_SIZE, L, h.free);
  }

  /** The memory beyond the new end is gone, and the rest is a heap. */
  lemma CutState(w: Words, L: int, g: Heap, end: nat)
    requires HeapMem(w, L, g.free) && WordsMapped(w, end) && HeadOk(L) && FreeOk(g) && g.end <= end
    ensures MemState(Cut(w, g.end), L, g)
  {
    assert forall c :: c in g.free ==> ChunkOk(c, g.end);
    CutKeeps(w, L, g.free, end, g.end);
  }

  lemma ShrunkState(h: Heap, L: int, w: Words)
    requires MemState(w, L, h) && h.free != [] && Last(h.free).size > PAGE_SIZE
    ensures HeadOk(L) && h.end >= PAGE_SIZE && Last(h.free).size <= h.end && HEAP_START <= h.end - PAGE_SIZE
    ensures FreeOk(Shrunk(h, 1)) && forall c :: c in Shrunk(h, 1).free ==> c.End() <= h.end - PAGE_SIZE
    ensures var w1 := WithTailSize(w, h.free, Last(h.free).size - PAGE_SIZE);
            HeapMem(w1, L, Shrunk(h, 1).free) && WordsMapped(w1, h.end)
            && Preserved(w, w1, h.end - PAGE_SIZE, L, h.free)
  {
    ResizedMem(h, L, w, Last(h.free).size - PAGE_SIZE);
    assert Opened(0, (w, h));
    ShrunkKeepsFree(h, 1);
    ShrunkFits(Shrunk(h, 1));
  }

  lemma ShrunkFits(h: Heap)
    requires FreeOk(h)
    ensures forall c :: c in h.free ==> c.End() <= h.end
  {
  }

  function AfterJoin(F: seq<Chunk>, k: nat): seq<Chunk>
    requires k + 1 < |F|
  {
    F[..k] + [Joined(F[k], F[k + 1])] + F[k + 2..]
  }

  lemma JoinReady(h: Heap, L: int, w: Words, k: nat)
    requires MemState(w, L, h) && k + 1 < |h.free| && Adjacent(h.free[k], h.free[k + 1])
    ensures var c, d := h.free[k], h.free[k + 1];
            && c.addr + SIZE in w && d.addr + SIZE in w
            && (w[c.addr + SIZE] + w[d.addr + SIZE] + HEADER) % WORD == Joined(c, d).size
            && IsList(w[c.addr + SIZE := Joined(c, d).size], L, Addrs(h.free))
  {
    assert Opened(0, (w, h));
    var c, d := h.free[k], h.free[k + 1];
    assert HeaderOk(w, c) by { assert c in h.free; }
    assert HeaderOk(w, d) by { assert d in h.free; }
    JoinSize(h, k);
    HeaderIsNoLink(h, L, c);
    StoreKeepsList(w, L, h.free, c.addr + SIZE, Joined(c, d).size);
  }

  lemma JoinSize(h: Heap, k: nat)
    requires FreeOk(h) && k + 1 < |h.free| && Adjacent(h.free[k], h.free[k + 1])
    ensures (h.free[k].size + h.free[k + 1].size + HEADER) % WORD == Joined(h.free[k], h.free[k + 1]).size
  {
    assert h.free[k] in h.free && h.free[k + 1] in h.free;
  }

  lemma SameAddrs(F: seq<Chunk>, k: nat, j: Chunk)
    requires k + 1 < |F| && j.addr == F[k].addr
    ensures Addrs(F[..k + 1] + F[k + 2..]) == Addrs(F[..k] + [j] + F[k + 2..])
  {
  }

  /** Memory once the size of chunk k has absorbed chunk k+1 and that one is unlinked. */
  lemma JoinedMem(h: Heap, L: int, w: Words, w1: Words, w2: Words, k: nat)
    requires MemState(w, L, h) && k + 1 < |h.free| && Adjacent(h.free[k], h.free[k + 1])
    requires w1 == w[h.free[k].addr + SIZE := Joined(h.free[k], h.free[k + 1]).size]
    requires OnlyLinks(w1, w2, L, h.free) && IsList(w2, L, Addrs(h.free[..k + 1] + h.free[k + 2..]))
    ensures MemState(w2, L, Heap(AfterJoin(h.free, k), h.end))
    ensures Preserved(w, w2, h.end, L, h.free)
  {
    assert Opened(0, (w, h));
    var F, c := h.free, h.free[k];
    assert c in F;
    JoinedHeaders(h, L, w, w1, w2, k);
    SameAddrs(F, k, Joined(c, F[k + 1]));
    JoinKeeps(h, k);
    SameWords(w, w2, h.end);
    StorePreserves(w, h.end, L, F, c, c.addr + SIZE, Joined(c, F[k + 1]).size);
    OnlyLinksPreserves(w1, w2, h.end, L, F);
    InsideSelf(F);
    PreservedTwice(w, w1, w2, h.end, h.end, L, F, F);
  }

  lemma JoinedHeaders(h: Heap, L: int, w: Words, w1: Words, w2: Words, k: nat)
    requires MemState(w, L, h) && k + 1 < |h.free| && Adjacent(h.free[k], h.free[k + 1])
    requires w1 == w[h.free[k].addr + SIZE := Joined(h.free[k], h.free[k + 1]).size]
    requires OnlyLinks(w1, w2, L, h.free)
    ensures forall c :: c in AfterJoin(h.free, k) ==> HeaderOk(w2, c)
  {
    assert Opened(0, (w, h));
    var F, c := h.free, h.free[k];
    var j := Joined(c, F[k + 1]);
    assert c in F && F[k + 1] in F;
    forall d | d in AfterJoin(F, k) ensures HeaderOk(w2, d) {
      if d == j {
        HeaderIsNoLink(h, L, c);
      } else {
        var i :| 0 <= i < |F| && F[i] == d && i != k;
        OtherJoinedHeader(h, L, w, w1, w2, k, i, j.size);
      }
    }
  }

  lemma OtherJoinedHeader(h: Heap, L: int, w: Words, w1: Words, w2: Words, k: nat, i: nat, size: int)
    requires MemBody(w, L, h) && k < |h.free| && i < |h.free| && i != k && OnlyLinks(w1, w2, L, h.free)
    requires w1 == w[h.free[k].addr + SIZE := size]
    ensures HeaderOk(w2, h.free[i])
  {
    var c, d := h.free[k], h.free[i];
    assert c in h.free && d in h.free;
    assert i < k ==> Before(d, c);
    assert i > k ==> Before(c, d);
    HeadersKept(h, L, w1, w2, d);
  }

  lemma InsideSelf(F: seq<Chunk>)
    ensures Inside(F, F)
  {
  }

  lemma InsertHolds(F: seq<Chunk>, c: Chunk)
    ensures forall d :: d in Insert(F, c) <==> d == c || d in F
  {
    var i, G := Position(F, c.addr), Insert(F, c);
    assert G[i] == c;
    forall d | d in F ensures d in G {
      var k :| 0 <= k < |F| && F[k] == d;
      assert k < i ==> G[k] == d;
      assert k >= i ==> G[k + 1] == d;
    }
  }

  /** b and r are chunks that share c between them. */
  predicate Cuts(c: Chunk, b: Chunk, r: Chunk, end: nat) {
    ChunkOk(c, end) && ChunkOk(b, end) && ChunkOk(r, end)
    && b.addr == c.addr && b.End() == r.addr && r.End() == c.End()
  }

  /** F with its k-th chunk cut into b and r. */
  function Halves(F: seq<Chunk>, k: nat, b: Chunk, r: Chunk): seq<Chunk>
    requires k < |F|
  {
    F[..k] + [b, r] + F[k + 1..]
  }

  /** The 32-bit computations of a split. */
  lemma CutsOnMachine(c: Chunk, b: Chunk, r: Chunk, end: nat)
    requires Cuts(c, b, r, end) && end <= HEAP_LIMIT
    ensures (c.addr + HEADER + b.size) % WORD == r.addr
    ensures Sub32(Sub32(c.size, b.size), HEADER) == r.size
  {
    Sub32Exact(c.size, b.size);
    Sub32Exact(c.size - b.size, HEADER);
  }

  /** Block and remainder of a served chunk, and the free list without the block. */
  lemma CarvedCuts(h: Heap, k: nat, a: nat)
    requires FreeOk(h) && k < |h.free| && Request(a) && Fits(h.free[k], a)
    ensures NoSplit(h.free[k], a) ==> Block(h.free[k], a) == h.free[k]
                                      && Take(h.free, k, a) == h.free[..k] + h.free[k + 1..]
    ensures !NoSplit(h.free[k], a) ==>
              var b, r := Block(h.free[k], a), Rest(h.free[k], a);
              var G := Halves(h.free, k, b, r);
              Cuts(h.free[k], b, r, h.end) && b.size == a && Take(h.free, k, a) == G[..k] + G[k + 1..] && G[k] == b
  {
    var F, c := h.free, h.free[k];
    assert c in F && ChunkOk(c, h.end);
    CarvedParts(c, a, h.end);
    TakeIs(h, k, a);
    HalvesWithout(F, k, Block(c, a), Rest(c, a));
  }

  lemma CarvedParts(c: Chunk, a: nat, end: nat)
    requires ChunkOk(c, end) && end <= HEAP_LIMIT && Request(a) && Fits(c, a)
    ensures !NoSplit(c, a) ==> Cuts(c, Block(c, a), Rest(c, a), end) && Block(c, a).size == a
  {
    Carving(c, a, end);
  }

  lemma HalvesWithout(F: seq<Chunk>, k: nat, b: Chunk, r: Chunk)
    requires k < |F|
    ensures var G := Halves(F, k, b, r);
            G[..k] + G[k + 1..] == F[..k] + [r] + F[k + 1..] && G[k] == b
  {
  }

  lemma SplitLists(h: Heap, k: nat, b: Chunk, r: Chunk)
    requires FreeOk(h) && k < |h.free| && Cuts(h.free[k], b, r, h.end)
    ensures FreeOk(Heap(h.free[k := b], h.end)) && Addrs(h.free[k := b]) == Addrs(h.free)
    ensures forall d :: d in h.free[k := b] ==> Disjoint(r, d)
    ensures Insert(h.free[k := b], r) == Halves(h.free, k, b, r)
    ensures FreeOk(Heap(Halves(h.free, k, b, r), h.end))
  {
    AddrsJoined(h.free, k, b);
    SpliceOne(h, k, [b]);
    SpliceOne(h, k, [b, r]);
    assert h.free[..k] + [b] + h.free[k + 1..] == h.free[k := b];
    RestBehind(h, k, b, r);
  }

  /** The rest of a cut chunk goes right behind the first half. */
  lemma RestBehind(h: Heap, k: nat, b: Chunk, r: Chunk)
    requires FreeOk(h) && k < |h.free| && Cuts(h.free[k], b, r, h.end)
    ensures forall d :: d in h.free[k := b] ==> Disjoint(r, d)
    ensures Insert(h.free[k := b], r) == Halves(h.free, k, b, r)
  {
    var F, F1 := h.free, h.free[k := b];
    forall i | 0 <= i < |F1| ensures if i <= k then Before(F1[i], r) else Before(r, F1[i]) {
      assert i < k ==> Before(F[i], F[k]);
      assert i > k ==> Before(F[k], F[i]);
    }
    PositionIs(F1, r.addr, k + 1);
    assert F1[..k + 1] == F[..k] + [b] && F1[k + 1..] == F[k + 1..];
    assert F1[..k + 1] + [r] + F1[k + 1..] == Halves(F, k, b, r);
  }

  lemma InsideHalves(h: Heap, k: nat, b: Chunk, r: Chunk)
    requires k < |h.free|
    ensures Cuts(h.free[k], b, r, h.end) ==> Inside(Halves(h.free, k, b, r), h.free)
  {
    if Cuts(h.free[k], b, r, h.end) {
      var F, G := h.free, Halves(h.free, k, b, r);
      forall d, x: int | d in G && Contains(d, x) ensures exists e :: e in F && Contains(e, x) {
        if d == r || d == b {
          assert F[k] in F && Contains(F[k], x);
        } else {
          assert d in F;
        }
      }
    }
  }

  /** Everything the insertion of the new chunk needs. */
  lemma SplitReady(h: Heap, L: int, w: Words, k: nat, b: Chunk, r: Chunk)
    requires MemState(w, L, h) && k < |h.free| && Cuts(h.free[k], b, r, h.end)
    ensures h.free[k].addr + SIZE in w && w[h.free[k].addr + SIZE] == h.free[k].size
    ensures (h.free[k].addr + HEADER + b.size) % WORD == r.addr && b.size < WORD
    ensures Sub32(Sub32(h.free[k].size, b.size), HEADER) == r.size
    ensures var F1 := h.free[k := b];
            && IsList(w, L, Addrs(F1)) && Insert(F1, r) == Halves(h.free, k, b, r)
            && !Link(L, F1, r.addr + SIZE) && !Link(L, F1, r.addr + MAGIC)
            && (forall n :: n in Addrs(F1) ==> Apart(n, r.addr))
    ensures NodeInMemory(w, L, r.addr) && r.addr + SIZE in w && r.addr + MAGIC in w
  {
    assert Opened(0, (w, h));
    var h1 := Heap(h.free[k := b], h.end);
    assert HeaderOk(w, h.free[k]) by { assert h.free[k] in h.free; }
    CutsOnMachine(h.free[k], b, r, h.end);
    SplitLists(h, k, b, r);
    NodeFits(w, L, r, h.end);
    NodesApart(h1, r);
    HeaderIsNoLink(h1, L, r);
  }

  function WithHeader(w: Words, r: Chunk): Words {
    w[r.addr + SIZE := r.size][r.addr + MAGIC := CHUNK_MAGIC]
  }

  /** w2: the new chunk's header stored and its node linked in. */
  ghost predicate SplitBody(h: Heap, L: int, w: Words, w2: Words, k: nat, b: Chunk, r: Chunk)
    requires k < |h.free|
  {
    && MemBody(w, L, h) && Cuts(h.free[k], b, r, h.end) && r.addr + SIZE in w && r.addr + MAGIC in w
    && IsList(w2, L, Addrs(Halves(h.free, k, b, r)))
    && OnlyLinks(WithHeader(w, r), w2, L, Halves(h.free, k, b, r))
  }

  ghost predicate SplitLinked(h: Heap, L: int, w: Words, w2: Words, k: nat, b: Chunk, r: Chunk)
    requires k < |h.free|
  {
    forall n {:trigger Opened(n, (w, w2))} :: Opened(n, (w, w2)) ==> SplitBody(h, L, w, w2, k, b, r)
  }

  lemma SplitDone(h: Heap, L: int, w: Words, w2: Words, k: nat, b: Chunk, r: Chunk)
    requires k < |h.free| && SplitLinked(h, L, w, w2, k, b, r)
    ensures MemState(w2[h.free[k].addr + SIZE := b.size], L, Heap(Halves(h.free, k, b, r), h.end))
    ensures Preserved(w, w2[h.free[k].addr + SIZE := b.size], h.end, L, h.free)
  {
    SplitMem(h, L, w, w2, k, b, r);
    SplitPreserves(h, L, w, w2, k, b, r);
  }

  lemma SplitMem(h: Heap, L: int, w: Words, w2: Words, k: nat, b: Chunk, r: Chunk)
    requires k < |h.free| && SplitLinked(h, L, w, w2, k, b, r)
    ensures MemState(w2[h.free[k].addr + SIZE := b.size], L, Heap(Halves(h.free, k, b, r), h.end))
  {
    assert Opened(0, (w, w2));
    SplitLists(h, k, b, r);
    SplitList(h, L, w, w2, k, b, r);
    SplitWords(h, L, w, w2, k, b, r);
    forall d | d in Halves(h.free, k, b, r) ensures HeaderOk(w2[h.free[k].addr + SIZE := b.size], d) {
      SplitHeader(h, L, w, w2, k, b, r, d);
    }
  }

  lemma SplitList(h: Heap, L: int, w: Words, w2: Words, k: nat, b: Chunk, r: Chunk)
    requires k < |h.free| && SplitLinked(h, L, w, w2, k, b, r)
    ensures IsList(w2[h.free[k].addr + SIZE := b.size], L, Addrs(Halves(h.free, k, b, r)))
  {
    SplitListReady(h, L, w, w2, k, b, r);
    StoreKeepsList(w2, L, Halves(h.free, k, b, r), h.free[k].addr + SIZE, b.size);
  }

  lemma SplitListReady(h: Heap, L: int, w: Words, w2: Words, k: nat, b: Chunk, r: Chunk)
    requires k < |h.free| && SplitLinked(h, L, w, w2, k, b, r)
    ensures IsList(w2, L, Addrs(Halves(h.free, k, b, r)))
    ensures !Link(L, Halves(h.free, k, b, r), h.free[k].addr + SIZE)
  {
    FirstHalfReady(h, L, w, w2, k, b, r);
    HeaderIsNoLink(Heap(Halves(h.free, k, b, r), h.end), L, b);
    assert Opened(0, (w, w2));
  }

  lemma SplitWords(h: Heap, L: int, w: Words, w2: Words, k: nat, b: Chunk, r: Chunk)
    requires k < |h.free| && SplitLinked(h, L, w, w2, k, b, r)
    ensures WordsMapped(w2[h.free[k].addr + SIZE := b.size], h.end)
  {
    assert Opened(0, (w, w2));
    assert HeaderOk(w, h.free[k]) by { assert h.free[k] in h.free; }
    assert WithHeader(w, r).Keys == w.Keys;
    SameWords(w, w2[h.free[k].addr + SIZE := b.size], h.end);
  }

  lemma SplitPreserves(h: Heap, L: int, w: Words, w2: Words, k: nat, b: Chunk, r: Chunk)
    requires k < |h.free| && SplitLinked(h, L, w, w2, k, b, r)
    ensures Preserved(w, w2[h.free[k].addr + SIZE := b.size], h.end, L, h.free)
  {
    assert Opened(0, (w, w2));
    var F, c, G := h.free, h.free[k], Halves(h.free, k, b, r);
    assert c in F;
    assert Contains(c, c.addr + SIZE) && Contains(c, r.addr + SIZE) && Contains(c, r.addr + MAGIC);
    InsideHalves(h, k, b, r);
    OnlyLinksPreserves(WithHeader(w, r), w2, h.end, L, G);
    forall x | x in w && x < h.end && Outside(L, F, x)
      ensures x in w2[h.free[k].addr + SIZE := b.size] && w2[h.free[k].addr + SIZE := b.size][x] == w[x]
    {
      OutsideMonotone(L, F, G, x);
      assert !Contains(c, x);
    }
  }

  /** The header of a chunk other than b survives the linking and the final store to b's size. */
  lemma OtherHeader(h: Heap, L: int, w1: Words, w2: Words, b: Chunk, d: Chunk)
    requires FreeOk(h) && HeadOk(L) && d in h.free && b in h.free && Disjoint(b, d)
    requires OnlyLinks(w1, w2, L, h.free) && HeaderOk(w1, d)
    ensures HeaderOk(w2[b.addr + SIZE := b.size], d)
  {
    HeadersKept(h, L, w1, w2, d);
  }

  lemma SplitHeader(h: Heap, L: int, w: Words, w2: Words, k: nat, b: Chunk, r: Chunk, d: Chunk)
    requires k < |h.free| && SplitLinked(h, L, w, w2, k, b, r) && d in Halves(h.free, k, b, r)
    ensures HeaderOk(w2[h.free[k].addr + SIZE := b.size], d)
  {
    var i :| 0 <= i <= |h.free| && Halves(h.free, k, b, r)[i] == d;
    if i == k {
      SplitHeaderFirst(h, L, w, w2, k, b, r);
    } else {
      SplitHeaderOther(h, L, w, w2, k, b, r, i, d);
    }
  }

  /** What the header of b rests on. */
  lemma FirstHalfReady(h: Heap, L: int, w: Words, w2: Words, k: nat, b: Chunk, r: Chunk)
    requires k < |h.free| && SplitLinked(h, L, w, w2, k, b, r)
    ensures FreeOk(Heap(Halves(h.free, k, b, r), h.end)) && HeadOk(L) && b in Halves(h.free, k, b, r)
    ensures HeaderOk(w, h.free[k]) && b.addr == h.free[k].addr && Before(b, r)
    ensures OnlyLinks(WithHeader(w, r), w2, L, Halves(h.free, k, b, r))
  {
    assert Opened(0, (w, w2));
    SplitLists(h, k, b, r);
    assert h.free[k] in h.free;
    assert Halves(h.free, k, b, r)[k] == b;
  }

  lemma SplitHeaderFirst(h: Heap, L: int, w: Words, w2: Words, k: nat, b: Chunk, r: Chunk)
    requires k < |h.free| && SplitLinked(h, L, w, w2, k, b, r)
    ensures HeaderOk(w2[h.free[k].addr + SIZE := b.size], b)
  {
    FirstHalfReady(h, L, w, w2, k, b, r);
    FirstHalfHeader(Heap(Halves(h.free, k, b, r), h.end), L, w, w2, h.free[k], b, r);
  }

  /** What the header of another chunk d rests on. */
  lemma OtherHalfReady(h: Heap, L: int, w: Words, w2: Words, k: nat, b: Chunk, r: Chunk, i: nat, d: Chunk)
    requires k < |h.free| && SplitLinked(h, L, w, w2, k, b, r) && i <= |h.free| && i != k
    requires d == Halves(h.free, k, b, r)[i]
    ensures FreeOk(Heap(Halves(h.free, k, b, r), h.end)) && HeadOk(L) && b.addr == h.free[k].addr
    ensures d in Halves(h.free, k, b, r) && b in Halves(h.free, k, b, r) && Disjoint(b, d)
    ensures OnlyLinks(WithHeader(w, r), w2, L, Halves(h.free, k, b, r)) && HeaderOk(WithHeader(w, r), d)
  {
    assert Opened(0, (w, w2));
    SplitLists(h, k, b, r);
    assert Halves(h.free, k, b, r)[k] == b;
    ElsewhereInHalves(h, k, b, r, i);
    HeaderBefore(h, w, k, r, d);
  }

  lemma SplitHeaderOther(h: Heap, L: int, w: Words, w2: Words, k: nat, b: Chunk, r: Chunk, i: nat, d: Chunk)
    requires k < |h.free| && SplitLinked(h, L, w, w2, k, b, r) && i <= |h.free| && i != k
    requires d == Halves(h.free, k, b, r)[i]
    ensures HeaderOk(w2[h.free[k].addr + SIZE := b.size], d)
  {
    OtherHalfReady(h, L, w, w2, k, b, r, i, d);
    OtherHeader(Heap(Halves(h.free, k, b, r), h.end), L, WithHeader(w, r), w2, b, d);
  }

  lemma FirstHalfHeader(g: Heap, L: int, w: Words, w2: Words, c: Chunk, b: Chunk, r: Chunk)
    requires FreeOk(g) && HeadOk(L) && b in g.free && HeaderOk(w, c) && b.addr == c.addr && Before(b, r)
    requires OnlyLinks(WithHeader(w, r), w2, L, g.free)
    ensures HeaderOk(w2[c.addr + SIZE := b.size], b)
  {
    HeaderIsNoLink(g, L, b);
  }

  lemma HeaderBefore(h: Heap, w: Words, k: nat, r: Chunk, d: Chunk)
    requires k < |h.free| && (forall c :: c in h.free ==> HeaderOk(w, c))
    requires h.free[k].addr <= r.addr && r.End() <= h.free[k].End()
    requires d == r || (d in h.free && Disjoint(h.free[k], d))
    ensures HeaderOk(WithHeader(w, r), d)
  {
  }

  lemma ElsewhereInHalves(h: Heap, k: nat, b: Chunk, r: Chunk, i: nat)
    requires FreeOk(h) && k < |h.free| && Cuts(h.free[k], b, r, h.end) && i <= |h.free| && i != k
    ensures var d := Halves(h.free, k, b, r)[i];
            d in Halves(h.free, k, b, r) && Disjoint(b, d) && (d == r || (d in h.free && Disjoint(h.free[k], d)))
  {
    var F := h.free;
    assert i < k ==> Before(F[i], F[k]);
    assert i > k + 1 ==> Before(F[k], F[i - 1]);
  }

  lemma FirstReady(h: Heap, L: int, w: Words, c: Chunk)
    requires MemState(w, L, h) && h.free == []
    requires c.End() == h.end && c.size == PAGE_SIZE - HEADER && c.addr >= HEAP_START
    ensures IsList(w, L, Addrs([])) && NodeInMemory(w, L, c.addr)
    ensures !Link(L, [], c.addr + SIZE) && !Link(L, [], c.addr + MAGIC)
  {
    assert Opened(0, (w, h));
    PageBounds(h, c);
    NodeFits(w, L, c, h.end);
  }

  lemma PageBounds(h: Heap, c: Chunk)
    requires FreeOk(h) && c.End() == h.end && c.size == PAGE_SIZE - HEADER && c.addr >= HEAP_START
    ensures ChunkOk(c, h.end)
  {
  }

  lemma FirstDone(h: Heap, L: int, w: Words, w1: Words, w2: Words, c: Chunk)
    requires MemState(w, L, h) && h.free == []
    requires c.End() == h.end && c.size == PAGE_SIZE - HEADER && c.addr >= HEAP_START
    requires w1 == WithHeader(w, c) && IsList(w1, L, Addrs([]))
    requires NodeInMemory(w1, L, c.addr) && IsList(w2, L, Addrs([]) + [c.addr])
    requires w2 == LinkBetween(w1, At(L, Addrs([]), -1), c.addr, L + 4)
    ensures MemState(w2, L, Heap([c], h.end)) && Preserved(w, w2, c.addr, L, [])
  {
    assert Opened(0, (w, h));
    PageBounds(h, c);
    NodeFits(w, L, c, h.end);
    assert Addrs([]) + [c.addr] == Addrs([c]);
    assert HeaderOk(w2, c);
    assert w2.Keys == w.Keys;
    assert MemBody(w2, L, Heap([c], h.end));
  }

  lemma PageAligned(x: nat)
    requires x % PAGE_SIZE == 0
    ensures x % 16 == 0
  {
    var k := x / PAGE_SIZE;
    Multiple(0, 16, k * 256);
    assert x == 0 + 16 * (k * 256);
  }

  lemma FirstPageFree(h: Heap)
    requires FreeOk(h) && h.end + PAGE_SIZE <= HEAP_LIMIT && h.free == []
    ensures FreeOk(Grow(h))
  {
    PageAligned(h.end);
    assert Grow(h).free == [Chunk(h.end, PAGE_SIZE - HEADER)];
    assert ChunkOk(Chunk(h.end, PAGE_SIZE - HEADER), h.end + PAGE_SIZE);
  }

  lemma GrowKeepsFree(h: Heap)
    requires FreeOk(h) && h.end + PAGE_SIZE <= HEAP_LIMIT
    ensures FreeOk(Grow(h))
  {
    if h.free == [] {
      FirstPageFree(h);
    } else {
      LargerTail(h);
    }
  }

  lemma LaterEnd(h: Heap)
    requires FreeOk(h) && h.end + PAGE_SIZE <= HEAP_LIMIT
    ensures FreeOk(Heap(h.free, h.end + PAGE_SIZE))
  {
  }

  /** The memory right after a page has been mapped behind the heap. */
  lemma PageAppears(h: Heap, L: int, w: Words, page: Words)
    requires MemState(w, L, h) && page.Keys == PageWords(h.end) && h.end + PAGE_SIZE <= HEAP_LIMIT
    ensures MemState(w + page, L, Heap(h.free, h.end + PAGE_SIZE))
    ensures Preserved(w, w + page, h.end, L, h.free) && h.end >= HEAP_START && h.end % PAGE_SIZE == 0
    ensures forall c :: c in h.free ==> ChunkOk(c, h.end)
  {
    assert Opened(0, (w, h));
    ExtendKeeps(w, page, L, h.free, h.end);
    LaterEnd(h);
    assert MemBody(w + page, L, Heap(h.free, h.end + PAGE_SIZE));
  }

  /** ... and once the tail has grown over it. */
  lemma GrownMem(h: Heap, L: int, w: Words, page: Words)
    requires MemState(w, L, h) && page.Keys == PageWords(h.end) && h.end + PAGE_SIZE <= HEAP_LIMIT && h.free != []
    ensures var w2 := WithTailSize(w + page, h.free, Last(h.free).size + PAGE_SIZE);
            MemState(w2, L, Grow(h)) && Preserved(w, w2, h.end, L, h.free)
  {
    var size := Last(h.free).size + PAGE_SIZE;
    PageAppears(h, L, w, page);
    GrownState(h, L, w + page);
    InsideSelf(h.free);
    assert Preserved(w + page, WithTailSize(w + page, h.free, size), h.end, L, h.free);
    PreservedTwice(w, w + page, WithTailSize(w + page, h.free, size), h.end, h.end, L, h.free, h.free);
  }

  lemma GrownState(h: Heap, L: int, w: Words)
    requires MemState(w, L, Heap(h.free, h.end + PAGE_SIZE)) && h.free != [] && h.end >= HEAP_START
    requires h.end % PAGE_SIZE == 0 && forall c :: c in h.free ==> ChunkOk(c, h.end)
    ensures var w2 := WithTailSize(w, h.free, Last(h.free).size + PAGE_SIZE);
            MemState(w2, L, Grow(h)) && Preserved(w, w2, h.end, L, h.free)
  {
    var g, size := Heap(h.free, h.end + PAGE_SIZE), Last(h.free).size + PAGE_SIZE;
    ResizedMem(g, L, w, size);
    assert Opened(0, (w, g));
    GrowKeepsFree(h);
  }

  lemma FirstPreserves(h: Heap, L: int, w: Words, page: Words, w2: Words)
    requires h.free == [] && Preserved(w, w + page, h.end, L, []) && Preserved(w + page, w2, h.end, L, [])
    ensures Preserved(w, w2, h.end, L, h.free)
  {
    InsideSelf([]);
    PreservedTwice(w, w + page, w2, h.end, h.end, L, [], []);
  }

  /** Growth keeps every byte of the free list free. */
  lemma {:induction false} InsideGrown(h: Heap, a: nat)
    ensures Inside(h.free, Grown(h, a).free)
    decreases Shortfall(h.free, a)
  {
    InsideSelf(h.free);
    if FirstFit(h.free, a) == |h.free| {
      var g := Grow(h);
      InsideGrown(g, a);
      forall c, x: int | c in h.free && Contains(c, x) ensures exists d :: d in Grown(h, a).free && Contains(d, x) {
        GrowCovers(h, c, x);
        var e :| e in g.free && Contains(e, x);
      }
    }
  }

  lemma GrowCovers(h: Heap, c: Chunk, x: int)
    requires c in h.free && Contains(c, x)
    ensures exists e :: e in Grow(h).free && Contains(e, x)
  {
    var k :| 0 <= k < |h.free| && h.free[k] == c;
    assert Grow(h).free[k] in Grow(h).free && Contains(Grow(h).free[k], x);
  }

  lemma MallocPreserved(w: Words, w1: Words, w2: Words, L: int, h: Heap, a: nat)
    requires FirstFit(h.free, a) == |h.free| && Preserved(w, w1, h.end, L, h.free)
    requires Preserved(w1, w2, Grow(h).end, L, Grown(Grow(h), a).free)
    ensures Preserved(w, w2, h.end, L, Grown(h, a).free)
  {
    InsideGrown(h, a);
    forall x | x in w && x < h.end && Outside(L, Grown(h, a).free, x) ensures x in w2 && w2[x] == w[x] {
      OutsideMonotone(L, Grown(h, a).free, h.free, x);
    }
  }

  lemma TakenMem(h: Heap, L: int, w: Words, w': Words, k: nat)
    requires MemState(w, L, h) && k < |h.free| && OnlyLinks(w, w', L, h.free)
    requires IsList(w', L, Addrs(h.free[..k] + h.free[k + 1..]))
    ensures MemState(w', L, Heap(h.free[..k] + h.free[k + 1..], h.end))
    ensures HeaderOk(w', h.free[k])
  {
    assert Opened(0, (w, h));
    var F := h.free;
    SpliceOne(h, k, []);
    assert F[..k] + [] + F[k + 1..] == F[..k] + F[k + 1..];
    forall d | d in F ensures HeaderOk(w', d) {
      HeadersKept(h, L, w, w', d);
    }
    SameWords(w, w', h.end);
  }

  /** Memory in which a chunk has been linked in at its place. */
  lemma InsertedMem(h: Heap, L: int, w: Words, w': Words, c: Chunk)
    requires MemState(w, L, h) && HeaderOk(w, c) && ChunkOk(c, h.end)
    requires forall d :: d in h.free ==> Disjoint(c, d)
    requires IsList(w', L, Addrs(Insert(h.free, c))) && OnlyLinks(w, w', L, Insert(h.free, c))
    ensures MemState(w', L, Heap(Insert(h.free, c), h.end))
  {
    assert Opened(0, (w, h));
    var G := Insert(h.free, c);
    InsertKeeps(h, c);
    InsertHolds(h.free, c);
    forall d | d in G ensures HeaderOk(w', d) {
      assert d == c || d in h.free;
      HeadersKept(Heap(G, h.end), L, w, w', d);
    }
    SameWords(w, w', h.end);
  }

  lemma FreedPreserved(w: Words, w1: Words, w2: Words, h: Heap, c: Chunk, L: int, end: nat)
    requires OnlyLinks(w, w1, L, Insert(h.free, c)) && Preserved(w1, w2, end, L, Insert(h.free, c)) && end <= h.end
    ensures Preserved(w, w2, end, L, h.free + [c])
  {
    var G, F := Insert(h.free, c), h.free + [c];
    InsertHolds(h.free, c);
    forall a | Outside(L, F, a) ensures Outside(L, G, a) {
      forall d | d in G ensures !Contains(d, a) {
        assert d in F;
      }
    }
    OnlyLinksPreserves(w, w1, h.end, L, G);
  }

  lemma SameWords(w: Words, w': Words, end: nat)
    requires WordsMapped(w, end) && w'.Keys == w.Keys
    ensures WordsMapped(w', end)
  {
  }
}
