/** What kmalloc.c computes, as functions on the free list and the heap end.

    The functions follow the code as written: 32-bit arithmetic, first fit at twice the request,
    growth at whatever chunk ends the free list, and trimming of whatever chunk ends it. Which of
    these steps keep the heap sound, and exactly when, is what HeapSafety proves. */
module HeapSpec {

  const HEAP_START := 0xC040_0000
  const HEADER := 16
  const PAGE_SIZE := 4096
  const WORD := 0x1_0000_0000

  /** The largest request whose rounded size can still be doubled in 32 bits. */
  const MAX_REQUEST := 0x7FFF_FFF0

  datatype Chunk = Chunk(addr: nat, size: nat) {
    function End(): nat { addr + HEADER + size }
  }

  /** Free list and k_heap_end. */
  datatype Heap = Heap(free: seq<Chunk>, end: nat)

  function Sub32(a: nat, b: nat): nat
    requires b < WORD
  {
    (a + WORD - b) % WORD
  }

  /** Rounding of a request to a multiple of 16 (kmalloc.c:102). */
  function Rounded(n: nat): nat {
    if n % 16 != 0 then (n + 16) / 16 * 16 % WORD else n
  }

  predicate Fits(c: Chunk, a: nat) {
    c.size >= a * 2 % WORD
  }

  predicate NoSplit(c: Chunk, a: nat) {
    a >= Sub32(c.size, HEADER)
  }

  /** Index of the first chunk that fits, or |F|. */
  function FirstFit(F: seq<Chunk>, a: nat): (i: nat)
    ensures i <= |F|
    ensures i < |F| ==> Fits(F[i], a)
    ensures forall j :: 0 <= j < i ==> !Fits(F[j], a)
  {
    if F == [] || Fits(F[0], a) then 0 else 1 + FirstFit(F[1..], a)
  }

  /** insert_chunk: in front of the first chunk at a higher or equal address. */
  function Position(F: seq<Chunk>, addr: nat): (i: nat)
    ensures i <= |F|
    ensures i < |F| ==> F[i].addr >= addr
    ensures forall j :: 0 <= j < i ==> F[j].addr < addr
  {
    if F == [] || F[0].addr >= addr then 0 else 1 + Position(F[1..], addr)
  }

  function Insert(F: seq<Chunk>, c: Chunk): seq<Chunk> {
    var i := Position(F, c.addr);
    F[..i] + [c] + F[i..]
  }

  /** The part split off the end of a chunk that serves a rounded request a. */
  function Rest(c: Chunk, a: nat): Chunk {
    Chunk((c.addr + HEADER + a) % WORD, Sub32(Sub32(c.size, a % WORD), HEADER))
  }

  /** The chunk handed out when c serves a rounded request a. */
  function Block(c: Chunk, a: nat): Chunk {
    if NoSplit(c, a) then c else Chunk(c.addr, a)
  }

  /** The free list once F[i] has served a rounded request a. */
  function Take(F: seq<Chunk>, i: nat, a: nat): seq<Chunk>
    requires i < |F|
  {
    if NoSplit(F[i], a) then F[..i] + F[i + 1..]
    else
      var G := Insert(F, Rest(F[i], a));
      var k := if Position(F, Rest(F[i], a).addr) <= i then i + 1 else i;
      G[..k] + G[k + 1..]
  }

  /** One page more: the last free chunk grows, or a first chunk appears (kmalloc.c:189-208). */
  function Grow(h: Heap): Heap {
    var F := h.free;
    if F == [] then Heap([Chunk(h.end, PAGE_SIZE - HEADER)], h.end + PAGE_SIZE)
    else
      var t := F[|F| - 1];
      Heap(F[..|F| - 1] + [Chunk(t.addr, t.size + PAGE_SIZE)], h.end + PAGE_SIZE)
  }

  /** Bytes by which the free list's last chunk falls short of fitting. */
  function Shortfall(F: seq<Chunk>, a: nat): nat {
    var want := a * 2 % WORD;
    if F == [] then want + 1
    else if F[|F| - 1].size >= want then 0 else want - F[|F| - 1].size
  }

  /** Pages added before some chunk fits. */
  function PagesNeeded(h: Heap, a: nat): nat
    decreases Shortfall(h.free, a)
  {
    if FirstFit(h.free, a) < |h.free| then 0 else 1 + PagesNeeded(Grow(h), a)
  }

  /** The heap in which the search of _kmalloc finally succeeds. */
  function Grown(h: Heap, a: nat): (g: Heap)
    ensures FirstFit(g.free, a) < |g.free|
    decreases Shortfall(h.free, a)
  {
    if FirstFit(h.free, a) < |h.free| then h else Grown(Grow(h), a)
  }

  /** The block handed out for a rounded request. */
  function ServedBlock(h: Heap, a: nat): Chunk {
    var F := Grown(h, a).free;
    Block(F[FirstFit(F, a)], a)
  }

  /** The heap left behind by it. */
  function Serve(h: Heap, a: nat): Heap {
    var g := Grown(h, a);
    Heap(Take(g.free, FirstFit(g.free, a), a), g.end)
  }

  /** _kmalloc of n bytes: the block, and the heap afterwards. */
  function MallocBlock(h: Heap, n: nat): Chunk {
    ServedBlock(h, Rounded(n))
  }

  function Malloc(h: Heap, n: nat): Heap {
    Serve(h, Rounded(n))
  }

  predicate Adjacent(c: Chunk, d: Chunk) {
    c.End() == d.addr
  }

  function Joined(c: Chunk, d: Chunk): Chunk {
    Chunk(c.addr, c.size + HEADER + d.size)
  }

  /** merge_heap from position k on, without its trimming loop. */
  function MergeFrom(F: seq<Chunk>, k: nat): seq<Chunk>
    requires k <= |F|
    decreases |F| - k
  {
    if k == |F| then F
    else if k + 1 < |F| && Adjacent(F[k], F[k + 1]) then
      MergeFrom(F[..k] + [Joined(F[k], F[k + 1])] + F[k + 2..], k)
    else MergeFrom(F, k + 1)
  }

  /** The trimming loop (kmalloc.c:262-269). */
  function Trim(h: Heap): Heap
    decreases if h.free == [] then 0 else h.free[|h.free| - 1].size
  {
    var F := h.free;
    if F != [] && F[|F| - 1].size > PAGE_SIZE && h.end >= PAGE_SIZE then
      Trim(Heap(F[..|F| - 1] + [Chunk(F[|F| - 1].addr, F[|F| - 1].size - PAGE_SIZE)], h.end - PAGE_SIZE))
    else h
  }

  /** _kfree of chunk c. */
  function Free(h: Heap, c: Chunk): Heap {
    Trim(Heap(MergeFrom(Insert(h.free, c), 0), h.end))
  }
}
