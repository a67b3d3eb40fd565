/** How the free list lies in memory: chunk headers of four words (next, prev, size, magic), linked as
    list.c links them, in pages of the heap that are mapped. */
module HeapMemory {
  import opened Lists
  import opened HeapSpec
  import opened HeapSafety

  const CHUNK_MAGIC := 0xABAD_BABE
  const SIZE := 8
  const MAGIC := 12

  function Addrs(F: seq<Chunk>): (s: seq<int>)
    ensures |s| == |F|
  {
    seq(|F|, i requires 0 <= i < |F| => F[i].addr)
  }

  ghost predicate HeaderOk(w: Words, c: Chunk) {
    c.addr + SIZE in w && c.addr + MAGIC in w && w[c.addr + SIZE] == c.size && w[c.addr + MAGIC] == CHUNK_MAGIC
  }

  /** Memory w holds the free list F at list head L. */
  ghost predicate HeapMem(w: Words, L: int, F: seq<Chunk>) {
    IsList(w, L, Addrs(F)) && forall c :: c in F ==> HeaderOk(w, c)
  }

  /** Every word of the heap is mapped, and no word beyond its end. */
  ghost predicate WordsMapped(w: Words, end: nat) {
    && (forall a :: HEAP_START <= a < end && a % 4 == 0 ==> a in w)
    && (forall a :: a in w ==> a < end)
  }

  /** The list head lies in the kernel image, below the heap. */
  predicate HeadOk(L: int) {
    0 < L && L + 12 <= HEAP_START
  }

  /** a is a link word of the free list. */
  ghost predicate Link(L: int, F: seq<Chunk>, a: int) {
    L <= a < L + 12 || exists c :: c in F && c.addr <= a < c.addr + 8
  }

  /** w' differs from w in link words only. */
  ghost predicate OnlyLinks(w: Words, w': Words, L: int, F: seq<Chunk>) {
    w'.Keys == w.Keys && forall a :: a in w && !Link(L, F, a) ==> w'[a] == w[a]
  }

  // ---- Sequence bookkeeping -------------------------------------------------------------

  lemma AddrsDrop(F: seq<Chunk>, i: nat)
    requires i < |F|
    ensures Addrs(F[..i] + F[i + 1..]) == Addrs(F)[..i] + Addrs(F)[i + 1..]
  {
  }

  lemma AddrsInsert(F: seq<Chunk>, i: nat, c: Chunk)
    requires i <= |F|
    ensures Addrs(F[..i] + [c] + F[i..]) == Addrs(F)[..i] + [c.addr] + Addrs(F)[i..]
  {
  }

  lemma AddrsResized(F: seq<Chunk>, size: nat)
    requires F != []
    ensures Addrs(Resized(F, size)) == Addrs(F)
  {
  }

  lemma AddrsJoined(F: seq<Chunk>, k: nat, c: Chunk)
    requires k < |F| && c.addr == F[k].addr
    ensures Addrs(F[k := c]) == Addrs(F)
  {
  }

  // ---- Which words a list operation may touch -------------------------------------------

  lemma LinkOfNode(L: int, F: seq<Chunk>, i: nat, a: int)
    requires i < |F| && F[i].addr <= a < F[i].addr + 8
    ensures Link(L, F, a)
  {
    assert F[i] in F;
  }

  /** A neighbour's link word is a link word. */
  lemma NeighbourLinks(L: int, F: seq<Chunk>, i: int)
    requires -1 <= i <= |F|
    ensures i < |F| ==> Link(L, F, At(L, Addrs(F), i))
    ensures i > -1 ==> Link(L, F, At(L, Addrs(F), i) + 4)
  {
    if 0 <= i < |F| {
      LinkOfNode(L, F, i, F[i].addr);
      LinkOfNode(L, F, i, F[i].addr + 4);
    }
  }

  lemma LinkMonotone(L: int, F: seq<Chunk>, G: seq<Chunk>, a: int)
    requires Link(L, F, a) && forall c :: c in F ==> c in G
    ensures Link(L, G, a)
  {
  }

  /** Size and magic words are not link words. */
  lemma HeaderIsNoLink(h: Heap, L: int, c: Chunk)
    requires FreeOk(h) && HeadOk(L) && ChunkOk(c, h.end)
    requires c in h.free || forall d :: d in h.free ==> Disjoint(c, d)
    ensures !Link(L, h.free, c.addr + SIZE) && !Link(L, h.free, c.addr + MAGIC)
  {
    forall d | d in h.free ensures d == c || Disjoint(c, d) {
      if c in h.free {
        var i :| 0 <= i < |h.free| && h.free[i] == c;
        var j :| 0 <= j < |h.free| && h.free[j] == d;
        assert i < j ==> Before(c, d);
        assert j < i ==> Before(d, c);
      }
    }
  }

  /** Touching link words only leaves every header of the list in place. */
  lemma HeadersKept(h: Heap, L: int, w: Words, w': Words, c: Chunk)
    requires FreeOk(h) && HeadOk(L) && OnlyLinks(w, w', L, h.free) && HeaderOk(w, c)
    requires ChunkOk(c, h.end) && (c in h.free || forall d :: d in h.free ==> Disjoint(c, d))
    ensures HeaderOk(w', c)
  {
    HeaderIsNoLink(h, L, c);
  }

  /** A store that hits no link word keeps the list. */
  lemma StoreKeepsList(w: Words, L: int, F: seq<Chunk>, a: int, v: int)
    requires IsList(w, L, Addrs(F)) && !Link(L, F, a)
    ensures IsList(w[a := v], L, Addrs(F))
  {
    forall b | b in w && Owns(L, Addrs(F), b) ensures b != a {
      if !(L <= b < L + 12) {
        var n :| n in Addrs(F) && n <= b < n + 8;
        var i :| 0 <= i < |F| && Addrs(F)[i] == n;
        LinkOfNode(L, F, i, b);
      }
    }
    ListFrame(w, w[a := v], L, Addrs(F));
  }

  lemma NodesApart(h: Heap, c: Chunk)
    requires forall d :: d in h.free ==> Disjoint(c, d)
    ensures forall n :: n in Addrs(h.free) ==> Apart(n, c.addr)
  {
    forall n | n in Addrs(h.free) ensures Apart(n, c.addr) {
      var i :| 0 <= i < |h.free| && Addrs(h.free)[i] == n;
      assert h.free[i] in h.free;
    }
  }

  lemma NodeFits(w: Words, L: int, c: Chunk, end: nat)
    requires HeadOk(L) && WordsMapped(w, end) && ChunkOk(c, end)
    ensures NodeInMemory(w, L, c.addr) && c.addr + SIZE in w && c.addr + MAGIC in w
  {
    WordMapped(w, end, c.addr, 0);
    WordMapped(w, end, c.addr, 1);
    WordMapped(w, end, c.addr, 2);
    WordMapped(w, end, c.addr, 3);
  }

  lemma WordMapped(w: Words, end: nat, a: nat, k: nat)
    requires WordsMapped(w, end) && a % 16 == 0 && k < 4 && HEAP_START <= a && a + HEADER <= end
    ensures a + 4 * k in w
  {
    assert (a + 4 * k) % 4 == 0;
  }

  lemma LinkedOnlyLinks(L: int, w: Words, F: seq<Chunk>, G: seq<Chunk>, i: nat, c: Chunk)
    requires i <= |F| && (forall d :: d in F ==> d in G) && c in G && IsList(w, L, Addrs(F))
    requires c.addr in w && c.addr + 4 in w
    ensures OnlyLinks(w, LinkBetween(w, At(L, Addrs(F), i - 1), c.addr, At(L, Addrs(F), i)), L, G)
  {
    NeighbourLinks(L, F, i - 1);
    NeighbourLinks(L, F, i);
    LinkMonotone(L, F, G, At(L, Addrs(F), i - 1));
    LinkMonotone(L, F, G, At(L, Addrs(F), i) + 4);
    assert LinkOk(w, L, Addrs(F), i);
  }

  /** Memory in which the chunk at position i has been unlinked. */
  lemma RemovedOnlyLinks(L: int, w: Words, w': Words, F: seq<Chunk>, i: nat)
    requires i < |F| && IsList(w, L, Addrs(F))
    requires var s := Addrs(F);
             w' == w[At(L, s, i - 1) := At(L, s, i + 1)][At(L, s, i + 1) + 4 := At(L, s, i - 1)]
    ensures OnlyLinks(w, w', L, F)
  {
    NeighbourLinks(L, F, i - 1);
    NeighbourLinks(L, F, i + 1);
    assert LinkOk(w, L, Addrs(F), i) && LinkOk(w, L, Addrs(F), i + 1);
  }

  // ---- What stays untouched -------------------------------------------------------------

  predicate Contains(c: Chunk, a: int) {
    c.addr <= a < c.End()
  }

  /** a belongs neither to the list head nor to a free chunk. */
  ghost predicate Outside(L: int, F: seq<Chunk>, a: int) {
    !(L <= a < L + 12) && forall c :: c in F ==> !Contains(c, a)
  }

  /** Every word below end' that lies outside the free chunks F keeps its value. */
  ghost predicate Preserved(w: Words, w': Words, end': nat, L: int, F: seq<Chunk>) {
    forall a :: a in w && a < end' && Outside(L, F, a) ==> a in w' && w'[a] == w[a]
  }

  /** Every byte of G belongs to F. */
  ghost predicate Inside(G: seq<Chunk>, F: seq<Chunk>) {
    forall c, a: int :: c in G && Contains(c, a) ==> exists d :: d in F && Contains(d, a)
  }

  lemma OutsideMonotone(L: int, F: seq<Chunk>, G: seq<Chunk>, a: int)
    requires Outside(L, F, a) && Inside(G, F)
    ensures Outside(L, G, a)
  {
  }

  lemma PreservedTwice(w: Words, w1: Words, w2: Words, e1: nat, e2: nat, L: int, F: seq<Chunk>, G: seq<Chunk>)
    requires Preserved(w, w1, e1, L, F) && Preserved(w1, w2, e2, L, G) && Inside(G, F) && e2 <= e1
    ensures Preserved(w, w2, e2, L, F)
  {
    forall a | a in w && a < e2 && Outside(L, F, a) ensures a in w2 && w2[a] == w[a] {
      OutsideMonotone(L, F, G, a);
    }
  }

  lemma OnlyLinksPreserves(w: Words, w': Words, end: nat, L: int, F: seq<Chunk>)
    requires OnlyLinks(w, w', L, F)
    ensures Preserved(w, w', end, L, F)
  {
    forall a | a in w && Outside(L, F, a) ensures !Link(L, F, a) {
      forall c | c in F ensures !(c.addr <= a < c.addr + 8) {
        assert !Contains(c, a);
      }
    }
  }

  /** Stores inside free chunks of F preserve everything outside. */
  lemma StorePreserves(w: Words, end: nat, L: int, F: seq<Chunk>, c: Chunk, a: int, v: int)
    requires c in F && Contains(c, a)
    ensures Preserved(w, w[a := v], end, L, F)
  {
  }

  /** The memory once the heap ends at `end`. */
  function Cut(w: Words, end: nat): Words {
    map a | a in w && a < end :: w[a]
  }

  lemma CutKeeps(w: Words, L: int, F: seq<Chunk>, end: nat, end': nat)
    requires HeapMem(w, L, F) && WordsMapped(w, end) && HeadOk(L) && HEAP_START <= end' <= end
    requires forall c :: c in F ==> c.End() <= end'
    ensures HeapMem(Cut(w, end'), L, F) && WordsMapped(Cut(w, end'), end')
    ensures Preserved(w, Cut(w, end'), end', L, F)
  {
    var w' := Cut(w, end');
    forall a | a in w && Owns(L, Addrs(F), a) ensures a in w' {
      if !(L <= a < L + 12) {
        var n :| n in Addrs(F) && n <= a < n + 8;
        var i :| 0 <= i < |F| && Addrs(F)[i] == n;
        assert F[i] in F;
      }
    }
    ListFrame(w, w', L, Addrs(F));
    forall c | c in F ensures HeaderOk(w', c) {
      assert HeaderOk(w, c);
    }
  }

  /** The words of the page at `start`. */
  function PageWords(start: nat): set<int> {
    set a: int | start <= a < start + PAGE_SIZE && a % 4 == 0
  }

  /** The memory with a page of unknown contents mapped behind the heap. */
  lemma ExtendKeeps(w: Words, page: Words, L: int, F: seq<Chunk>, end: nat)
    requires HeapMem(w, L, F) && WordsMapped(w, end) && page.Keys == PageWords(end) && HEAP_START <= end
    ensures HeapMem(w + page, L, F) && WordsMapped(w + page, end + PAGE_SIZE)
    ensures forall a :: a in w ==> (w + page)[a] == w[a]
  {
    forall a | a in w ensures a !in page {
    }
    ListFrame(w, w + page, L, Addrs(F));
    forall c | c in F ensures HeaderOk(w + page, c) {
      assert HeaderOk(w, c);
    }
  }
}
