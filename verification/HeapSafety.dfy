/** Soundness of the kernel heap: what every step of kmalloc.c keeps, and exactly when it does. */
module HeapSafety {
  import opened HeapSpec

  /** Physical RAM below 15 MiB bounds the heap (mm.c:19, mm.c:211). */
  const HEAP_LIMIT := HEAP_START + 3840 * PAGE_SIZE

  predicate ChunkOk(c: Chunk, end: nat) {
    c.addr % 16 == 0 && c.size % 16 == 0 && 16 <= c.size && HEAP_START <= c.addr && c.End() <= end
  }

  predicate Before(c: Chunk, d: Chunk) {
    c.End() <= d.addr
  }

  predicate Disjoint(c: Chunk, d: Chunk) {
    Before(c, d) || Before(d, c)
  }

  ghost predicate Ascending(F: seq<Chunk>) {
    forall i, j :: 0 <= i < j < |F| ==> Before(F[i], F[j])
  }

  /** The part of soundness that the code as written never loses: the free list by itself. */
  ghost predicate FreeOk(h: Heap) {
    && h.end % PAGE_SIZE == 0 && HEAP_START <= h.end <= HEAP_LIMIT
    && (forall c :: c in h.free ==> ChunkOk(c, h.end))
    && Ascending(h.free)
  }

  predicate Holds(c: Chunk, x: nat) {
    c.addr <= x < c.End()
  }

  ghost predicate Covered(all: set<Chunk>, x: nat) {
    exists c :: c in all && Holds(c, x)
  }

  /** Chunks tile [HEAP_START, end): well-formed, without overlap and without a gap. */
  ghost predicate Tiling(all: set<Chunk>, end: nat) {
    && (forall c :: c in all ==> ChunkOk(c, end))
    && (forall c, d :: c in all && d in all && c != d ==> Disjoint(c, d))
    && (forall x :: HEAP_START <= x < end ==> Covered(all, x))
  }

  ghost function Elems(F: seq<Chunk>): set<Chunk> {
    set c | c in F
  }

  /** The heap invariant: free list and live blocks are two disjoint parts of one tiling. */
  ghost predicate Inv(h: Heap, live: set<Chunk>) {
    FreeOk(h) && Elems(h.free) !! live && Tiling(Elems(h.free) + live, h.end)
  }

  /** The code's unchecked assumption about the last chunk of the free list. */
  predicate TailAtEnd(h: Heap) {
    h.free != [] && h.free[|h.free| - 1].End() == h.end
  }

  // ---- Requests -------------------------------------------------------------------------

  lemma RoundedOk(n: nat)
    requires 1 <= n <= MAX_REQUEST
    ensures var a := Rounded(n);
            a % 16 == 0 && n <= a < n + 16 && 16 <= a <= MAX_REQUEST && Rounded(a) == a && a * 2 % WORD == a * 2
  {
  }

  lemma RoundedBeyond(n: nat)
    requires MAX_REQUEST < n < WORD
    ensures var a := Rounded(n);
            a % 16 == 0 && (if n <= WORD - 16 then n <= a && a * 2 % WORD == 2 * a - WORD else a == 0)
  {
  }

  /** A request whose doubled size wraps around to one that some chunk has. */
  predicate WrapsIntoReach(n: nat) {
    n > MAX_REQUEST && Rounded(n) * 2 % WORD <= HEAP_LIMIT - HEAP_START - HEADER
  }

  /** The chunk that passes for a fit although it is smaller than the request. */
  lemma UnderServed(n: nat) returns (c: Chunk)
    requires n < WORD && WrapsIntoReach(n)
    ensures ChunkOk(c, HEAP_LIMIT) && Fits(c, Rounded(n)) && Block(c, Rounded(n)).size < n
  {
    var wrapped := Rounded(n) * 2 % WORD;
    WrappedAligned(n);
    c := Chunk(HEAP_START, if wrapped == 0 then 16 else wrapped);
    BlockOfSmall(c, n);
  }

  lemma WrappedAligned(n: nat)
    requires MAX_REQUEST < n < WORD
    ensures Rounded(n) * 2 % WORD % 16 == 0
  {
    var a := Rounded(n);
    RoundedBeyond(n);
    if n <= WORD - 16 {
      assert 2 * a - WORD == 16 * (a / 16 * 2 - WORD / 16);
    }
  }

  lemma BlockOfSmall(c: Chunk, n: nat)
    requires MAX_REQUEST < n < WORD && 16 <= c.size <= HEAP_LIMIT - HEAP_START
    ensures Block(c, Rounded(n)).size < n
  {
    RoundedBeyond(n);
  }

  lemma WellServed(n: nat, c: Chunk)
    requires 1 <= n <= MAX_REQUEST && 16 <= c.size && Fits(c, Rounded(n))
    ensures Block(c, Rounded(n)).size >= n
  {
    RoundedOk(n);
  }

  /** No chunk of this heap is served to a request larger than itself, exactly for requests up to
      MAX_REQUEST and those that wrap around to more than any chunk has. */
  lemma ServedIffInRange(n: nat)
    requires 1 <= n < WORD
    ensures (forall c: Chunk :: ChunkOk(c, HEAP_LIMIT) && Fits(c, Rounded(n)) ==> Block(c, Rounded(n)).size >= n)
            <==> !WrapsIntoReach(n)
  {
    if WrapsIntoReach(n) {
      var c := UnderServed(n);
    } else if n <= MAX_REQUEST {
      forall c: Chunk | ChunkOk(c, HEAP_LIMIT) && Fits(c, Rounded(n)) ensures Block(c, Rounded(n)).size >= n {
        WellServed(n, c);
      }
    }
  }

  // ---- Tilings --------------------------------------------------------------------------

  lemma OverlapPoint(c: Chunk, d: Chunk) returns (x: nat)
    requires !Disjoint(c, d)
    ensures Holds(c, x) && Holds(d, x)
  {
    x := if c.addr < d.addr then d.addr else c.addr;
  }

  lemma NoSharedByte(c: Chunk, d: Chunk, x: nat)
    requires Holds(c, x) && Holds(d, x)
    ensures !Disjoint(c, d)
  {
  }

  /** Replacing some chunks by others that hold exactly the same bytes keeps a tiling. */
  lemma Retile(all: set<Chunk>, del: set<Chunk>, ins: set<Chunk>, end: nat)
    requires Tiling(all, end) && del <= all
    requires forall c :: c in ins ==> ChunkOk(c, end)
    requires forall c, d :: c in ins && d in ins && c != d ==> Disjoint(c, d)
    requires forall x :: Covered(del, x) <==> Covered(ins, x)
    ensures Tiling(all - del + ins, end) && (all - del) !! ins
  {
    var all' := all - del + ins;
    forall c, d | c in ins && d in all - del ensures Disjoint(c, d) && c != d {
      if !Disjoint(c, d) {
        var x := OverlapPoint(c, d);
        assert Covered(ins, x);
        var o :| o in del && Holds(o, x);
        NoSharedByte(o, d, x);
      }
      assert c != d by {
        assert Holds(c, c.addr);
      }
    }
    forall x | HEAP_START <= x < end ensures Covered(all', x) {
      assert Covered(all, x);
      var c :| c in all && Holds(c, x);
      if c in del {
        assert Covered(del, x);
        var d :| d in ins && Holds(d, x);
        assert d in all';
      } else {
        assert c in all';
      }
    }
  }

  // ---- Whole pages keep sizes and ends aligned ------------------------------------------

  lemma MorePages(size: nat, end: nat, k: nat)
    requires size % 16 == 0 && end % PAGE_SIZE == 0
    ensures (size + k * PAGE_SIZE) % 16 == 0 && (end + k * PAGE_SIZE) % PAGE_SIZE == 0
  {
    Multiple(size, 16, k * 256);
    Multiple(end, PAGE_SIZE, k);
  }

  lemma Multiple(x: int, n: nat, k: int)
    requires n == 16 || n == PAGE_SIZE
    requires x % n == 0
    ensures (x + n * k) % n == 0
  {
    assert x + n * k == n * (x / n + k);
  }

  lemma FewerPages(size: nat, end: nat, k: nat)
    requires size % 16 == 0 && size > k * PAGE_SIZE && end % PAGE_SIZE == 0
    ensures (size - k * PAGE_SIZE) % 16 == 0 && size - k * PAGE_SIZE >= 16 && (end - k * PAGE_SIZE) % PAGE_SIZE == 0
  {
    var less: int := 0 - k;
    Multiple(size, 16, less * 256);
    Multiple(end, PAGE_SIZE, less);
  }

  lemma ExtendTiling(all: set<Chunk>, c: Chunk, end: nat)
    requires Tiling(all, end) && c in all && c.End() == end
    ensures Tiling(all - {c} + {Chunk(c.addr, c.size + PAGE_SIZE)}, end + PAGE_SIZE)
  {
    var d := Chunk(c.addr, c.size + PAGE_SIZE);
    var all' := all - {c} + {d};
    assert ChunkOk(c, end);
    MorePages(c.size, 0, 1);
    forall x | HEAP_START <= x < end + PAGE_SIZE ensures Covered(all', x) {
      if c.addr <= x {
        assert d in all' && Holds(d, x);
      } else {
        assert Covered(all, x);
        var b :| b in all && Holds(b, x);
        assert b in all';
      }
    }
  }

  lemma AppendTiling(all: set<Chunk>, end: nat)
    requires Tiling(all, end) && end % PAGE_SIZE == 0 && HEAP_START <= end
    ensures var d := Chunk(end, PAGE_SIZE - HEADER);
            d !in all && Tiling(all + {d}, end + PAGE_SIZE)
  {
    var d := Chunk(end, PAGE_SIZE - HEADER);
    assert ChunkOk(d, end + PAGE_SIZE);
    forall c | c in all ensures ChunkOk(c, end + PAGE_SIZE) && Before(c, d) && c != d {
      assert ChunkOk(c, end);
    }
    AppendCovers(all, d, end);
  }

  lemma AppendCovers(all: set<Chunk>, d: Chunk, end: nat)
    requires (forall x :: HEAP_START <= x < end ==> Covered(all, x)) && d == Chunk(end, PAGE_SIZE - HEADER)
    ensures forall x :: HEAP_START <= x < end + PAGE_SIZE ==> Covered(all + {d}, x)
  {
    forall x | HEAP_START <= x < end + PAGE_SIZE ensures Covered(all + {d}, x) {
      if end <= x {
        assert d in all + {d} && Holds(d, x);
      } else {
        assert Covered(all, x);
        var b :| b in all && Holds(b, x);
        assert b in all + {d};
      }
    }
  }

  lemma ShrinkTiling(all: set<Chunk>, c: Chunk, end: nat)
    requires Tiling(all, end) && c in all && c.End() == end && c.size > PAGE_SIZE && end % PAGE_SIZE == 0
    ensures Tiling(all - {c} + {Chunk(c.addr, c.size - PAGE_SIZE)}, end - PAGE_SIZE)
  {
    var d := Chunk(c.addr, c.size - PAGE_SIZE);
    var all' := all - {c} + {d};
    assert ChunkOk(c, end);
    FewerPages(c.size, end, 1);
    forall b | b in all && b != c ensures ChunkOk(b, end - PAGE_SIZE) && Before(b, c) {
      assert ChunkOk(b, end) && Disjoint(b, c);
    }
    forall x | HEAP_START <= x < end - PAGE_SIZE ensures Covered(all', x) {
      if c.addr <= x {
        assert d in all' && Holds(d, x);
      } else {
        assert Covered(all, x);
        var b :| b in all && Holds(b, x);
        assert b in all';
      }
    }
  }

  // ---- The free list as a sequence ------------------------------------------------------

  /** Exchanging the stretch F[i..j] of the free list for chunks lying in the same place. */
  lemma Splice(h: Heap, i: nat, j: nat, G: seq<Chunk>)
    requires FreeOk(h) && i <= j <= |h.free|
    requires Ascending(G) && forall g :: g in G ==> ChunkOk(g, h.end)
    requires forall k, g :: 0 <= k < i && g in G ==> Before(h.free[k], g)
    requires forall k, g :: j <= k < |h.free| && g in G ==> Before(g, h.free[k])
    ensures FreeOk(Heap(h.free[..i] + G + h.free[j..], h.end))
    ensures Elems(h.free[..i] + G + h.free[j..]) == Elems(h.free) - Elems(h.free[i..j]) + Elems(G)
    ensures Elems(h.free[i..j]) <= Elems(h.free)
  {
    var F := h.free;
    var F' := F[..i] + G + F[j..];
    SpliceElems(h, i, j, G);
    forall k, l | 0 <= k < l < |F'| ensures Before(F'[k], F'[l]) {
      assert i <= k < i + |G| ==> F'[k] in G;
      assert i <= l < i + |G| ==> F'[l] in G;
    }
  }

  lemma SpliceElems(h: Heap, i: nat, j: nat, G: seq<Chunk>)
    requires FreeOk(h) && i <= j <= |h.free| && forall g :: g in G ==> ChunkOk(g, h.end)
    ensures forall c :: c in h.free[..i] + G + h.free[j..] ==> ChunkOk(c, h.end)
    ensures Elems(h.free[..i] + G + h.free[j..]) == Elems(h.free) - Elems(h.free[i..j]) + Elems(G)
    ensures Elems(h.free[i..j]) <= Elems(h.free)
  {
    var F' := h.free[..i] + G + h.free[j..];
    forall c | c in F' ensures ChunkOk(c, h.end) && c in Elems(h.free) - Elems(h.free[i..j]) + Elems(G) {
      if c !in G {
        KeptBySplice(h, i, j, c);
      }
    }
    forall c | c in Elems(h.free) - Elems(h.free[i..j]) + Elems(G) ensures c in F' {
      SpliceCovers(h.free, i, j, G, c);
    }
  }

  lemma KeptBySplice(h: Heap, i: nat, j: nat, c: Chunk)
    requires FreeOk(h) && i <= j <= |h.free| && (c in h.free[..i] || c in h.free[j..])
    ensures ChunkOk(c, h.end) && c in h.free && c !in h.free[i..j]
  {
    var F := h.free;
    var k :| 0 <= k < |F| && (k < i || j <= k) && F[k] == c;
    forall l | i <= l < j ensures F[l] != c {
      assert if k < l then Before(F[k], F[l]) else Before(F[l], F[k]);
      assert F[l] in F && ChunkOk(F[l], h.end);
    }
  }

  lemma SpliceCovers(F: seq<Chunk>, i: nat, j: nat, G: seq<Chunk>, c: Chunk)
    requires i <= j <= |F| && (c in G || (c in F && c !in F[i..j]))
    ensures c in F[..i] + G + F[j..]
  {
    if c !in G {
      forall l | i <= l < j ensures F[l] in F[i..j] {
        assert F[i..j][l - i] == F[l];
      }
      var k :| 0 <= k < |F| && F[k] == c;
      assert k < i ==> F[..i][k] == c;
      assert k >= j ==> F[j..][k - j] == c;
    }
  }

  /** What is left of a chunk that serves a request: nothing, or one free chunk. */
  function Remainder(c: Chunk, a: nat): seq<Chunk> {
    if NoSplit(c, a) then [] else [Rest(c, a)]
  }

  /** The rounded requests _kmalloc works with. */
  predicate Request(a: nat) {
    a % 16 == 0 && 16 <= a <= MAX_REQUEST
  }

  lemma Sub32Exact(a: nat, b: nat)
    requires b <= a < WORD
    ensures Sub32(a, b) == a - b
  {
  }

  lemma RestIs(c: Chunk, a: nat, end: nat)
    requires ChunkOk(c, end) && end <= HEAP_LIMIT && Request(a) && 2 * a <= c.size && a + HEADER <= c.size
    ensures Rest(c, a) == Chunk(c.addr + HEADER + a, c.size - a - HEADER)
  {
    Sub32Exact(c.size, a);
    Sub32Exact(c.size - a, HEADER);
    InWord(a);
    InWord(c.addr + HEADER + a);
  }

  lemma InWord(x: nat)
    requires x < WORD
    ensures x % WORD == x
  {
  }

  lemma NoSplitIff(c: Chunk, a: nat, end: nat)
    requires ChunkOk(c, end) && end <= HEAP_LIMIT && Request(a) && Fits(c, a)
    ensures 2 * a <= c.size && (NoSplit(c, a) <==> c.size <= a + HEADER)
    ensures NoSplit(c, a) <==> a == 16 && c.size == 32
  {
    Sub32Exact(c.size, HEADER);
  }

  lemma RestFits(c: Chunk, a: nat, end: nat)
    requires ChunkOk(c, end) && Request(a) && c.size > a + HEADER
    ensures ChunkOk(Chunk(c.addr + HEADER + a, c.size - a - HEADER), end) && ChunkOk(Chunk(c.addr, a), end)
  {
  }

  /** Block and remainder share the served chunk between them. */
  lemma Carving(c: Chunk, a: nat, end: nat)
    requires ChunkOk(c, end) && end <= HEAP_LIMIT && Request(a) && Fits(c, a)
    ensures NoSplit(c, a) <==> a == 16 && c.size == 32
    ensures !NoSplit(c, a) ==> Rest(c, a) == Chunk(c.addr + HEADER + a, c.size - a - HEADER)
    ensures !NoSplit(c, a) ==> ChunkOk(Rest(c, a), end) && Rest(c, a).End() == c.End()
    ensures ChunkOk(Block(c, a), end) && a <= Block(c, a).size <= a + 16
  {
    NoSplitIff(c, a, end);
    if !NoSplit(c, a) {
      RestIs(c, a, end);
      RestFits(c, a, end);
      assert Block(c, a) == Chunk(c.addr, a);
    } else {
      assert Block(c, a) == c;
    }
  }

  lemma TakeIs(h: Heap, i: nat, a: nat)
    requires FreeOk(h) && i < |h.free| && Request(a) && Fits(h.free[i], a)
    ensures Take(h.free, i, a) == h.free[..i] + Remainder(h.free[i], a) + h.free[i + 1..]
    ensures !NoSplit(h.free[i], a) ==> Position(h.free, Rest(h.free[i], a).addr) == i + 1
  {
    var F, c := h.free, h.free[i];
    assert c in F;
    Carving(c, a, h.end);
    if !NoSplit(c, a) {
      var r := Rest(c, a);
      var k := Position(F, r.addr);
      assert i + 1 < |F| ==> Before(c, F[i + 1]);
      assert k == i + 1;
      var G := Insert(F, r);
      assert G == F[..i + 1] + [r] + F[i + 1..];
      assert G[..i] + G[i + 1..] == F[..i] + [r] + F[i + 1..];
    }
  }

  /** Exchanging one free chunk for chunks inside it. */
  lemma SpliceOne(h: Heap, i: nat, G: seq<Chunk>)
    requires FreeOk(h) && i < |h.free| && Ascending(G)
    requires forall g :: g in G ==> ChunkOk(g, h.end) && h.free[i].addr <= g.addr && g.End() <= h.free[i].End()
    ensures FreeOk(Heap(h.free[..i] + G + h.free[i + 1..], h.end))
    ensures Elems(h.free[..i] + G + h.free[i + 1..]) == Elems(h.free) - {h.free[i]} + Elems(G)
    ensures h.free[i] in Elems(h.free)
  {
    var F, c := h.free, h.free[i];
    forall k, g | 0 <= k < i && g in G ensures Before(F[k], g) {
      assert Before(F[k], c);
    }
    forall k, g | i + 1 <= k < |F| && g in G ensures Before(g, F[k]) {
      assert Before(c, F[k]);
    }
    Splice(h, i, i + 1, G);
    assert Elems(F[i..i + 1]) == {c};
  }

  /** Serving a request from a free chunk that fits keeps the free list in order. */
  lemma TakeKeepsFree(h: Heap, i: nat, a: nat)
    requires FreeOk(h) && i < |h.free| && Request(a) && Fits(h.free[i], a)
    ensures FreeOk(Heap(Take(h.free, i, a), h.end))
    ensures h.free[i] in Elems(h.free)
    ensures Elems(Take(h.free, i, a)) == Elems(h.free) - {h.free[i]} + Elems(Remainder(h.free[i], a))
  {
    var c := h.free[i];
    assert ChunkOk(c, h.end);
    Carving(c, a, h.end);
    TakeIs(h, i, a);
    SpliceOne(h, i, Remainder(c, a));
  }

  /** ... and the whole heap sound: the block leaves the free list and joins the live ones. */
  lemma TakeKeepsInv(h: Heap, live: set<Chunk>, i: nat, a: nat)
    requires Inv(h, live) && i < |h.free| && Request(a) && Fits(h.free[i], a)
    ensures Block(h.free[i], a) !in live
    ensures Inv(Heap(Take(h.free, i, a), h.end), live + {Block(h.free[i], a)})
  {
    var c, b := h.free[i], Block(h.free[i], a);
    var rest := Elems(Remainder(c, a));
    var all := Elems(h.free) + live;
    TakeKeepsFree(h, i, a);
    assert ChunkOk(c, h.end);
    Carving(c, a, h.end);
    forall x ensures Covered({c}, x) <==> Covered(rest + {b}, x) {
      SameBytes(c, a, h.end, x);
    }
    Retile(all, {c}, rest + {b}, h.end);
    NotAmongOthers(all - {c}, rest + {b}, b);
    assert Elems(Take(h.free, i, a)) + (live + {b}) == all - {c} + (rest + {b});
  }

  lemma NotAmongOthers(others: set<Chunk>, ins: set<Chunk>, b: Chunk)
    requires others !! ins && b in ins
    ensures b !in others
  {
  }

  lemma SameBytes(c: Chunk, a: nat, end: nat, x: nat)
    requires ChunkOk(c, end) && end <= HEAP_LIMIT && Request(a) && Fits(c, a)
    ensures Covered({c}, x) <==> Covered(Elems(Remainder(c, a)) + {Block(c, a)}, x)
  {
    Carving(c, a, end);
    var all, b := Elems(Remainder(c, a)) + {Block(c, a)}, Block(c, a);
    assert b in all && c in {c};
    if !NoSplit(c, a) {
      assert Rest(c, a) in Remainder(c, a) && Rest(c, a) in all;
    }
  }

  // ---- Growth (kmalloc.c:188-211) -------------------------------------------------------

  function Last(F: seq<Chunk>): Chunk
    requires F != []
  {
    F[|F| - 1]
  }

  /** F with its last chunk made `size` bytes long. */
  function Resized(F: seq<Chunk>, size: nat): seq<Chunk>
    requires F != []
  {
    F[..|F| - 1] + [Chunk(Last(F).addr, size)]
  }

  /** Moving the end of the last free chunk and the heap end together. */
  lemma ResizeKeepsFree(h: Heap, size: nat, end: nat)
    requires FreeOk(h) && h.free != [] && size % 16 == 0 && 16 <= size
    requires end % PAGE_SIZE == 0 && end <= HEAP_LIMIT && Last(h.free).addr + HEADER + size <= end
    ensures FreeOk(Heap(Resized(h.free, size), end))
    ensures Elems(Resized(h.free, size)) ==
            Elems(h.free) - {Last(h.free)} + {Chunk(Last(h.free).addr, size)}
    ensures Last(h.free) in Elems(h.free)
  {
    var F, t := h.free, Last(h.free);
    var F' := Resized(F, size);
    assert t in F && ChunkOk(t, h.end);
    forall c | c in F' ensures ChunkOk(c, end) && c in Elems(F) - {t} + {Last(F')} {
      var k :| 0 <= k < |F'| && F'[k] == c;
      assert F[k] in F && t in F;
      if k < |F| - 1 {
        assert Before(F[k], t);
      }
    }
    forall c | c in Elems(F) - {t} + {Last(F')} ensures c in F' {
      if c != Last(F') {
        var k :| 0 <= k < |F| && F[k] == c;
        assert F'[k] == c;
      }
    }
    forall k, l | 0 <= k < l < |F'| ensures Before(F'[k], F'[l]) {
      assert Before(F[k], F[l]);
    }
  }

  /** A live block that starts inside the free list's last chunk. */
  predicate Clash(h: Heap, live: set<Chunk>, d: Chunk) {
    h.free != [] && d in live && Last(h.free).addr < d.addr < Last(h.free).End()
  }

  lemma ClashBreaksTiling(h: Heap, live: set<Chunk>, d: Chunk)
    requires Clash(h, live, d)
    ensures !Inv(h, live)
  {
    var t := Last(h.free);
    assert t in Elems(h.free) + live && d in Elems(h.free) + live;
    assert !Disjoint(t, d);
  }

  lemma FirstPageSound(h: Heap, live: set<Chunk>)
    requires Inv(h, live) && h.end + PAGE_SIZE <= HEAP_LIMIT && h.free == []
    ensures Inv(Grow(h), live)
  {
    var d := Chunk(h.end, PAGE_SIZE - HEADER);
    AppendTiling(Elems(h.free) + live, h.end);
    assert Grow(h).free == [d] && Elems([d]) == {d};
    assert Elems(h.free) + live == live;
    assert {d} + live == live + {d};
  }

  /** The tail, one page larger. */
  lemma LargerTail(h: Heap)
    requires FreeOk(h) && h.end + PAGE_SIZE <= HEAP_LIMIT && h.free != []
    ensures FreeOk(Grow(h)) && Last(h.free) in Elems(h.free)
    ensures var t := Last(h.free);
            Elems(Grow(h).free) == Elems(h.free) - {t} + {Chunk(t.addr, t.size + PAGE_SIZE)}
  {
    var t := Last(h.free);
    assert t in h.free && ChunkOk(t, h.end);
    MorePages(t.size, h.end, 1);
    ResizeKeepsFree(h, t.size + PAGE_SIZE, h.end + PAGE_SIZE);
    assert Grow(h) == Heap(Resized(h.free, t.size + PAGE_SIZE), h.end + PAGE_SIZE);
  }

  lemma LargerTailSound(h: Heap, live: set<Chunk>)
    requires Inv(h, live) && h.end + PAGE_SIZE <= HEAP_LIMIT && TailAtEnd(h)
    ensures Inv(Grow(h), live)
  {
    var all, t := Elems(h.free) + live, Last(h.free);
    var t' := Chunk(t.addr, t.size + PAGE_SIZE);
    LargerTail(h);
    ExtendTiling(all, t, h.end);
    NoDoubleStart(all, t, t', h.end);
    assert Elems(Grow(h).free) + live == all - {t} + {t'};
  }

  /** Growth by one page keeps the heap sound exactly when the tail of the free list is the last
      chunk of the heap; otherwise the tail grows over the live block that follows it. */
  lemma GrowSoundIff(h: Heap, live: set<Chunk>)
    requires Inv(h, live) && h.end + PAGE_SIZE <= HEAP_LIMIT
    ensures FreeOk(Grow(h))
    ensures Inv(Grow(h), live) <==> h.free == [] || TailAtEnd(h)
    ensures h.free != [] && !TailAtEnd(h) ==> exists d :: Clash(Grow(h), live, d)
  {
    if h.free == [] {
      FirstPageSound(h, live);
    } else if TailAtEnd(h) {
      LargerTailSound(h, live);
    } else {
      LargerTail(h);
      var d := NextChunk(h, live);
      assert Clash(Grow(h), live, d);
      ClashBreaksTiling(Grow(h), live, d);
    }
  }

  /** Chunks of a tiling start at different addresses. */
  lemma NoDoubleStart(all: set<Chunk>, t: Chunk, t': Chunk, end: nat)
    requires Tiling(all, end) && t in all && t'.addr == t.addr && t' != t
    ensures t' !in all
  {
    assert !Disjoint(t, t');
  }

  /** Behind a tail that stops short of the heap end stands a live block. */
  lemma NextChunk(h: Heap, live: set<Chunk>) returns (d: Chunk)
    requires Inv(h, live) && h.free != [] && !TailAtEnd(h)
    ensures d in live && d.addr == Last(h.free).End()
  {
    var all, t := Elems(h.free) + live, Last(h.free);
    assert t in Elems(h.free) && ChunkOk(t, h.end);
    assert Covered(all, t.End());
    forall c | c in Elems(h.free) ensures !Holds(c, t.End()) {
      var k :| 0 <= k < |h.free| && h.free[k] == c;
      assert k < |h.free| - 1 ==> Before(c, t);
    }
    d :| d in all && Holds(d, t.End());
    assert Disjoint(t, d);
  }

  /** While only the tail grows, only the tail can become a fit. */
  lemma FitOnlyAtTail(F: seq<Chunk>, size: nat, a: nat)
    requires F != [] && FirstFit(F, a) == |F|
    ensures FirstFit(Resized(F, size), a) >= |F| - 1
    ensures FirstFit(Resized(F, size), a) == |F| <==> size < a * 2 % WORD
  {
    NoEarlyFit(F, Resized(F, size), a);
    assert Fits(Resized(F, size)[|F| - 1], a) <==> size >= a * 2 % WORD;
  }

  lemma NoEarlyFit(F: seq<Chunk>, F': seq<Chunk>, a: nat)
    requires F != [] && FirstFit(F, a) == |F| == |F'| && F'[..|F| - 1] == F[..|F| - 1]
    ensures FirstFit(F', a) >= |F| - 1
  {
    forall j | 0 <= j < |F| - 1 ensures !Fits(F'[j], a) {
      assert F'[..|F| - 1][j] == F[..|F| - 1][j];
    }
  }

  function CeilPages(n: int): nat {
    if n <= 0 then 0 else (n + PAGE_SIZE - 1) / PAGE_SIZE
  }

  lemma CeilStep(n: int)
    requires n > 0
    ensures CeilPages(n) == 1 + CeilPages(n - PAGE_SIZE)
  {
  }

  /** A free list none of whose chunks fits is extended by exactly the missing pages, at its tail. */
  lemma {:induction false} GrownTail(h: Heap, a: nat)
    requires Request(a) && h.free != [] && FirstFit(h.free, a) == |h.free|
    ensures var k := CeilPages(2 * a - Last(h.free).size);
            && PagesNeeded(h, a) == k > 0
            && Grown(h, a) == Heap(Resized(h.free, Last(h.free).size + k * PAGE_SIZE), h.end + k * PAGE_SIZE)
            && FirstFit(Grown(h, a).free, a) == |h.free| - 1
    decreases Shortfall(h.free, a)
  {
    var F, t := h.free, Last(h.free);
    var g := Grow(h);
    assert !Fits(t, a);
    FitsIs(t, a);
    assert g.free == Resized(F, t.size + PAGE_SIZE);
    FitOnlyAtTail(F, t.size + PAGE_SIZE, a);
    CeilStep(2 * a - t.size);
    if FirstFit(g.free, a) == |g.free| {
      GrownTail(g, a);
      ResizedTwice(F, t.size + PAGE_SIZE, Last(g.free).size + CeilPages(2 * a - Last(g.free).size) * PAGE_SIZE);
    } else {
      FitsIs(Last(g.free), a);
      assert PagesNeeded(g, a) == 0 && Grown(g, a) == g;
    }
  }

  /** In range, twice the request does not wrap around. */
  lemma FitsIs(c: Chunk, a: nat)
    requires Request(a)
    ensures Fits(c, a) <==> c.size >= 2 * a
  {
  }

  lemma ResizedTwice(F: seq<Chunk>, x: nat, y: nat)
    requires F != []
    ensures Resized(Resized(F, x), y) == Resized(F, y)
  {
  }

  /** ... and an exhausted free list restarts with a first page of 4080 usable bytes. */
  lemma GrownFromNothing(h: Heap, a: nat)
    requires Request(a) && h.free == []
    ensures var k := 1 + CeilPages(2 * a - (PAGE_SIZE - HEADER));
            && PagesNeeded(h, a) == k
            && Grown(h, a) == Heap([Chunk(h.end, k * PAGE_SIZE - HEADER)], h.end + k * PAGE_SIZE)
            && FirstFit(Grown(h, a).free, a) == 0
  {
    var g := Grow(h);
    assert g.free == [Chunk(h.end, PAGE_SIZE - HEADER)];
    FitsIs(g.free[0], a);
    if FirstFit(g.free, a) == |g.free| {
      GrownTail(g, a);
    } else {
      assert PagesNeeded(g, a) == 0 && Grown(g, a) == g;
    }
  }

  /** The condition under which growing for a request is harmless. */
  predicate GrowGuard(h: Heap, a: nat) {
    FirstFit(h.free, a) < |h.free| || h.free == [] || TailAtEnd(h)
  }

  /** Growth from a tail that is not the last chunk runs into the next live block. */
  lemma GrownClash(h: Heap, live: set<Chunk>, a: nat) returns (d: Chunk)
    requires Inv(h, live) && Request(a) && Grown(h, a).end <= HEAP_LIMIT && !GrowGuard(h, a)
    ensures FreeOk(Grown(h, a)) && Clash(Grown(h, a), live, d)
  {
    GrownTail(h, a);
    ExtendedTailFree(h, CeilPages(2 * a - Last(h.free).size));
    d := NextChunk(h, live);
  }

  lemma ExtendedTailFree(h: Heap, k: nat)
    requires FreeOk(h) && h.free != [] && k > 0 && h.end + k * PAGE_SIZE <= HEAP_LIMIT
    ensures var F := Resized(h.free, Last(h.free).size + k * PAGE_SIZE);
            && FreeOk(Heap(F, h.end + k * PAGE_SIZE)) && F != []
            && Last(F).addr == Last(h.free).addr && Last(F).End() > Last(h.free).End()
  {
    var t := Last(h.free);
    assert t in h.free && ChunkOk(t, h.end);
    MorePages(t.size, h.end, k);
    ResizeKeepsFree(h, t.size + k * PAGE_SIZE, h.end + k * PAGE_SIZE);
  }

  lemma GrowOnce(h: Heap, live: set<Chunk>, a: nat)
    requires Inv(h, live) && Request(a) && Grown(h, a).end <= HEAP_LIMIT && GrowGuard(h, a)
    requires FirstFit(h.free, a) == |h.free|
    ensures Inv(Grow(h), live) && TailAtEnd(Grow(h)) && Grown(h, a) == Grown(Grow(h), a)
  {
    if h.free == [] { GrownFromNothing(h, a); } else { GrownTail(h, a); }
    GrowSoundIff(h, live);
  }

  lemma {:induction false} GrownSound(h: Heap, live: set<Chunk>, a: nat)
    requires Inv(h, live) && Request(a) && Grown(h, a).end <= HEAP_LIMIT
    requires FirstFit(h.free, a) < |h.free| || h.free == [] || TailAtEnd(h)
    ensures Inv(Grown(h, a), live)
    ensures FirstFit(h.free, a) == |h.free| ==> TailAtEnd(Grown(h, a))
    decreases Shortfall(h.free, a)
  {
    if FirstFit(h.free, a) == |h.free| {
      GrowOnce(h, live, a);
      GrownSound(Grow(h), live, a);
    }
  }

  lemma GrownSoundIff(h: Heap, live: set<Chunk>, a: nat)
    requires Inv(h, live) && Request(a) && Grown(h, a).end <= HEAP_LIMIT
    ensures FreeOk(Grown(h, a))
    ensures Inv(Grown(h, a), live) <==> GrowGuard(h, a)
    ensures GrowGuard(h, a) && FirstFit(h.free, a) == |h.free| ==> TailAtEnd(Grown(h, a))
    ensures !GrowGuard(h, a) ==> exists d :: Clash(Grown(h, a), live, d)
  {
    if GrowGuard(h, a) {
      GrownSound(h, live, a);
    } else {
      var d := GrownClash(h, live, a);
      ClashBreaksTiling(Grown(h, a), live, d);
    }
  }

  /** Serving a request from a tail that already runs over a live block does not repair the heap. */
  lemma ClashSurvivesTake(h: Heap, live: set<Chunk>, d: Chunk, a: nat)
    requires FreeOk(h) && Clash(h, live, d) && Request(a) && Fits(Last(h.free), a)
    ensures var b := Block(Last(h.free), a);
            !Inv(Heap(Take(h.free, |h.free| - 1, a), h.end), live + {b})
  {
    var t := Last(h.free);
    var b := Block(t, a);
    var h' := Heap(Take(h.free, |h.free| - 1, a), h.end);
    assert ChunkOk(t, h.end);
    Carving(t, a, h.end);
    TakeKeepsFree(h, |h.free| - 1, a);
    var all := Elems(h'.free) + (live + {b});
    assert d in all && b in all && d != b;
    if Disjoint(b, d) {
      var r := Rest(t, a);
      assert r in Remainder(t, a) && r in all;
      assert r == d || !Disjoint(r, d);
      assert r == d ==> r in Elems(h'.free) && r in live + {b};
    }
  }

  lemma ServeSound(h: Heap, live: set<Chunk>, a: nat)
    requires Inv(h, live) && Request(a) && Grown(h, a).end <= HEAP_LIMIT && GrowGuard(h, a)
    ensures Inv(Serve(h, a), live + {ServedBlock(h, a)}) && ServedBlock(h, a) !in live
  {
    GrownSound(h, live, a);
    TakeKeepsInv(Grown(h, a), live, FirstFit(Grown(h, a).free, a), a);
  }

  lemma ServeUnsound(h: Heap, live: set<Chunk>, a: nat)
    requires Inv(h, live) && Request(a) && Grown(h, a).end <= HEAP_LIMIT && !GrowGuard(h, a)
    ensures FreeOk(Serve(h, a)) && !Inv(Serve(h, a), live + {ServedBlock(h, a)})
  {
    var d := GrownClash(h, live, a);
    GrownTail(h, a);
    ClashServed(Grown(h, a), live, d, a);
  }

  lemma ClashServed(g: Heap, live: set<Chunk>, d: Chunk, a: nat)
    requires FreeOk(g) && Clash(g, live, d) && Request(a) && FirstFit(g.free, a) == |g.free| - 1
    ensures var g' := Heap(Take(g.free, FirstFit(g.free, a), a), g.end);
            FreeOk(g') && !Inv(g', live + {Block(g.free[FirstFit(g.free, a)], a)})
  {
    TakeKeepsFree(g, |g.free| - 1, a);
    ClashSurvivesTake(g, live, d, a);
  }

  lemma ServeSoundIff(h: Heap, live: set<Chunk>, a: nat)
    requires Inv(h, live) && Request(a) && Grown(h, a).end <= HEAP_LIMIT
    ensures FreeOk(Serve(h, a))
    ensures Inv(Serve(h, a), live + {ServedBlock(h, a)}) <==> GrowGuard(h, a)
    ensures GrowGuard(h, a) ==> ServedBlock(h, a) !in live
  {
    if GrowGuard(h, a) {
      ServeSound(h, live, a);
    } else {
      ServeUnsound(h, live, a);
    }
  }

  /** _kmalloc. In range and within RAM, the free list stays in order whatever happens; the heap as
      a whole stays sound exactly when the growth it needed (if any) was harmless. */
  lemma MallocSoundIff(h: Heap, live: set<Chunk>, n: nat)
    requires Inv(h, live) && 1 <= n <= MAX_REQUEST && Grown(h, Rounded(n)).end <= HEAP_LIMIT
    ensures FreeOk(Malloc(h, n))
    ensures Inv(Malloc(h, n), live + {MallocBlock(h, n)}) <==> GrowGuard(h, Rounded(n))
    ensures GrowGuard(h, Rounded(n)) ==> MallocBlock(h, n) !in live
  {
    RoundedOk(n);
    ServeSoundIff(h, live, Rounded(n));
  }

  /** Whatever the state of the heap: the block that _kmalloc hands out is as large as was asked for
      exactly if the request is in range. */
  lemma CallServedIff(h: Heap, n: nat)
    requires 1 <= n < WORD && FreeOk(Grown(h, Rounded(n)))
    ensures MallocBlock(h, n).size >= n <==> n <= MAX_REQUEST
  {
    var g := Grown(h, Rounded(n));
    var c := g.free[FirstFit(g.free, Rounded(n))];
    assert c in g.free && ChunkOk(c, g.end);
    if n <= MAX_REQUEST {
      WellServed(n, c);
    } else {
      BlockOfSmall(c, n);
    }
  }

  /** On a fresh heap, a request for 2 GiB is answered with 4080 bytes. */
  lemma TwoGiBOnFreshHeap()
    ensures MallocBlock(Heap([], HEAP_START), 0x8000_0000) == Chunk(HEAP_START, 4080)
    ensures FreeOk(Grown(Heap([], HEAP_START), Rounded(0x8000_0000)))
  {
    var h, a := Heap([], HEAP_START), Rounded(0x8000_0000);
    assert a == 0x8000_0000 && a * 2 % WORD == 0;
    var g := Grow(h);
    assert g.free == [Chunk(HEAP_START, 4080)] && Fits(g.free[0], a) && FirstFit(g.free, a) == 0;
    assert Grown(h, a) == Grown(g, a) == g;
    Sub32Exact(4080, HEADER);
  }

  lemma BlockShape(c: Chunk, a: nat, end: nat)
    requires ChunkOk(c, end) && end <= HEAP_LIMIT && Request(a) && Fits(c, a)
    ensures var b := Block(c, a);
            && (b.addr + HEADER) % 16 == 0 && HEAP_START <= b.addr && b.End() <= end
            && (b.size == a || (b.size == a + 16 == 32)) && b.addr == c.addr && c.size >= 2 * a
  {
    Carving(c, a, end);
    NoSplitIff(c, a, end);
  }

  lemma BlockFromFit(g: Heap, a: nat)
    requires FreeOk(g) && Request(a) && FirstFit(g.free, a) < |g.free|
    ensures var b := Block(g.free[FirstFit(g.free, a)], a);
            && (b.addr + HEADER) % 16 == 0 && HEAP_START <= b.addr && b.End() <= g.end
            && (b.size == a || (b.size == a + 16 == 32))
            && (exists c :: c in g.free && c.addr == b.addr && c.size >= 2 * a)
            && (forall c :: c in g.free && c.size >= 2 * a ==> b.addr <= c.addr)
  {
    var c := g.free[FirstFit(g.free, a)];
    assert c in g.free;
    BlockShape(c, a, g.end);
    LowestFit(g, a);
  }

  /** The block handed out: aligned, as large as asked and at most 31 bytes larger, cut from the
      lowest-addressed chunk of at least twice the rounded size, and clear of every live block. */
  lemma BlockHandedOut(h: Heap, live: set<Chunk>, n: nat)
    requires Inv(h, live) && 1 <= n <= MAX_REQUEST && Grown(h, Rounded(n)).end <= HEAP_LIMIT
    requires GrowGuard(h, Rounded(n))
    ensures var b, a, g := MallocBlock(h, n), Rounded(n), Grown(h, Rounded(n));
            && (b.addr + HEADER) % 16 == 0 && n <= b.size <= n + 31
            && (b.size == a || (b.size == a + 16 == 32))
            && (exists c :: c in g.free && c.addr == b.addr && c.size >= 2 * a)
            && (forall c :: c in g.free && c.size >= 2 * a ==> b.addr <= c.addr)
            && (forall c :: c in live ==> Disjoint(b, c))
            && HEAP_START <= b.addr && b.End() <= Malloc(h, n).end
  {
    RoundedOk(n);
    var a := Rounded(n);
    GrownSound(h, live, a);
    BlockFromFit(Grown(h, a), a);
    BlockIsApart(h, live, n);
  }

  lemma BlockIsApart(h: Heap, live: set<Chunk>, n: nat)
    requires Inv(h, live) && 1 <= n <= MAX_REQUEST && Grown(h, Rounded(n)).end <= HEAP_LIMIT
    requires GrowGuard(h, Rounded(n))
    ensures forall c :: c in live ==> Disjoint(MallocBlock(h, n), c)
  {
    MallocSoundIff(h, live, n);
    var b := MallocBlock(h, n);
    assert b in Elems(Malloc(h, n).free) + (live + {b});
  }

  lemma LowestFit(h: Heap, a: nat)
    requires FreeOk(h) && Request(a) && FirstFit(h.free, a) < |h.free|
    ensures forall c :: c in h.free && c.size >= 2 * a ==> h.free[FirstFit(h.free, a)].addr <= c.addr
  {
    var i := FirstFit(h.free, a);
    forall c | c in h.free && c.size >= 2 * a ensures h.free[i].addr <= c.addr {
      var k :| 0 <= k < |h.free| && h.free[k] == c;
      assert k >= i;
      assert k > i ==> Before(h.free[i], c);
    }
  }
}
