/** The part of mm_init that fills the frame bitmap from the boot loader's memory map
    (Multiboot Specification 0.6.96, section 3.3). */
module MemoryMap {
  import opened Bits
  import opened Frames

  /** 1 MiB, where the kernel image starts, and its page number. */
  const KERNEL_START := 0x10_0000
  const KERNEL_PAGE := 256

  /** One mmap_entry_t: 64-bit base and length, each in two 32-bit halves. */
  datatype Entry = Entry(baseLow: nat, baseHigh: nat, lengthLow: nat, lengthHigh: nat, kind: nat)

  predicate EntryOk(e: Entry) {
    e.baseLow < U32 && e.baseHigh < U32 && e.lengthLow < U32 && e.lengthHigh < U32
  }

  /** The bound of the page loop, in the 32-bit arithmetic of the code. */
  function Bound(e: Entry): nat {
    (e.baseLow + e.lengthLow) % U32
  }

  /** The pages one entry makes free. */
  predicate Marks(e: Entry, p: nat) {
    e.kind == 1 && p < PAGES && e.baseLow / PAGE <= p && p * PAGE + e.baseLow % PAGE < Bound(e)
  }

  ghost function MarkedBy(e: Entry): set<nat> {
    set p | 0 <= p < PAGES && Marks(e, p)
  }

  ghost function Marked(mmap: seq<Entry>): set<nat> {
    if mmap == [] then {} else Marked(mmap[..|mmap| - 1]) + MarkedBy(mmap[|mmap| - 1])
  }

  predicate InKernel(kernelEnd: nat, p: nat) {
    KERNEL_PAGE <= p && p * PAGE < kernelEnd
  }

  /** Page 0 and the pages of the kernel image. */
  ghost function Locked(kernelEnd: nat): set<nat> {
    {0} + set p | 0 <= p < PAGES && InKernel(kernelEnd, p)
  }

  predicate Within(lo: nat, hi: nat, p: nat) {
    lo <= p < hi
  }

  ghost function Range(lo: nat, hi: nat): set<nat> {
    set p | 0 <= p < PAGES && Within(lo, hi, p)
  }

  lemma RangeGrows(lo: nat, hi: nat)
    requires lo <= hi < PAGES
    ensures Range(lo, hi + 1) == Range(lo, hi) + {hi} && hi !in Range(lo, hi)
  {
    forall p: nat ensures p in Range(lo, hi + 1) <==> p in Range(lo, hi) + {hi} {
      assert Within(lo, hi + 1, p) <==> Within(lo, hi, p) || p == hi;
    }
  }

  // ---- Is what is marked really RAM? ----------------------------------------------------

  /** Page p lies wholly inside the 64-bit region of a usable entry. */
  predicate InsideRam(e: Entry, p: nat) {
    var base := e.baseHigh * U32 + e.baseLow;
    e.kind == 1 && base <= p * PAGE && (p + 1) * PAGE <= base + e.lengthHigh * U32 + e.lengthLow
  }

  /** The loop looks at the low halves only and counts every page it touches. An entry marks nothing
      but its own RAM exactly when it is not usable RAM, marks nothing at all, or starts below 4 GiB on a
      page boundary and does not stop inside a page it marks. */
  lemma MarksOnlyItsRamIff(e: Entry)
    requires EntryOk(e)
    ensures var end := (e.baseLow + e.lengthLow) % U32;
            (forall p :: Marks(e, p) ==> InsideRam(e, p)) <==>
            || e.kind != 1 || end <= e.baseLow || e.baseLow >= LIMIT
            || (e.baseHigh == 0 && e.baseLow % PAGE == 0 && (end % PAGE == 0 || end >= LIMIT || e.lengthHigh > 0))
  {
    var first, bound := e.baseLow / PAGE, Bound(e);
    if e.kind == 1 && e.baseLow < bound && e.baseLow < LIMIT {
      assert Marks(e, first);
      if e.baseHigh == 0 && e.baseLow % PAGE == 0 && bound % PAGE != 0 && bound < LIMIT {
        assert Marks(e, bound / PAGE);
      }
    }
  }

  /** The page lies below the limit of the bitmap. */
  predicate Managed(p: nat) {
    p < PAGES
  }

  /** The region ends within the first 4 GiB, so the loop's bound is its true end. */
  predicate EndsBelow4GiB(e: Entry) {
    e.lengthHigh == 0 && e.baseLow + e.lengthLow < U32
  }

  /** No page of an entry's own RAM below 15 MiB is left out, exactly when there is none (the region
      starts too high), when the region ends below 4 GiB, or when the low half of its end, which is then
      the bound, still lies behind the last page. */
  lemma MarksAllItsRamIff(e: Entry)
    requires EntryOk(e)
    ensures var last, end := (PAGES - 1) * PAGE, (e.baseLow + e.lengthLow) % U32;
            (forall p :: Managed(p) && InsideRam(e, p) ==> Marks(e, p)) <==>
            e.kind != 1 || e.baseHigh > 0 || e.baseLow > last || EndsBelow4GiB(e) || last + e.baseLow % PAGE < end
  {
    var last := PAGES - 1;
    if e.kind == 1 && e.baseHigh == 0 && e.baseLow <= last * PAGE && !EndsBelow4GiB(e) {
      assert Managed(last) && InsideRam(e, last);
    }
  }

  /** With 4 GiB of RAM from 1 MiB on, the bound wraps to 1 MiB, and nothing at all is marked. */
  lemma FourGiBMarksNothing()
    ensures var e := Entry(0x10_0000, 0, 0, 1, 1);
            EntryOk(e) && InsideRam(e, 0x100) && forall p :: !Marks(e, p)
  {
  }

  /** What is locked is page 0 and each page that holds a byte of the kernel image. */
  lemma LockedIsKernel(kernelEnd: nat, p: nat)
    requires Managed(p)
    ensures p in Locked(kernelEnd) <==>
            p == 0 || exists a: nat :: a / PAGE == p && KERNEL_START <= a < kernelEnd
  {
    if InKernel(kernelEnd, p) {
      assert (p * PAGE) / PAGE == p && KERNEL_START <= p * PAGE;
    }
  }

  /** The usual first entry of a PC, 639 KiB of low memory, ends inside a page; that page, the start of
      the BIOS data beyond it included, is marked free. */
  lemma LowMemoryMarksTooMuch()
    ensures var e := Entry(0, 0, 0x9_FC00, 0, 1);
            EntryOk(e) && Marks(e, 0x9F) && !InsideRam(e, 0x9F)
  {
  }

  // ---- Does the counter agree? ----------------------------------------------------------

  /** Unsigned 32-bit value of an integer between -2^32 and 2^32. */
  function Wrapped(n: int): int {
    if n < 0 then n + U32 else n
  }

  /** Locking pages that were not free lowers the counter without clearing a bit. */
  lemma CounterAgreesIff(marked: set<nat>, locked: set<nat>)
    requires |marked| <= PAGES && |locked| <= PAGES
    ensures Wrapped(|marked| - |locked|) == |marked - locked| <==> locked <= marked
  {
    assert |marked - locked| + |marked * locked| == |marked|;
    assert |locked - marked| + |marked * locked| == |locked| by {
      assert locked == (locked - marked) + (marked * locked);
    }
    if locked <= marked {
      assert locked - marked == {};
    } else {
      var p :| p in locked && p !in marked;
      assert p in locked - marked;
    }
  }

  /** A map that reports one page of RAM, at 1 MiB, and a kernel of two pages: nothing is free, but the
      counter says 2^32 - 2. */
  lemma UnreportedPagesSpoilTheCounter()
    ensures var mmap, end := [Entry(0x10_0000, 0, 0x1000, 0, 1)], 0x10_2000;
            && Marked(mmap) == {0x100} && Locked(end) == {0, 0x100, 0x101} && Marked(mmap) - Locked(end) == {}
            && Wrapped(|Marked(mmap)| - |Locked(end)|) == 0xFFFF_FFFE
  {
    var e, end := Entry(0x10_0000, 0, 0x1000, 0, 1), 0x10_2000;
    assert MarkedBy(e) == {0x100};
    assert Marked([e]) == Marked([e][..0]) + MarkedBy(e) == {0x100};
    assert Locked(end) == {0, 0x100, 0x101};
  }

  lemma MarkedIsSmall(mmap: seq<Entry>)
    ensures forall p :: p in Marked(mmap) ==> p < PAGES
    ensures |Marked(mmap)| <= PAGES
  {
    if mmap != [] {
      MarkedIsSmall(mmap[..|mmap| - 1]);
    }
    BelowIsSmall(Marked(mmap), PAGES);
  }

  lemma NothingSet(bits: seq<bv32>)
    requires forall i :: 0 <= i < |bits| ==> bits[i] == 0
    ensures FreePages(bits) == {}
  {
    forall p: nat ensures p !in FreePages(bits) {
      FreePagesIs(bits, p);
      ZeroWord(p % 32);
    }
  }

  /** Where the page loop of an entry stops, it has gone through exactly the pages it marks. */
  lemma LoopMarks(e: Entry, j: nat, page: nat)
    requires e.baseLow <= j == page * PAGE + e.baseLow % PAGE
    requires j >= Bound(e) || j >= LIMIT
    requires e.baseLow < j ==> j - PAGE < Bound(e)
    ensures e.kind == 1 ==> Range(e.baseLow / PAGE, page) == MarkedBy(e)
  {
    if e.kind == 1 {
      forall p | 0 <= p < PAGES ensures Within(e.baseLow / PAGE, page, p) <==> Marks(e, p) {
      }
    }
  }

  lemma PageOf(j: nat, page: nat, offset: nat)
    requires j == page * PAGE + offset && offset < PAGE
    ensures j / PAGE == page
    ensures j < LIMIT ==> page < PAGES
  {
  }

  lemma MarkOneMore(free: set<nat>, first: nat, page: nat)
    requires first <= page < PAGES
    ensures free + Range(first, page) + {page} == free + Range(first, page + 1)
  {
    RangeGrows(first, page);
  }

  lemma EmptyRange(lo: nat)
    ensures Range(lo, lo) == {}
  {
  }

  method MarkPage(frames: FrameAllocator, j: nat, ghost first: nat, ghost page: nat, ghost offset: nat,
                  ghost free: set<nat>)
    requires frames.Valid() && first <= page && j == page * PAGE + offset && offset < PAGE && j < LIMIT
    requires frames.free == free + Range(first, page)
    modifies frames, frames.lowRamBitF
    ensures frames.Valid() && frames.free == free + Range(first, page + 1)
  {
    PageOf(j, page, offset);
    MarkOneMore(free, first, page);
    frames.PaFree(j);
  }

  /** The page loop of one entry. */
  method MarkEntry(frames: FrameAllocator, e: Entry)
    requires frames.Valid() && EntryOk(e)
    modifies frames, frames.lowRamBitF
    ensures frames.Valid() && frames.free == old(frames.free) + MarkedBy(e)
  {
    if e.kind == 1 {
      var j := e.baseLow;
      ghost var free, first, offset := frames.free, e.baseLow / PAGE, e.baseLow % PAGE;
      ghost var page := first;
      EmptyRange(first);
      while j < (e.baseLow + e.lengthLow) % U32
        invariant frames.Valid()
        invariant first <= page && j == page * PAGE + offset
        invariant e.baseLow < j ==> j - PAGE < Bound(e)
        invariant frames.free == free + Range(first, page)
        decreases U32 - j
      {
        if j >= LIMIT {
          break;
        }
        MarkPage(frames, j, first, page, offset, free);
        page := page + 1;
        j := j + PAGE;
      }
      LoopMarks(e, j, page);
    } else {
      assert MarkedBy(e) == {};
    }
  }

  /** The bitmap part of mm_init. It leaves exactly the reported, unlocked pages free, and the counter
      agrees with the bitmap exactly when every locked page had been reported. */
  method InitFrames(frames: FrameAllocator, mmap: seq<Entry>, kernelEnd: nat)
    requires frames.WellFormed() && kernelEnd <= LIMIT
    requires forall e :: e in mmap ==> EntryOk(e)
    modifies frames, frames.lowRamBitF
    ensures frames.WellFormed() && frames.free == Marked(mmap) - Locked(kernelEnd)
    ensures frames.Valid() <==> Locked(kernelEnd) <= Marked(mmap)
  {
    ClearBitmap(frames);
    MarkAll(frames, mmap);
    frames.SetPageBit(0);
    NoneLockedYet(Marked(mmap));
    LockKernel(frames, kernelEnd, Marked(mmap));
    MarkedIsSmall(mmap);
    BelowIsSmall(Locked(kernelEnd), PAGES);
    CounterAgreesIff(Marked(mmap), Locked(kernelEnd));
  }

  method MarkAll(frames: FrameAllocator, mmap: seq<Entry>)
    requires frames.Valid() && frames.free == {} && forall e :: e in mmap ==> EntryOk(e)
    modifies frames, frames.lowRamBitF
    ensures frames.Valid() && frames.free == Marked(mmap)
  {
    for i := 0 to |mmap|
      invariant frames.Valid() && frames.free == Marked(mmap[..i])
    {
      MarkEntry(frames, mmap[i]);
      assert mmap[..i + 1][..i] == mmap[..i];
    }
    assert mmap[..|mmap|] == mmap;
  }

  method ClearBitmap(frames: FrameAllocator)
    requires frames.WellFormed()
    modifies frames, frames.lowRamBitF
    ensures frames.Valid() && frames.free == {}
  {
    for i := 0 to WORDS
      invariant forall k :: 0 <= k < i ==> frames.lowRamBitF[k] == 0
    {
      frames.lowRamBitF[i] := 0;
    }
    frames.lowRamFreeCount := 0;
    frames.free := {};
    NothingSet(frames.lowRamBitF[..]);
  }

  lemma LoopLocks(kernelEnd: nat, page: nat)
    requires KERNEL_PAGE <= page && kernelEnd <= page * PAGE && kernelEnd <= LIMIT
    requires page > KERNEL_PAGE ==> (page - 1) * PAGE < kernelEnd
    ensures Locked(kernelEnd) == {0} + Range(KERNEL_PAGE, page)
  {
    forall p | 0 <= p < PAGES ensures Within(KERNEL_PAGE, page, p) <==> InKernel(kernelEnd, p) {
    }
  }

  ghost function LockedBelow(page: nat): set<nat> {
    {0} + Range(KERNEL_PAGE, page)
  }

  /** What is left free once page 0 and the kernel's pages below `page` are locked. */
  ghost function Unlocked(marked: set<nat>, page: nat): set<nat> {
    marked - LockedBelow(page)
  }

  lemma {:induction false} LockedCount(page: nat)
    requires KERNEL_PAGE <= page <= PAGES
    ensures |LockedBelow(page)| == 1 + page - KERNEL_PAGE
  {
    if page == KERNEL_PAGE {
      EmptyRange(KERNEL_PAGE);
      assert LockedBelow(page) == {0};
    } else {
      LockedCount(page - 1);
      RangeGrows(KERNEL_PAGE, page - 1);
      assert page - 1 !in LockedBelow(page - 1);
      assert LockedBelow(page) == LockedBelow(page - 1) + {page - 1};
    }
  }

  lemma LockStep(marked: set<nat>, page: nat)
    requires KERNEL_PAGE <= page < PAGES
    ensures Unlocked(marked, page) - {page} == Unlocked(marked, page + 1)
  {
    RangeGrows(KERNEL_PAGE, page);
    assert LockedBelow(page + 1) == LockedBelow(page) + {page};
  }

  /** One more page of the kernel. */
  method LockPage(frames: FrameAllocator, i: nat, ghost page: nat, ghost marked: set<nat>)
    requires frames.WellFormed() && KERNEL_PAGE <= page < PAGES && i == page * PAGE
    requires frames.free == Unlocked(marked, page)
    modifies frames, frames.lowRamBitF
    ensures frames.WellFormed() && frames.free == Unlocked(marked, page + 1)
    ensures frames.lowRamFreeCount == Down(old(frames.lowRamFreeCount))
  {
    PageOf(i, page, 0);
    LockStep(marked, page);
    frames.SetPageBit(i);
  }

  /** mm.c:228-229. */
  method LockKernel(frames: FrameAllocator, kernelEnd: nat, ghost marked: set<nat>)
    requires frames.WellFormed() && kernelEnd <= LIMIT
    requires frames.free == Unlocked(marked, KERNEL_PAGE)
    requires frames.lowRamFreeCount == Wrapped(|marked| - 1)
    modifies frames, frames.lowRamBitF
    ensures frames.WellFormed() && frames.free == marked - Locked(kernelEnd)
    ensures frames.lowRamFreeCount == Wrapped(|marked| - |Locked(kernelEnd)|)
  {
    ghost var page, n := KERNEL_PAGE, |marked| - 1;
    var i := KERNEL_START;
    while i < kernelEnd
      invariant KERNEL_PAGE <= page && i == page * PAGE
      invariant page > KERNEL_PAGE ==> (page - 1) * PAGE < kernelEnd
      invariant frames.WellFormed()
      invariant frames.free == Unlocked(marked, page)
      invariant n == |marked| - 1 - (page - KERNEL_PAGE) && frames.lowRamFreeCount == Wrapped(n)
      decreases kernelEnd - i
    {
      LockPage(frames, i, page, marked);
      page, n := page + 1, n - 1;
      i := i + PAGE;
    }
    AllLocked(kernelEnd, page, marked);
  }

  lemma AllLocked(kernelEnd: nat, page: nat, marked: set<nat>)
    requires KERNEL_PAGE <= page && kernelEnd <= page * PAGE && kernelEnd <= LIMIT
    requires page > KERNEL_PAGE ==> (page - 1) * PAGE < kernelEnd
    ensures Unlocked(marked, page) == marked - Locked(kernelEnd)
    ensures |Locked(kernelEnd)| == 1 + page - KERNEL_PAGE
  {
    LoopLocks(kernelEnd, page);
    LockedCount(page);
  }

  lemma NoneLockedYet(marked: set<nat>)
    ensures Unlocked(marked, KERNEL_PAGE) == marked - {0}
  {
    EmptyRange(KERNEL_PAGE);
    assert LockedBelow(KERNEL_PAGE) == {0};
  }
}
