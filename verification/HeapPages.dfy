/** The pages under the kernel heap: which frame backs which page, and what growing and trimming by a
    page do to the page tables and to what may be cached of them. */
module HeapPages {
  import opened Frames
  import opened Lists
  import opened Markers
  import opened Options
  import opened PageTables
  import opened PageRights
  import opened Paging

  /** Virtual page number of HEAP_START, 0xC0400000. */
  const FIRST_PAGE := 0xC_0400

  /** The i-th heap page is mapped to its own frame: in use, not page 0, no other heap page's, no page
      table, writable from user mode too, and with no other translation cached. */
  ghost predicate BackedBody(m: Mmu, free: set<nat>, backing: seq<nat>) {
    && TablesOk(m) && HeapSlotsOpen(m) && |backing| <= PAGES
    && (forall i :: 0 <= i < |backing| ==> PageBacked(m, free, FIRST_PAGE + i, backing[i]))
    && Distinct(backing)
  }

  /** BackedBody, out of the verifier's sight where Opened is not mentioned. */
  ghost predicate Backed(m: Mmu, free: set<nat>, backing: seq<nat>) {
    forall k {:trigger Opened(k, (m, free, backing))} ::
      Opened(k, (m, free, backing)) ==> BackedBody(m, free, backing)
  }

  ghost predicate PageBacked(m: Mmu, free: set<nat>, q: nat, f: nat)
    requires TablesOk(m) && q < VPAGES
  {
    Walk(m, q) == Some(f) && 0 < f < PAGES && f !in free && Unlinked(m, f) && CoherentAt(m, q)
    && RightsOf(m, q) == Some(ALL)
  }

  /** Heap pages lie in slots 769 to 772, which share their tables with no other slot. */
  lemma HeapSlot(i: nat)
    requires i <= PAGES
    ensures FIRST_PAGE + i < VPAGES && 769 <= (FIRST_PAGE + i) / ENTRIES <= 772
    ensures !InSlot(FIRST_PAGE + i, SELF) && (FIRST_PAGE + i) / ENTRIES < SELF
  {
  }

  lemma HeapNoAlias(m: Mmu, i: nat, q: nat)
    requires TablesOk(m) && SharingOk(m) && i <= PAGES && q < VPAGES && FIRST_PAGE + i < VPAGES
    ensures Alias(m, q, FIRST_PAGE + i) ==> q == FIRST_PAGE + i
  {
    HeapSlot(i);
    var v := FIRST_PAGE + i;
    assert q / ENTRIES < v / ENTRIES ==> !Shares(m, q / ENTRIES, v / ENTRIES);
    assert v / ENTRIES < q / ENTRIES ==> !Shares(m, v / ENTRIES, q / ENTRIES);
  }

  ghost function Elements(s: seq<nat>): set<nat> {
    set x: nat | x in s
  }

  lemma {:induction false} DistinctCount(s: seq<nat>)
    requires Distinct(s)
    ensures |Elements(s)| == |s|
  {
    if s == [] {
      assert Elements(s) == {};
    } else {
      var r, x := s[..|s| - 1], s[|s| - 1];
      DistinctCount(r);
      assert s == r + [x];
      assert x !in r;
      assert Elements(s) == Elements(r) + {x};
    }
  }

  /** Distinct frames below 15 MiB. */
  lemma BackingIsSmall(s: seq<nat>)
    requires Distinct(s) && forall i :: 0 <= i < |s| ==> s[i] < PAGES
    ensures |s| <= PAGES
  {
    DistinctCount(s);
    BelowIsSmall(Elements(s), PAGES);
  }

  /** Taking frames out of the free set leaves the heap's pages backed. */
  lemma BackedMonotone(m: Mmu, free: set<nat>, free': set<nat>, backing: seq<nat>)
    requires Backed(m, free, backing) && free' <= free
    ensures Backed(m, free', backing)
  {
    assert Opened(0, (m, free, backing));
    forall i | 0 <= i < |backing| ensures PageBacked(m, free', FIRST_PAGE + i, backing[i]) {
      assert PageBacked(m, free, FIRST_PAGE + i, backing[i]);
    }
  }

  lemma BackedIsSmall(m: Mmu, free: set<nat>, backing: seq<nat>)
    requires Backed(m, free, backing)
    ensures |backing| <= PAGES
  {
    assert Opened(0, (m, free, backing));
  }

  /** Every heap page is mapped, for reading and writing, in user mode too. */
  lemma HeapPageRights(m: Mmu, free: set<nat>, backing: seq<nat>, i: nat)
    requires Backed(m, free, backing) && i < |backing|
    ensures TablesOk(m) && FIRST_PAGE + i < VPAGES
    ensures Walk(m, FIRST_PAGE + i) == Some(backing[i]) && RightsOf(m, FIRST_PAGE + i) == Some(ALL)
  {
    assert Opened(0, (m, free, backing));
    HeapSlot(i);
    assert PageBacked(m, free, FIRST_PAGE + i, backing[i]);
  }

  /** mm_map of one more heap page, whether or not it needs a new page table, and whatever the frame
      of that table held before. */
  lemma MapNext(m: Mmu, free: set<nat>, backing: seq<nat>, f: nat, w: nat, dw: nat)
    requires MmuOk(m, free) && Backed(m, free, backing) && |backing| < PAGES
    requires 0 < f < PAGES && f !in free && f !in backing && Unlinked(m, f)
    requires Present(w) && FrameOf(w) == f && TableFromFree(m, free, FIRST_PAGE + |backing|, dw)
    requires Asked(w) == ALL && Asked(dw) == ALL
    ensures Backed(Mapped(m, FIRST_PAGE + |backing|, w, dw), free, backing + [f])
  {
    assert Opened(0, (m, free, backing));
    var v, n := FIRST_PAGE + |backing|, |backing|;
    var m', backing' := Mapped(m, v, w, dw), backing + [f];
    HeapSlot(n);
    MappedWalk(m, v, w, dw);
    SlotsStayOpen(m, n, w, dw);
    forall i | 0 <= i < |backing'| ensures PageBacked(m', free, FIRST_PAGE + i, backing'[i]) {
      if i < n {
        assert PageBacked(m, free, FIRST_PAGE + i, backing[i]);
        MapNextOther(m, free, n, w, dw, i, backing[i]);
      } else {
        NewPageBacked(m, free, n, w, dw);
      }
    }
  }

  /** dw is fit for the directory slot of v, and its frame, if needed, is a free one. */
  ghost predicate TableFromFree(m: Mmu, free: set<nat>, v: nat, dw: nat)
    requires TablesOk(m)
  {
    MapOk(m, v, dw) && (!Present(Pde(m, v / ENTRIES)) ==> FrameOf(dw) in free)
  }

  /** A frame that is not taken for the new table stays free of paging structures. */
  lemma UnlinkedKept(m: Mmu, v: nat, w: nat, dw: nat, f: nat)
    requires TablesOk(m) && MapOk(m, v, dw) && Unlinked(m, f)
    requires !Present(Pde(m, v / ENTRIES)) ==> FrameOf(dw) != f
    ensures TablesOk(Mapped(m, v, w, dw)) && Unlinked(Mapped(m, v, w, dw), f)
  {
    if !Present(Pde(m, v / ENTRIES)) {
      InstalledWalk(m, v / ENTRIES, dw);
    }
    PagePutWalk(WithTable(m, v, dw), v, w);
  }

  lemma NewPageCoherent(m: Mmu, v: nat, w: nat, dw: nat)
    requires TablesOk(m) && MapOk(m, v, dw) && Full(m)
    ensures TablesOk(Mapped(m, v, w, dw)) && CoherentAt(Mapped(m, v, w, dw), v)
  {
    var m1 := WithTable(m, v, dw);
    if !Present(Pde(m, v / ENTRIES)) {
      InstalledFull(m, v / ENTRIES, dw);
    }
    PagePutCoherentIff(m1, v, w, v);
  }

  lemma NewPageBacked(m: Mmu, free: set<nat>, n: nat, w: nat, dw: nat)
    requires MmuOk(m, free) && HeapSlotsOpen(m) && n < PAGES && TableFromFree(m, free, FIRST_PAGE + n, dw)
    requires Present(w) && 0 < FrameOf(w) < PAGES && FrameOf(w) !in free && Unlinked(m, FrameOf(w))
    requires Asked(w) == ALL && Asked(dw) == ALL
    ensures TablesOk(Mapped(m, FIRST_PAGE + n, w, dw))
    ensures PageBacked(Mapped(m, FIRST_PAGE + n, w, dw), free, FIRST_PAGE + n, FrameOf(w))
  {
    var v := FIRST_PAGE + n;
    MappedWalk(m, v, w, dw);
    SlotsStayOpen(m, n, w, dw);
    NewPageCoherent(m, v, w, dw);
    UnlinkedKept(m, v, w, dw, FrameOf(w));
  }

  lemma MapNextOther(m: Mmu, free: set<nat>, n: nat, w: nat, dw: nat, i: nat, f: nat)
    requires MmuOk(m, free) && i < n < PAGES && TableFromFree(m, free, FIRST_PAGE + n, dw)
    requires PageBacked(m, free, FIRST_PAGE + i, f)
    ensures TablesOk(Mapped(m, FIRST_PAGE + n, w, dw))
    ensures PageBacked(Mapped(m, FIRST_PAGE + n, w, dw), free, FIRST_PAGE + i, f)
  {
    MapSameView(m, n, w, dw, i);
    UnlinkedKept(m, FIRST_PAGE + n, w, dw, f);
  }

  /** Page q leads where it led, with the same rights, and nothing else may be cached for it. */
  ghost predicate SameView(m: Mmu, m': Mmu, q: nat)
    requires TablesOk(m) && TablesOk(m') && q < VPAGES
  {
    Walk(m', q) == Walk(m, q) && RightsOf(m', q) == RightsOf(m, q) && CoherentAt(m', q)
  }

  lemma MapSameView(m: Mmu, n: nat, w: nat, dw: nat, i: nat)
    requires TablesOk(m) && SharingOk(m) && Full(m) && i < n < PAGES && MapOk(m, FIRST_PAGE + n, dw)
    requires Walk(m, FIRST_PAGE + i).Some? && CoherentAt(m, FIRST_PAGE + i)
    ensures TablesOk(Mapped(m, FIRST_PAGE + n, w, dw)) && SameView(m, Mapped(m, FIRST_PAGE + n, w, dw), FIRST_PAGE + i)
  {
    var v, q := FIRST_PAGE + n, FIRST_PAGE + i;
    HeapSlot(i);
    HeapSlot(n);
    HeapNoAlias(m, n, q);
    MappedWalk(m, v, w, dw);
    MappedCoherentAtIff(m, v, w, dw, q);
    OthersKeepRights(m, n, w, dw);
  }

  /** The heap's page tables go on taking no rights away. */
  lemma SlotsStayOpen(m: Mmu, n: nat, w: nat, dw: nat)
    requires TablesOk(m) && HeapSlotsOpen(m) && n < PAGES && MapOk(m, FIRST_PAGE + n, dw) && Asked(dw) == ALL
    ensures TablesOk(Mapped(m, FIRST_PAGE + n, w, dw)) && HeapSlotsOpen(Mapped(m, FIRST_PAGE + n, w, dw))
    ensures RightsOf(Mapped(m, FIRST_PAGE + n, w, dw), FIRST_PAGE + n) == if Present(w) then Some(Asked(w)) else None
  {
    var v := FIRST_PAGE + n;
    HeapSlot(n);
    if !Present(Pde(m, v / ENTRIES)) {
      InstalledWalk(m, v / ENTRIES, dw);
    }
    PagePutWalk(WithTable(m, v, dw), v, w);
    MappedRights(m, v, w, dw);
  }

  /** mm_unmap of the last heap page, and the return of its frame. */
  lemma UnmapLast(m: Mmu, free: set<nat>, backing: seq<nat>)
    requires MmuOk(m, free) && Backed(m, free, backing) && backing != []
    ensures var v := FIRST_PAGE + |backing| - 1;
            v < VPAGES && !InSlot(v, SELF) && Present(Pde(m, v / ENTRIES))
            && Backed(PagePut(m, v, 0), free + {backing[|backing| - 1]}, backing[..|backing| - 1])
  {
    assert Opened(0, (m, free, backing));
    var n := |backing| - 1;
    var v := FIRST_PAGE + n;
    HeapSlot(n);
    assert PageBacked(m, free, v, backing[n]);
    PagePutWalk(m, v, 0);
    forall i | 0 <= i < n
      ensures PageBacked(PagePut(m, v, 0), free + {backing[n]}, FIRST_PAGE + i, backing[i])
    {
      assert PageBacked(m, free, FIRST_PAGE + i, backing[i]) && backing[i] != backing[n];
      UnmapLastOther(m, free, n, backing[n], i, backing[i]);
    }
  }

  lemma UnmapLastOther(m: Mmu, free: set<nat>, n: nat, f: nat, i: nat, g: nat)
    requires TablesOk(m) && SharingOk(m) && Full(m) && i < n < PAGES && f != g
    requires Present(Pde(m, (FIRST_PAGE + n) / ENTRIES)) && PageBacked(m, free, FIRST_PAGE + i, g)
    ensures TablesOk(PagePut(m, FIRST_PAGE + n, 0))
    ensures PageBacked(PagePut(m, FIRST_PAGE + n, 0), free + {f}, FIRST_PAGE + i, g)
  {
    UnmapSameView(m, n, i);
    PagePutWalk(m, FIRST_PAGE + n, 0);
  }

  lemma UnmapSameView(m: Mmu, n: nat, i: nat)
    requires TablesOk(m) && SharingOk(m) && Full(m) && i < n < PAGES && Present(Pde(m, (FIRST_PAGE + n) / ENTRIES))
    requires CoherentAt(m, FIRST_PAGE + i)
    ensures TablesOk(PagePut(m, FIRST_PAGE + n, 0)) && SameView(m, PagePut(m, FIRST_PAGE + n, 0), FIRST_PAGE + i)
  {
    var v, q := FIRST_PAGE + n, FIRST_PAGE + i;
    HeapSlot(i);
    HeapSlot(n);
    HeapNoAlias(m, n, q);
    PagePutWalk(m, v, 0);
    PagePutCoherentIff(m, v, 0, q);
    PagePutRights(m, v, 0);
  }

  // ---- How many frames it takes ---------------------------------------------------------

  /** Directory slot of heap page n. */
  function SlotOf(n: nat): nat {
    (FIRST_PAGE + n) / ENTRIES
  }

  /** Directory slots that have a page table. */
  ghost function TableSlots(m: Mmu): set<nat>
    requires TablesOk(m)
  {
    set d: nat | d < ENTRIES && Present(Pde(m, d))
  }

  /** Frames taken for p more heap pages behind the first n, where `slots` have tables already: one for
      each page, and one for each table on the way. */
  function FramesFor(slots: set<nat>, n: nat, p: nat): nat
    decreases p
  {
    if p == 0 then 0
    else 1 + (if SlotOf(n) in slots then 0 else 1) + FramesFor(slots + {SlotOf(n)}, n + 1, p - 1)
  }

  /** The slots that pages n to n + p - 1 lie in. */
  ghost function SlotsOfPages(n: nat, p: nat): set<nat> {
    set i: nat | n <= i < n + p :: SlotOf(i)
  }

  lemma FirstSlot(n: nat, p: nat)
    requires p > 0
    ensures SlotsOfPages(n, p) == {SlotOf(n)} + SlotsOfPages(n + 1, p - 1)
  {
    assert SlotOf(n) in SlotsOfPages(n, p);
  }

  lemma OneSlotMore(slots: set<nat>, d: nat, rest: set<nat>)
    ensures |({d} + rest) - slots| == |rest - (slots + {d})| + if d in slots then 0 else 1
  {
    if d in slots {
      assert ({d} + rest) - slots == rest - (slots + {d});
    } else {
      assert ({d} + rest) - slots == (rest - (slots + {d})) + {d};
    }
  }

  /** Those frames are as many as the pages and the slots without a table that they lie in. */
  lemma {:induction false} FramesForIs(slots: set<nat>, n: nat, p: nat)
    ensures FramesFor(slots, n, p) == p + |SlotsOfPages(n, p) - slots|
    decreases p
  {
    if p > 0 {
      FramesForIs(slots + {SlotOf(n)}, n + 1, p - 1);
      FirstSlot(n, p);
      OneSlotMore(slots, SlotOf(n), SlotsOfPages(n + 1, p - 1));
    } else {
      assert SlotsOfPages(n, p) == {};
    }
  }

  lemma MappedTables(m: Mmu, v: nat, w: nat, dw: nat)
    requires TablesOk(m) && MapOk(m, v, dw)
    ensures TablesOk(Mapped(m, v, w, dw)) && TableSlots(Mapped(m, v, w, dw)) == TableSlots(m) + {v / ENTRIES}
  {
    if !Present(Pde(m, v / ENTRIES)) {
      InstalledWalk(m, v / ENTRIES, dw);
    }
    PagePutWalk(WithTable(m, v, dw), v, w);
  }

  lemma OnePageWanted(slots: set<nat>, n: nat)
    ensures FramesFor(slots, n, 1) == 1 + if SlotOf(n) in slots then 0 else 1
  {
    assert FramesFor(slots + {SlotOf(n)}, n + 1, 0) == 0;
  }

  lemma FirstOfMore(slots: set<nat>, n: nat, p: nat)
    requires p > 0
    ensures FramesFor(slots, n, 1) <= FramesFor(slots, n, p)
  {
    OnePageWanted(slots, n);
  }

  lemma PutTables(m: Mmu, v: nat, w: nat)
    requires TablesOk(m) && v < VPAGES && !InSlot(v, SELF) && Present(Pde(m, v / ENTRIES))
    ensures TablesOk(PagePut(m, v, w)) && TableSlots(PagePut(m, v, w)) == TableSlots(m)
  {
    PagePutWalk(m, v, w);
  }

  /** The heap's frames are in use for the heap alone: together with the free ones and the tables
      they never exceed what the machine has. */
  class PageSupply {
    const space: AddressSpace
    ghost var backing: seq<nat>
    /** Page tables made by mm_map so far. */
    ghost var tables: nat

    ghost predicate Valid()
      reads this, space, space.frames, space.frames.lowRamBitF
    {
      space.Valid() && 0 !in space.frames.free && Backed(space.M(), space.frames.free, backing)
    }

    ghost function Slots(): set<nat>
      requires TablesOk(space.M())
      reads this, space
    {
      TableSlots(space.M())
    }

    /** Frames that p more pages take. */
    ghost function Wanted(p: nat): nat
      requires TablesOk(space.M())
      reads this, space
    {
      FramesFor(Slots(), |backing|, p)
    }

    /** Free frames, heap frames and page tables together. */
    ghost function Total(): nat
      reads this, space, space.frames
    {
      |space.frames.free| + |backing| + tables
    }

    constructor (space: AddressSpace)
      requires space.Valid() && 0 !in space.frames.free && HeapSlotsOpen(space.M())
      ensures Valid() && this.space == space && backing == [] && tables == 0
    {
      this.space, backing, tables := space, [], 0;
    }

    lemma Settled(m: Mmu, free: set<nat>, b: seq<nat>)
      requires space.Valid() && 0 !in space.frames.free && Backed(m, free, b)
      requires space.M() == m && space.frames.free == free && backing == b
      ensures Valid()
    {
    }

    /** mm_map of heap page n. */
    method MapHere(paddr: nat, va: nat, ghost n: nat) returns (ok: bool, ghost t: nat)
      requires space.Valid() && n < PAGES && va == (FIRST_PAGE + n) * PAGE && 0 < paddr < MEMORY
      modifies space, space.frames, space.frames.lowRamBitF
      ensures !ok ==> space.frames.free == {}
      ensures FIRST_PAGE + n < VPAGES
      ensures ok <==> SlotOf(n) in TableSlots(old(space.M())) || old(space.frames.free) != {}
      ensures ok ==> space.Valid() && TableFrameOk(old(space.M()), old(space.frames.free), FIRST_PAGE + n, t)
      ensures ok ==> space.frames.free == old(space.frames.free) - TakenFor(old(space.M()), FIRST_PAGE + n, t)
      ensures ok ==>
                var dw := EntryWord(t * PAGE, WRITE_USER);
                && MapOk(old(space.M()), FIRST_PAGE + n, dw)
                && space.M() == Mapped(old(space.M()), FIRST_PAGE + n, EntryWord(paddr, WRITE_USER), dw)
    {
      HeapSlot(n);
      assert VPage(va) == FIRST_PAGE + n;
      var r;
      r, t := space.MmMap(paddr, va, WRITE_USER);
      ok := r == Done;
    }

    /** mm_map of a frame just allocated, behind the last heap page. */
    method MapFrame(paddr: nat, va: nat) returns (ok: bool)
      requires space.Valid() && 0 !in space.frames.free && Backed(space.M(), space.frames.free, backing)
      requires |backing| < PAGES && va == (FIRST_PAGE + |backing|) * PAGE
      requires paddr % PAGE == 0 && var f := paddr / PAGE;
               0 < f < PAGES && f !in space.frames.free && f !in backing && Unlinked(space.M(), f)
      modifies this, space, space.frames, space.frames.lowRamBitF
      ensures ok ==> Valid() && |backing| == |old(backing)| + 1 && Total() == old(Total()) + 1
      ensures !ok ==> space.frames.free == {}
      ensures ok <==> SlotOf(|old(backing)|) in old(Slots()) || old(space.frames.free) != {}
      ensures ok ==> Slots() == old(Slots()) + {SlotOf(|old(backing)|)}
      ensures ok ==> |space.frames.free| ==
                     |old(space.frames.free)| - if SlotOf(|old(backing)|) in old(Slots()) then 0 else 1
      ensures ok ==> RightsKept(old(space.M()), space.M(), |old(backing)|)
    {
      ghost var m, free, n := space.M(), space.frames.free, |backing|;
      ghost var t;
      ok, t := MapHere(paddr, va, n);
      if ok {
        ghost var left := space.frames.free;
        ghost var m', b := MapStep(m, free, backing, paddr, t, left);
        assert space.M() == m';
        backing, tables := b, tables + (|free| - |left|);
        Settled(m', left, b);
      }
    }

    /** A fresh frame, mapped as the page behind the last one (kmalloc.c:189).
        ok is false when pa_alloc panics, for the page or for its table. */
    method MapPage(va: nat) returns (ok: bool)
      requires Valid() && va == (FIRST_PAGE + |backing|) * PAGE
      modifies this, space, space.frames, space.frames.lowRamBitF
      ensures ok ==> Valid() && |backing| == |old(backing)| + 1 && Total() == old(Total())
      ensures !ok ==> space.frames.free == {}
      ensures ok <==> old(Wanted(1)) <= |old(space.frames.free)|
      ensures ok ==> Slots() == old(Slots()) + {SlotOf(|old(backing)|)}
      ensures ok ==> |space.frames.free| == |old(space.frames.free)| - old(Wanted(1))
      ensures ok ==> RightsKept(old(space.M()), space.M(), |old(backing)|)
    {
      ghost var m, free := space.M(), space.frames.free;
      OnePageWanted(TableSlots(m), |backing|);
      var page := space.frames.PaAlloc();
      if page.None? {
        return false;
      }
      ghost var f := page.value / PAGE;
      FreeFrameIsUnlinked(m, free, f);
      RoomForOne(m, free, backing, f);
      FramesTaken(m, free, f);
      BackedMonotone(m, free, free - {f}, backing);
      ok := MapFrame(page.value, va);
    }

    /** get_physaddr, mm_unmap and pa_free of the last heap page (kmalloc.c:266-268). */
    method UnmapPage(va: nat)
      requires Valid() && backing != [] && va == (FIRST_PAGE + |backing| - 1) * PAGE
      modifies this, space, space.frames, space.frames.lowRamBitF
      ensures Valid() && backing == old(backing)[..|old(backing)| - 1] && tables == old(tables)
      ensures Total() == old(Total()) && Slots() == old(Slots())
      ensures RightsKept(old(space.M()), space.M(), |backing|)
      ensures FIRST_PAGE + |backing| < VPAGES && RightsOf(space.M(), FIRST_PAGE + |backing|) == None
    {
      ghost var m, free, n := space.M(), space.frames.free, |backing| - 1;
      UnmapStep(m, free, backing);
      assert VPage(va) == FIRST_PAGE + n && va % PAGE == 0;
      PutTables(m, FIRST_PAGE + n, 0);
      space.Release(va, backing[n]);
      backing := backing[..n];
    }
  }

  /** PAGE_WRITE | PAGE_USER */
  const WRITE_USER := 6

  lemma RoomForOne(m: Mmu, free: set<nat>, backing: seq<nat>, f: nat)
    requires Backed(m, free, backing) && f in free && f < PAGES
    ensures |backing| < PAGES && f !in backing
  {
    assert Opened(0, (m, free, backing));
    forall i | 0 <= i < |backing| ensures backing[i] != f && backing[i] < PAGES {
      assert PageBacked(m, free, FIRST_PAGE + i, backing[i]);
    }
    BackingIsSmall(backing + [f]);
  }

  lemma FramesTaken(m: Mmu, free: set<nat>, f: nat)
    requires MmuOk(m, free) && f in free
    ensures MmuOk(m, free - {f}) && |free - {f}| == |free| - 1
  {
  }

  lemma TakenCount(free: set<nat>, taken: set<nat>)
    requires taken <= free
    ensures |free - taken| == |free| - |taken|
  {
    assert free == (free - taken) + taken;
  }

  /** The lowest free frame is fit for the new table. */
  lemma TableFits(m: Mmu, free: set<nat>, v: nat, t: nat)
    requires TablesOk(m) && v < VPAGES && TableFrameOk(m, free, v, t) && MapOk(m, v, EntryWord(t * PAGE, WRITE_USER))
    ensures TableFromFree(m, free, v, EntryWord(t * PAGE, WRITE_USER))
  {
    EntryIs(t * PAGE, WRITE_USER);
  }

  lemma FrameOfPage(paddr: nat)
    ensures Present(EntryWord(paddr, WRITE_USER)) && FrameOf(EntryWord(paddr, WRITE_USER)) == paddr / PAGE
  {
    EntryIs(paddr, WRITE_USER);
  }

  lemma AsksForAll(paddr: nat)
    requires paddr % PAGE == 0
    ensures Asked(EntryWord(paddr, WRITE_USER)) == ALL
  {
    EntryAsks(paddr, WRITE_USER);
    assert Shifted(WRITE_USER, 1) == Shifted(3, 0) && Shifted(WRITE_USER, 2) == Shifted(3, 1) == Shifted(1, 0);
  }

  lemma StepBacked(m: Mmu, free: set<nat>, backing: seq<nat>, paddr: nat, t: nat, left: set<nat>)
    requires MmuOk(m, free) && Backed(m, free, backing) && |backing| < PAGES
    requires paddr % PAGE == 0 && var f := paddr / PAGE;
             0 < f < PAGES && f !in free && f !in backing && Unlinked(m, f)
    requires FIRST_PAGE + |backing| < VPAGES && TableFrameOk(m, free, FIRST_PAGE + |backing|, t)
    requires MapOk(m, FIRST_PAGE + |backing|, EntryWord(t * PAGE, WRITE_USER)) && left <= free
    ensures var m' := Mapped(m, FIRST_PAGE + |backing|, EntryWord(paddr, WRITE_USER), EntryWord(t * PAGE, WRITE_USER));
            Backed(m', left, backing + [paddr / PAGE])
  {
    var w, dw, f := EntryWord(paddr, WRITE_USER), EntryWord(t * PAGE, WRITE_USER), paddr / PAGE;
    FrameOfPage(paddr);
    AsksForAll(paddr);
    AsksForAll(t * PAGE);
    TableFits(m, free, FIRST_PAGE + |backing|, t);
    MapNext(m, free, backing, f, w, dw);
    BackedMonotone(Mapped(m, FIRST_PAGE + |backing|, w, dw), free, left, backing + [f]);
  }

  /** Everything a successful mm_map of one more heap page gives. */
  lemma MapStep(m: Mmu, free: set<nat>, backing: seq<nat>, paddr: nat, t: nat, left: set<nat>)
    returns (m': Mmu, backing': seq<nat>)
    requires MmuOk(m, free) && Backed(m, free, backing) && |backing| < PAGES
    requires paddr % PAGE == 0 && var f := paddr / PAGE;
             0 < f < PAGES && f !in free && f !in backing && Unlinked(m, f)
    requires FIRST_PAGE + |backing| < VPAGES && TableFrameOk(m, free, FIRST_PAGE + |backing|, t)
    requires MapOk(m, FIRST_PAGE + |backing|, EntryWord(t * PAGE, WRITE_USER))
    requires left == free - TakenFor(m, FIRST_PAGE + |backing|, t)
    ensures m' == Mapped(m, FIRST_PAGE + |backing|, EntryWord(paddr, WRITE_USER), EntryWord(t * PAGE, WRITE_USER))
    ensures backing' == backing + [paddr / PAGE] && Backed(m', left, backing')
    ensures |left| == |free| - (if SlotOf(|backing|) in TableSlots(m) then 0 else 1)
    ensures TablesOk(m') && TableSlots(m') == TableSlots(m) + {SlotOf(|backing|)}
    ensures RightsKept(m, m', |backing|)
  {
    var n, w, dw := |backing|, EntryWord(paddr, WRITE_USER), EntryWord(t * PAGE, WRITE_USER);
    StepBacked(m, free, backing, paddr, t, left);
    m', backing' := Mapped(m, FIRST_PAGE + n, w, dw), backing + [paddr / PAGE];
    StepTables(m, n, w, dw);
    StepCount(m, free, n, t);
  }

  lemma StepTables(m: Mmu, n: nat, w: nat, dw: nat)
    requires TablesOk(m) && SharingOk(m) && n < PAGES && MapOk(m, FIRST_PAGE + n, dw)
    ensures var m' := Mapped(m, FIRST_PAGE + n, w, dw);
            TablesOk(m') && TableSlots(m') == TableSlots(m) + {SlotOf(n)} && RightsKept(m, m', n)
  {
    HeapSlot(n);
    MappedTables(m, FIRST_PAGE + n, w, dw);
    OthersKeepRights(m, n, w, dw);
  }

  lemma StepCount(m: Mmu, free: set<nat>, n: nat, t: nat)
    requires TablesOk(m) && FIRST_PAGE + n < VPAGES && TableFrameOk(m, free, FIRST_PAGE + n, t)
    ensures |free - TakenFor(m, FIRST_PAGE + n, t)| == |free| - (if SlotOf(n) in TableSlots(m) then 0 else 1)
  {
    TakenCount(free, TakenFor(m, FIRST_PAGE + n, t));
  }

  /** Heap page n apart, and the window of its table, no page has other rights in m' than in m. */
  ghost predicate RightsKept(m: Mmu, m': Mmu, n: nat)
    requires TablesOk(m) && TablesOk(m')
  {
    forall q :: 0 <= q < VPAGES && q != FIRST_PAGE + n && q != WindowOf(SlotOf(n)) ==> RightsOf(m', q) == RightsOf(m, q)
  }

  lemma OthersKeepRights(m: Mmu, n: nat, w: nat, dw: nat)
    requires TablesOk(m) && SharingOk(m) && n < PAGES && MapOk(m, FIRST_PAGE + n, dw)
    ensures TablesOk(Mapped(m, FIRST_PAGE + n, w, dw)) && RightsKept(m, Mapped(m, FIRST_PAGE + n, w, dw), n)
  {
    var v := FIRST_PAGE + n;
    MappedRights(m, v, w, dw);
    forall q | 0 <= q < VPAGES && q != v ensures !Alias(m, q, v) {
      HeapNoAlias(m, n, q);
    }
  }

  lemma PutKeepsRights(m: Mmu, n: nat)
    requires TablesOk(m) && SharingOk(m) && n < PAGES && Present(Pde(m, SlotOf(n)))
    ensures SlotOf(n) != SELF && FIRST_PAGE + n < VPAGES
    ensures TablesOk(PagePut(m, FIRST_PAGE + n, 0)) && RightsKept(m, PagePut(m, FIRST_PAGE + n, 0), n)
    ensures RightsOf(PagePut(m, FIRST_PAGE + n, 0), FIRST_PAGE + n) == None
  {
    var v := FIRST_PAGE + n;
    HeapSlot(n);
    PagePutRights(m, v, 0);
    forall q | 0 <= q < VPAGES && q != v ensures !Alias(m, q, v) {
      HeapNoAlias(m, n, q);
    }
  }

  /** Everything the unmapping of the last heap page gives. */
  lemma UnmapStep(m: Mmu, free: set<nat>, backing: seq<nat>)
    requires MmuOk(m, free) && Backed(m, free, backing) && backing != []
    ensures var v, f := FIRST_PAGE + |backing| - 1, backing[|backing| - 1];
            && v < VPAGES && !InSlot(v, SELF) && Present(Pde(m, v / ENTRIES)) && Walk(m, v) == Some(f)
            && 0 < f < PAGES && |free + {f}| == |free| + 1 && Unlinked(m, f)
            && Backed(PagePut(m, v, 0), free + {f}, backing[..|backing| - 1])
            && TablesOk(PagePut(m, v, 0)) && RightsKept(m, PagePut(m, v, 0), |backing| - 1)
            && RightsOf(PagePut(m, v, 0), v) == None
  {
    var n := |backing| - 1;
    var v, f := FIRST_PAGE + n, backing[n];
    assert Opened(0, (m, free, backing));
    HeapSlot(n);
    assert PageBacked(m, free, v, f);
    UnmapLast(m, free, backing);
    PutKeepsRights(m, n);
  }
}
