/** The first page tables (init_paging), and two places where translations can go stale. */
module PagingBoot {
  import opened Frames
  import opened Options
  import opened PageTables
  import opened PageRights
  import opened Paging

  /** Present, writable, user: the low bits of every boot entry. */
  const ATTRIBUTES := 7
  const KERNEL_SLOT := 768

  function BootEntry(frame: nat): nat {
    BitOr(frame * PAGE, ATTRIBUTES)
  }

  lemma BootEntryIs(frame: nat)
    ensures Present(BootEntry(frame)) && FrameOf(BootEntry(frame)) == frame
  {
    OddIsPresent(frame * PAGE, ATTRIBUTES);
    FrameKept(frame * PAGE, ATTRIBUTES);
  }

  /** A boot entry has the present, write and user bits, and no other. */
  lemma BootEntryFlags(frame: nat, k: nat)
    requires k < FLAG_BITS
    ensures HasBit(BootEntry(frame), k) <==> k == PRESENT_BIT || k == WRITE_BIT || k == USER_BIT
  {
    BitOrHas(frame * PAGE, ATTRIBUTES, k);
    AlignedHasNone(frame * PAGE, k);
    AttributeBits(k);
  }

  lemma AttributeBits(k: nat)
    ensures HasBit(ATTRIBUTES, k) <==> k == PRESENT_BIT || k == WRITE_BIT || k == USER_BIT
  {
    if k == 1 {
      assert Shifted(ATTRIBUTES, 1) == Shifted(3, 0);
    } else if k == 2 {
      assert Shifted(ATTRIBUTES, 2) == Shifted(3, 1) == Shifted(1, 0);
    } else if k > 2 {
      assert Shifted(ATTRIBUTES, k) == Shifted(3, k - 1) == Shifted(1, k - 2) == Shifted(0, k - 3);
      ShiftedZero(k - 3);
    }
  }

  ghost predicate BootTables(low: seq<nat>, dir: seq<nat>, lowFrame: nat, dirFrame: nat) {
    && |low| == ENTRIES && |dir| == ENTRIES
    && (forall k :: 0 <= k < ENTRIES ==> low[k] == BootEntry(k))
    && (forall k :: 0 <= k < ENTRIES ==>
          dir[k] == if k == 0 || k == KERNEL_SLOT then BootEntry(lowFrame)
                    else if k == SELF then BootEntry(dirFrame) else 0)
  }

  /** init_paging fills the two statically allocated tables. */
  method InitPaging(kernelpagedir: array<nat>, lowpagetable: array<nat>, dirFrame: nat, lowFrame: nat)
    requires kernelpagedir.Length == ENTRIES && lowpagetable.Length == ENTRIES && kernelpagedir != lowpagetable
    modifies kernelpagedir, lowpagetable
    ensures BootTables(lowpagetable[..], kernelpagedir[..], lowFrame, dirFrame)
  {
    for k := 0 to ENTRIES
      invariant forall j :: 0 <= j < k ==> lowpagetable[j] == BootEntry(j) && kernelpagedir[j] == 0
    {
      lowpagetable[k] := BitOr(k * PAGE, ATTRIBUTES);
      kernelpagedir[k] := 0;
    }
    kernelpagedir[0] := BitOr(lowFrame * PAGE, ATTRIBUTES);
    kernelpagedir[KERNEL_SLOT] := BitOr(lowFrame * PAGE, ATTRIBUTES);
    kernelpagedir[SELF] := BitOr(dirFrame * PAGE, ATTRIBUTES);
  }

  /** Paging just switched on: the boot tables in place, and nothing but them to cache. */
  ghost predicate Booted(m: Mmu, lowFrame: nat) {
    && lowFrame in m.phys && m.pd in m.phys && lowFrame != m.pd
    && (forall f :: f in m.phys ==> |m.phys[f]| == ENTRIES)
    && BootTables(m.phys[lowFrame], m.phys[m.pd], lowFrame, m.pd)
    && forall e :: e in m.tlb <==> e.0 < VPAGES && BootWalk(e.0, lowFrame, m.pd) == Some(e.1)
  }

  /** The first 4 MiB at 0 and at 3 GiB, and the windows of the three slots in use. */
  function BootWalk(q: nat, lowFrame: nat, dirFrame: nat): Option<nat> {
    if q / ENTRIES == 0 || q / ENTRIES == KERNEL_SLOT then Some(q % ENTRIES)
    else if q == WindowOf(0) || q == WindowOf(KERNEL_SLOT) then Some(lowFrame)
    else if q == WindowOf(SELF) then Some(dirFrame)
    else None
  }

  lemma BootedPde(m: Mmu, lowFrame: nat, k: nat)
    requires Booted(m, lowFrame) && k < ENTRIES
    ensures var w := m.phys[m.pd][k];
            (Present(w) <==> k == 0 || k == KERNEL_SLOT || k == SELF)
            && (k == 0 || k == KERNEL_SLOT ==> FrameOf(w) == lowFrame)
            && (k == SELF ==> FrameOf(w) == m.pd)
  {
    BootEntryIs(lowFrame);
    BootEntryIs(m.pd);
  }

  /** The boot tables map what init_paging means them to map, and satisfy what mm_map relies on. */
  lemma BootMap(m: Mmu, lowFrame: nat, free: set<nat>)
    requires Booted(m, lowFrame) && m.pd !in free && lowFrame !in free
    requires forall f :: 0 <= f < PAGES ==> f in m.phys
    ensures MmuOk(m, free) && Coherent(m)
    ensures forall q :: 0 <= q < VPAGES ==> Walk(m, q) == BootWalk(q, lowFrame, m.pd)
  {
    forall k | 0 <= k < ENTRIES
      ensures var w := m.phys[m.pd][k];
              (Present(w) <==> k == 0 || k == KERNEL_SLOT || k == SELF)
              && (k == 0 || k == KERNEL_SLOT ==> FrameOf(w) == lowFrame)
              && (k == SELF ==> FrameOf(w) == m.pd)
    {
      BootedPde(m, lowFrame, k);
    }
    assert TablesOk(m);
    forall q | 0 <= q < VPAGES ensures Walk(m, q) == BootWalk(q, lowFrame, m.pd) {
      BootEntryIs(q % ENTRIES);
    }
    forall e: (nat, nat) ensures Translates(m, e) <==> e in m.tlb {
    }
    forall d | 0 <= d < ENTRIES ensures CoherentAt(m, WindowOf(d)) {
    }
  }

  /** Every page mapped at boot is writable, from user mode too, and no directory slot but the three in
      use has any table. */
  lemma BootRights(m: Mmu, lowFrame: nat, free: set<nat>)
    requires Booted(m, lowFrame) && m.pd !in free && lowFrame !in free
    requires forall f :: 0 <= f < PAGES ==> f in m.phys
    ensures TablesOk(m) && HeapSlotsOpen(m)
    ensures forall q :: 0 <= q < VPAGES ==>
              RightsOf(m, q) == if BootWalk(q, lowFrame, m.pd).Some? then Some(ALL) else None
  {
    BootMap(m, lowFrame, free);
    forall frame: nat ensures Asked(BootEntry(frame)) == ALL && Present(BootEntry(frame)) {
      BootEntryIs(frame);
      BootEntryFlags(frame, WRITE_BIT);
      BootEntryFlags(frame, USER_BIT);
    }
    forall q | 0 <= q < VPAGES
      ensures RightsOf(m, q) == if BootWalk(q, lowFrame, m.pd).Some? then Some(ALL) else None
    {
      BootedPde(m, lowFrame, q / ENTRIES);
      assert Walk(m, q) == BootWalk(q, lowFrame, m.pd);
    }
    forall d | 769 <= d <= 772 ensures !Present(Pde(m, d)) {
      BootedPde(m, lowFrame, d);
    }
  }

  /** mm_init ends with mm_unmap(0). Slots 0 and 768 lead to one table, so this also unmaps the page
      at 3 GiB, for which no flush is done: its old translation stays cached. */
  lemma UnmapZeroHitsKernelPage(m: Mmu, lowFrame: nat, free: set<nat>)
    requires Booted(m, lowFrame) && m.pd !in free && lowFrame !in free
    requires forall f :: 0 <= f < PAGES ==> f in m.phys
    ensures TablesOk(m) && Present(Pde(m, 0))
    ensures var m' := PagePut(m, 0, 0);
            var kernelPage := KERNEL_SLOT * ENTRIES;
            && TablesOk(m')
            && Walk(m', 0) == None && Walk(m', kernelPage) == None
            && (forall q :: 0 <= q < VPAGES && q != 0 && q != kernelPage ==> Walk(m', q) == Walk(m, q))
            && CoherentAt(m', 0) && !CoherentAt(m', kernelPage)
            && (kernelPage, 0) in m'.tlb
            && (forall q :: 0 <= q < VPAGES && q != kernelPage ==> CoherentAt(m', q))
  {
    BootMap(m, lowFrame, free);
    var m', kernelPage := PagePut(m, 0, 0), KERNEL_SLOT * ENTRIES;
    BootedPde(m, lowFrame, 0);
    BootedPde(m, lowFrame, KERNEL_SLOT);
    PagePutWalk(m, 0, 0);
    forall q | 0 <= q < VPAGES ensures Alias(m, q, 0) <==> q == 0 || q == kernelPage {
      BootedPde(m, lowFrame, q / ENTRIES);
    }
    assert Walk(m, kernelPage) == Some(0);
    PagePutCached(m, 0, 0, (kernelPage, 0));
    forall q | 0 <= q < VPAGES ensures CoherentAt(m', q) <==> q != kernelPage {
      PagePutCoherentIff(m, 0, 0, q);
    }
  }

  /** A frame that, before it became a page table, held a word with its lowest bit set. */
  lemma DirtyTableGoesStale(m: Mmu, v: nat, w: nat, dw: nat, j: nat)
    requires TablesOk(m) && MapOk(m, v, dw) && Full(m) && Coherent(m) && !Present(Pde(m, v / ENTRIES))
    requires j < ENTRIES && j != v % ENTRIES && Present(m.phys[FrameOf(dw)][j])
    ensures TablesOk(Mapped(m, v, w, dw))
    ensures var q := v / ENTRIES * ENTRIES + j;
            && Walk(Mapped(m, v, w, dw), q) == None
            && (q, FrameOf(m.phys[FrameOf(dw)][j])) in Mapped(m, v, w, dw).tlb
  {
    var d, q := v / ENTRIES, v / ENTRIES * ENTRIES + j;
    assert q / ENTRIES == d && q % ENTRIES == j && q != v;
    MappedWalk(m, v, w, dw);
    var e := (q, FrameOf(m.phys[FrameOf(dw)][j]));
    InstalledCached(m, d, dw, e);
    InstalledWalk(m, d, dw);
    PagePutCached(WithTable(m, v, dw), v, w, e);
  }
}
