/** mm_map, mm_unmap and get_physaddr, reaching the page tables only through the self-map and through
    whatever translations the processor happens to have cached. */
module Paging {
  import opened Frames
  import opened Options
  import opened PageTables
  import opened PageRights

  const DIRECTORY := 0xFFFF_F000
  const WINDOWS := 0xFFC0_0000
  const MEMORY := 0x1_0000_0000

  datatype MapResult = Done | NullAddress | Panic

  function VPage(va: nat): nat {
    va / PAGE
  }

  /** Index of the 32-bit word at va inside its page. */
  function WordIn(va: nat): nat {
    va % PAGE / 4
  }

  lemma WindowAddress(d: nat, i: nat)
    requires d < ENTRIES && i < ENTRIES
    ensures VPage(WINDOWS + PAGE * d + 4 * i) == WindowOf(d) && WordIn(WINDOWS + PAGE * d + 4 * i) == i
    ensures d == SELF ==> DIRECTORY + 4 * i == WINDOWS + PAGE * d + 4 * i
  {
  }

  lemma Indices(va: nat)
    requires va < MEMORY
    ensures VPage(va) < VPAGES && VPage(va) / ENTRIES == va / 0x40_0000 && VPage(va) % ENTRIES == va / 0x1000 % 0x400
    ensures va / 0x40_0000 < ENTRIES
  {
  }

  /** The address that virtual address va leads to, or 0 for NULL. */
  function PhysAddr(m: Mmu, va: nat): nat
    requires TablesOk(m) && va < MEMORY
  {
    match Walk(m, VPage(va))
    case Some(f) => f * PAGE + va % PAGE
    case None => 0
  }

  /** A page that has been mapped leads to its physical address, byte for byte. */
  lemma MappedLeadsThere(m: Mmu, va: nat, physaddr: nat, flags: nat, dw: nat)
    requires TablesOk(m) && va < MEMORY && MapOk(m, VPage(va), dw)
    ensures TablesOk(Mapped(m, VPage(va), EntryWord(physaddr, flags), dw))
    ensures forall x :: 0 <= x < MEMORY && VPage(x) == VPage(va) ==>
              PhysAddr(Mapped(m, VPage(va), EntryWord(physaddr, flags), dw), x) == physaddr / PAGE * PAGE + x % PAGE
  {
    EntryIs(physaddr, flags);
    MappedWalk(m, VPage(va), EntryWord(physaddr, flags), dw);
  }

  /** Mapping a page and unmapping it again leaves it unmapped and every other page as it was, except
      those that share its entry, and the window of a table that was made for it. */
  lemma MapThenUnmap(m: Mmu, v: nat, w: nat, dw: nat)
    requires TablesOk(m) && MapOk(m, v, dw)
    ensures var m1 := Mapped(m, v, w, dw);
            && TablesOk(m1) && Present(Pde(m1, v / ENTRIES))
            && var m2 := PagePut(m1, v, 0);
            && TablesOk(m2)
            && forall q :: 0 <= q < VPAGES ==>
                 Walk(m2, q) == if q == v || Alias(m, q, v) then None
                                else if !Present(Pde(m, v / ENTRIES)) && q == WindowOf(v / ENTRIES)
                                then Some(FrameOf(dw))
                                else Walk(m, q)
  {
    var m0, m1 := WithTable(m, v, dw), Mapped(m, v, w, dw);
    MappedWalk(m, v, w, dw);
    PagePutWalk(m0, v, w);
    PagePutWalk(m1, v, 0);
    if !Present(Pde(m, v / ENTRIES)) {
      InstalledWalk(m, v / ENTRIES, dw);
      forall q | 0 <= q < VPAGES && Alias(m1, q, v) ensures q == v {
        assert q / ENTRIES == v / ENTRIES;
      }
    }
  }

  /** Cached translations of the windows are current ones: what makes the self-map usable at all. */
  ghost predicate WindowsCoherent(m: Mmu)
    requires TablesOk(m)
  {
    forall d :: 0 <= d < ENTRIES ==> CoherentAt(m, WindowOf(d))
  }

  /** No paging structure lies in a free frame. */
  ghost predicate TablesUsed(m: Mmu, free: set<nat>)
    requires TablesOk(m)
  {
    m.pd !in free && forall d :: 0 <= d < ENTRIES && Present(Pde(m, d)) ==> FrameOf(Pde(m, d)) !in free
  }

  /** The only two slots with a common table are 0 and 768 (mm.c:154-155). */
  predicate SharingOk(m: Mmu)
    requires TablesOk(m)
  {
    forall i, j :: 0 <= i < j < ENTRIES && Shares(m, i, j) ==> i == 0 && j == 768
  }

  ghost predicate MmuOk(m: Mmu, free: set<nat>) {
    && TablesOk(m) && Full(m) && WindowsCoherent(m) && TablesUsed(m, free) && SharingOk(m)
    && (forall f :: 0 <= f < PAGES ==> f in m.phys)
  }

  lemma FreeFrameIsUnlinked(m: Mmu, free: set<nat>, t: nat)
    requires MmuOk(m, free) && t in free && t < PAGES
    ensures Unlinked(m, t)
  {
  }

  /** Writing an entry of page v keeps everything above. */
  lemma PagePutKeeps(m: Mmu, free: set<nat>, v: nat, w: nat)
    requires MmuOk(m, free) && v < VPAGES && !InSlot(v, SELF) && Present(Pde(m, v / ENTRIES))
    ensures MmuOk(PagePut(m, v, w), free)
  {
    var m' := PagePut(m, v, w);
    PagePutWalk(m, v, w);
    forall d | 0 <= d < ENTRIES ensures CoherentAt(m', WindowOf(d)) {
      PagePutCoherentIff(m, v, w, WindowOf(d));
      assert InSlot(WindowOf(d), SELF);
    }
    PagePutCoherentIff(m, v, w, 0);
    forall i, j | 0 <= i < j < ENTRIES && Shares(m', i, j) ensures i == 0 && j == 768 {
      assert Shares(m, i, j);
    }
  }

  /** So does installing a table in a frame that is no longer free. */
  lemma InstalledKeeps(m: Mmu, free: set<nat>, d: nat, w: nat)
    requires MmuOk(m, free) && d < SELF && !Present(Pde(m, d))
    requires Present(w) && FrameOf(w) in free && FrameOf(w) < PAGES
    ensures MmuOk(Installed(m, d, w), free - {FrameOf(w)})
  {
    FreeFrameIsUnlinked(m, free, FrameOf(w));
    var m' := Installed(m, d, w);
    InstalledWalk(m, d, w);
    InstalledFull(m, d, w);
    forall e | 0 <= e < ENTRIES ensures CoherentAt(m', WindowOf(e)) {
      InstalledCoherentIff(m, d, w, WindowOf(e));
      assert InSlot(WindowOf(e), SELF);
    }
    forall i, j | 0 <= i < j < ENTRIES && Shares(m', i, j) ensures i == 0 && j == 768 {
      assert i != d && j != d;
      assert Shares(m, i, j);
    }
  }

  /** Right after a table is linked in, its window is mapped and nothing else is cached for it. */
  lemma LinkedWindow(m: Mmu, free: set<nat>, d: nat, w: nat)
    requires MmuOk(m, free) && d < SELF && !Present(Pde(m, d))
    requires Present(w) && FrameOf(w) in free && FrameOf(w) < PAGES
    ensures Unlinked(m, FrameOf(w))
    ensures var m1 := Linked(m, d, w);
            TablesOk(m1) && Full(m1) && Pde(m1, d) == w && CoherentAt(m1, WindowOf(d))
            && Walk(m1, WindowOf(d)) == Some(FrameOf(w))
  {
    FreeFrameIsUnlinked(m, free, FrameOf(w));
    DirectoryWrite(m, d, w);
    var m0, m1 := SlotWritten(m, d, w), Linked(m, d, w);
    WindowWalks(m, d);
    WindowWalks(m1, d);
    forall e: (nat, nat) ensures e in Current(m0) <==> Translates(m0, e) {
      CurrentIs(m0, e);
    }
    forall e: (nat, nat) ensures Translates(m1, e) <==> Translates(m0, e) {
      assert e.0 < VPAGES ==> Walk(m1, e.0) == Walk(m0, e.0);
    }
    assert CoherentAt(m, WindowOf(d));
  }

  /** Clearing a word of a page table translates nothing new, so nothing more can be cached. */
  lemma ClearOne(m: Mmu, d: nat, t: nat, i: nat)
    requires TablesOk(m) && Full(m) && d < SELF && t in m.phys && t != m.pd && i < ENTRIES
    requires Present(Pde(m, d)) && FrameOf(Pde(m, d)) == t && CoherentAt(m, WindowOf(d))
    ensures var m' := Written(m, t, i, 0);
            && TablesOk(m') && Filled(m') == m' && Full(m') && CoherentAt(m', WindowOf(d))
            && Walk(m', WindowOf(d)) == Some(t) && Pde(m', d) == Pde(m, d)
  {
    var m' := Written(m, t, i, 0);
    TableWrite(m, t, i, 0);
    WindowWalks(m, d);
    WindowWalks(m', d);
    forall e: (nat, nat) ensures e in Current(m') ==> e in m.tlb {
      CurrentIs(m', e);
      assert Translates(m', e) ==> Translates(m, e);
    }
  }

  /** Freeing a frame that holds no paging structure. */
  lemma FrameFreed(m: Mmu, free: set<nat>, f: nat)
    requires MmuOk(m, free) && Unlinked(m, f)
    ensures MmuOk(m, free + {f})
  {
  }

  class AddressSpace {
    const frames: FrameAllocator
    const pd: nat
    var phys: Tables
    var tlb: set<(nat, nat)>

    function M(): Mmu
      reads this
    {
      Mmu(pd, phys, tlb)
    }

    ghost predicate Valid()
      reads this, frames, frames.lowRamBitF
    {
      frames.Valid() && MmuOk(M(), frames.free)
    }

    constructor (frames: FrameAllocator, m: Mmu)
      ensures this.frames == frames && M() == m
    {
      this.frames, pd, phys, tlb := frames, m.pd, m.phys, m.tlb;
    }

    /** A load through the processor: any cached translation of the page may be used. */
    method Load(va: nat, ghost f: nat) returns (w: nat)
      requires TablesOk(M()) && Full(M()) && VPage(va) < VPAGES
      requires Walk(M(), VPage(va)) == Some(f) && CoherentAt(M(), VPage(va)) && f in phys
      ensures w == phys[f][WordIn(va)]
    {
      assert Translates(M(), (VPage(va), f));
      var e :| e in tlb && e.0 == VPage(va);
      assert Translates(M(), e);
      w := phys[e.1][WordIn(va)];
    }

    /** A store through the processor; afterwards the caches may fill with what is current then. */
    method Store(va: nat, w: nat, ghost f: nat)
      requires TablesOk(M()) && Full(M()) && VPage(va) < VPAGES
      requires Walk(M(), VPage(va)) == Some(f) && CoherentAt(M(), VPage(va)) && f in phys
      requires TablesOk(Written(M(), f, WordIn(va), w))
      modifies this
      ensures M() == Filled(Written(old(M()), f, WordIn(va), w))
    {
      assert Translates(M(), (VPage(va), f));
      var e :| e in tlb && e.0 == VPage(va);
      assert Translates(M(), e);
      var table: seq<nat> := phys[e.1][WordIn(va) := w];
      phys := phys[e.1 := table];
      tlb := tlb + Current(M());
    }

    method FlushTlb(va: nat)
      requires TablesOk(M())
      modifies this
      ensures M() == Filled(Dropped(old(M()), VPage(va)))
    {
      var vp := VPage(va);
      tlb := set e | e in tlb && e.0 != vp;
      tlb := tlb + Current(M());
    }

    /** get_physaddr */
    method GetPhysaddr(va: nat) returns (pa: nat)
      requires Valid() && va < MEMORY
      ensures pa == PhysAddr(M(), va)
    {
      Indices(va);
      var pdindex, ptindex := va / 0x40_0000, va / 0x1000 % 0x400;
      WindowWalks(M(), SELF);
      WindowAddress(SELF, pdindex);
      var pde := Load(DIRECTORY + 4 * pdindex, pd);
      if pde % 2 == 0 {
        return 0;
      }
      WindowWalks(M(), pdindex);
      WindowAddress(pdindex, ptindex);
      var pte := Load(WINDOWS + PAGE * pdindex + 4 * ptindex, FrameOf(pde));
      if pte % 2 == 0 {
        return 0;
      }
      return pte / PAGE * PAGE + va % PAGE;
    }

    /** Store the entry of the page of va through its table's window, and flush that page. */
    method PutEntry(va: nat, w: nat)
      requires Valid() && va < MEMORY && !InSlot(VPage(va), SELF) && Present(Pde(M(), VPage(va) / ENTRIES))
      modifies this
      ensures Valid() && M() == PagePut(old(M()), VPage(va), w)
    {
      ghost var m := M();
      Indices(va);
      var pdindex, ptindex := va / 0x40_0000, va / 0x1000 % 0x400;
      WindowWalks(m, pdindex);
      WindowAddress(pdindex, ptindex);
      TableWrite(m, FrameOf(Pde(m, pdindex)), ptindex, w);
      Store(WINDOWS + PAGE * pdindex + 4 * ptindex, w, FrameOf(Pde(m, pdindex)));
      FlushTlb(va);
      PagePutKeeps(m, frames.free, VPage(va), w);
    }

    /** mm_unmap. It faults exactly when the directory slot is empty, because the table it writes to
        is then not mapped itself. */
    method MmUnmap(va: nat) returns (fault: bool)
      requires Valid() && va < MEMORY && !InSlot(VPage(va), SELF)
      modifies this
      ensures Valid()
      ensures fault <==> !Present(Pde(old(M()), VPage(va) / ENTRIES))
      ensures fault ==> M() == old(M())
      ensures !fault ==> M() == PagePut(old(M()), VPage(va), 0) && PhysAddr(M(), va) == 0
      ensures !fault ==> RightsOf(M(), VPage(va)) == None
    {
      Indices(va);
      var window := VPage(WINDOWS + PAGE * (va / 0x40_0000));
      WindowAddress(va / 0x40_0000, 0);
      WindowWalks(M(), va / 0x40_0000);
      fault := Walk(M(), window).None?;
      if !fault {
        PagePutWalk(M(), VPage(va), 0);
        PagePutRights(M(), VPage(va), 0);
        PutEntry(va, 0);
      }
    }

    /** d has the table in frame t, and the table can be written through its window. */
    ghost predicate Writable(d: nat, t: nat)
      reads this
    {
      && TablesOk(M()) && Full(M()) && d < SELF && t in phys && t != pd
      && Present(Pde(M(), d)) && FrameOf(Pde(M(), d)) == t && CoherentAt(M(), WindowOf(d))
    }

    method ClearEntry(d: nat, i: nat, ghost t: nat)
      requires Writable(d, t) && i < ENTRIES
      modifies this
      ensures Writable(d, t) && M() == Written(old(M()), t, i, 0)
    {
      WindowAddress(d, i);
      WindowWalks(M(), d);
      ClearOne(M(), d, t, i);
      Store(WINDOWS + PAGE * d + 4 * i, 0, t);
    }

    /** The memset of a new page table, through its window. */
    method ClearTable(d: nat, ghost t: nat)
      requires Writable(d, t)
      modifies this
      ensures M() == Cleared(old(M()), t)
    {
      ghost var phys0, tlb0 := phys, tlb;
      for i := 0 to ENTRIES
        invariant Writable(d, t)
        invariant tlb == tlb0 && phys == phys0[t := phys[t]]
        invariant forall j :: 0 <= j < i ==> phys[t][j] == 0
      {
        ClearEntry(d, i, t);
      }
      assert phys[t] == Zeros(ENTRIES);
    }

    /** Point an empty directory slot at a new, zeroed table in frame t. */
    method InstallTable(d: nat, w: nat)
      requires TablesOk(M()) && MmuOk(M(), frames.free + {FrameOf(w)}) && d < SELF && !Present(Pde(M(), d))
      requires Present(w) && FrameOf(w) !in frames.free && FrameOf(w) < PAGES
      modifies this
      ensures MmuOk(M(), frames.free) && M() == Installed(old(M()), d, w)
    {
      ghost var m, free := M(), frames.free + {FrameOf(w)};
      WindowWalks(m, SELF);
      WindowAddress(SELF, d);
      LinkedWindow(m, free, d, w);
      DirectoryWrite(m, d, w);
      assert CoherentAt(m, WindowOf(SELF));
      Store(DIRECTORY + 4 * d, w, pd);
      ClearTable(d, FrameOf(w));
      InstalledKeeps(m, free, d, w);
      assert free - {FrameOf(w)} == frames.free;
    }

    /** get_physaddr, mm_unmap and pa_free in a row (kmalloc.c:266-268). */
    method Release(va: nat, ghost f: nat)
      requires Valid() && va < MEMORY && va % PAGE == 0 && !InSlot(VPage(va), SELF)
      requires Walk(M(), VPage(va)) == Some(f) && f < PAGES && Unlinked(M(), f)
      modifies this, frames, frames.lowRamBitF
      ensures Present(Pde(old(M()), VPage(va) / ENTRIES))
      ensures Valid() && M() == PagePut(old(M()), VPage(va), 0) && frames.free == old(frames.free) + {f}
    {
      ghost var m, free := M(), frames.free;
      var freeAddr := GetPhysaddr(va);
      assert freeAddr == f * PAGE;
      var fault := MmUnmap(va);
      PagePutWalk(m, VPage(va), 0);
      FrameFreed(M(), free, f);
      frames.PaFree(freeAddr);
    }

    /** Make a page table from the lowest free frame; without one the call panics (ok is false). */
    method MakeTable(d: nat, flags: nat) returns (ok: bool, ghost t: nat)
      requires Valid() && d < SELF && !Present(Pde(M(), d))
      modifies this, frames, frames.lowRamBitF
      ensures frames.Valid()
      ensures !ok <==> old(frames.free) == {}
      ensures !ok ==> frames.free == {}
      ensures ok ==> t in old(frames.free) && t < PAGES && forall q :: q in old(frames.free) ==> t <= q
      ensures ok ==> frames.free == old(frames.free) - {t} && Valid()
      ensures ok ==> var w := EntryWord(t * PAGE, flags);
                     Present(w) && FrameOf(w) == t && Unlinked(old(M()), t) && M() == Installed(old(M()), d, w)
      ensures ok ==> forall k :: 0 <= k < FLAG_BITS ==>
                       (HasBit(EntryWord(t * PAGE, flags), k) <==> k == PRESENT_BIT || HasBit(flags, k))
    {
      ghost var m, free := M(), frames.free;
      var r := frames.PaAlloc();
      t := 0;
      if r.None? {
        return false, 0;
      }
      t := r.value / PAGE;
      EntryIs(r.value, flags);
      FreeFrameIsUnlinked(m, free, t);
      assert frames.free + {t} == free;
      InstallTable(d, EntryWord(r.value, flags));
      forall k | 0 <= k < FLAG_BITS
        ensures HasBit(EntryWord(t * PAGE, flags), k) <==> k == PRESENT_BIT || HasBit(flags, k)
      {
        EntryFlags(t * PAGE, flags, k);
      }
      return true, t;
    }

    /** The first half of mm_map: afterwards the directory slot of va has a table. */
    method EnsureTable(va: nat, flags: nat) returns (ok: bool, ghost t: nat)
      requires Valid() && va < MEMORY && !InSlot(VPage(va), SELF)
      modifies this, frames, frames.lowRamBitF
      ensures ok ==> Valid()
      ensures ok <==> Present(Pde(old(M()), VPage(va) / ENTRIES)) || old(frames.free) != {}
      ensures frames.Valid() && frames.free == old(frames.free) - TakenFor(old(M()), VPage(va), t)
      ensures ok ==> TableFrameOk(old(M()), old(frames.free), VPage(va), t)
      ensures ok ==> MapOk(old(M()), VPage(va), EntryWord(t * PAGE, flags))
                     && M() == WithTable(old(M()), VPage(va), EntryWord(t * PAGE, flags))
    {
      Indices(va);
      var pdindex := va / 0x40_0000;
      WindowWalks(M(), SELF);
      WindowAddress(SELF, pdindex);
      var pde := Load(DIRECTORY + 4 * pdindex, pd);
      ok, t := true, 0;
      if pde % 2 == 0 {
        ok, t := MakeTable(pdindex, flags);
      }
    }

    /** mm_map. */
    method MmMap(physaddr: nat, va: nat, flags: nat) returns (r: MapResult, ghost t: nat)
      requires Valid() && va < MEMORY && physaddr < MEMORY && !InSlot(VPage(va), SELF)
      modifies this, frames, frames.lowRamBitF
      ensures r == NullAddress <==> physaddr == 0
      ensures r == NullAddress ==> M() == old(M()) && frames.free == old(frames.free) && Valid()
      ensures r == Panic <==> physaddr != 0 && !Present(Pde(old(M()), VPage(va) / ENTRIES)) && old(frames.free) == {}
      ensures r == Panic ==> frames.free == {}
      ensures r == Done ==> Valid() && TableFrameOk(old(M()), old(frames.free), VPage(va), t)
      ensures r == Done ==> frames.free == old(frames.free) - TakenFor(old(M()), VPage(va), t)
      ensures r == Done ==>
                var dw := EntryWord(t * PAGE, flags);
                MapOk(old(M()), VPage(va), dw) && M() == Mapped(old(M()), VPage(va), EntryWord(physaddr, flags), dw)
      ensures r == Done ==> PhysAddr(M(), va) == physaddr / PAGE * PAGE + va % PAGE
      ensures r == Done && physaddr % PAGE == 0 ==>
                var pde := Pde(old(M()), VPage(va) / ENTRIES);
                RightsOf(M(), VPage(va)) == Some(if Present(pde) then Both(Asked(pde), Asked(flags)) else Asked(flags))
    {
      ghost var m := M();
      if physaddr == 0 {
        return NullAddress, 0;
      }
      var ok;
      ok, t := EnsureTable(va, flags);
      if !ok {
        return Panic, 0;
      }
      MappedLeadsThere(m, va, physaddr, flags, EntryWord(t * PAGE, flags));
      if physaddr % PAGE == 0 {
        MappedAsAsked(m, VPage(va), physaddr, flags, t);
      }
      PutEntry(va, EntryWord(physaddr, flags));
      return Done, t;
    }
  }

  /** Frames that mm_map takes for page tables: t if the slot of v was empty, none otherwise. */
  function TakenFor(m: Mmu, v: nat, t: nat): set<nat>
    requires TablesOk(m) && v < VPAGES
  {
    if Present(Pde(m, v / ENTRIES)) then {} else {t}
  }

  /** t is the lowest free frame, if one was needed. */
  ghost predicate TableFrameOk(m: Mmu, free: set<nat>, v: nat, t: nat)
    requires TablesOk(m) && v < VPAGES
  {
    Present(Pde(m, v / ENTRIES)) || (t in free && t < PAGES && forall q :: q in free ==> t <= q)
  }
}
