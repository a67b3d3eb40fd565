/** Two-level 32-bit paging (Intel SDM volume 3A, section 4.3) as mm.c sets it up: one page directory
    whose last entry points back at the directory itself, so that the page tables can be reached
    through virtual addresses. Page tables are kept by physical frame, 1024 words each. */
module PageTables {
  import opened Frames
  import opened Options

  const ENTRIES := 1024
  const SELF := 1023
  const VPAGES := 0x10_0000

  // ---- Entries --------------------------------------------------------------------------

  /** Bitwise or of two unsigned words. */
  function BitOr(a: nat, b: nat): nat
    decreases a + b
  {
    if a == 0 && b == 0 then 0
    else 2 * BitOr(a / 2, b / 2) + (if a % 2 == 1 || b % 2 == 1 then 1 else 0)
  }

  predicate Present(w: nat) {
    w % 2 == 1
  }

  function FrameOf(w: nat): nat {
    w / PAGE
  }

  /** The word that mm_map stores: the address with the low twelve bits of the flags, marked present. */
  function EntryWord(physaddr: nat, flags: nat): nat {
    BitOr(BitOr(physaddr, flags % PAGE), 1)
  }

  lemma BitOrHalves(a: nat, b: nat)
    ensures BitOr(a, b) / 2 == BitOr(a / 2, b / 2)
  {
  }

  lemma BitOrNothing(a: nat)
    ensures BitOr(a, 0) == a
  {
  }

  /** x without its lowest k bits. */
  function Shifted(x: nat, k: nat): nat {
    if k == 0 then x else Shifted(x / 2, k - 1)
  }

  lemma {:induction false} BitOrShifted(a: nat, b: nat, k: nat)
    ensures Shifted(BitOr(a, b), k) == BitOr(Shifted(a, k), Shifted(b, k))
  {
    if k > 0 {
      BitOrHalves(a, b);
      BitOrShifted(a / 2, b / 2, k - 1);
    }
  }

  lemma {:induction false} ShiftedTwice(x: nat, j: nat, k: nat)
    ensures Shifted(x, j + k) == Shifted(Shifted(x, j), k)
  {
    if j > 0 {
      ShiftedTwice(x / 2, j - 1, k);
    }
  }

  lemma ShiftedByFour(x: nat)
    ensures Shifted(x, 4) == x / 16
  {
    var y := x / 2 / 2;
    assert Shifted(x, 4) == Shifted(x / 2, 3) == Shifted(y, 2) == Shifted(y / 2, 1) == y / 2 / 2;
  }

  lemma ShiftedByTwelve(x: nat)
    ensures Shifted(x, 12) == x / PAGE
  {
    ShiftedTwice(x, 4, 8);
    ShiftedTwice(Shifted(x, 4), 4, 4);
    ShiftedByFour(x);
    ShiftedByFour(x / 16);
    ShiftedByFour(x / 16 / 16);
  }

  /** Or-ing flags into the low 12 bits leaves the frame number alone. */
  lemma FrameKept(w: nat, flags: nat)
    requires flags < PAGE
    ensures FrameOf(BitOr(w, flags)) == FrameOf(w)
  {
    ShiftedByTwelve(BitOr(w, flags));
    ShiftedByTwelve(w);
    ShiftedByTwelve(flags);
    BitOrShifted(w, flags, 12);
    BitOrNothing(w / PAGE);
  }

  lemma OddIsPresent(a: nat, b: nat)
    requires b % 2 == 1
    ensures Present(BitOr(a, b))
  {
  }

  /** An entry written by mm_map is present and points to the frame of its physical address. */
  lemma EntryIs(physaddr: nat, flags: nat)
    ensures Present(EntryWord(physaddr, flags)) && FrameOf(EntryWord(physaddr, flags)) == physaddr / PAGE
  {
    var low := flags % PAGE;
    var x := BitOr(physaddr, low);
    FrameKept(physaddr, low);
    FrameKept(x, 1);
    OddIsPresent(x, 1);
  }

  // ---- Translation ----------------------------------------------------------------------

  type Tables = map<nat, seq<nat>>

  /** Physical memory holding paging structures, the directory's frame, and the translations a
      processor may have cached since they last were flushed. */
  datatype Mmu = Mmu(pd: nat, phys: Tables, tlb: set<(nat, nat)>)

  predicate TablesOk(m: Mmu) {
    && m.pd in m.phys
    && (forall f :: f in m.phys ==> |m.phys[f]| == ENTRIES)
    && (forall i :: 0 <= i < ENTRIES && Present(m.phys[m.pd][i]) ==> FrameOf(m.phys[m.pd][i]) in m.phys)
    && Present(m.phys[m.pd][SELF]) && FrameOf(m.phys[m.pd][SELF]) == m.pd
    && (forall i :: 0 <= i < SELF && Present(m.phys[m.pd][i]) ==> FrameOf(m.phys[m.pd][i]) != m.pd)
  }

  function Pde(m: Mmu, i: nat): nat
    requires TablesOk(m) && i < ENTRIES
  {
    m.phys[m.pd][i]
  }

  /** Two directory slots lead to one page table. */
  predicate Shares(m: Mmu, i: nat, j: nat)
    requires TablesOk(m) && i < ENTRIES && j < ENTRIES
  {
    Present(Pde(m, i)) && Present(Pde(m, j)) && FrameOf(Pde(m, i)) == FrameOf(Pde(m, j))
  }

  /** The processor's page walk: the frame of a virtual page, if it is mapped. */
  function Walk(m: Mmu, vp: nat): Option<nat>
    requires TablesOk(m) && vp < VPAGES
  {
    var pde := Pde(m, vp / ENTRIES);
    if !Present(pde) then None
    else
      var pte := m.phys[FrameOf(pde)][vp % ENTRIES];
      if Present(pte) then Some(FrameOf(pte)) else None
  }

  predicate Translates(m: Mmu, e: (nat, nat))
    requires TablesOk(m)
  {
    e.0 < VPAGES && Walk(m, e.0) == Some(e.1)
  }

  /** Everything the page tables translate right now. */
  function Current(m: Mmu): set<(nat, nat)>
    requires TablesOk(m)
  {
    set vp | 0 <= vp < VPAGES && Walk(m, vp).Some? :: (vp, Walk(m, vp).value)
  }

  lemma CurrentIs(m: Mmu, e: (nat, nat))
    requires TablesOk(m)
    ensures e in Current(m) <==> Translates(m, e)
  {
  }

  /** The processor may cache any current translation at any time. */
  function Filled(m: Mmu): Mmu
    requires TablesOk(m)
  {
    Mmu(m.pd, m.phys, m.tlb + Current(m))
  }

  ghost predicate Full(m: Mmu)
    requires TablesOk(m)
  {
    forall e :: Translates(m, e) ==> e in m.tlb
  }

  /** Whatever is cached for page vp agrees with the tables. */
  ghost predicate CoherentAt(m: Mmu, vp: nat)
    requires TablesOk(m)
  {
    forall e :: e in m.tlb && e.0 == vp ==> Translates(m, e)
  }

  ghost predicate Coherent(m: Mmu)
    requires TablesOk(m)
  {
    forall e :: e in m.tlb ==> Translates(m, e)
  }

  // ---- The two primitive effects --------------------------------------------------------

  function Written(m: Mmu, f: nat, i: nat, w: nat): Mmu
    requires TablesOk(m) && f in m.phys && i < ENTRIES
  {
    var table: seq<nat> := m.phys[f][i := w];
    Mmu(m.pd, m.phys[f := table], m.tlb)
  }

  /** invlpg */
  function Dropped(m: Mmu, vp: nat): Mmu {
    Mmu(m.pd, m.phys, set e | e in m.tlb && e.0 != vp)
  }

  /** Rewriting an entry of a page table that is not the directory. */
  lemma TableWrite(m: Mmu, f: nat, i: nat, w: nat)
    requires TablesOk(m) && f in m.phys && f != m.pd && i < ENTRIES
    ensures TablesOk(Written(m, f, i, w))
    ensures forall j :: 0 <= j < ENTRIES ==> Pde(Written(m, f, i, w), j) == Pde(m, j)
    ensures forall q :: 0 <= q < VPAGES ==>
              Walk(Written(m, f, i, w), q) ==
              if Present(Pde(m, q / ENTRIES)) && FrameOf(Pde(m, q / ENTRIES)) == f && q % ENTRIES == i
              then (if Present(w) then Some(FrameOf(w)) else None)
              else Walk(m, q)
  {
  }

  /** Pointing an empty directory slot at a frame. */
  lemma DirectoryWrite(m: Mmu, d: nat, w: nat)
    requires TablesOk(m) && d < SELF && !Present(Pde(m, d))
    requires Present(w) && FrameOf(w) in m.phys && FrameOf(w) != m.pd
    ensures TablesOk(Written(m, m.pd, d, w)) && Pde(Written(m, m.pd, d, w), d) == w
    ensures forall j :: 0 <= j < ENTRIES && j != d ==> Pde(Written(m, m.pd, d, w), j) == Pde(m, j)
    ensures forall q :: 0 <= q < VPAGES ==>
              Walk(Written(m, m.pd, d, w), q) ==
              if q / ENTRIES == d then
                var pte := m.phys[FrameOf(w)][q % ENTRIES];
                if Present(pte) then Some(FrameOf(pte)) else None
              else if q == WindowOf(d) then Some(FrameOf(w))
              else Walk(m, q)
  {
    var m' := Written(m, m.pd, d, w);
    assert TablesOk(m');
    forall q | 0 <= q < VPAGES && q / ENTRIES != d ensures Pde(m', q / ENTRIES) == Pde(m, q / ENTRIES) {
    }
  }

  // ---- The self-map ---------------------------------------------------------------------

  /** The virtual page through which the table of directory slot d is seen: 0xFFC00 + d. */
  function WindowOf(d: nat): nat {
    SELF * ENTRIES + d
  }

  /** Why the recursive slot works: the window of a present slot is mapped to its page table. */
  lemma WindowWalks(m: Mmu, d: nat)
    requires TablesOk(m) && d < ENTRIES
    ensures Walk(m, WindowOf(d)) == if Present(Pde(m, d)) then Some(FrameOf(Pde(m, d))) else None
  {
    assert WindowOf(d) / ENTRIES == SELF && WindowOf(d) % ENTRIES == d;
  }

  /** Pages of different slots are different, and no window is a page of another slot. */
  predicate InSlot(q: nat, d: nat) {
    q / ENTRIES == d
  }

  // ---- mm_map and mm_unmap with the directory entry present -----------------------------

  /** The entry of page v rewritten. */
  function EntryWritten(m: Mmu, v: nat, w: nat): (r: Mmu)
    requires TablesOk(m) && v < VPAGES && !InSlot(v, SELF) && Present(Pde(m, v / ENTRIES))
    ensures TablesOk(r)
  {
    Written(m, FrameOf(Pde(m, v / ENTRIES)), v % ENTRIES, w)
  }

  /** Write the entry of page v, with the translation caches filling before and after the flush. */
  function PagePut(m: Mmu, v: nat, w: nat): Mmu
    requires TablesOk(m) && v < VPAGES && !InSlot(v, SELF) && Present(Pde(m, v / ENTRIES))
  {
    Filled(Dropped(Filled(EntryWritten(m, v, w)), v))
  }

  /** Page q is translated by the very entry that translates page v. */
  predicate Alias(m: Mmu, q: nat, v: nat)
    requires TablesOk(m) && q < VPAGES && v < VPAGES
  {
    q % ENTRIES == v % ENTRIES && Shares(m, q / ENTRIES, v / ENTRIES)
  }

  function Target(w: nat): Option<nat> {
    if Present(w) then Some(FrameOf(w)) else None
  }

  /** After the write, v and its aliases translate to the new entry, every other page as before. */
  lemma PagePutWalk(m: Mmu, v: nat, w: nat)
    requires TablesOk(m) && v < VPAGES && !InSlot(v, SELF) && Present(Pde(m, v / ENTRIES))
    ensures TablesOk(PagePut(m, v, w))
    ensures forall j :: 0 <= j < ENTRIES ==> Pde(PagePut(m, v, w), j) == Pde(m, j)
    ensures forall q :: 0 <= q < VPAGES ==>
              Walk(PagePut(m, v, w), q) == if Alias(m, q, v) then Target(w) else Walk(m, q)
  {
    TableWrite(m, FrameOf(Pde(m, v / ENTRIES)), v % ENTRIES, w);
  }

  /** What may be cached afterwards: for v the new translation only; elsewhere what was cached
      before, plus the current translation. */
  lemma PagePutCached(m: Mmu, v: nat, w: nat, e: (nat, nat))
    requires TablesOk(m) && v < VPAGES && !InSlot(v, SELF) && Present(Pde(m, v / ENTRIES))
    ensures TablesOk(PagePut(m, v, w))
    ensures e in PagePut(m, v, w).tlb <==> Translates(PagePut(m, v, w), e) || (e.0 != v && e in m.tlb)
  {
    TableWrite(m, FrameOf(Pde(m, v / ENTRIES)), v % ENTRIES, w);
    CurrentIs(EntryWritten(m, v, w), e);
    CurrentIs(Dropped(Filled(EntryWritten(m, v, w)), v), e);
  }

  /** The flush of v is enough for v, and for every page that does not share its entry. A page that
      does share it keeps a stale cached translation exactly if it had one that changed. */
  lemma PagePutCoherentIff(m: Mmu, v: nat, w: nat, q: nat)
    requires TablesOk(m) && v < VPAGES && !InSlot(v, SELF) && Present(Pde(m, v / ENTRIES))
    requires Full(m) && q < VPAGES
    ensures TablesOk(PagePut(m, v, w)) && Full(PagePut(m, v, w))
    ensures q == v ==> CoherentAt(PagePut(m, v, w), q)
    ensures !Alias(m, q, v) ==> (CoherentAt(PagePut(m, v, w), q) <==> CoherentAt(m, q))
    ensures q != v && Alias(m, q, v) && CoherentAt(m, q) ==>
              (CoherentAt(PagePut(m, v, w), q) <==> Walk(m, q) == None || Walk(m, q) == Target(w))
  {
    PagePutWalk(m, v, w);
    forall e ensures e in PagePut(m, v, w).tlb <==> Translates(PagePut(m, v, w), e) || (e.0 != v && e in m.tlb) {
      PagePutCached(m, v, w, e);
    }
    if q != v && Alias(m, q, v) && Walk(m, q).Some? {
      assert Translates(m, (q, Walk(m, q).value));
    }
  }

  // ---- mm_map with the directory entry absent -------------------------------------------

  function Zeros(n: nat): (r: seq<nat>)
    ensures |r| == n && forall i :: 0 <= i < n ==> r[i] == 0
  {
    if n == 0 then [] else Zeros(n - 1) + [0]
  }

  /** Directory slot d pointed at a frame. */
  function SlotWritten(m: Mmu, d: nat, w: nat): (r: Mmu)
    requires TablesOk(m) && d < SELF && Present(w) && FrameOf(w) in m.phys && FrameOf(w) != m.pd
    ensures TablesOk(r)
  {
    Written(m, m.pd, d, w)
  }

  /** The new table right after it is linked in, with its old contents still in place, and then
      cleared through its window. */
  function Linked(m: Mmu, d: nat, w: nat): Mmu
    requires TablesOk(m) && d < SELF && !Present(Pde(m, d))
    requires Present(w) && FrameOf(w) in m.phys && FrameOf(w) != m.pd
  {
    Filled(SlotWritten(m, d, w))
  }

  function Cleared(m: Mmu, t: nat): Mmu {
    Mmu(m.pd, m.phys[t := Zeros(ENTRIES)], m.tlb)
  }

  function Installed(m: Mmu, d: nat, w: nat): Mmu
    requires TablesOk(m) && d < SELF && !Present(Pde(m, d))
    requires Present(w) && FrameOf(w) in m.phys && FrameOf(w) != m.pd
  {
    Cleared(Linked(m, d, w), FrameOf(w))
  }

  /** A frame that no directory slot points to. */
  predicate Unlinked(m: Mmu, t: nat)
    requires TablesOk(m)
  {
    t in m.phys && t != m.pd && forall i :: 0 <= i < ENTRIES && Present(Pde(m, i)) ==> FrameOf(Pde(m, i)) != t
  }

  /** A fresh table changes no translation but that of its own window. */
  lemma InstalledWalk(m: Mmu, d: nat, w: nat)
    requires TablesOk(m) && d < SELF && !Present(Pde(m, d))
    requires Present(w) && Unlinked(m, FrameOf(w))
    ensures TablesOk(Installed(m, d, w)) && Pde(Installed(m, d, w), d) == w
    ensures forall j :: 0 <= j < ENTRIES && j != d ==> Pde(Installed(m, d, w), j) == Pde(m, j)
    ensures forall q :: 0 <= q < VPAGES ==>
              Walk(Installed(m, d, w), q) == if q == WindowOf(d) then Some(FrameOf(w)) else Walk(m, q)
  {
    DirectoryWrite(m, d, w);
    var m' := Installed(m, d, w);
    assert TablesOk(m');
    forall q | 0 <= q < VPAGES
      ensures Walk(m', q) == if q == WindowOf(d) then Some(FrameOf(w)) else Walk(m, q)
    {
      assert Pde(m', q / ENTRIES) == Pde(Written(m, m.pd, d, w), q / ENTRIES);
    }
  }

  /** What may be cached once the table is clear: what was cached before, the window, and whatever
      the old contents of the frame passed for while it was already linked in. */
  lemma InstalledCached(m: Mmu, d: nat, w: nat, e: (nat, nat))
    requires TablesOk(m) && Full(m) && d < SELF && !Present(Pde(m, d))
    requires Present(w) && Unlinked(m, FrameOf(w))
    ensures e in Installed(m, d, w).tlb <==>
              e in m.tlb || e == (WindowOf(d), FrameOf(w))
              || (e.0 / ENTRIES == d && Target(m.phys[FrameOf(w)][e.0 % ENTRIES]) == Some(e.1))
  {
    DirectoryWrite(m, d, w);
    CurrentIs(SlotWritten(m, d, w), e);
    assert WindowOf(d) < VPAGES && WindowOf(d) / ENTRIES == SELF;
    if Translates(m, e) {
      assert e in m.tlb;
    }
  }

  // ---- mm_map as a whole ----------------------------------------------------------------

  /** What mm_map may be called for: a page outside the self-map, and, when its directory slot is
      still empty, an entry for the slot that points at an unlinked frame. */
  predicate MapOk(m: Mmu, v: nat, dw: nat)
    requires TablesOk(m)
  {
    v < VPAGES && !InSlot(v, SELF)
    && (!Present(Pde(m, v / ENTRIES)) ==> Present(dw) && Unlinked(m, FrameOf(dw)))
  }

  function WithTable(m: Mmu, v: nat, dw: nat): (r: Mmu)
    requires TablesOk(m) && MapOk(m, v, dw)
    ensures TablesOk(r) && Present(Pde(r, v / ENTRIES))
  {
    if Present(Pde(m, v / ENTRIES)) then m else Installed(m, v / ENTRIES, dw)
  }

  function Mapped(m: Mmu, v: nat, w: nat, dw: nat): Mmu
    requires TablesOk(m) && MapOk(m, v, dw)
  {
    PagePut(WithTable(m, v, dw), v, w)
  }

  /** mm_map gives page v its new frame. Every other page keeps its translation, except the pages
      that share v's very entry and the window of a table that was freshly installed. */
  lemma MappedWalk(m: Mmu, v: nat, w: nat, dw: nat)
    requires TablesOk(m) && MapOk(m, v, dw)
    ensures TablesOk(Mapped(m, v, w, dw))
    ensures forall q :: 0 <= q < VPAGES ==>
              Walk(Mapped(m, v, w, dw), q) ==
              if q == v || Alias(m, q, v) then Target(w)
              else if !Present(Pde(m, v / ENTRIES)) && q == WindowOf(v / ENTRIES) then Some(FrameOf(dw))
              else Walk(m, q)
  {
    var d, m1 := v / ENTRIES, WithTable(m, v, dw);
    if !Present(Pde(m, d)) {
      InstalledWalk(m, d, dw);
      forall q | 0 <= q < VPAGES && Alias(m1, q, v) ensures q == v {
        assert q / ENTRIES == d;
      }
    }
    PagePutWalk(m1, v, w);
  }

  lemma InstalledFull(m: Mmu, d: nat, w: nat)
    requires TablesOk(m) && Full(m) && d < SELF && !Present(Pde(m, d))
    requires Present(w) && Unlinked(m, FrameOf(w))
    ensures TablesOk(Installed(m, d, w)) && Full(Installed(m, d, w))
  {
    InstalledWalk(m, d, w);
    forall e | Translates(Installed(m, d, w), e) ensures e in Installed(m, d, w).tlb {
      InstalledCached(m, d, w, e);
    }
  }

  /** A fresh table leaves a stale translation for page q cached exactly if q lies in its slot and
      the frame's old contents held a present entry there. */
  lemma InstalledCoherentIff(m: Mmu, d: nat, w: nat, q: nat)
    requires TablesOk(m) && Full(m) && d < SELF && !Present(Pde(m, d))
    requires Present(w) && Unlinked(m, FrameOf(w)) && q < VPAGES && CoherentAt(m, q)
    ensures TablesOk(Installed(m, d, w))
    ensures CoherentAt(Installed(m, d, w), q) <==>
              !(InSlot(q, d) && Present(m.phys[FrameOf(w)][q % ENTRIES]))
  {
    InstalledWalk(m, d, w);
    var m' := Installed(m, d, w);
    forall e ensures e in m'.tlb <==> e in m.tlb || e == (WindowOf(d), FrameOf(w))
                                      || (InSlot(e.0, d) && Target(m.phys[FrameOf(w)][e.0 % ENTRIES]) == Some(e.1)) {
      InstalledCached(m, d, w, e);
    }
    if InSlot(q, d) {
      assert Walk(m, q) == None && Walk(m', q) == None;
      var before := m.phys[FrameOf(w)][q % ENTRIES];
      if Present(before) {
        assert (q, FrameOf(before)) in m'.tlb;
      }
    } else if q == WindowOf(d) {
      WindowWalks(m, d);
    }
  }

  /** Page by page, what mm_map leaves cached. */
  lemma MappedCoherentAtIff(m: Mmu, v: nat, w: nat, dw: nat, q: nat)
    requires TablesOk(m) && MapOk(m, v, dw) && Full(m) && q < VPAGES && CoherentAt(m, q)
    ensures TablesOk(Mapped(m, v, w, dw)) && Full(Mapped(m, v, w, dw))
    ensures CoherentAt(Mapped(m, v, w, dw), q) <==>
              || q == v
              || (if Present(Pde(m, v / ENTRIES))
                  then !Alias(m, q, v) || Walk(m, q) == None || Walk(m, q) == Target(w)
                  else !(InSlot(q, v / ENTRIES) && Present(m.phys[FrameOf(dw)][q % ENTRIES])))
  {
    var d, m1 := v / ENTRIES, WithTable(m, v, dw);
    if !Present(Pde(m, d)) {
      InstalledFull(m, d, dw);
      InstalledCoherentIff(m, d, dw, q);
      InstalledWalk(m, d, dw);
      assert q != v ==> !Alias(m1, q, v);
    }
    PagePutCoherentIff(m1, v, w, q);
  }

  /** Is every translation that may still be cached after mm_map a current one? With the table
      already present: unless a page sharing the entry had another translation. With a new table:
      exactly if the frame it was made from held no present entry, apart from v's own. */
  lemma MappedCoherentIff(m: Mmu, v: nat, w: nat, dw: nat)
    requires TablesOk(m) && MapOk(m, v, dw) && Full(m) && Coherent(m)
    ensures TablesOk(Mapped(m, v, w, dw))
    ensures Coherent(Mapped(m, v, w, dw)) <==>
              if Present(Pde(m, v / ENTRIES))
              then forall q :: 0 <= q < VPAGES && q != v && Alias(m, q, v) ==>
                                 Walk(m, q) == None || Walk(m, q) == Target(w)
              else forall j :: 0 <= j < ENTRIES && j != v % ENTRIES ==> !Present(m.phys[FrameOf(dw)][j])
  {
    var m', d := Mapped(m, v, w, dw), v / ENTRIES;
    MappedWalk(m, v, w, dw);
    forall q | 0 <= q < VPAGES
      ensures CoherentAt(m', q) <==>
              q == v || (if Present(Pde(m, d)) then !Alias(m, q, v) || Walk(m, q) == None || Walk(m, q) == Target(w)
                         else !(InSlot(q, d) && Present(m.phys[FrameOf(dw)][q % ENTRIES])))
    {
      MappedCoherentAtIff(m, v, w, dw, q);
    }
    CachedPagesExist(m, v, w, dw);
    assert Coherent(m') <==> forall q :: 0 <= q < VPAGES ==> CoherentAt(m', q);
    if !Present(Pde(m, d)) {
      forall j | 0 <= j < ENTRIES && j != v % ENTRIES
        ensures CoherentAt(m', d * ENTRIES + j) <==> !Present(m.phys[FrameOf(dw)][j])
      {
        var q := d * ENTRIES + j;
        assert q / ENTRIES == d && q % ENTRIES == j && q != v;
      }
    }
  }

  lemma CachedPagesExist(m: Mmu, v: nat, w: nat, dw: nat)
    requires TablesOk(m) && MapOk(m, v, dw) && Full(m) && Coherent(m)
    ensures forall e :: e in Mapped(m, v, w, dw).tlb ==> e.0 < VPAGES
  {
    var m1 := WithTable(m, v, dw);
    forall e | e in Mapped(m, v, w, dw).tlb ensures e.0 < VPAGES {
      PagePutCached(m1, v, w, e);
      PagePutWalk(m1, v, w);
      if e in m1.tlb && !Present(Pde(m, v / ENTRIES)) {
        InstalledCached(m, v / ENTRIES, dw, e);
      }
    }
  }
}
