/** What the low bits of entries say: who may read and write a page (Intel SDM volume 3A, section 4.6).
    An access needs the bit in the directory entry and in the page table entry. */
module PageRights {
  import opened Options
  import opened Frames
  import opened PageTables

  /** Bit numbers of PAGE_PRESENT, PAGE_WRITE and PAGE_USER. */
  const PRESENT_BIT := 0
  const WRITE_BIT := 1
  const USER_BIT := 2

  /** Number of bits below the frame number. */
  const FLAG_BITS := 12

  predicate HasBit(x: nat, k: nat) {
    Shifted(x, k) % 2 == 1
  }

  lemma {:induction false} BitOrParity(a: nat, b: nat)
    ensures BitOr(a, b) % 2 == 1 <==> a % 2 == 1 || b % 2 == 1
  {
    if a > 0 || b > 0 {
      var bit := if a % 2 == 1 || b % 2 == 1 then 1 else 0;
      assert BitOr(a, b) == 2 * BitOr(a / 2, b / 2) + bit;
      Remainder(BitOr(a, b), 2, BitOr(a / 2, b / 2), bit);
    }
  }

  lemma BitOrHas(a: nat, b: nat, k: nat)
    ensures HasBit(BitOr(a, b), k) <==> HasBit(a, k) || HasBit(b, k)
  {
    BitOrShifted(a, b, k);
    BitOrParity(Shifted(a, k), Shifted(b, k));
  }

  lemma {:induction false} ShiftedMultiple(n: nat, j: nat, k: nat)
    requires k <= j
    ensures Shifted(n * Power(j), k) == n * Power(j - k)
  {
    if k > 0 {
      assert n * Power(j) / 2 == n * Power(j - 1) by { Doubled(n, Power(j - 1)); }
      ShiftedMultiple(n, j - 1, k - 1);
    }
  }

  function Power(k: nat): nat {
    if k == 0 then 1 else 2 * Power(k - 1)
  }

  lemma Doubled(n: nat, p: nat)
    ensures n * (2 * p) == 2 * (n * p) && n * (2 * p) / 2 == n * p
  {
  }

  /** A page's address has no bits where the flags are. */
  lemma AlignedHasNone(physaddr: nat, k: nat)
    requires physaddr % PAGE == 0 && k < FLAG_BITS
    ensures !HasBit(physaddr, k)
  {
    var n := physaddr / PAGE;
    assert Power(FLAG_BITS) == PAGE by {
      assert Power(4) == 16;
      assert Power(8) == 256;
    }
    ShiftedMultiple(n, FLAG_BITS, k);
    Doubled(n, Power(FLAG_BITS - k - 1));
  }

  /** The flags below a page's address are the flags asked for, whatever else was passed along. */
  lemma {:induction false} LowBits(flags: nat, j: nat, k: nat)
    requires k < j
    ensures Power(j) > 0 && (HasBit(flags % Power(j), k) <==> HasBit(flags, k))
    decreases k
  {
    PowerPositive(j);
    PowerPositive(j - 1);
    HalfOfRest(flags, Power(j - 1));
    if k > 0 {
      LowBits(flags / 2, j - 1, k - 1);
    }
  }

  lemma PowerPositive(k: nat)
    ensures Power(k) > 0
  {
  }

  lemma HalfOfRest(x: nat, p: nat)
    requires p > 0
    ensures x % (2 * p) / 2 == x / 2 % p && x % (2 * p) % 2 == x % 2
  {
    var q, r := x / (2 * p), x % (2 * p);
    assert x == 2 * (p * q) + r;
    assert x / 2 == p * q + r / 2 && 0 <= r / 2 < p;
    Remainder(x / 2, p, q, r / 2);
  }

  lemma Remainder(x: nat, p: nat, q: nat, r: nat)
    requires p > 0 && x == p * q + r && r < p
    ensures x % p == r
  {
    var d := x / p - q;
    assert p * d == r - x % p;
    TimesAtLeast(p, d);
  }

  lemma TimesAtLeast(p: int, d: int)
    requires p > 0
    ensures d >= 1 ==> p * d >= p
    ensures d <= -1 ==> p * d <= -p
  {
  }

  /** An entry that mm_map writes for a page has exactly the flags asked for, and is present. */
  lemma EntryFlags(physaddr: nat, flags: nat, k: nat)
    requires physaddr % PAGE == 0 && k < FLAG_BITS
    ensures HasBit(EntryWord(physaddr, flags), k) <==> k == PRESENT_BIT || HasBit(flags, k)
  {
    assert Power(FLAG_BITS) == PAGE by {
      assert Power(4) == 16;
      assert Power(8) == 256;
    }
    BitOrHas(BitOr(physaddr, flags % PAGE), 1, k);
    BitOrHas(physaddr, flags % PAGE, k);
    AlignedHasNone(physaddr, k);
    LowBits(flags, FLAG_BITS, k);
    BitsOfOne(k);
  }

  lemma BitsOfOne(k: nat)
    ensures HasBit(1, k) <==> k == 0
  {
    if k > 0 { ShiftedZero(k - 1); }
  }

  lemma ShiftedZero(k: nat)
    ensures Shifted(0, k) == 0
  {
  }

  // ---- Rights of a page -----------------------------------------------------------------

  datatype Rights = Rights(write: bool, user: bool)

  const ALL := Rights(true, true)

  /** The rights that flags or an entry's low bits ask for. */
  function Asked(w: nat): Rights {
    Rights(HasBit(w, WRITE_BIT), HasBit(w, USER_BIT))
  }

  function Both(a: Rights, b: Rights): Rights {
    Rights(a.write && b.write, a.user && b.user)
  }

  /** What the processor allows on page q, if it is mapped. */
  function RightsOf(m: Mmu, q: nat): Option<Rights>
    requires TablesOk(m) && q < VPAGES
  {
    var pde := Pde(m, q / ENTRIES);
    if !Present(pde) then None
    else
      var pte := m.phys[FrameOf(pde)][q % ENTRIES];
      if Present(pte) then Some(Both(Asked(pde), Asked(pte))) else None
  }

  /** Rights through a directory entry and an entry just written. */
  function Through(pde: nat, w: nat): Option<Rights> {
    if Present(w) then Some(Both(Asked(pde), Asked(w))) else None
  }

  lemma PagePutRights(m: Mmu, v: nat, w: nat)
    requires TablesOk(m) && v < VPAGES && !InSlot(v, SELF) && Present(Pde(m, v / ENTRIES))
    ensures TablesOk(PagePut(m, v, w))
    ensures forall q :: 0 <= q < VPAGES ==>
              RightsOf(PagePut(m, v, w), q) ==
              if Alias(m, q, v) then Through(Pde(m, q / ENTRIES), w) else RightsOf(m, q)
  {
    PagePutWalk(m, v, w);
    var m' := EntryWritten(m, v, w);
    assert PagePut(m, v, w).phys == m'.phys;
    forall q | 0 <= q < VPAGES
      ensures RightsOf(PagePut(m, v, w), q) ==
              if Alias(m, q, v) then Through(Pde(m, q / ENTRIES), w) else RightsOf(m, q)
    {
      assert Pde(PagePut(m, v, w), q / ENTRIES) == Pde(m, q / ENTRIES);
    }
  }

  lemma InstalledRights(m: Mmu, d: nat, w: nat)
    requires TablesOk(m) && d < SELF && !Present(Pde(m, d))
    requires Present(w) && Unlinked(m, FrameOf(w))
    ensures TablesOk(Installed(m, d, w))
    ensures forall q :: 0 <= q < VPAGES ==>
              RightsOf(Installed(m, d, w), q) ==
              if q == WindowOf(d) then Through(Pde(m, SELF), w) else RightsOf(m, q)
  {
    InstalledWalk(m, d, w);
    var m' := Installed(m, d, w);
    forall q | 0 <= q < VPAGES
      ensures RightsOf(m', q) == if q == WindowOf(d) then Through(Pde(m, SELF), w) else RightsOf(m, q)
    {
      assert q / ENTRIES != d ==> Pde(m', q / ENTRIES) == Pde(m, q / ENTRIES);
    }
  }

  /** The directory entry that a page is mapped through, after mm_map. */
  function SlotWord(m: Mmu, v: nat, dw: nat): nat
    requires TablesOk(m) && v < VPAGES
  {
    if Present(Pde(m, v / ENTRIES)) then Pde(m, v / ENTRIES) else dw
  }

  /** No table in the heap's part of the directory, slots 769 to 772, takes rights away. */
  predicate HeapSlotsOpen(m: Mmu)
    requires TablesOk(m)
  {
    forall d :: 769 <= d <= 772 && Present(Pde(m, d)) ==> Asked(Pde(m, d)) == ALL
  }

  /** After mm_map, page v has the rights that its new entry and its directory entry both give; no other
      page's rights change, except those of pages that share v's entry and of a new table's window. */
  lemma MappedRights(m: Mmu, v: nat, w: nat, dw: nat)
    requires TablesOk(m) && MapOk(m, v, dw)
    ensures TablesOk(Mapped(m, v, w, dw))
    ensures forall q :: 0 <= q < VPAGES ==>
              RightsOf(Mapped(m, v, w, dw), q) ==
              if q == v then Through(SlotWord(m, v, dw), w)
              else if Alias(m, q, v) then Through(Pde(m, q / ENTRIES), w)
              else if !Present(Pde(m, v / ENTRIES)) && q == WindowOf(v / ENTRIES) then Through(Pde(m, SELF), dw)
              else RightsOf(m, q)
  {
    var d, m1 := v / ENTRIES, WithTable(m, v, dw);
    if !Present(Pde(m, d)) {
      InstalledWalk(m, d, dw);
      InstalledRights(m, d, dw);
      forall q | 0 <= q < VPAGES && Alias(m1, q, v) ensures q == v {
        assert q / ENTRIES == d;
      }
    }
    PagePutRights(m1, v, w);
  }

  lemma EntryAsks(physaddr: nat, flags: nat)
    requires physaddr % PAGE == 0
    ensures Present(EntryWord(physaddr, flags)) && Asked(EntryWord(physaddr, flags)) == Asked(flags)
  {
    EntryIs(physaddr, flags);
    EntryFlags(physaddr, flags, WRITE_BIT);
    EntryFlags(physaddr, flags, USER_BIT);
  }

  /** mm_map gives a page the rights asked for, as far as its directory entry goes; a directory entry
      made for it goes exactly as far. */
  lemma MappedAsAsked(m: Mmu, v: nat, physaddr: nat, flags: nat, t: nat)
    requires TablesOk(m) && physaddr % PAGE == 0 && MapOk(m, v, EntryWord(t * PAGE, flags))
    ensures var m' := Mapped(m, v, EntryWord(physaddr, flags), EntryWord(t * PAGE, flags));
            TablesOk(m') && RightsOf(m', v) ==
            Some(if Present(Pde(m, v / ENTRIES)) then Both(Asked(Pde(m, v / ENTRIES)), Asked(flags)) else Asked(flags))
  {
    MappedRights(m, v, EntryWord(physaddr, flags), EntryWord(t * PAGE, flags));
    EntryAsks(physaddr, flags);
    EntryAsks(t * PAGE, flags);
  }
}
