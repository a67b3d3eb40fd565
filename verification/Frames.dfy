/** The physical page allocator of mm.c: a bitmap of 120 words, one bit per 4 KiB page below 15 MiB,
    with a separate counter of free pages. A set bit is a free page. */
module Frames {
  import opened Bits
  import opened Options

  const WORDS := 120
  const PAGES := 3840
  const PAGE := 0x1000
  const LIMIT := 0xF0_0000
  const U32 := 0x1_0000_0000

  /** Unsigned 32-bit decrement and increment. */
  function Down(n: nat): nat {
    if n == 0 then U32 - 1 else n - 1
  }

  function Up(n: nat): nat {
    if n == U32 - 1 then 0 else n + 1
  }

  predicate IsFree(bits: seq<bv32>, p: nat) {
    p / 32 < |bits| && Bit(bits[p / 32], p % 32)
  }

  ghost function FreeBelow(bits: seq<bv32>, n: nat): set<nat> {
    if n == 0 then {}
    else if IsFree(bits, n - 1) then FreeBelow(bits, n - 1) + {n - 1}
    else FreeBelow(bits, n - 1)
  }

  ghost function FreePages(bits: seq<bv32>): set<nat> {
    FreeBelow(bits, 32 * |bits|)
  }

  lemma {:induction false} FreeBelowIs(bits: seq<bv32>, n: nat, p: nat)
    ensures p in FreeBelow(bits, n) <==> p < n && IsFree(bits, p)
  {
    if n > 0 {
      FreeBelowIs(bits, n - 1, p);
    }
  }

  lemma FreePagesIs(bits: seq<bv32>, p: nat)
    ensures p in FreePages(bits) <==> IsFree(bits, p)
  {
    FreeBelowIs(bits, 32 * |bits|, p);
  }

  /** Rewriting the bit of one page in the bitmap. */
  lemma MarkFree(bits: seq<bv32>, p: nat, w: bv32)
    requires p / 32 < |bits|
    requires forall c: nat :: Bit(w, c) <==> c == p % 32 || Bit(bits[p / 32], c)
    ensures FreePages(bits[p / 32 := w]) == FreePages(bits) + {p}
  {
    forall q: nat ensures q in FreePages(bits[p / 32 := w]) <==> q in FreePages(bits) + {p} {
      FreePagesIs(bits[p / 32 := w], q);
      FreePagesIs(bits, q);
    }
  }

  lemma MarkUsed(bits: seq<bv32>, p: nat, w: bv32)
    requires p / 32 < |bits|
    requires forall c: nat :: Bit(w, c) <==> c != p % 32 && Bit(bits[p / 32], c)
    ensures FreePages(bits[p / 32 := w]) == FreePages(bits) - {p}
  {
    forall q: nat ensures q in FreePages(bits[p / 32 := w]) <==> q in FreePages(bits) - {p} {
      FreePagesIs(bits[p / 32 := w], q);
      FreePagesIs(bits, q);
    }
  }

  /** The inner search of pa_alloc: it stops because a non-zero word has a set bit. */
  method FirstBit(word: bv32) returns (bitNo: nat)
    requires word != 0
    ensures bitNo < 32 && Bit(word, bitNo)
    ensures forall c :: 0 <= c < bitNo ==> !Bit(word, c)
  {
    var bitmask: bv32 := 1;
    bitNo := 0;
    while !Common(word, bitmask)
      invariant bitNo < 32 && bitmask == Mask(bitNo)
      invariant forall c :: 0 <= c < bitNo ==> !Bit(word, c)
      decreases 32 - bitNo
    {
      BitIs(word, bitNo, bitmask);
      LastBit(word, bitNo);
      NextMaskIs(bitNo, bitmask);
      bitmask := Twice(bitmask);
      bitNo := bitNo + 1;
    }
    BitIs(word, bitNo, bitmask);
  }

  class FrameAllocator {
    const lowRamBitF: array<bv32>
    var lowRamFreeCount: nat

    /** The pages whose bit is set. */
    ghost var free: set<nat>

    ghost predicate WellFormed()
      reads this, lowRamBitF
    {
      lowRamBitF.Length == WORDS && lowRamFreeCount < U32 && free == FreePages(lowRamBitF[..])
    }

    /** The counter agrees with the bitmap. */
    ghost predicate Valid()
      reads this, lowRamBitF
    {
      WellFormed() && lowRamFreeCount == |free|
    }

    constructor ()
      ensures WellFormed() && fresh(lowRamBitF)
    {
      lowRamBitF := new bv32[WORDS];
      lowRamFreeCount := 0;
      new;
      free := FreePages(lowRamBitF[..]);
    }

    method SetPageBit(paddr: nat)
      requires WellFormed() && paddr < LIMIT
      modifies this, lowRamBitF
      ensures WellFormed() && free == old(free) - {paddr / PAGE}
      ensures lowRamFreeCount == Down(old(lowRamFreeCount))
    {
      var pageNo := paddr / PAGE;
      var bfIdx := pageNo / 32;
      var word := AndNotBit(lowRamBitF[bfIdx], pageNo % 32);
      MarkUsed(lowRamBitF[..], pageNo, word);
      lowRamBitF[bfIdx] := word;
      assert lowRamBitF[..] == old(lowRamBitF[..])[bfIdx := word];
      free := free - {pageNo};
      lowRamFreeCount := Down(lowRamFreeCount);
    }

    method TstPageBit(paddr: nat) returns (r: bool)
      requires WellFormed() && paddr < LIMIT
      ensures r <==> paddr / PAGE in free
    {
      var pageNo := paddr / PAGE;
      FreePagesIs(lowRamBitF[..], pageNo);
      r := Common(lowRamBitF[pageNo / 32], Mask(pageNo % 32));
    }

    method ClrPageBit(paddr: nat)
      requires WellFormed() && paddr < LIMIT
      modifies this, lowRamBitF
      ensures WellFormed() && free == old(free) + {paddr / PAGE}
      ensures lowRamFreeCount == Up(old(lowRamFreeCount))
    {
      var pageNo := paddr / PAGE;
      var bfIdx := pageNo / 32;
      var word := OrBit(lowRamBitF[bfIdx], pageNo % 32);
      MarkFree(lowRamBitF[..], pageNo, word);
      lowRamBitF[bfIdx] := word;
      assert lowRamBitF[..] == old(lowRamBitF[..])[bfIdx := word];
      free := free + {pageNo};
      lowRamFreeCount := Up(lowRamFreeCount);
    }

    /** The outer search of pa_alloc, past the zero words: it stops in bounds if any page is free. */
    method FirstWord() returns (idx: nat)
      requires WellFormed() && free != {}
      ensures idx < WORDS && lowRamBitF[idx] != 0
      ensures forall i :: 0 <= i < idx ==> lowRamBitF[i] == 0
    {
      ghost var some :| some in free;
      FreePagesIs(lowRamBitF[..], some);
      ZeroWord(some % 32);
      idx := 0;
      while lowRamBitF[idx] == 0
        invariant idx <= some / 32
        invariant forall i :: 0 <= i < idx ==> lowRamBitF[i] == 0
        decreases WORDS - idx
      {
        idx := idx + 1;
      }
    }

    /** Both searches together find the lowest free page. */
    method FirstFree() returns (page: nat)
      requires WellFormed() && free != {}
      ensures page < PAGES && page in free && forall q :: q in free ==> page <= q
    {
      var idx := FirstWord();
      var bitNo := FirstBit(lowRamBitF[idx]);
      LowestFree(lowRamBitF[..], idx, bitNo);
      page := idx * 32 + bitNo;
    }

    /** The lowest free page, which stops being free. None is the "out of memory" panic: it is taken
        exactly when no page is free, which is what keeps both searches inside the bitmap. */
    method PaAlloc() returns (r: Option<nat>)
      requires Valid()
      modifies this, lowRamBitF
      ensures Valid()
      ensures r.None? <==> old(free) == {}
      ensures r.None? ==> free == old(free)
      ensures r.Some? ==> r.value % PAGE == 0 && r.value < LIMIT
      ensures r.Some? ==> var p := r.value / PAGE;
                          p in old(free) && (forall q :: q in old(free) ==> p <= q)
                          && free == old(free) - {p}
    {
      if lowRamFreeCount <= 0 {
        return None;
      }
      var page := FirstFree();
      var paddr := page * PAGE;
      assert paddr / PAGE == page && paddr < LIMIT;
      SetPageBit(paddr);
      r := Some(paddr);
    }

    method PaFree(paddr: nat)
      requires Valid() && paddr < LIMIT
      modifies this, lowRamBitF
      ensures Valid() && free == old(free) + {paddr / PAGE}
    {
      var isFree := TstPageBit(paddr);
      if !isFree {
        FreeIsSmall(old(lowRamBitF[..]));
        ClrPageBit(paddr);
      }
    }
  }

  lemma LowestFree(bits: seq<bv32>, idx: nat, bitNo: nat)
    requires idx < |bits| && bitNo < 32 && Bit(bits[idx], bitNo)
    requires forall i :: 0 <= i < idx ==> bits[i] == 0
    requires forall c :: 0 <= c < bitNo ==> !Bit(bits[idx], c)
    ensures idx * 32 + bitNo in FreePages(bits)
    ensures forall q :: q in FreePages(bits) ==> idx * 32 + bitNo <= q
  {
    var p := idx * 32 + bitNo;
    assert p / 32 == idx && p % 32 == bitNo;
    FreePagesIs(bits, p);
    forall q | q in FreePages(bits) ensures p <= q {
      FreePagesIs(bits, q);
      ZeroWord(q % 32);
      assert q / 32 >= idx;
    }
  }

  /** At most n numbers lie below n. */
  lemma {:induction false} BelowIsSmall(s: set<nat>, n: nat)
    requires forall p :: p in s ==> p < n
    ensures |s| <= n
  {
    if n == 0 {
      assert s == {};
    } else {
      BelowIsSmall(s - {n - 1}, n - 1);
    }
  }

  lemma FreeIsSmall(bits: seq<bv32>)
    requires |bits| == WORDS
    ensures |FreePages(bits)| <= PAGES
  {
    forall p | p in FreePages(bits) ensures p < PAGES {
      FreePagesIs(bits, p);
    }
    BelowIsSmall(FreePages(bits), PAGES);
  }
}
