/** Single bits of a 32-bit word, as the bitmap of mm.c uses them. */
module Bits {

  /** The word with bit b alone. */
  function Mask(b: nat): bv32 {
    if b == 0 then 1 else Twice(Mask(b - 1))
  }

  function Twice(m: bv32): bv32 {
    m << 1
  }

  predicate Common(w: bv32, m: bv32) {
    w & m != 0
  }

  predicate Bit(w: bv32, b: nat) {
    Common(w, Mask(b))
  }

  lemma MaskTop()
    ensures Mask(31) == 0x8000_0000
  {
    assert Mask(8) == 0x100 by { assert Mask(4) == 0x10; }
    assert Mask(16) == 0x1_0000 by { assert Mask(12) == 0x1000; }
    assert Mask(24) == 0x100_0000 by { assert Mask(20) == 0x10_0000; }
    assert Mask(28) == 0x1000_0000;
  }

  lemma {:induction false} MaskUp(b: nat, k: nat)
    requires Mask(b + k) != 0
    ensures Mask(b) != 0
  {
    if k > 0 {
      MaskUp(b, k - 1);
    }
  }

  lemma MaskNonzero(b: nat)
    requires b < 32
    ensures Mask(b) != 0
  {
    MaskTop();
    MaskUp(b, 31 - b);
  }

  lemma ShiftedMasks(x: bv32, y: bv32)
    requires x & y == 0
    ensures (x << 1) & (y << 1) == 0 && 1 & (y << 1) == 0
  {
  }

  lemma {:induction false} MasksDisjoint(b: nat, c: nat)
    requires b < c
    ensures Mask(b) & Mask(c) == 0
  {
    if b == 0 {
      ShiftedMasks(0, Mask(c - 1));
    } else {
      MasksDisjoint(b - 1, c - 1);
      ShiftedMasks(Mask(b - 1), Mask(c - 1));
    }
  }

  lemma BitIs(w: bv32, b: nat, m: bv32)
    requires m == Mask(b)
    ensures Bit(w, b) <==> Common(w, m)
  {
  }

  lemma NextMaskIs(b: nat, m: bv32)
    requires m == Mask(b)
    ensures Twice(m) == Mask(b + 1)
  {
  }

  lemma SetCommon(w: bv32, m: bv32)
    requires m != 0
    ensures Common(w | m, m)
  {
    SetBack(w, m);
  }

  lemma SetBack(w: bv32, m: bv32)
    ensures (w | m) & m == m
  {
  }

  lemma ClearCommon(w: bv32, m: bv32)
    ensures !Common(w & !m, m)
  {
  }

  lemma SetElsewhere(w: bv32, m: bv32, n: bv32)
    requires m & n == 0
    ensures Common(w | m, n) == Common(w, n)
  {
    SetSame(w, m, n);
  }

  lemma SetSame(w: bv32, m: bv32, n: bv32)
    requires m & n == 0
    ensures (w | m) & n == w & n
  {
  }

  lemma ClearElsewhere(w: bv32, m: bv32, n: bv32)
    requires m & n == 0
    ensures Common(w & !m, n) == Common(w, n)
  {
    ClearedSame(w, m, n);
  }

  lemma ClearedSame(w: bv32, m: bv32, n: bv32)
    requires m & n == 0
    ensures (w & !m) & n == w & n
  {
  }

  lemma MasksApart(b: nat, c: nat)
    requires b != c
    ensures Mask(b) & Mask(c) == 0
  {
    if b < c {
      MasksDisjoint(b, c);
    } else {
      MasksDisjoint(c, b);
      AndCommutes(Mask(c), Mask(b));
    }
  }

  /** Or-ing a mask in sets its bit and no other. */
  lemma SetBit(w: bv32, b: nat, m: bv32, c: nat)
    requires b < 32 && m == Mask(b)
    ensures Bit(w | m, c) <==> c == b || Bit(w, c)
  {
    var n := Mask(c);
    BitIs(w | m, c, n);
    BitIs(w, c, n);
    if b == c {
      MaskNonzero(b);
      SetCommon(w, m);
    } else {
      MasksApart(b, c);
      SetElsewhere(w, m, n);
    }
  }

  /** And-ing its complement clears that bit and no other. */
  lemma ClearBit(w: bv32, b: nat, m: bv32, c: nat)
    requires b < 32 && m == Mask(b)
    ensures Bit(w & !m, c) <==> c != b && Bit(w, c)
  {
    var n := Mask(c);
    BitIs(w & !m, c, n);
    BitIs(w, c, n);
    if b == c {
      ClearCommon(w, m);
    } else {
      MasksApart(b, c);
      ClearElsewhere(w, m, n);
    }
  }

  lemma AndCommutes(x: bv32, y: bv32)
    ensures x & y == y & x
  {
  }

  lemma NextMask(m: bv32, w: bv32)
    requires m & (m - 1) == 0 && m << 1 != 0
    ensures (m << 1) & ((m << 1) - 1) == 0
    ensures w & (m - 1) == 0 && w & m == 0 ==> w & ((m << 1) - 1) == 0
  {
  }

  /** A word with its bits below b clear has nothing below Mask(b). */
  lemma {:induction false} LowBitsClear(w: bv32, b: nat)
    requires b < 32 && forall c :: 0 <= c < b ==> !Bit(w, c)
    ensures Mask(b) & (Mask(b) - 1) == 0 && w & (Mask(b) - 1) == 0
  {
    if b > 0 {
      LowBitsClear(w, b - 1);
      assert !Bit(w, b - 1);
      MaskNonzero(b);
      NextMask(Mask(b - 1), w);
    }
  }

  lemma HighBit(w: bv32)
    requires w & (0x8000_0000 - 1) == 0 && w & 0x8000_0000 == 0
    ensures w == 0
  {
  }

  /** A non-zero word has a set bit: the inner search of pa_alloc stops in bounds. */
  lemma SomeBit(w: bv32)
    requires forall c :: 0 <= c < 32 ==> !Bit(w, c)
    ensures w == 0
  {
    LowBitsClear(w, 31);
    MaskTop();
    assert !Bit(w, 31);
    HighBit(w);
  }

  /** If only bits up to b could be missing so far, a non-zero word has a higher one. */
  lemma LastBit(w: bv32, b: nat)
    requires w != 0 && b < 32 && forall c :: 0 <= c <= b ==> !Bit(w, c)
    ensures b < 31
  {
    if b == 31 {
      SomeBit(w);
    }
  }

  lemma NothingCommon(m: bv32)
    ensures !Common(0, m)
  {
  }

  lemma ZeroWord(c: nat)
    ensures !Bit(0, c)
  {
    NothingCommon(Mask(c));
  }

  /** w with bit b set. */
  method OrBit(w: bv32, b: nat) returns (r: bv32)
    requires b < 32
    ensures forall c: nat :: Bit(r, c) <==> c == b || Bit(w, c)
  {
    var bitMask := Mask(b);
    r := w | bitMask;
    forall c: nat ensures Bit(r, c) <==> c == b || Bit(w, c) {
      SetBit(w, b, bitMask, c);
    }
  }

  /** w with bit b cleared. */
  method AndNotBit(w: bv32, b: nat) returns (r: bv32)
    requires b < 32
    ensures forall c: nat :: Bit(r, c) <==> c != b && Bit(w, c)
  {
    var bitMask := Mask(b);
    r := w & !bitMask;
    forall c: nat ensures Bit(r, c) <==> c != b && Bit(w, c) {
      ClearBit(w, b, bitMask, c);
    }
  }
}
