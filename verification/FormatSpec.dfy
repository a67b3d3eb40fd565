/** What the number formatter and the decimal parser of vsprintf.c mean. */
module FormatSpec {

  const UINT := 0x1_0000_0000
  const INT_LIMIT := 0x8000_0000

  /** The flags that number() looks at. */
  datatype Flags = Flags(zeropad: bool, sign: bool, plus: bool, space: bool, left: bool, special: bool, small: bool)

  const UPPER := "0123456789ABCDEFGHIJKLMNOPQRSTUVWXYZ"
  const LOWER := "0123456789abcdefghijklmnopqrstuvwxyz"

  function Digits(f: Flags): string {
    if f.small then LOWER else UPPER
  }

  // ---- Numerals -------------------------------------------------------------------------

  /** The value of a digit, either case; -1 for a character that is none. */
  function DigitValue(c: char): int {
    if '0' <= c <= '9' then c as int - '0' as int
    else if 'A' <= c <= 'Z' then c as int - 'A' as int + 10
    else if 'a' <= c <= 'z' then c as int - 'a' as int + 10
    else -1
  }

  /** s reads as the number v in the given base. */
  function Value(s: string, base: nat): int {
    if s == "" then 0 else Value(s[..|s| - 1], base) * base + DigitValue(s[|s| - 1])
  }

  predicate IsNumeral(s: string, base: nat) {
    s != "" && forall i :: 0 <= i < |s| ==> 0 <= DigitValue(s[i]) < base
  }

  /** The digits of v, most significant first, and none for 0. */
  function DigitString(v: nat, base: nat, digits: string): string
    requires 2 <= base <= 36 && |digits| == 36
  {
    if v == 0 then "" else DigitString(v / base, base, digits) + [digits[v % base]]
  }

  function Numeral(v: nat, base: nat, digits: string): string
    requires 2 <= base <= 36 && |digits| == 36
  {
    if v == 0 then "0" else DigitString(v, base, digits)
  }

  lemma DigitsRight(f: Flags, d: nat)
    requires d < 36
    ensures |Digits(f)| == 36 && DigitValue(Digits(f)[d]) == d
  {
    if d < 10 {
      FigureRight(f, d);
    } else {
      LetterRight(f, d);
    }
  }

  lemma FigureRight(f: Flags, d: nat)
    requires d < 10
    ensures |Digits(f)| == 36 && Digits(f)[d] as int == '0' as int + d
  {
  }

  lemma LetterRight(f: Flags, d: nat)
    requires 10 <= d < 36
    ensures |Digits(f)| == 36 && Digits(f)[d] as int == (if f.small then 'a' else 'A') as int + d - 10
  {
  }

  lemma DivMod(v: nat, base: nat)
    requires base >= 2
    ensures v == v / base * base + v % base && v % base < base
    ensures 0 <= v / base <= v / 2 && (v > 0 ==> v / base < v)
  {
    var q := v / base;
    assert v == q * base + v % base;
    assert q * 2 <= q * base;
  }

  lemma ValueAppend(s: string, c: char, base: nat)
    ensures Value(s + [c], base) == Value(s, base) * base + DigitValue(c)
  {
    assert (s + [c])[..|s|] == s;
  }

  /** The digits read as v, each below the base, without leading zeros. */
  lemma {:induction false} DigitStringReadsBack(v: nat, base: nat, f: Flags)
    requires 2 <= base <= 36 && v > 0
    ensures |Digits(f)| == 36
    ensures var s := DigitString(v, base, Digits(f));
            IsNumeral(s, base) && Value(s, base) == v && DigitValue(s[0]) != 0
  {
    DigitsRight(f, v % base);
    DivMod(v, base);
    var q, digits := v / base, Digits(f);
    var t := DigitString(q, base, digits);
    ValueAppend(t, digits[v % base], base);
    if q > 0 {
      DigitStringReadsBack(q, base, f);
    }
    NumeralAppend(t, digits[v % base], base);
  }

  lemma NumeralAppend(s: string, c: char, base: nat)
    requires (s == "" || IsNumeral(s, base)) && 0 <= DigitValue(c) < base
    ensures IsNumeral(s + [c], base)
  {
  }

  /** number() prints the numeral of the value: it reads back, and is the shortest that does. */
  lemma NumeralReadsBack(v: nat, base: nat, f: Flags)
    requires 2 <= base <= 36
    ensures |Digits(f)| == 36
    ensures var s := Numeral(v, base, Digits(f));
            IsNumeral(s, base) && Value(s, base) == v && (DigitValue(s[0]) == 0 ==> |s| == 1)
  {
    DigitsRight(f, 0);
    if v > 0 {
      DigitStringReadsBack(v, base, f);
    } else {
      ValueAppend("", '0', base);
      assert "" + ['0'] == "0";
    }
  }

  function Power2(k: nat): nat {
    if k == 0 then 1 else 2 * Power2(k - 1)
  }

  /** Below 2^k, at most k digits. */
  lemma {:induction false} DigitCount(v: nat, base: nat, digits: string, k: nat)
    requires 2 <= base <= 36 && |digits| == 36 && v < Power2(k)
    ensures |DigitString(v, base, digits)| <= k
  {
    if v > 0 {
      DivMod(v, base);
      DigitCount(v / base, base, digits, k - 1);
    }
  }

  /** Every 32-bit value fits into 32 of the 36 places of `tmp`. */
  lemma AtMost32Digits(v: nat, base: nat, digits: string)
    requires 2 <= base <= 36 && |digits| == 36 && v < UINT
    ensures 1 <= |Numeral(v, base, digits)| <= 32
  {
    assert Power2(8) == 256;
    assert Power2(16) == 65536;
    assert Power2(24) == 65536 * 256;
    assert Power2(32) == UINT;
    DigitCount(v, base, digits, 32);
  }

  // ---- number() -------------------------------------------------------------------------

  /** The argument as number() is to take it: a negative one under SIGN, else an unsigned one. */
  predicate Negative(n: nat, f: Flags) {
    f.sign && n >= INT_LIMIT
  }

  function Magnitude(n: nat, f: Flags): nat
    requires n < UINT
  {
    if Negative(n, f) then UINT - n else n
  }

  function SignText(n: nat, f: Flags): string {
    if Negative(n, f) then "-" else if f.plus then "+" else if f.space then " " else ""
  }

  function Prefix(base: int, f: Flags): string {
    if f.special && base == 16 then if f.small then "0x" else "0X"
    else if f.special && base == 8 then "0"
    else ""
  }

  function Times(c: char, n: int): string {
    if n <= 0 then "" else Times(c, n - 1) + [c]
  }

  lemma {:induction false} TimesIs(c: char, n: int)
    ensures |Times(c, n)| == (if n > 0 then n else 0) && forall i :: 0 <= i < |Times(c, n)| ==> Times(c, n)[i] == c
  {
    if n > 0 {
      TimesIs(c, n - 1);
    }
  }

  function Max(a: int, b: int): int {
    if a > b then a else b
  }

  function Precise(s: string, precision: int): string {
    Times('0', precision - |s|) + s
  }

  /** The digits, filled up with zeros to the precision. */
  function Figures(n: nat, base: nat, precision: int, f: Flags): string
    requires n < UINT && 2 <= base <= 36
  {
    DigitsRight(f, 0);
    Precise(Numeral(Magnitude(n, f), base, Digits(f)), precision)
  }

  /** Padding needed to fill the field. */
  function Room(n: nat, base: nat, size: int, precision: int, f: Flags): int
    requires n < UINT && 2 <= base <= 36
  {
    size - |SignText(n, f)| - |Prefix(base, f)| - |Figures(n, base, precision, f)|
  }

  /** A field from its parts and the room that they leave. */
  function Laid(head: string, body: string, room: int, f: Flags): string {
    if f.left then head + body + Times(' ', room)
    else if f.zeropad then head + Times('0', room) + body
    else Times(' ', room) + head + body
  }

  /** The whole field. */
  function Field(n: nat, base: nat, size: int, precision: int, f: Flags): string
    requires n < UINT && 2 <= base <= 36
  {
    Laid(SignText(n, f) + Prefix(base, f), Figures(n, base, precision, f), Room(n, base, size, precision, f), f)
  }

  /** The field is as wide as asked, or as sign, prefix and figures need. */
  lemma FieldWidth(n: nat, base: nat, size: int, precision: int, f: Flags)
    requires n < UINT && 2 <= base <= 36
    ensures |Digits(f)| == 36
    ensures var digits := |Numeral(Magnitude(n, f), base, Digits(f))|;
            |Field(n, base, size, precision, f)| ==
            Max(size, |SignText(n, f)| + |Prefix(base, f)| + Max(digits, precision))
  {
    DigitsRight(f, 0);
    var s := Numeral(Magnitude(n, f), base, Digits(f));
    TimesIs('0', precision - |s|);
    var room := Room(n, base, size, precision, f);
    TimesIs(' ', room);
    TimesIs('0', room);
  }

  lemma {:induction false} ZerosAreZero(k: int, base: nat)
    ensures Value(Times('0', k), base) == 0
  {
    if k > 0 {
      ZerosAreZero(k - 1, base);
      ValueAppend(Times('0', k - 1), '0', base);
    }
  }

  lemma {:induction false} LeadingZeros(s: string, k: int, base: nat)
    ensures Value(Times('0', k) + s, base) == Value(s, base)
  {
    if s == "" {
      ZerosAreZero(k, base);
      assert Times('0', k) + s == Times('0', k);
    } else {
      var r, c, z := s[..|s| - 1], s[|s| - 1], Times('0', k);
      LeadingZeros(r, k, base);
      assert s == r + [c] && z + s == (z + r) + [c];
      ValueAppend(r, c, base);
      ValueAppend(z + r, c, base);
    }
  }

  lemma ZerosInFront(body: string, base: nat, v: int, k: int)
    requires Value(body, base) == v
    ensures Value(Times('0', k) + body, base) == v
  {
    LeadingZeros(body, k, base);
  }

  lemma FiguresSayTheNumber(n: nat, base: nat, precision: int, f: Flags)
    requires n < UINT && 2 <= base <= 36
    ensures Value(Figures(n, base, precision, f), base) == Magnitude(n, f)
  {
    NumeralReadsBack(Magnitude(n, f), base, f);
    var s := Numeral(Magnitude(n, f), base, Digits(f));
    PreciseSays(s, precision, base, Magnitude(n, f));
  }

  lemma PreciseSays(s: string, precision: int, base: nat, v: int)
    requires Value(s, base) == v
    ensures Value(Precise(s, precision), base) == v
  {
    ZerosInFront(s, base, v, precision - |s|);
  }

  // ---- How a field is laid out ----------------------------------------------------------

  predicate OnlyOf(s: string, c: char) {
    forall i :: 0 <= i < |s| ==> s[i] == c
  }

  /** Figures and letters of one case only. */
  predicate InCase(s: string, small: bool) {
    forall i :: 0 <= i < |s| ==> '0' <= s[i] <= '9' || (if small then 'a' <= s[i] <= 'z' else 'A' <= s[i] <= 'Z')
  }

  lemma DigitInCase(f: Flags, d: nat)
    requires d < 36
    ensures |Digits(f)| == 36 && InCase([Digits(f)[d]], f.small)
  {
    if d < 10 {
      FigureRight(f, d);
    } else {
      LetterRight(f, d);
    }
  }

  lemma {:induction false} DigitStringInCase(v: nat, base: nat, f: Flags)
    requires 2 <= base <= 36
    ensures |Digits(f)| == 36 && InCase(DigitString(v, base, Digits(f)), f.small)
  {
    DigitInCase(f, 0);
    if v > 0 {
      DivMod(v, base);
      DigitStringInCase(v / base, base, f);
      DigitInCase(f, v % base);
    }
  }

  /** The figures: the numeral of the magnitude, in the case asked for, with as many zeros in front as the
      precision wants and no more. */
  lemma FiguresLayout(n: nat, base: nat, precision: int, f: Flags)
    requires n < UINT && 2 <= base <= 36
    ensures var g := Figures(n, base, precision, f);
            && IsNumeral(g, base) && Value(g, base) == Magnitude(n, f) && InCase(g, f.small)
            && |g| >= precision && (|g| > precision && |g| > 1 ==> DigitValue(g[0]) != 0)
  {
    FiguresAreNumeral(n, base, precision, f);
    FiguresSayTheNumber(n, base, precision, f);
    NumeralReadsBack(Magnitude(n, f), base, f);
    NumeralInCase(Magnitude(n, f), base, f);
    PreciseLayout(Numeral(Magnitude(n, f), base, Digits(f)), precision, f.small);
  }

  lemma NumeralInCase(v: nat, base: nat, f: Flags)
    requires 2 <= base <= 36
    ensures |Digits(f)| == 36 && InCase(Numeral(v, base, Digits(f)), f.small)
  {
    DigitStringInCase(v, base, f);
  }

  lemma PreciseLayout(s: string, precision: int, small: bool)
    requires InCase(s, small)
    ensures var g := Precise(s, precision);
            InCase(g, small) && |g| >= precision && (|g| > precision ==> g == s)
  {
    TimesIs('0', precision - |s|);
    assert precision <= |s| ==> Times('0', precision - |s|) + s == s;
  }

  /** A field is a sign ('-', or '+' or a space where asked for), the prefix ("0" in octal and "0x" or "0X"
      in hexadecimal, where asked for), the figures g of the absolute value, and padding. On the left: behind
      them, with spaces. With zeros, unless on the left: between prefix and figures, with zeros. Otherwise
      in front, with spaces. */
  lemma FieldLayout(n: nat, base: nat, size: int, precision: int, f: Flags) returns (g: string, pad: string)
    requires n < UINT && 2 <= base <= 36
    ensures IsNumeral(g, base) && InCase(g, f.small)
    ensures Value(g, base) == if f.sign && n >= INT_LIMIT then UINT - n else n
    ensures |g| >= precision && (|g| > precision && |g| > 1 ==> DigitValue(g[0]) != 0)
    ensures var sign := if f.sign && n >= INT_LIMIT then "-" else if f.plus then "+" else if f.space then " " else "";
            var prefix := if !f.special then "" else if base == 8 then "0"
                          else if base != 16 then "" else if f.small then "0x" else "0X";
            var room := size - |sign| - |prefix| - |g|;
            && |pad| == (if room > 0 then room else 0)
            && OnlyOf(pad, if f.zeropad && !f.left then '0' else ' ')
            && Field(n, base, size, precision, f) ==
               if f.left then sign + prefix + g + pad
               else if f.zeropad then sign + prefix + pad + g
               else pad + sign + prefix + g
  {
    g := Figures(n, base, precision, f);
    FiguresLayout(n, base, precision, f);
    var room := Room(n, base, size, precision, f);
    pad := Times(if f.zeropad && !f.left then '0' else ' ', room);
    TimesIs(if f.zeropad && !f.left then '0' else ' ', room);
    Joined(pad, SignText(n, f), Prefix(base, f));
  }

  // ---- Reading a field back -------------------------------------------------------------

  function DropSpaces(s: string): string {
    if s != "" && s[0] == ' ' then DropSpaces(s[1..]) else s
  }

  function UpToSpace(s: string): string {
    if s == "" || s[0] == ' ' then "" else [s[0]] + UpToSpace(s[1..])
  }

  predicate Signed(s: string) {
    s != "" && (s[0] == '-' || s[0] == '+')
  }

  /** How a reader takes a field that has a prefix of the given length: leave out the spaces in front,
      note the sign, skip the prefix, and read up to the next space. The result is whether the number
      is negative, and its magnitude. */
  function Read(field: string, prefix: nat, base: nat): (bool, int) {
    var t := DropSpaces(field);
    var u := if Signed(t) then t[1..] else t;
    (Signed(t) && t[0] == '-', Value(UpToSpace(if prefix <= |u| then u[prefix..] else ""), base))
  }

  lemma {:induction false} SpacesDropped(k: int, s: string)
    ensures DropSpaces(Times(' ', k) + s) == DropSpaces(s)
  {
    if k <= 0 {
      assert Times(' ', k) + s == s;
    } else {
      assert Times(' ', k) + s == Times(' ', k - 1) + ([' '] + s);
      SpacesDropped(k - 1, [' '] + s);
      assert ([' '] + s)[1..] == s;
    }
  }

  lemma {:induction false} ReadToSpace(s: string, k: int)
    requires forall i :: 0 <= i < |s| ==> s[i] != ' '
    ensures UpToSpace(s + Times(' ', k)) == s
  {
    TimesIs(' ', k);
    if s != "" {
      ReadToSpace(s[1..], k);
      assert (s + Times(' ', k))[1..] == s[1..] + Times(' ', k);
    } else {
      assert s + Times(' ', k) == Times(' ', k);
    }
  }

  /** A sign as a reader knows it; a space for one is read over. */
  predicate IsSign(sign: string) {
    sign == "" || sign == "-" || sign == "+"
  }

  lemma ReadParts(a: int, sign: string, prefix: string, body: string, b: int, base: nat)
    requires IsSign(sign) && IsNumeral(body, base) && (prefix != "" ==> prefix[0] == '0')
    ensures Read(Times(' ', a) + (sign + (prefix + (body + Times(' ', b)))), |prefix|, base) ==
            (sign == "-", Value(body, base))
  {
    var rest := prefix + (body + Times(' ', b));
    var t := sign + rest;
    assert rest[0] == if prefix != "" then prefix[0] else body[0];
    SpacesDropped(a, t);
    assert t[0] != ' ' && DropSpaces(t) == t;
    assert sign == "" ==> t == rest;
    assert sign != "" ==> t[1..] == rest;
    assert rest[|prefix|..] == body + Times(' ', b);
    ReadToSpace(body, b);
  }

  lemma ZerosNumeral(k: int, s: string, base: nat)
    requires IsNumeral(s, base) && base > 0
    ensures IsNumeral(Times('0', k) + s, base)
  {
    TimesIs('0', k);
  }

  lemma FiguresAreNumeral(n: nat, base: nat, precision: int, f: Flags)
    requires n < UINT && 2 <= base <= 36
    ensures IsNumeral(Figures(n, base, precision, f), base)
  {
    DigitsRight(f, 0);
    var s := Numeral(Magnitude(n, f), base, Digits(f));
    NumeralReadsBack(Magnitude(n, f), base, f);
    ZerosNumeral(precision - |s|, s, base);
  }

  /** A sign as a reader sees it: a space for one is just another space in front. */
  function SignRead(sign: string): string {
    if sign == " " then "" else sign
  }

  lemma SignSplits(sign: string, k: int)
    ensures Times(' ', k) + sign == Times(' ', (if k > 0 then k else 0) + if sign == " " then 1 else 0) + SignRead(sign)
  {
    if sign == " " {
      assert Times(' ', k) == Times(' ', if k > 0 then k else 0);
    }
  }

  lemma Regrouped(spaces: string, sign: string, prefix: string, body: string, tail: string)
    ensures spaces + sign + prefix + body + tail == spaces + (sign + (prefix + (body + tail)))
  {
  }

  /** The parts of a field: spaces, the sign, the prefix, the figures with any zeros in front, and
      spaces. */
  lemma LaidSplits(sign: string, prefix: string, body: string, room: int, f: Flags) returns (a: int, k: int, b: int)
    ensures Laid(sign + prefix, body, room, f) ==
            Times(' ', a) + sign + prefix + (Times('0', k) + body) + Times(' ', b)
  {
    if f.left {
      a, k, b := 0, 0, room;
      assert "" + sign == sign && "" + body == body;
    } else if f.zeropad {
      a, k, b := 0, room, 0;
      assert "" + sign == sign;
      Joined(sign + prefix, Times('0', room), body);
    } else {
      a, k, b := room, 0, 0;
      Joined(Times(' ', room), sign, prefix);
      assert "" + body == body && Laid(sign + prefix, body, room, f) + "" == Laid(sign + prefix, body, room, f);
    }
  }

  lemma Joined(s: string, t: string, u: string)
    ensures s + t + u == s + (t + u) && s + (t + u) + "" == s + (t + u)
  {
  }

  /** Whatever the width, precision and flags: the field, read back, gives the argument's sign and
      magnitude. */
  lemma FieldSaysTheNumber(n: nat, base: nat, size: int, precision: int, f: Flags)
    requires n < UINT && 2 <= base <= 36
    ensures Read(Field(n, base, size, precision, f), |Prefix(base, f)|, base) == (Negative(n, f), Magnitude(n, f))
  {
    var sign, figures := SignText(n, f), Figures(n, base, precision, f);
    var a, k, b := LaidSplits(sign, Prefix(base, f), figures, Room(n, base, size, precision, f), f);
    var body, spaces := Times('0', k) + figures, (if a > 0 then a else 0) + if sign == " " then 1 else 0;
    SignSplits(sign, a);
    Regrouped(Times(' ', spaces), SignRead(sign), Prefix(base, f), body, Times(' ', b));
    FiguresAreNumeral(n, base, precision, f);
    ZerosNumeral(k, figures, base);
    FiguresSayTheNumber(n, base, precision, f);
    ZerosInFront(figures, base, Magnitude(n, f), k);
    ReadParts(spaces, SignRead(sign), Prefix(base, f), body, b, base);
  }

  // ---- skip_atoi ------------------------------------------------------------------------

  predicate IsDigit(c: char) {
    '0' <= c <= '9'
  }

  /** A 32-bit sum as a signed int. */
  function Int32(v: int): int {
    if v % UINT >= INT_LIMIT then v % UINT - UINT else v % UINT
  }

  /** Length of the run of digits at the front. */
  function DigitRun(s: string): (k: nat)
    ensures k <= |s| && (forall i :: 0 <= i < k ==> IsDigit(s[i])) && (k < |s| ==> !IsDigit(s[k]))
  {
    if s == "" || !IsDigit(s[0]) then 0 else 1 + DigitRun(s[1..])
  }

  lemma RunIs(s: string, k: nat)
    requires k <= |s| && (forall i :: 0 <= i < k ==> IsDigit(s[i])) && (k < |s| ==> !IsDigit(s[k]))
    ensures DigitRun(s) == k
  {
  }

  const PLAIN := Flags(false, false, false, false, false, false, false)

  /** Output of a plain %u. */
  function Printed(n: nat): string
    requires n < UINT
  {
    Field(n, 10, -1, -1, PLAIN)
  }

  lemma PrintedIs(n: nat)
    requires n < UINT
    ensures Printed(n) == Numeral(n, 10, UPPER)
  {
    AtMost32Digits(n, 10, UPPER);
    assert SignText(n, PLAIN) + Prefix(10, PLAIN) == "";
    var d := Numeral(n, 10, UPPER);
    assert Figures(n, 10, -1, PLAIN) == Times('0', -1 - |d|) + d == d;
    assert Times(' ', -1 - |d|) + "" + d == d;
  }

  lemma PrintedReads(n: nat)
    requires n < UINT
    ensures IsNumeral(Printed(n), 10) && Value(Printed(n), 10) == n
  {
    PrintedIs(n);
    NumeralReadsBack(n, 10, PLAIN);
  }

  lemma DecimalDigit(c: char)
    requires 0 <= DigitValue(c) < 10
    ensures IsDigit(c)
  {
  }

  lemma NumeralIsRun(s: string, rest: string)
    requires IsNumeral(s, 10) && (rest == "" || !IsDigit(rest[0]))
    ensures DigitRun(s + rest) == |s| && (s + rest)[..|s|] == s
  {
    forall i | 0 <= i < |s| ensures IsDigit(s[i]) {
      DecimalDigit(s[i]);
    }
    RunIs(s + rest, |s|);
  }

  /** What skip_atoi makes of a string. */
  function Parsed(s: string): int {
    Int32(Value(s[..DigitRun(s)], 10))
  }

  lemma ParsedNumeral(s: string, rest: string, n: nat)
    requires IsNumeral(s, 10) && Value(s, 10) == n < UINT && (rest == "" || !IsDigit(rest[0]))
    ensures DigitRun(s + rest) == |s| && Parsed(s + rest) == Int32(n)
    ensures Int32(n) == n <==> n < INT_LIMIT
  {
    NumeralIsRun(s, rest);
  }

  /** Reading back what was printed: the plain decimal field of n, followed by anything but a digit, is
      read to its end, and gives n as a signed int: n itself exactly when n < 2^31. */
  lemma PrintThenParse(n: nat, rest: string)
    requires n < UINT && (rest == "" || !IsDigit(rest[0]))
    ensures DigitRun(Printed(n) + rest) == |Printed(n)|
    ensures Parsed(Printed(n) + rest) == n <==> n < INT_LIMIT
  {
    PrintedReads(n);
    ParsedNumeral(Printed(n), rest, n);
  }
}
