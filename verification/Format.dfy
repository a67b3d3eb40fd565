/** number(), skip_atoi() and the padding loops of vsprintf.c, writing into a caller's buffer. */
module Format {
  import opened FormatSpec
  import opened Markers
  import opened Options

  /** The buffer has received `text` at position `start`, and nothing else has changed. */
  predicate Splice(before: string, after: string, start: nat, text: string) {
    start + |text| <= |before| && after == before[..start] + text + before[start + |text|..]
  }

  /** Splice, out of the verifier's sight where Opened is not mentioned. */
  ghost predicate Wrote(before: string, after: string, start: nat, text: string) {
    forall k {:trigger Opened(k, after)} :: Opened(k, after) ==> Splice(before, after, start, text)
  }

  lemma WroteTwice(b0: string, b1: string, b2: string, start: nat, s: string, t: string)
    requires Wrote(b0, b1, start, s) && Wrote(b1, b2, start + |s|, t)
    ensures Wrote(b0, b2, start, s + t)
  {
    assert Opened(0, b1) && Opened(0, b2);
    assert b1[..start + |s|] == b0[..start] + s;
    assert b1[start + |s| + |t|..] == b0[start + |s| + |t|..];
  }

  lemma WroteIs(before: string, after: string, start: nat, text: string)
    requires Wrote(before, after, start, text)
    ensures Splice(before, after, start, text)
  {
    assert Opened(0, after);
  }

  /** Character by character: text at start, and everything else as before. */
  lemma WroteEach(before: string, after: string, start: nat, text: string)
    requires |after| == |before| && start + |text| <= |before|
    requires forall k :: start <= k < start + |text| ==> after[k] == text[k - start]
    requires forall k :: 0 <= k < start || start + |text| <= k < |before| ==> after[k] == before[k]
    ensures Wrote(before, after, start, text)
  {
    assert after == before[..start] + text + before[start + |text|..];
  }

  lemma WroteNothing(b: string, start: nat)
    requires start <= |b|
    ensures Wrote(b, b, start, "")
  {
    WroteEach(b, b, start, "");
  }

  lemma WroteThat(b: string, b': string, start: nat, text: string, same: string)
    requires Wrote(b, b', start, text) && same == text
    ensures Wrote(b, b', start, same)
  {
  }

  /** A padding loop: writes c as often as the width left says, and counts the width down to below 0. */
  method Pad(buf: array<char>, str: nat, size: int, c: char) returns (str': nat, size': int)
    requires str + |Times(c, size)| <= buf.Length
    modifies buf
    ensures str' == str + |Times(c, size)| && Wrote(old(buf[..]), buf[..], str, Times(c, size))
    ensures size' == if size > 0 then -1 else size - 1
  {
    TimesIs(c, size);
    str', size' := str, size;
    while size' > 0
      invariant str' == str + (if size > 0 then size - size' else 0) && (size > 0 ==> size' >= 0)
      invariant size <= 0 ==> size' == size
      invariant forall k :: str <= k < str' ==> buf[k] == c
      invariant forall k :: 0 <= k < str || str' <= k < buf.Length ==> buf[k] == old(buf[k])
    {
      size' := size' - 1;
      buf[str'] := c;
      str' := str' + 1;
    }
    size' := size' - 1;
    WroteEach(old(buf[..]), buf[..], str, Times(c, size));
  }

  /** One character, and on to the next place. */
  method Put(buf: array<char>, str: nat, c: char) returns (str': nat)
    requires str < buf.Length
    modifies buf
    ensures str' == str + 1 && Wrote(old(buf[..]), buf[..], str, [c])
  {
    buf[str] := c;
    str' := str + 1;
    WroteEach(old(buf[..]), buf[..], str, [c]);
  }

  /** n is what is left of num once the digits `low` have been taken off its end. */
  predicate LeftOf(num: nat, n: nat, base: nat, digits: string, low: string) {
    2 <= base <= 36 && |digits| == 36 && DigitString(num, base, digits) == DigitString(n, base, digits) + low
  }

  /** LeftOf, out of the verifier's sight where Opened is not mentioned for low. */
  ghost predicate Remains(num: nat, n: nat, base: nat, digits: string, low: string) {
    forall k {:trigger Opened(k, low)} :: Opened(k, low) ==> LeftOf(num, n, base, digits, low)
  }

  lemma RemainsAtFirst(num: nat, base: nat, digits: string)
    requires 2 <= base <= 36 && |digits| == 36
    ensures Remains(num, num, base, digits, "")
  {
  }

  lemma RemainsAtLast(num: nat, base: nat, digits: string, low: string)
    requires Remains(num, 0, base, digits, low) && 0 < num < UINT
    ensures 2 <= base <= 36 && |digits| == 36 && low == Numeral(num, base, digits)
  {
    assert Opened(0, low);
  }

  lemma LastDigit(n: nat, base: nat, digits: string, low: string)
    requires 2 <= base <= 36 && |digits| == 36 && n > 0
    ensures 0 <= n / base < n && n % base < 36
    ensures DigitString(n, base, digits) + low == DigitString(n / base, base, digits) + ([digits[n % base]] + low)
    ensures DigitString(n, base, digits) != ""
  {
    DivMod(n, base);
    DigitUnfold(n, base, digits);
    Regroup(DigitString(n / base, base, digits), [digits[n % base]], low);
  }

  lemma DigitUnfold(n: nat, base: nat, digits: string)
    requires 2 <= base <= 36 && |digits| == 36 && n > 0
    ensures 0 <= n / base && n % base < 36
    ensures DigitString(n, base, digits) == DigitString(n / base, base, digits) + [digits[n % base]]
  {
    DivMod(n, base);
  }

  lemma Regroup(a: string, b: string, c: string)
    ensures a + b + c == a + (b + c)
  {
  }

  /** One division takes off the last digit. */
  lemma NextRemains(num: nat, n: nat, base: nat, digits: string, low: string)
    requires Remains(num, n, base, digits, low) && 0 < n && num < UINT && 2 <= base <= 36 && |digits| == 36
    ensures 0 <= n / base < n && n % base < 36
    ensures Remains(num, n / base, base, digits, [digits[n % base]] + low)
  {
    assert Opened(0, low);
    LastDigit(n, base, digits, low);
  }

  /** There are always fewer than 32 digits off while some are left. */
  lemma FewDigits(num: nat, n: nat, base: nat, digits: string, low: string)
    requires Remains(num, n, base, digits, low) && 0 < n && num < UINT && 2 <= base <= 36 && |digits| == 36
    ensures |low| < 32
  {
    assert Opened(0, low);
    LastDigit(n, base, digits, low);
    AtMost32Digits(num, base, digits);
  }

  method NextDigit(num: nat, n: nat, base: nat, digits: string, ghost low: string) returns (q: nat, c: char)
    requires Remains(num, n, base, digits, low) && 0 < n && num < UINT && 2 <= base <= 36 && |digits| == 36
    ensures q < n && Remains(num, q, base, digits, [c] + low) && |low| < 32
  {
    NextRemains(num, n, base, digits, low);
    FewDigits(num, n, base, digits, low);
    q, c := n / base, digits[n % base];
  }

  /** The digits of num into tmp, least significant first (vsprintf.c:56-60). */
  method ToDigits(tmp: array<char>, num: nat, base: nat, digits: string) returns (i: nat)
    requires 2 <= base <= 36 && |digits| == 36 && digits[0] == '0' && num < UINT && tmp.Length == 36
    modifies tmp
    ensures i == |Numeral(num, base, digits)| <= 32
    ensures forall k :: 0 <= k < i ==> tmp[k] == Numeral(num, base, digits)[i - 1 - k]
  {
    i := 0;
    if num == 0 {
      tmp[0] := '0';
      i := 1;
      return;
    }
    var n := num;
    ghost var low: string := "";
    RemainsAtFirst(num, base, digits);
    while n != 0
      invariant Remains(num, n, base, digits, low) && i == |low| <= 32
      invariant forall k :: 0 <= k < i ==> tmp[k] == low[i - 1 - k]
      decreases n
    {
      var c;
      n, c := NextDigit(num, n, base, digits, low);
      low := [c] + low;
      tmp[i] := c;
      i := i + 1;
    }
    RemainsAtLast(num, base, digits, low);
  }

  /** The digits out of tmp, last one first (vsprintf.c:80-81). */
  method FromDigits(buf: array<char>, str: nat, tmp: array<char>, i: nat, ghost s: string) returns (str': nat)
    requires i == |s| <= tmp.Length && str + i <= buf.Length && buf != tmp
    requires forall k :: 0 <= k < i ==> tmp[k] == s[i - 1 - k]
    modifies buf
    ensures str' == str + i && Wrote(old(buf[..]), buf[..], str, s)
  {
    str' := str;
    var j := i;
    while j > 0
      invariant str' == str + (i - j) && 0 <= j <= i
      invariant forall k :: str <= k < str' ==> buf[k] == s[k - str]
      invariant forall k :: 0 <= k < str || str' <= k < buf.Length ==> buf[k] == old(buf[k])
    {
      j := j - 1;
      buf[str'] := tmp[j];
      str' := str' + 1;
    }
    WroteEach(old(buf[..]), buf[..], str, s);
  }

  /** The prefix of a special base (vsprintf.c:68-74). */
  method PutPrefix(buf: array<char>, str: nat, base: nat, flags: Flags) returns (str': nat)
    requires str + |Prefix(base, flags)| <= buf.Length
    modifies buf
    ensures str' == str + |Prefix(base, flags)| && Wrote(old(buf[..]), buf[..], str, Prefix(base, flags))
  {
    LetterRight(flags, 33);
    str' := str;
    WroteNothing(buf[..], str);
    if flags.special {
      if base == 8 {
        str' := Put(buf, str, '0');
      } else if base == 16 {
        str' := Put(buf, str, '0');
        ghost var b := buf[..];
        str' := Put(buf, str', Digits(flags)[33]);
        WroteTwice(old(buf[..]), b, buf[..], str, ['0'], [Digits(flags)[33]]);
        WroteThat(old(buf[..]), buf[..], str, ['0'] + [Digits(flags)[33]], Prefix(base, flags));
      }
    }
  }

  /** The sign and the prefix (vsprintf.c:66-74). */
  method Head(buf: array<char>, str: nat, sign: string, base: nat, flags: Flags) returns (str': nat)
    requires |sign| <= 1 && str + |sign| + |Prefix(base, flags)| <= buf.Length
    modifies buf
    ensures str' == str + |sign + Prefix(base, flags)| && Wrote(old(buf[..]), buf[..], str, sign + Prefix(base, flags))
  {
    str' := str;
    if sign != "" {
      str' := Put(buf, str', sign[0]);
      WroteThat(old(buf[..]), buf[..], str, [sign[0]], sign);
    } else {
      WroteNothing(buf[..], str);
      WroteThat(buf[..], buf[..], str, "", sign);
    }
    ghost var b := buf[..];
    str' := PutPrefix(buf, str', base, flags);
    WroteTwice(old(buf[..]), b, buf[..], str, sign, Prefix(base, flags));
  }

  /** Everything in front of the figures (vsprintf.c:63-77). */
  function FrontText(sign: string, base: int, size: int, f: Flags): string
    requires 2 <= base <= 36
  {
    var head := sign + Prefix(base, f);
    if f.left then head else if f.zeropad then head + Times('0', size) else Times(' ', size) + head
  }

  function LeadText(sign: string, base: int, size: int, f: Flags): string
    requires 2 <= base <= 36
  {
    (if !f.zeropad && !f.left then Times(' ', size) else "") + (sign + Prefix(base, f))
  }

  /** Spaces in front, sign and prefix (vsprintf.c:63-74). */
  method Lead(buf: array<char>, str: nat, sign: string, base: int, size: int, f: Flags) returns (str': nat, size': int)
    requires 2 <= base <= 36 && |sign| <= 1 && str + |LeadText(sign, base, size, f)| <= buf.Length
    modifies buf
    ensures str' == str + |LeadText(sign, base, size, f)|
    ensures Wrote(old(buf[..]), buf[..], str, LeadText(sign, base, size, f))
    ensures if f.left || f.zeropad then size' == size else size' < 0
  {
    str', size' := str, size;
    if !f.zeropad && !f.left {
      str', size' := Pad(buf, str', size', ' ');
    } else {
      WroteNothing(buf[..], str);
    }
    ghost var b, pad := buf[..], if !f.zeropad && !f.left then Times(' ', size) else "";
    str' := Head(buf, str', sign, base, f);
    WroteTwice(old(buf[..]), b, buf[..], str, pad, sign + Prefix(base, f));
  }

  method Front(buf: array<char>, str: nat, sign: string, base: int, size: int, f: Flags) returns (str': nat, size': int)
    requires 2 <= base <= 36 && |sign| <= 1 && !(f.left && f.zeropad)
    requires str + |FrontText(sign, base, size, f)| <= buf.Length
    modifies buf
    ensures str' == str + |FrontText(sign, base, size, f)|
    ensures Wrote(old(buf[..]), buf[..], str, FrontText(sign, base, size, f))
    ensures if f.left then size' == size else size' < 0
  {
    var c := if f.zeropad then '0' else ' ';
    ghost var lead := LeadText(sign, base, size, f);
    str', size' := Lead(buf, str, sign, base, size, f);
    if f.left {
      WroteThat(old(buf[..]), buf[..], str, lead, FrontText(sign, base, size, f));
    } else {
      ghost var b, fill := buf[..], Times(c, size');
      str', size' := Pad(buf, str', size', c);
      WroteTwice(old(buf[..]), b, buf[..], str, lead, fill);
      WroteThat(old(buf[..]), buf[..], str, lead + fill, FrontText(sign, base, size, f));
    }
  }

  /** The figures and the padding behind them (vsprintf.c:78-83). */
  method Back(buf: array<char>, str: nat, tmp: array<char>, i: nat, precision: int, size: int, ghost s: string)
    returns (str': nat)
    requires i == |s| <= tmp.Length && buf != tmp && forall k :: 0 <= k < i ==> tmp[k] == s[i - 1 - k]
    requires str + |Times('0', precision - i) + s + Times(' ', size)| <= buf.Length
    modifies buf
    ensures str' == str + |Times('0', precision - i) + s + Times(' ', size)|
    ensures Wrote(old(buf[..]), buf[..], str, Times('0', precision - i) + s + Times(' ', size))
  {
    ghost var zeros := Times('0', precision - i);
    var p, z := Pad(buf, str, precision - i, '0');
    ghost var b1 := buf[..];
    p := FromDigits(buf, p, tmp, i, s);
    ghost var b2 := buf[..];
    WroteTwice(old(buf[..]), b1, b2, str, zeros, s);
    str', z := Pad(buf, p, size, ' ');
    WroteTwice(old(buf[..]), b2, buf[..], str, zeros + s, Times(' ', size));
  }

  lemma FiguresAre(num: nat, base: int, size: int, precision: int, flags: Flags, f: Flags, s: string, prec: int)
    requires num < UINT && 2 <= base <= 36 && f == (if flags.left then flags.(zeropad := false) else flags)
    requires |Digits(f)| == 36 && s == Numeral(Magnitude(num, flags), base, Digits(f))
    requires prec == if |s| > precision then |s| else precision
    ensures Figures(num, base, precision, flags) == Times('0', prec - |s|) + s
    ensures Room(num, base, size, precision, flags) == size - |SignText(num, flags)| - |Prefix(base, f)| - prec
  {
    assert Digits(f) == Digits(flags) && Prefix(base, f) == Prefix(base, flags);
    ZerosToPrecision(s, precision, prec);
    assert |Figures(num, base, precision, flags)| == prec;
  }

  lemma ZerosToPrecision(s: string, precision: int, prec: int)
    requires prec == if |s| > precision then |s| else precision
    ensures Times('0', prec - |s|) == Times('0', precision - |s|) && |Times('0', prec - |s|) + s| == prec
  {
    TimesIs('0', precision - |s|);
  }

  /** The field, in the order in which number() writes it; z is what is left of the width at the end. */
  lemma FieldParts(num: nat, base: int, size: int, precision: int, flags: Flags, f: Flags, s: string, prec: int, z: int)
    requires num < UINT && 2 <= base <= 36 && f == (if flags.left then flags.(zeropad := false) else flags)
    requires |Digits(f)| == 36 && s == Numeral(Magnitude(num, flags), base, Digits(f))
    requires prec == if |s| > precision then |s| else precision
    requires var room := size - |SignText(num, flags)| - |Prefix(base, f)| - prec;
             if f.left then z == room else z < 0
    ensures var room := size - |SignText(num, flags)| - |Prefix(base, f)| - prec;
            FrontText(SignText(num, flags), base, room, f) + (Times('0', prec - |s|) + s + Times(' ', z)) ==
            Field(num, base, size, precision, flags)
  {
    var head, zeros := SignText(num, flags) + Prefix(base, f), Times('0', prec - |s|);
    FiguresAre(num, base, size, precision, flags, f, s, prec);
    if f.left {
      Regroup(head, zeros + s, Times(' ', z));
    } else {
      assert zeros + s + "" == zeros + s;
    }
  }

  /** What number() writes, if z is left of the width when it comes to the last padding loop. */
  function TextFrom(sign: string, base: int, room: int, f: Flags, prec: int, s: string, z: int): string
    requires 2 <= base <= 36
  {
    FrontText(sign, base, room, f) + (Times('0', prec - |s|) + s + Times(' ', z))
  }

  predicate EndsWith(f: Flags, room: int, z: int) {
    if f.left then z == room else z < 0
  }

  /** The writing part of number() (vsprintf.c:63-83). */
  method WriteOut(buf: array<char>, str: nat, tmp: array<char>, i: nat, f: Flags, sign: string, base: int, prec: int,
                  room: int, ghost s: string, ghost field: string) returns (str': nat)
    requires 2 <= base <= 36 && |sign| <= 1 && !(f.left && f.zeropad)
    requires i == |s| <= tmp.Length && buf != tmp && forall k :: 0 <= k < i ==> tmp[k] == s[i - 1 - k]
    requires forall z: int :: EndsWith(f, room, z) ==> TextFrom(sign, base, room, f, prec, s, z) == field
    requires str + |field| <= buf.Length
    modifies buf
    ensures str' == str + |field| && Wrote(old(buf[..]), buf[..], str, field)
  {
    assert EndsWith(f, room, if f.left then room else -1);
    ghost var front := FrontText(sign, base, room, f);
    assert |front| <= |field|;
    var p, z := Front(buf, str, sign, base, room, f);
    assert EndsWith(f, room, z);
    ghost var b, back := buf[..], Times('0', prec - i) + s + Times(' ', z);
    str' := Back(buf, p, tmp, i, prec, z, s);
    WroteTwice(old(buf[..]), b, buf[..], str, front, back);
    WroteThat(old(buf[..]), buf[..], str, front + back, field);
  }

  /** Flags, magnitude, sign and what is left of the width (vsprintf.c:43-55). */
  method Prepare(num: nat, base: int, size: int, flags: Flags) returns (f: Flags, n: nat, sign: string, sz: int)
    requires num < UINT
    ensures f == if flags.left then flags.(zeropad := false) else flags
    ensures n == Magnitude(num, flags) && sign == SignText(num, flags)
    ensures sz == size - |sign| - |Prefix(base, f)|
  {
    f := if flags.left then flags.(zeropad := false) else flags;
    n := num;
    if f.sign && n >= INT_LIMIT {
      sign := "-";
      n := UINT - n;
    } else {
      sign := if f.plus then "+" else if f.space then " " else "";
    }
    sz := size;
    if sign != "" {
      sz := sz - 1;
    }
    if f.special {
      if base == 16 {
        sz := sz - 2;
      } else if base == 8 {
        sz := sz - 1;
      }
    }
  }

  /** number(): the field, at str; None for a base it cannot handle. */
  method Number(buf: array<char>, str: nat, num: nat, base: int, size: int, precision: int, flags: Flags)
    returns (end: Option<nat>)
    requires num < UINT
    requires 2 <= base <= 36 ==> str + |Field(num, base, size, precision, flags)| <= buf.Length
    modifies buf
    ensures end.None? <==> !(2 <= base <= 36)
    ensures end.None? ==> buf[..] == old(buf[..])
    ensures end.Some? ==> end.value == str + |Field(num, base, size, precision, flags)|
                          && Splice(old(buf[..]), buf[..], str, Field(num, base, size, precision, flags))
  {
    if base < 2 || base > 36 {
      return None;
    }
    var f, n, sign, sz := Prepare(num, base, size, flags);
    var tmp := new char[36];
    DigitsRight(f, 0);
    var i := ToDigits(tmp, n, base, Digits(f));
    var prec := if i > precision then i else precision;
    sz := sz - prec;
    ghost var s, room, field := Numeral(n, base, Digits(f)), sz, Field(num, base, size, precision, flags);
    forall z: int | EndsWith(f, room, z) ensures TextFrom(sign, base, room, f, prec, s, z) == field {
      FieldParts(num, base, size, precision, flags, f, s, prec, z);
    }
    var e := WriteOut(buf, str, tmp, i, f, sign, base, prec, sz, s, field);
    WroteIs(old(buf[..]), buf[..], str, field);
    return Some(e);
  }

  // ---- %s and %c ------------------------------------------------------------------------

  /** The part of a string argument that a precision lets through; a negative one means none given. */
  function Shown(s: string, precision: int): string {
    if 0 <= precision < |s| then s[..precision] else s
  }

  function StringField(s: string, width: int, left: bool): string {
    if left then s + Times(' ', width - |s|) else Times(' ', width - |s|) + s
  }

  /** The characters of the argument of %s, in order. */
  method Copy(buf: array<char>, str: nat, s: string) returns (str': nat)
    requires str + |s| <= buf.Length
    modifies buf
    ensures str' == str + |s| && Wrote(old(buf[..]), buf[..], str, s)
  {
    str' := str;
    var i := 0;
    while i < |s|
      invariant 0 <= i <= |s| && str' == str + i
      invariant forall k :: str <= k < str' ==> buf[k] == s[k - str]
      invariant forall k :: 0 <= k < str || str' <= k < buf.Length ==> buf[k] == old(buf[k])
    {
      buf[str'] := s[i];
      str', i := str' + 1, i + 1;
    }
    WroteEach(old(buf[..]), buf[..], str, s);
  }

  /** A string's field: the part of it that the precision lets through, all of it if there is none or it
      is not smaller than the string, and spaces on the other side up to the width. */
  lemma StringLayout(s: string, width: int, precision: int, left: bool) returns (pad: string)
    ensures OnlyOf(pad, ' ')
    ensures var text := if precision < 0 || precision >= |s| then s else s[..precision];
            && |pad| == (if width > |text| then width - |text| else 0)
            && StringField(Shown(s, precision), width, left) == if left then text + pad else pad + text
  {
    var text := Shown(s, precision);
    pad := Times(' ', width - |text|);
    TimesIs(' ', width - |text|);
  }

  lemma StringParts(s: string, width: int, left: bool)
    ensures var pad := Times(' ', width - |s|);
            StringField(s, width, left) == (if left then "" else pad) + s + (if left then pad else "")
    ensures |StringField(s, width, left)| == Max(|s|, width)
  {
    TimesIs(' ', width - |s|);
  }

  method Before(buf: array<char>, str: nat, room: int, left: bool) returns (str': nat, room': int)
    requires str <= buf.Length && (!left ==> str + |Times(' ', room)| <= buf.Length)
    modifies buf
    ensures var lead := if left then "" else Times(' ', room);
            str' == str + |lead| && Wrote(old(buf[..]), buf[..], str, lead)
    ensures if left then room' == room else room' < 0
  {
    str', room' := str, room;
    if !left {
      str', room' := Pad(buf, str, room, ' ');
    } else {
      WroteNothing(buf[..], str);
    }
  }

  /** Padding in front, and the text. */
  method FrontAndText(buf: array<char>, str: nat, s: string, room: int, left: bool) returns (str': nat, room': int)
    requires str + |(if left then "" else Times(' ', room)) + s| <= buf.Length
    modifies buf
    ensures var text := (if left then "" else Times(' ', room)) + s;
            str' == str + |text| && Wrote(old(buf[..]), buf[..], str, text)
    ensures if left then room' == room else room' < 0
  {
    str', room' := Before(buf, str, room, left);
    ghost var b, lead := buf[..], if left then "" else Times(' ', room);
    str' := Copy(buf, str', s);
    WroteTwice(old(buf[..]), b, buf[..], str, lead, s);
  }

  /** The two padding loops of %s and %c, and what stands between them (vsprintf.c:156-161, 172-178). */
  method Padded(buf: array<char>, str: nat, s: string, width: int, left: bool) returns (str': nat)
    requires str + |StringField(s, width, left)| <= buf.Length
    modifies buf
    ensures str' == str + Max(|s|, width) && Wrote(old(buf[..]), buf[..], str, StringField(s, width, left))
  {
    StringParts(s, width, left);
    ghost var text := (if left then "" else Times(' ', width - |s|)) + s;
    var p, room := FrontAndText(buf, str, s, width - |s|, left);
    ghost var b, trail := buf[..], Times(' ', room);
    str', room := Pad(buf, p, room, ' ');
    WroteTwice(old(buf[..]), b, buf[..], str, text, trail);
    WroteThat(old(buf[..]), buf[..], str, text + trail, StringField(s, width, left));
  }

  /** %s: as many characters as the precision lets through, in a field of at least the width. */
  method PutString(buf: array<char>, str: nat, s: string, width: int, precision: int, left: bool) returns (str': nat)
    requires str + |StringField(Shown(s, precision), width, left)| <= buf.Length
    modifies buf
    ensures str' == str + Max(|Shown(s, precision)|, width)
    ensures Splice(old(buf[..]), buf[..], str, StringField(Shown(s, precision), width, left))
    ensures precision < 0 || precision >= |s| ==> Splice(old(buf[..]), buf[..], str, StringField(s, width, left))
    ensures 0 <= precision < |s| ==> Splice(old(buf[..]), buf[..], str, StringField(s[..precision], width, left))
  {
    var len := |s|;
    if precision >= 0 && len > precision {
      len := precision;
    }
    assert s[..len] == Shown(s, precision);
    str' := Padded(buf, str, s[..len], width, left);
    WroteIs(old(buf[..]), buf[..], str, StringField(s[..len], width, left));
  }

  /** %c */
  method PutChar(buf: array<char>, str: nat, c: char, width: int, left: bool) returns (str': nat)
    requires str + |StringField([c], width, left)| <= buf.Length
    modifies buf
    ensures str' == str + Max(1, width) && Splice(old(buf[..]), buf[..], str, StringField([c], width, left))
  {
    str' := Padded(buf, str, [c], width, left);
    WroteIs(old(buf[..]), buf[..], str, StringField([c], width, left));
  }

  // ---- skip_atoi ------------------------------------------------------------------------

  lemma Int32Step(x: int, d: int)
    ensures Int32(Int32(x) * 10 + d) == Int32(x * 10 + d)
  {
    var k :| Int32(x) == x + k * UINT by { Int32Is(x); }
    assert Int32(x) * 10 + d == x * 10 + d + (10 * k) * UINT;
    ModShift(x * 10 + d, 10 * k);
  }

  lemma Int32Is(x: int)
    ensures exists k: int :: Int32(x) == x + k * UINT
  {
    assert x == x / UINT * UINT + x % UINT;
    var k := if x % UINT >= INT_LIMIT then -(x / UINT) - 1 else -(x / UINT);
    assert Int32(x) == x + k * UINT;
  }

  lemma ModShift(x: int, k: int)
    ensures (x + k * UINT) % UINT == x % UINT
  {
  }

  /** skip_atoi on a string that ends with something other than a digit: the position of that
      character, and the digits' value as an int. */
  method SkipAtoi(s: string, start: nat) returns (i: int, p: nat)
    requires start <= |s| && start + DigitRun(s[start..]) < |s|
    ensures p == start + DigitRun(s[start..]) && i == Parsed(s[start..])
  {
    ghost var t := s[start..];
    i, p := 0, start;
    while IsDigit(s[p])
      decreases |s| - p
      invariant start <= p <= start + DigitRun(t) && i == Partial(t, p - start)
    {
      DigitStep(t, p - start);
      assert s[p] == t[p - start];
      i := Int32(i * 10 + (s[p] as int - '0' as int));
      p := p + 1;
    }
  }

  /** The value after k digits. */
  function Partial(t: string, k: nat): int
    requires k <= |t|
  {
    Int32(Value(t[..k], 10))
  }

  lemma DigitStep(t: string, k: nat)
    requires k < |t| && IsDigit(t[k])
    ensures Partial(t, k + 1) == Int32(Partial(t, k) * 10 + (t[k] as int - '0' as int))
  {
    assert t[..k + 1] == t[..k] + [t[k]];
    ValueAppend(t[..k], t[k], 10);
    Int32Step(Value(t[..k], 10), DigitValue(t[k]));
  }
}
