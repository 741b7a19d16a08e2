/**
 * What the printed text says and what scanned text means, stated with the
 * bases as numbers and the characters as characters: %d and %u are decimal, %o
 * octal, %x and %X hexadecimal, in fields of the width, fill and mark asked for.
 */
module NumberMeaning {
  import opened NumberFormat

  /** The worth of a digit. */
  function Face(c: char): int {
    if '0' <= c <= '9' then c as int - 48
    else if 'a' <= c <= 'f' then c as int - 87
    else if 'A' <= c <= 'F' then c as int - 55
    else -1
  }

  /** A text of digits read as a number, each digit being worth w times the one after it. */
  function Positional(s: string, w: int): int {
    if s == [] then 0 else Positional(s[..|s| - 1], w) * w + Face(s[|s| - 1])
  }

  predicate Decimal(c: char) { '0' <= c <= '9' }
  predicate Octal(c: char) { '0' <= c <= '7' }
  predicate Hex(c: char, upper: bool) { '0' <= c <= '9' || (if upper then 'A' <= c <= 'F' else 'a' <= c <= 'f') }

  /** The one way to write a number: no leading zero, except that zero is a single one. */
  predicate Canonical(s: string) {
    s != [] && (|s| > 1 ==> s[0] != '0')
  }

  function Unsigned(arg: int): int {
    if arg < 0 then arg + 0x1_0000_0000 else arg
  }

  /** `digits` is the magnitude of the argument as the conversion writes it. */
  ghost predicate Writes(conv: Conv, arg: int, digits: string) {
    Canonical(digits) &&
    match conv
    case D =>
      && (forall i :: 0 <= i < |digits| ==> Decimal(digits[i]))
      && Positional(digits, 10) == (if arg < 0 then -arg else arg)
    case U => (forall i :: 0 <= i < |digits| ==> Decimal(digits[i])) && Positional(digits, 10) == Unsigned(arg)
    case O => (forall i :: 0 <= i < |digits| ==> Octal(digits[i])) && Positional(digits, 8) == Unsigned(arg)
    case X(upper) =>
      (forall i :: 0 <= i < |digits| ==> Hex(digits[i], upper)) && Positional(digits, 16) == Unsigned(arg)
  }

  /** A minus sign for a negative decimal. */
  function Sign(conv: Conv, arg: int): string {
    if conv.D? && arg < 0 then "-" else ""
  }

  /** What `#` adds: a leading zero in octal unless there is one, and 0x or 0X in hexadecimal. */
  function Mark(conv: Conv, alt: bool, digits: string): string {
    if !alt then ""
    else match conv
      case O => if digits != [] && digits[0] == '0' then "" else "0"
      case X(upper) => if upper then "0X" else "0x"
      case _ => ""
  }

  function Fill(c: char, n: nat): (s: string)
    ensures |s| == n && forall i :: 0 <= i < n ==> s[i] == c
  {
    seq(n, _ => c)
  }

  /** The field: blanks before everything, or zeros between the sign or mark and the digits. */
  function Laid(sign: string, mark: string, digits: string, width: nat, zero: bool): string {
    var n := |sign| + |mark| + |digits|;
    var pad := if width > n then width - n else 0;
    if zero then sign + mark + Fill('0', pad) + digits else Fill(' ', pad) + sign + mark + digits
  }

  /** Printing gives exactly that field around exactly that number. */
  lemma PrintMeans(conv: Conv, arg: int, width: nat, zero: bool, alt: bool) returns (digits: string)
    requires Int32(arg)
    ensures Writes(conv, arg, digits)
    ensures Print(conv, arg, width, zero, alt) == Laid(Sign(conv, arg), Mark(conv, alt, digits), digits, width, zero)
  {
    hide Print, Laid, Number;
    digits := Number(conv, arg);
    NumberWrites(conv, arg);
    PrintIsLaid(conv, arg, width, zero, alt);
  }

  /** The width is respected and nothing is cut off. */
  lemma LaidLength(sign: string, mark: string, digits: string, width: nat, zero: bool)
    ensures var n := |sign| + |mark| + |digits|;
      |Laid(sign, mark, digits, width, zero)| == if width > n then width else n
  {
  }

  lemma PrintIsLaid(conv: Conv, arg: int, width: nat, zero: bool, alt: bool)
    ensures var n := Number(conv, arg);
      Print(conv, arg, width, zero, alt) == Laid(Sign(conv, arg), Mark(conv, alt, n), n, width, zero)
  {
    hide Number, Repeat, Laid;
    FirstIsMinus(conv, arg, zero, alt);
    FirstOfNumber(conv, arg);
    var n := Number(conv, arg);
    if conv.D? && arg < 0 {
      SignedLaid(n, width, zero);
    } else if conv.O? && alt && n[0] != '0' {
      OctalLaid(n, width, zero);
    } else if conv.X? && alt && zero {
      MarkedLaid(Prefix(conv), n, width);
    } else if conv.X? && alt {
      BlankLaid("", Prefix(conv), n, width);
    } else {
      assert "" + n == n;
      PlainLaid(n, width, zero);
    }
  }

  lemma FirstOfNumber(conv: Conv, arg: int)
    ensures var n := Number(conv, arg); n != [] && n[0] != '-'
  {
    hide Digits, Magnitude;
    FirstDigit(Magnitude(conv, arg), Base(conv), conv.X? && conv.upper);
  }

  lemma {:induction false} RepeatIsFill(c: char, n: nat)
    ensures Repeat(c, n) == Fill(c, n)
  {
  }

  lemma BlankLaid(sign: string, mark: string, n: string, width: nat)
    requires n != []
    ensures var s := sign + mark + n; Repeat(' ', Max0(width - |s|)) + s == Laid(sign, mark, n, width, false)
  {
    hide Repeat, Fill;
    var s := sign + mark + n;
    var pad := Max0(width - |s|);
    RepeatIsFill(' ', pad);
    assert Fill(' ', pad) + s == Fill(' ', pad) + sign + mark + n;
  }

  lemma SignedLaid(n: string, width: nat, zero: bool)
    requires n != []
    ensures Field("-" + n, width, zero, true) == Laid("-", "", n, width, zero)
  {
    hide Repeat, Fill;
    var pad := Max0(width - |"-" + n|);
    assert "-" + "" + n == "-" + n;
    if zero {
      RepeatIsFill('0', pad);
      assert ("-" + n)[1..] == n;
      assert "-" + "" + Fill('0', pad) + n == "-" + Fill('0', pad) + n;
    } else {
      BlankLaid("-", "", n, width);
    }
  }

  lemma OctalLaid(n: string, width: nat, zero: bool)
    requires n != []
    ensures Field("0" + n, width, zero, false) == Laid("", "0", n, width, zero)
  {
    hide Repeat, Fill;
    var pad := Max0(width - |"0" + n|);
    assert "" + "0" + n == "0" + n;
    if zero {
      RepeatIsFill('0', pad);
      ZeroMoves(pad);
      assert "" + "0" + Fill('0', pad) == Fill('0', pad) + "0";
      assert Fill('0', pad) + ("0" + n) == Fill('0', pad) + "0" + n;
    } else {
      BlankLaid("", "0", n, width);
    }
  }

  lemma ZeroMoves(pad: nat)
    ensures "0" + Fill('0', pad) == Fill('0', pad) + "0"
  {
  }

  lemma MarkedLaid(mark: string, n: string, width: nat)
    requires n != [] && n[0] != '-' && |mark| == 2
    ensures mark + Field(n, Max0(width - 2), true, false) == Laid("", mark, n, width, true)
  {
    hide Repeat, Fill;
    var pad := Max0(Max0(width - 2) - |n|);
    RepeatIsFill('0', pad);
    assert "" + mark == mark;
    assert mark + (Fill('0', pad) + n) == mark + Fill('0', pad) + n;
  }

  lemma PlainLaid(n: string, width: nat, zero: bool)
    requires n != [] && n[0] != '-'
    ensures forall minus :: Field(n, width, zero, minus) == Laid("", "", n, width, zero)
  {
    hide Repeat, Fill;
    var pad := Max0(width - |n|);
    assert "" + "" + n == n;
    if zero {
      RepeatIsFill('0', pad);
      assert "" + "" + Fill('0', pad) + n == Fill('0', pad) + n;
    } else {
      BlankLaid("", "", n, width);
    }
  }

  // ----- The digits -----

  lemma NumberWrites(conv: Conv, arg: int)
    requires Int32(arg)
    ensures Writes(conv, arg, Number(conv, arg))
  {
    hide Digits, Positional, Canonical, Magnitude;
    var upper := conv.X? && conv.upper;
    MagnitudeIs(conv, arg);
    var n := Magnitude(conv, arg);
    DigitsMean(n, Base(conv), upper);
    DigitsCanonical(n, Base(conv), upper);
    forall i | 0 <= i < |Number(conv, arg)|
      ensures InAlphabet(Number(conv, arg)[i], Base(conv), upper)
    {
      DigitsOver(n, Base(conv), upper, i);
    }
  }

  lemma MagnitudeIs(conv: Conv, arg: int)
    requires Int32(arg)
    ensures Magnitude(conv, arg) == if conv.D? && arg < 0 then -arg else Unsigned(arg)
  {
  }

  predicate InAlphabet(c: char, base: int, upper: bool) {
    if base == 8 then Octal(c) else if base == 10 then Decimal(c) else Hex(c, upper)
  }

  lemma FaceOf(d: nat, base: nat, upper: bool)
    requires base in {8, 10, 16} && d < base
    ensures Face(DigitChar(d, upper)) == d && InAlphabet(DigitChar(d, upper), base, upper)
    ensures DigitChar(d, upper) == '0' <==> d == 0
  {
  }

  lemma {:induction false} DigitsMean(n: nat, base: nat, upper: bool)
    requires base in {8, 10, 16}
    ensures Positional(Digits(n, base, upper), base) == n
    decreases n
  {
    hide DigitChar, Face, Digits, Positional;
    Quotient(n, base);
    LastDigit(n, base, upper);
    FaceOf(n % base, base, upper);
    if n >= base {
      DigitsMean(n / base, base, upper);
      PositionalLast(Digits(n / base, base, upper), DigitChar(n % base, upper), base);
      Rejoin(n, base);
    } else {
      PositionalLast([], DigitChar(n % base, upper), base);
      assert [] + [DigitChar(n % base, upper)] == [DigitChar(n % base, upper)];
    }
  }

  lemma PositionalLast(s: string, c: char, w: int)
    ensures Positional(s + [c], w) == Positional(s, w) * w + Face(c) && Positional([], w) == 0
  {
    assert (s + [c])[..|s|] == s;
  }

  lemma {:induction false} DigitsOver(n: nat, base: nat, upper: bool, i: nat)
    requires base in {8, 10, 16} && i < |Digits(n, base, upper)|
    ensures InAlphabet(Digits(n, base, upper)[i], base, upper)
    decreases n
  {
    hide DigitChar, InAlphabet;
    Quotient(n, base);
    FaceOf(n % base, base, upper);
    if n >= base && i < |Digits(n / base, base, upper)| {
      DigitsOver(n / base, base, upper, i);
    }
  }

  lemma {:induction false} DigitsCanonical(n: nat, base: nat, upper: bool)
    requires base in {8, 10, 16}
    ensures Canonical(Digits(n, base, upper)) && (Digits(n, base, upper)[0] == '0' <==> n == 0)
    decreases n
  {
    hide DigitChar;
    Quotient(n, base);
    FaceOf(n % base, base, upper);
    if n >= base {
      DigitsCanonical(n / base, base, upper);
    }
  }

  // ----- There is one such text -----

  /** The digits are worth less than the weight. */
  ghost predicate Below(s: string, w: int) {
    forall i :: 0 <= i < |s| ==> 0 <= Face(s[i]) < w
  }

  lemma {:induction false} PositionalSign(s: string, w: int)
    requires w > 1 && Below(s, w)
    ensures Positional(s, w) >= 0
    ensures s != [] && Face(s[0]) > 0 ==> Positional(s, w) > 0
  {
    if s != [] {
      var before := s[..|s| - 1];
      PositionalSign(before, w);
      NotLess(Positional(before, w), w);
    }
  }

  lemma NotLess(x: int, w: int)
    requires x >= 0 && w > 1
    ensures x * w >= x
  {
  }

  lemma SameParts(x: int, d: int, y: int, e: int, w: int)
    requires x * w + d == y * w + e && 0 <= d < w && 0 <= e < w
    ensures x == y && d == e
  {
    if x > y {
      Apart(x, y, w);
    } else if y > x {
      Apart(y, x, w);
    }
  }

  lemma Apart(x: int, y: int, w: int)
    requires x > y && w > 0
    ensures x * w >= y * w + w
  {
    NotSmaller(x, y + 1, w);
    assert (y + 1) * w == y * w + w;
  }

  lemma NotSmaller(a: int, b: int, w: int)
    requires a >= b && w > 0
    ensures a * w >= b * w
  {
  }

  /** Different digits of one alphabet have different worth. */
  ghost predicate SameAlphabet(a: string, b: string, w: int) {
    && Below(a, w) && Below(b, w)
    && (forall i, j :: 0 <= i < |a| && 0 <= j < |b| && Face(a[i]) == Face(b[j]) ==> a[i] == b[j])
  }

  lemma {:induction false} OneText(a: string, b: string, w: int)
    requires w > 1 && SameAlphabet(a, b, w) && Canonical(a) && Canonical(b) && Positional(a, w) == Positional(b, w)
    ensures a == b
    decreases |a|
  {
    hide Face;
    var a1, b1 := a[..|a| - 1], b[..|b| - 1];
    var c, d := a[|a| - 1], b[|b| - 1];
    assert a == a1 + [c] && b == b1 + [d];
    SameParts(Positional(a1, w), Face(c), Positional(b1, w), Face(d), w);
    assert c == d;
    FirstCounts(a, w);
    FirstCounts(b, w);
    if |a| > 1 && |b| > 1 {
      OneText(a1, b1, w);
    }
  }

  /** All but the last digit of a text longer than one are worth something. */
  lemma FirstCounts(a: string, w: int)
    requires w > 1 && Below(a, w) && Canonical(a)
    ensures |a| > 1 ==> Positional(a[..|a| - 1], w) > 0
    ensures |a| == 1 ==> Positional(a[..|a| - 1], w) == 0
  {
    if |a| > 1 {
      PositionalSign(a[..|a| - 1], w);
      assert Face(a[0]) != 0;
    }
  }

  /** So the text of a number is determined by what it says. */
  lemma WritesOnce(conv: Conv, arg: int, a: string, b: string)
    requires Writes(conv, arg, a) && Writes(conv, arg, b)
    ensures a == b
  {
    hide Positional, Canonical;
    OneText(a, b, match conv case O => 8 case X(_) => 16 case _ => 10);
  }

  // ----- Scanning -----

  /** The characters the scanner takes for digits; in octal it takes 8 and 9 too. */
  predicate Taken(conv: Conv, c: char) {
    '0' <= c <= '9' || (conv.X? && ('a' <= c <= 'f' || 'A' <= c <= 'F'))
  }

  /** The number that a run of digits stands for. */
  function Meant(conv: Conv, digits: string): int {
    match conv
    case O => Positional(digits, 8)
    case X(_) => Positional(digits, 16)
    case _ => Positional(digits, 10)
  }

  predicate Blank(c: char) { c == ' ' || c == '\t' || c == '\n' }

  /**
   * Scanning skips blanks, takes one sign and then the longest run of digits
   * that the length allows, and stores what the run stands for in 32 bits.
   */
  lemma ScanMeans(s: string, pos: nat, conv: Conv, len: int) returns (i: nat, start: nat, end: nat)
    requires pos <= |s|
    ensures pos <= i <= start <= end <= |s|
    ensures (forall k :: pos <= k < i ==> Blank(s[k])) && (i < |s| ==> !Blank(s[i]))
    ensures start == if i < |s| && (s[i] == '-' || s[i] == '+') then i + 1 else i
    ensures forall k :: start <= k < end ==> Taken(conv, s[k])
    ensures end == start || end - i <= len
    ensures end == |s| || end - i >= len || !Taken(conv, s[end])
    ensures var r := Scan(s, pos, conv, len);
      && r.ok == (end > start) && r.next == end && r.eof == (end == |s|) && Int32(r.value)
      && (r.value - (if start > i && s[i] == '-' then -Meant(conv, s[start..end]) else Meant(conv, s[start..end])))
          % 0x1_0000_0000 == 0
  {
    hide Value, U32, S32, RunEnd, SkipBlanks, Positional, Scan, Taken, Meant, Blank, Base;
    i := SkipBlanks(s, pos);
    SkipsBlanks(s, pos);
    start := if i < |s| && (s[i] == '-' || s[i] == '+') then i + 1 else i;
    var left := if start > i then len - 1 else len;
    end := RunEnd(s, start, Base(conv), left);
    TakesTaken(s, start, conv, left);
    ScanIs(s, pos, conv, len, i, start, end);
    RunWorth(conv, s[start..end]);
  }

  /** The parts of a scan put together. */
  lemma ScanIs(s: string, pos: nat, conv: Conv, len: int, i: nat, start: nat, end: nat)
    requires pos <= |s| && i == SkipBlanks(s, pos) && i <= start <= end <= |s|
    requires start == if i < |s| && (s[i] == '-' || s[i] == '+') then i + 1 else i
    requires end == RunEnd(s, start, Base(conv), if start > i then len - 1 else len)
    ensures var v: int := Value(s[start..end], Base(conv));
      Scan(s, pos, conv, len)
      == Scanned(end > start, S32(if start > i && s[i] == '-' then -v else v), end, end == |s|)
  {
    hide Value, U32, S32, RunEnd, SkipBlanks, Base;
  }

  /** What a run is worth, with either sign, in 32 bits. */
  lemma RunWorth(conv: Conv, digits: string)
    requires forall k :: 0 <= k < |digits| ==> Taken(conv, digits[k])
    ensures var v: int, x := Value(digits, Base(conv)), Meant(conv, digits);
      && Int32(S32(v)) && Int32(S32(-v))
      && (S32(v) - x) % 0x1_0000_0000 == 0 && (S32(-v) - (-x)) % 0x1_0000_0000 == 0
  {
    hide Value, U32, S32, Positional;
    ValueIs(digits, Base(conv));
    Wrapped(Value(digits, Base(conv)), Meant(conv, digits));
  }

  lemma TakesTaken(s: string, i: nat, conv: Conv, len: int)
    requires i <= |s|
    ensures var j := RunEnd(s, i, Base(conv), len);
      && (forall k :: i <= k < j ==> Taken(conv, s[k]))
      && (j == i || j - i <= len) && (j == |s| || j - i >= len || !Taken(conv, s[j]))
  {
    hide RunEnd;
    TakesRun(s, i, Base(conv), len);
  }

  lemma {:induction false} SkipsBlanks(s: string, i: nat)
    requires i <= |s|
    ensures forall k :: i <= k < SkipBlanks(s, i) ==> Blank(s[k])
    ensures SkipBlanks(s, i) < |s| ==> !Blank(s[SkipBlanks(s, i)])
    decreases |s| - i
  {
    if i < |s| && IsBlank(s[i]) {
      SkipsBlanks(s, i + 1);
    }
  }

  lemma {:induction false} TakesRun(s: string, i: nat, base: nat, len: int)
    requires i <= |s|
    ensures var j := RunEnd(s, i, base, len);
      && (forall k :: i <= k < j ==> IsDigit(s[k], base))
      && (j == i || j - i <= len) && (j == |s| || j - i >= len || !IsDigit(s[j], base))
    decreases |s| - i
  {
    if len > 0 && i < |s| && IsDigit(s[i], base) {
      TakesRun(s, i + 1, base, len - 1);
    }
  }

  lemma {:induction false} ValueIs(t: string, base: nat)
    requires forall k :: 0 <= k < |t| ==> IsDigit(t[k], base)
    ensures (Positional(t, base) - Value(t, base)) % TWO32 == 0
  {
    if t != [] {
      var before, c := t[..|t| - 1], t[|t| - 1];
      ValueIs(before, base);
      assert Face(c) == DigitVal(c);
      Congruent(Positional(before, base), Value(before, base), base, Face(c));
    }
  }

  lemma Congruent(x: int, y: int, base: int, d: int)
    requires (x - y) % TWO32 == 0
    ensures (x * base + d - U32(y * base + d)) % TWO32 == 0
  {
    var q, r := (x - y) / TWO32, (y * base + d) / TWO32;
    assert x == y + q * TWO32;
    assert U32(y * base + d) == y * base + d - r * TWO32;
    Product(y, q, base);
    Multiple(q * base + r);
  }

  lemma Product(y: int, q: int, base: int)
    ensures (y + q * TWO32) * base == y * base + (q * base) * TWO32
  {
  }

  lemma Multiple(m: int)
    ensures (m * TWO32) % TWO32 == 0
  {
  }

  /** Either sign, taken to 32 bits. */
  lemma Wrapped(v: int, x: int)
    requires (x - v) % TWO32 == 0
    ensures (S32(v) - x) % TWO32 == 0 && (S32(-v) + x) % TWO32 == 0
  {
    var q := (x - v) / TWO32;
    assert x == v + q * TWO32;
    var k := Turns(v);
    var m := Turns(-v);
    Multiple(0 - k - q);
    Multiple(q - m);
  }

  lemma Turns(v: int) returns (k: int)
    ensures S32(v) == v - k * TWO32
  {
    k := v / TWO32;
    assert U32(v) == v - k * TWO32;
    if U32(v) >= 0x8000_0000 {
      k := k + 1;
    }
  }
}
