/**
 * Printing and scanning of integers in the streams package. Printing fills a
 * buffer with digits from the right and pads the field; scanning skips blanks
 * and accumulates digits in 32 bits. Every 32-bit value survives the round
 * trip, whatever follows it.
 */
module NumberFormat {

  const TWO32 := 0x1_0000_0000

  /** d (and i), u, o, and x or X. */
  datatype Conv = D | U | O | X(upper: bool)

  function Base(conv: Conv): (b: nat)
    ensures b in {8, 10, 16}
  {
    match conv
    case D => 10
    case U => 10
    case O => 8
    case X(_) => 16
  }

  /** The bits of a word as an unsigned number. */
  function U32(x: int): (r: nat)
    ensures r < TWO32
  {
    x % TWO32
  }

  /** The same bits as a signed number. */
  function S32(x: int): (r: int)
    ensures -0x8000_0000 <= r < 0x8000_0000
  {
    if U32(x) < 0x8000_0000 then U32(x) else U32(x) - TWO32
  }

  predicate Int32(x: int) {
    -0x8000_0000 <= x < 0x8000_0000
  }

  // ----- Digits -----

  function DigitChar(d: nat, upper: bool): char
    requires d < 16
  {
    if d < 10 then '0' + d as char else (if upper then 'A' else 'a') + (d - 10) as char
  }

  predicate IsDigit(c: char, base: nat) {
    '0' <= c <= '9' || (base == 16 && ('a' <= c <= 'f' || 'A' <= c <= 'F'))
  }

  function DigitVal(c: char): nat {
    if '0' <= c <= '9' then c as int - '0' as int
    else if 'a' <= c <= 'f' then c as int - 'a' as int + 10
    else if 'A' <= c <= 'F' then c as int - 'A' as int + 10
    else 0
  }

  lemma DigitRoundTrip(d: nat, upper: bool, base: nat)
    requires base in {8, 10, 16} && d < base
    ensures IsDigit(DigitChar(d, upper), base) && DigitVal(DigitChar(d, upper)) == d
    ensures DigitChar(d, upper) == '0' <==> d == 0
  {
  }

  /** The digits of n, most significant first. */
  function Digits(n: nat, base: nat, upper: bool): (s: string)
    requires base in {8, 10, 16}
    ensures |s| >= 1
    decreases n
  {
    if n < base then [DigitChar(n, upper)]
    else Digits(n / base, base, upper) + [DigitChar(n % base, upper)]
  }

  function Pow(b: nat, k: nat): nat {
    if k == 0 then 1 else b * Pow(b, k - 1)
  }

  lemma {:induction false} DigitsLength(n: nat, base: nat, upper: bool, k: nat)
    requires base in {8, 10, 16} && k >= 1 && n < Pow(base, k)
    ensures |Digits(n, base, upper)| <= k
    decreases k
  {
    PowOne(base);
    if n >= base {
      Shorter(n, base, Pow(base, k - 1));
      DigitsLength(n / base, base, upper, k - 1);
    }
  }

  lemma PowOne(base: nat)
    ensures Pow(base, 1) == base
  {
    assert Pow(base, 1) == base * Pow(base, 0);
  }

  lemma Quotient(n: nat, base: nat)
    requires base in {8, 10, 16}
    ensures 0 <= n / base && 0 <= n % base < base
    ensures n / base == 0 <==> n < base
    ensures n >= base ==> n / base < n
    ensures n < base ==> n % base == n
  {
  }

  lemma Shorter(n: nat, base: nat, p: nat)
    requires base in {8, 10, 16} && n < base * p
    ensures n / base < p
  {
  }

  /** How long the digits of a word can be. */
  lemma WordDigits(n: nat, base: nat, upper: bool)
    requires base in {8, 10, 16} && n < TWO32
    ensures |Digits(n, base, upper)| <= if base == 8 then 11 else if base == 10 then 10 else 8
  {
    var k := if base == 8 then 11 else if base == 10 then 10 else 8;
    PowIs(base);
    DigitsLength(n, base, upper, k);
  }

  lemma PowIs(base: nat)
    requires base in {8, 10, 16}
    ensures base == 8 ==> Pow(8, 11) == 8589934592
    ensures base == 10 ==> Pow(10, 10) == 10000000000
    ensures base == 16 ==> Pow(16, 8) == TWO32
  {
    if base == 8 {
      assert Pow(8, 4) == 4096;
      assert Pow(8, 8) == 8 * (8 * (8 * (8 * Pow(8, 4))));
      assert Pow(8, 11) == 8 * (8 * (8 * Pow(8, 8)));
    } else if base == 10 {
      assert Pow(10, 5) == 100000;
      assert Pow(10, 10) == 10 * (10 * (10 * (10 * (10 * Pow(10, 5)))));
    } else {
      assert Pow(16, 4) == 65536;
      assert Pow(16, 8) == 16 * (16 * (16 * (16 * Pow(16, 4))));
    }
  }

  /**
   * The digit loops: fill the buffer backwards from endp. The mask and shift
   * of the octal and hexadecimal loop are remainder and quotient.
   */
  method FillDigits(buf: array<char>, endp: nat, n: nat, base: nat, upper: bool) returns (begp: nat)
    requires base in {8, 10, 16} && |Digits(n, base, upper)| <= endp <= buf.Length
    modifies buf
    ensures begp == endp - |Digits(n, base, upper)| && buf[begp..endp] == Digits(n, base, upper)
  {
    hide Digits, DigitChar;
    begp := endp;
    var num: nat := n;
    while true
      invariant |Digits(num, base, upper)| <= begp <= endp
      invariant Digits(n, base, upper) == Digits(num, base, upper) + buf[begp..endp]
      decreases num
    {
      Quotient(num, base);
      LastDigit(num, base, upper);
      begp := Prepend(buf, begp, endp, DigitChar(num % base, upper));
      num := num / base;
      if num == 0 {
        return;
      }
    }
  }

  lemma LastDigit(n: nat, base: nat, upper: bool)
    requires base in {8, 10, 16} && 0 <= n / base && 0 <= n % base < base
    ensures n / base == 0 ==> Digits(n, base, upper) == [DigitChar(n % base, upper)]
    ensures n / base > 0 ==> Digits(n, base, upper) == Digits(n / base, base, upper) + [DigitChar(n % base, upper)]
  {
    Quotient(n, base);
  }

  // ----- Printing -----

  /** The magnitude that is turned into digits; negation wraps for the most negative integer. */
  function Magnitude(conv: Conv, arg: int): (n: nat)
    ensures n < TWO32
  {
    if conv.D? && arg < 0 then U32(-arg) else U32(arg)
  }

  predicate Negative(conv: Conv, arg: int) {
    conv.D? && arg < 0
  }

  function Number(conv: Conv, arg: int): string {
    Digits(Magnitude(conv, arg), Base(conv), conv.X? && conv.upper)
  }

  function Repeat(c: char, n: nat): (s: string)
    ensures |s| == n && forall i :: 0 <= i < n ==> s[i] == c
  {
    if n == 0 then [] else Repeat(c, n - 1) + [c]
  }

  function Prefix(conv: Conv): string
    requires conv.X?
  {
    if conv.upper then "0X" else "0x"
  }

  /** What goes into the buffer: the sign or the octal or hexadecimal mark, and the digits. */
  function Body(conv: Conv, arg: int, zero: bool, alt: bool): (r: string)
    ensures |r| > 0
  {
    var s := Number(conv, arg);
    match conv
    case D => (if arg < 0 then "-" else "") + s
    case U => s
    case O => if alt && s[0] != '0' then "0" + s else s
    case X(_) => if alt && !zero then Prefix(conv) + s else s
  }

  function Max0(x: int): nat {
    if x < 0 then 0 else x
  }

  /** A field, right-justified: blanks before it, or zeros after the sign and before the digits. */
  function Field(s: string, width: int, zero: bool, minus: bool): string
    requires |s| > 0
  {
    var pad := Max0(width - |s|);
    if !zero then Repeat(' ', pad) + s
    else if minus && s[0] == '-' then "-" + Repeat('0', pad) + s[1..]
    else Repeat('0', pad) + s
  }

  /** All that is printed for one argument. */
  function Print(conv: Conv, arg: int, width: nat, zero: bool, alt: bool): string {
    var s := Body(conv, arg, zero, alt);
    if zero && alt && conv.X? then Prefix(conv) + Field(s, Max0(width - 2), true, false)
    else Field(s, width, zero, conv.D? || conv.U?)
  }

  /** The emitting end of NXVPrintf; `minus` is FILL_MINUS. */
  method Emit(out: string, s: string, width: int, zero: bool, minus: bool) returns (r: string)
    requires |s| > 0
    ensures r == out + Field(s, width, zero, minus)
  {
    if |s| >= width {
      assert Repeat('0', 0) == Repeat(' ', 0) == [];
      assert s == [s[0]] + s[1..];
      return out + s;
    }
    var cfill := if !zero then ' ' else '0';
    if s[0] == '-' && zero && minus {
      r := Pad(out + "-", cfill, width - |s|);
      r := r + s[1..];
    } else {
      r := Pad(out, cfill, width - |s|);
      r := r + s;
    }
  }

  method Pad(out: string, c: char, npad: nat) returns (r: string)
    ensures r == out + Repeat(c, npad)
  {
    r := out;
    var i := 0;
    while i < npad
      invariant 0 <= i <= npad && r == out + Repeat(c, i)
    {
      r := r + [c];
      i := i + 1;
    }
  }

  /** Convert one argument in the buffer. */
  method FillBody(buf: array<char>, conv: Conv, arg: int, zero: bool, alt: bool) returns (begp: nat, endp: nat)
    requires buf.Length == 400
    modifies buf
    ensures begp <= endp <= 400 && buf[begp..endp] == Body(conv, arg, zero, alt)
  {
    hide Digits, Magnitude, U32;
    var n, base, upper := Magnitude(conv, arg), Base(conv), conv.X? && conv.upper;
    WordDigits(n, base, upper);
    endp := if base == 10 then 11 else 14;
    begp := FillDigits(buf, endp, n, base, upper);
    if conv.D? && arg < 0 {
      begp := Prepend(buf, begp, endp, '-');
    } else if conv.O? && alt && buf[begp] != '0' {
      begp := Prepend(buf, begp, endp, '0');
    } else if conv.X? && alt && !zero {
      begp := Prepend(buf, begp, endp, if conv.upper then 'X' else 'x');
      begp := Prepend(buf, begp, endp, '0');
    }
  }

  method Prepend(buf: array<char>, begp: nat, endp: nat, c: char) returns (b: nat)
    requires 0 < begp <= endp <= buf.Length
    modifies buf
    ensures b == begp - 1 && buf[b..endp] == [c] + old(buf[begp..endp])
  {
    b := begp - 1;
    buf[b] := c;
  }

  /** Convert one argument and emit it. */
  method PrintNumber(out: string, conv: Conv, arg: int, width: nat, zero: bool, alt: bool) returns (r: string)
    ensures r == out + Print(conv, arg, width, zero, alt)
  {
    hide Body, Field;
    var buf := new char[400];
    var begp, endp := FillBody(buf, conv, arg, zero, alt);
    if zero && alt && conv.X? {
      ghost var field := Field(Body(conv, arg, zero, alt), Max0(width - 2), true, false);
      r := Emit(out + Prefix(conv), buf[begp..endp], if width < 2 then 0 else width - 2, true, false);
      assert out + Prefix(conv) + field == out + (Prefix(conv) + field);
    } else {
      r := Emit(out, buf[begp..endp], width, zero, conv.D? || conv.U?);
    }
  }

  /** Only a negative decimal begins with a minus sign. */
  lemma FirstIsMinus(conv: Conv, arg: int, zero: bool, alt: bool)
    ensures |Body(conv, arg, zero, alt)| > 0
    ensures Body(conv, arg, zero, alt)[0] == '-' <==> Negative(conv, arg)
  {
    FirstDigit(Magnitude(conv, arg), Base(conv), conv.X? && conv.upper);
  }

  lemma {:induction false} FirstDigit(n: nat, base: nat, upper: bool)
    requires base in {8, 10, 16}
    ensures IsDigit(Digits(n, base, upper)[0], base)
    decreases n
  {
    if n >= base {
      FirstDigit(n / base, base, upper);
    } else {
      DigitRoundTrip(n, upper, base);
    }
  }

  // ----- Scanning -----

  predicate IsBlank(c: char) {
    c == ' ' || c == '\t' || c == '\n'
  }

  /** The first character from i on that is not blank. */
  function SkipBlanks(s: string, i: nat): (j: nat)
    requires i <= |s|
    ensures i <= j <= |s| && (j < |s| ==> !IsBlank(s[j]))
    decreases |s| - i
  {
    if i < |s| && IsBlank(s[i]) then SkipBlanks(s, i + 1) else i
  }

  /** The end of the digits that start at i, at most len of them. */
  function RunEnd(s: string, i: nat, base: nat, len: int): (j: nat)
    requires i <= |s|
    ensures i <= j <= |s|
    decreases |s| - i
  {
    if len > 0 && i < |s| && IsDigit(s[i], base) then RunEnd(s, i + 1, base, len - 1) else i
  }

  /** What the digits mean, in 32 bits. */
  function Value(t: string, base: nat): (v: nat)
    ensures v < TWO32
  {
    if t == [] then 0 else U32(Value(t[..|t| - 1], base) * base + DigitVal(t[|t| - 1]))
  }

  /** The integer path of _innum: was a number stored, which, and where does reading go on. */
  datatype Scanned = Scanned(ok: bool, value: int, next: nat, eof: bool)

  function Scan(s: string, pos: nat, conv: Conv, len: int): Scanned
    requires pos <= |s|
  {
    var i := SkipBlanks(s, pos);
    var neg := i < |s| && s[i] == '-';
    var signed := neg || (i < |s| && s[i] == '+');
    var start := if signed then i + 1 else i;
    var end := RunEnd(s, start, Base(conv), if signed then len - 1 else len);
    var v: int := Value(s[start..end], Base(conv));
    Scanned(end > start, S32(if neg then -v else v), end, end == |s|)
  }

  /** One more digit: the shifts and adds of the loop are a multiplication by the base. */
  lemma ValueNext(s: string, i: nat, j: nat, base: nat)
    requires i <= j < |s|
    ensures Value(s[i..j + 1], base) == U32(Value(s[i..j], base) * base + DigitVal(s[j]))
  {
    assert s[i..j + 1][..j - i] == s[i..j];
  }

  method Innum(s: string, pos: nat, conv: Conv, length: int) returns (r: Scanned)
    requires pos <= |s|
    ensures r == Scan(s, pos, conv, length)
  {
    hide Value, U32, S32, SkipBlanks, RunEnd;
    var c := SkipLoop(s, pos);
    var len, neg := length, false;
    if c < |s| && s[c] == '-' {
      neg := true;
      c := c + 1;
      len := len - 1;
    } else if c < |s| && s[c] == '+' {
      len := len - 1;
      c := c + 1;
    }
    var lcval, end := DigitLoop(s, c, Base(conv), len);
    r := Scanned(end > c, S32(if neg then -lcval else lcval), end, end == |s|);
  }

  method SkipLoop(s: string, pos: nat) returns (c: nat)
    requires pos <= |s|
    ensures c == SkipBlanks(s, pos)
  {
    c := pos;
    while c < |s| && (s[c] == ' ' || s[c] == '\t' || s[c] == '\n')
      invariant pos <= c <= |s| && SkipBlanks(s, pos) == SkipBlanks(s, c)
    {
      c := c + 1;
    }
  }

  method DigitLoop(s: string, start: nat, base: nat, length: int) returns (lcval: int, c: nat)
    requires start <= |s|
    ensures c == RunEnd(s, start, base, length) && lcval == Value(s[start..c], base)
  {
    hide Value, U32, DigitVal;
    c, lcval := start, 0;
    ValueOfNone(base);
    assert s[start..c] == [];
    var len := length - 1;
    while len >= 0
      invariant start <= c <= |s| && len + 1 == length - (c - start)
      invariant lcval == Value(s[start..c], base)
      invariant RunEnd(s, start, base, length) == RunEnd(s, c, base, len + 1)
      decreases |s| - c, len + 1
    {
      if !(c < |s| && IsDigit(s[c], base)) {
        break;
      }
      ValueNext(s, start, c, base);
      lcval := U32(lcval * base + DigitVal(s[c]));
      c := c + 1;
      len := len - 1;
    }
  }

  lemma ValueOfNone(base: nat)
    ensures Value([], base) == 0
  {
  }

  // ----- The round trip -----

  /** Leading zeros and digits read back as the number. */
  lemma {:induction false} ValueOfDigits(m: nat, n: nat, base: nat, upper: bool)
    requires base in {8, 10, 16} && n < TWO32
    ensures Value(Repeat('0', m) + Digits(n, base, upper), base) == n
    decreases n
  {
    hide Value, Digits, DigitChar, DigitVal, U32;
    Quotient(n, base);
    LastDigit(n, base, upper);
    var c := DigitChar(n % base, upper);
    DigitRoundTrip(n % base, upper, base);
    if n < base {
      ValueOfZeros(m, base);
      ValueLast(Repeat('0', m), c, base);
      Small(n);
    } else {
      ValueOfDigits(m, n / base, base, upper);
      ValueLast(Repeat('0', m) + Digits(n / base, base, upper), c, base);
      assert Repeat('0', m) + Digits(n, base, upper) == Repeat('0', m) + Digits(n / base, base, upper) + [c];
      Rejoin(n, base);
      Small(n);
    }
  }

  lemma ValueLast(a: string, c: char, base: nat)
    ensures Value(a + [c], base) == U32(Value(a, base) * base + DigitVal(c))
  {
    assert (a + [c])[..|a|] == a;
  }

  lemma Small(n: nat)
    requires n < TWO32
    ensures U32(n) == n
  {
  }

  lemma Rejoin(n: nat, base: nat)
    requires base in {8, 10, 16}
    ensures (n / base) * base + n % base == n
  {
  }

  lemma {:induction false} ValueOfZeros(m: nat, base: nat)
    ensures Value(Repeat('0', m), base) == 0
  {
    if m > 0 {
      assert Repeat('0', m)[..m - 1] == Repeat('0', m - 1);
      ValueOfZeros(m - 1, base);
    }
  }

  lemma {:induction false} AllDigits(n: nat, base: nat, upper: bool, i: nat)
    requires base in {8, 10, 16} && i < |Digits(n, base, upper)|
    ensures IsDigit(Digits(n, base, upper)[i], base)
    decreases n
  {
    Quotient(n, base);
    DigitRoundTrip(n % base, upper, base);
    if n >= base && i < |Digits(n / base, base, upper)| {
      AllDigits(n / base, base, upper, i);
    }
  }

  /** A run of digits is read to its end. */
  lemma {:induction false} RunIsRead(s: string, i: nat, j: nat, base: nat, len: int)
    requires i <= j <= |s| && j - i <= len && (forall k :: i <= k < j ==> IsDigit(s[k], base))
    requires j == |s| || !IsDigit(s[j], base)
    ensures RunEnd(s, i, base, len) == j
    decreases j - i
  {
    if i < j {
      RunIsRead(s, i + 1, j, base, len - 1);
    }
  }

  lemma {:induction false} BlanksAreSkipped(s: string, i: nat, j: nat)
    requires i <= j < |s| && (forall k :: i <= k < j ==> IsBlank(s[k])) && !IsBlank(s[j])
    ensures SkipBlanks(s, i) == j
    decreases j - i
  {
    if i < j {
      BlanksAreSkipped(s, i + 1, j);
    }
  }

  /** Every field printed without the hexadecimal mark: blanks, perhaps a sign, zeros, and the digits. */
  lemma PrintShape(conv: Conv, arg: int, width: nat, zero: bool, alt: bool) returns (blanks: nat, zeros: nat)
    requires !(alt && conv.X?)
    ensures Print(conv, arg, width, zero, alt)
      == Repeat(' ', blanks) + ((if Negative(conv, arg) then "-" else "") + (Repeat('0', zeros) + Number(conv, arg)))
    ensures blanks == 0 || zeros <= 1
    ensures |Print(conv, arg, width, zero, alt)| <= if width > 12 then width else 12
  {
    hide Body, Number, Repeat, Field;
    FirstIsMinus(conv, arg, zero, alt);
    var one := BodyShape(conv, arg, zero, alt);
    var pad := Max0(width - |Body(conv, arg, zero, alt)|);
    blanks, zeros := if zero then 0 else pad, if zero then pad + one else one;
    FieldShape(if Negative(conv, arg) then "-" else "", one, Number(conv, arg), width, zero, conv.D? || conv.U?);
  }

  lemma FieldShape(sign: string, one: nat, n: string, width: int, zero: bool, minus: bool)
    requires sign == "" || (sign == "-" && minus)
    requires var s := sign + (Repeat('0', one) + n); |s| > 0 && (s[0] == '-' <==> sign == "-")
    ensures var s := sign + (Repeat('0', one) + n);
      var pad := Max0(width - |s|);
      && Field(s, width, zero, minus)
         == Repeat(' ', if zero then 0 else pad) + (sign + (Repeat('0', if zero then pad + one else one) + n))
      && |Field(s, width, zero, minus)| == |s| + pad
  {
    hide Repeat, Field;
    if !zero {
      BlankField(sign + (Repeat('0', one) + n), width, minus);
    } else if sign == "-" {
      SignedZeros(one, n, width);
    } else {
      assert sign + (Repeat('0', one) + n) == Repeat('0', one) + n;
      PlainZeros(one, n, width, minus);
    }
  }

  lemma BlankField(s: string, width: int, minus: bool)
    requires |s| > 0
    ensures Field(s, width, false, minus) == Repeat(' ', Max0(width - |s|)) + s
  {
  }

  lemma PlainZeros(one: nat, n: string, width: int, minus: bool)
    requires var t := Repeat('0', one) + n; |t| > 0 && t[0] != '-'
    ensures var t := Repeat('0', one) + n;
      var pad := Max0(width - |t|);
      Field(t, width, true, minus) == Repeat(' ', 0) + ("" + (Repeat('0', pad + one) + n))
  {
    hide Repeat;
    var t := Repeat('0', one) + n;
    var pad := Max0(width - |t|);
    ZerosJoin(pad, one);
    Regroup(Repeat('0', pad), Repeat('0', one), n);
    Empties(Repeat('0', pad + one) + n);
  }

  lemma SignedField(t: string, width: int)
    ensures Field("-" + t, width, true, true) == "-" + Repeat('0', Max0(width - |"-" + t|)) + t
  {
    hide Repeat;
    assert ("-" + t)[1..] == t;
  }

  lemma SignedZeros(one: nat, n: string, width: int)
    ensures var s := "-" + (Repeat('0', one) + n);
      var pad := Max0(width - |s|);
      Field(s, width, true, true) == Repeat(' ', 0) + ("-" + (Repeat('0', pad + one) + n))
  {
    hide Repeat, Field;
    var t := Repeat('0', one) + n;
    var pad := Max0(width - |"-" + t|);
    SignedField(t, width);
    ZerosJoin(pad, one);
    Regroup(Repeat('0', pad), Repeat('0', one), n);
    Regroup("-", Repeat('0', pad), t);
    Empties("-" + (Repeat('0', pad + one) + n));
  }

  lemma Regroup(a: string, b: string, c: string)
    ensures a + (b + c) == a + b + c
  {
  }

  lemma Empties(s: string)
    ensures Repeat(' ', 0) + s == s && "" + s == s
  {
  }

  /** What is in the buffer: perhaps a sign, for octal perhaps a zero, and the digits. */
  lemma BodyShape(conv: Conv, arg: int, zero: bool, alt: bool) returns (one: nat)
    requires !(alt && conv.X?)
    ensures one <= 1 && (one == 1 ==> conv.O?) && |Number(conv, arg)| <= 11
    ensures conv.D? ==> |Number(conv, arg)| <= 10
    ensures Body(conv, arg, zero, alt)
      == (if Negative(conv, arg) then "-" else "") + (Repeat('0', one) + Number(conv, arg))
    ensures |Body(conv, arg, zero, alt)| <= 12
  {
    hide Digits;
    var n := Number(conv, arg);
    WordDigits(Magnitude(conv, arg), Base(conv), conv.X? && conv.upper);
    one := if conv.O? && alt && n[0] != '0' then 1 else 0;
    assert Repeat('0', 1) == "0" && Repeat('0', 0) == "";
    assert "" + n == n;
  }

  lemma {:induction false} ZerosJoin(a: nat, b: nat)
    ensures Repeat('0', a) + Repeat('0', b) == Repeat('0', a + b)
  {
  }

  /** Negating twice in 32 bits gives the value back, for the most negative integer too. */
  lemma SignRoundTrip(conv: Conv, arg: int)
    requires Int32(arg)
    ensures var m: int := Magnitude(conv, arg); S32(if Negative(conv, arg) then -m else m) == arg
  {
  }

  /**
   * For every 32-bit value, every conversion, width, fill and (except for
   * hexadecimal) mark, and whatever follows as long as it does not begin with
   * a digit, scanning what was printed gives the value back and stops exactly
   * at its end. Fields up to 63 characters fit the scanner's buffer.
   */
  lemma RoundTrip(conv: Conv, arg: int, width: nat, zero: bool, alt: bool, rest: string)
    requires Int32(arg) && !(alt && conv.X?) && width <= 63
    requires rest == [] || !IsDigit(rest[0], Base(conv))
    ensures var p := Print(conv, arg, width, zero, alt);
      Scan(p + rest, 0, conv, 30000) == Scanned(true, arg, |p|, rest == []) && |p| <= 63
  {
    hide Print, Number, Repeat, Value, U32, S32, Scan, IsDigit, Magnitude, IsBlank;
    var blanks, zeros := PrintShape(conv, arg, width, zero, alt);
    var p, sign := Print(conv, arg, width, zero, alt), if Negative(conv, arg) then "-" else "";
    var digits := Repeat('0', zeros) + Number(conv, arg);
    NumberFacts(conv, arg, zeros);
    ScanShape(conv, blanks, sign, digits, rest);
    Regroup(Repeat(' ', blanks), sign, digits);
    assert p + rest == Repeat(' ', blanks) + sign + digits + rest;
    SignRoundTrip(conv, arg);
  }

  /** How the scanner reads blanks, perhaps a minus sign, digits, and something else. */
  lemma ScanShape(conv: Conv, blanks: nat, sign: string, digits: string, rest: string)
    requires sign == "" || sign == "-"
    requires |digits| > 0 && (forall k :: 0 <= k < |digits| ==> IsDigit(digits[k], Base(conv)))
    requires !IsBlank(digits[0]) && digits[0] != '-' && digits[0] != '+'
    requires blanks + |sign| + |digits| <= 30000 && (rest == [] || !IsDigit(rest[0], Base(conv)))
    ensures var v: int := Value(digits, Base(conv));
      Scan(Repeat(' ', blanks) + sign + digits + rest, 0, conv, 30000)
      == Scanned(true, S32(if sign == "-" then -v else v), blanks + |sign| + |digits|, rest == [])
  {
    hide Repeat, Value, U32, S32, RunEnd, SkipBlanks, IsDigit, IsBlank, Scan;
    var s := Repeat(' ', blanks) + sign + digits + rest;
    var start, end := blanks + |sign|, blanks + |sign| + |digits|;
    assert s[..blanks] == Repeat(' ', blanks);
    assert s[start..end] == digits;
    assert s[blanks] == if sign == "-" then '-' else digits[0];
    assert |s| > end ==> s[end] == rest[0];
    ScanAt(conv, s, blanks, start, end);
  }

  /** The same, seen from the text. */
  lemma ScanAt(conv: Conv, s: string, blanks: nat, start: nat, end: nat)
    requires blanks <= start < end <= |s| && end <= 30000 && s[..blanks] == Repeat(' ', blanks)
    requires forall k :: 0 <= k < end - start ==> IsDigit(s[start..end][k], Base(conv))
    requires end == |s| || !IsDigit(s[end], Base(conv))
    requires start == blanks + 1 ==> s[blanks] == '-'
    requires start == blanks ==> !IsBlank(s[blanks]) && s[blanks] != '-' && s[blanks] != '+'
    requires start <= blanks + 1
    ensures var v: int := Value(s[start..end], Base(conv));
      Scan(s, 0, conv, 30000) == Scanned(true, S32(if start > blanks then -v else v), end, end == |s|)
  {
    hide Repeat, Value, U32, S32, RunEnd, SkipBlanks, IsDigit;
    Blanks(s, blanks);
    BlanksAreSkipped(s, 0, blanks);
    forall k | start <= k < end
      ensures IsDigit(s[k], Base(conv))
    {
      assert s[k] == s[start..end][k - start];
    }
    RunIsRead(s, start, end, Base(conv), 30000 - (start - blanks));
  }

  /** With the hexadecimal mark the trip fails: the scanner stops at the x and always reads zero. */
  lemma MarkedHexReadsZero(conv: Conv, arg: int, width: nat, zero: bool, rest: string)
    requires conv.X? && width <= 63
    ensures var p := Print(conv, arg, width, zero, true);
      var r := Scan(p + rest, 0, conv, 30000);
      r.ok && r.value == 0 && r.next < |p|
  {
    hide Number, Repeat, Value, U32, Scan, Digits;
    var n := Number(conv, arg);
    var x, s := if conv.upper then "X" else "x", Body(conv, arg, zero, true);
    var blanks := if zero then 0 else Max0(width - |s|);
    var field := Field(s, Max0(width - 2), true, false);
    assert Repeat(' ', 0) == "";
    assert Prefix(conv) == "0" + x;
    var tail := if zero then x + field else x + n;
    assert Print(conv, arg, width, zero, true) == Repeat(' ', blanks) + "" + "0" + tail;
    ScanShape(conv, blanks, "", "0", tail + rest);
    assert Print(conv, arg, width, zero, true) + rest == Repeat(' ', blanks) + "" + "0" + (tail + rest);
    ValueOfZero(16);
  }

  lemma ValueOfZero(base: nat)
    ensures Value("0", base) == 0 && S32(0) == 0
  {
    assert "0"[..0] == [];
  }

  lemma Blanks(s: string, n: nat)
    requires n <= |s| && s[..n] == Repeat(' ', n)
    ensures forall k :: 0 <= k < n ==> IsBlank(s[k])
  {
    forall k | 0 <= k < n
      ensures IsBlank(s[k])
    {
      assert s[k] == s[..n][k];
    }
  }

  /** The digits with leading zeros: all digits, none of them blank or a sign, and worth the magnitude. */
  lemma NumberFacts(conv: Conv, arg: int, zeros: nat)
    ensures var d := Repeat('0', zeros) + Number(conv, arg);
      && |d| > 0 && Value(d, Base(conv)) == Magnitude(conv, arg)
      && (forall k :: 0 <= k < |d| ==> IsDigit(d[k], Base(conv)))
      && !IsBlank(d[0]) && d[0] != '-' && d[0] != '+'
  {
    hide Value, Digits, U32, Magnitude;
    var n, base, upper := Magnitude(conv, arg), Base(conv), conv.X? && conv.upper;
    var d := Repeat('0', zeros) + Number(conv, arg);
    ValueOfDigits(zeros, n, base, upper);
    forall k | 0 <= k < |d|
      ensures IsDigit(d[k], base)
    {
      if k >= zeros {
        AllDigits(n, base, upper, k - zeros);
      }
    }
    assert IsDigit(d[0], base);
  }
}
