/**
 * Process accounting: the pseudo-floating-point encoding of times written to
 * the accounting file (3-bit base-8 exponent, 13-bit fraction).
 *
 * The loop that shifts right and remembers a single rounding bit is proved to
 * choose the nearest representable number, to stay within sixteen bits and to
 * be monotone.
 */
module Accounting {

  /** Accounting ticks per second. */
  const AHZ := 64
  /** Fractions are kept below this bound. */
  const FRACTION := 8192

  type Exponent = e: int | 0 <= e <= 7

  function Pow8(e: Exponent): (p: int) {
    if e == 0 then 1 else if e == 1 then 8 else if e == 2 then 64 else if e == 3 then 512
    else if e == 4 then 4096 else if e == 5 then 32768 else if e == 6 then 262144 else 2097152
  }

  /** Two's complement value of the low 32 bits. */
  function Wrap32(x: int): (r: int)
    ensures -0x8000_0000 <= r < 0x8000_0000
  {
    (x + 0x8000_0000) % 0x1_0000_0000 - 0x8000_0000
  }

  /** C division. */
  function TruncDiv(a: int, b: int): int
    requires b > 0
  {
    if a >= 0 then a / b else -((-a) / b)
  }

  /** The scaled time of a (seconds, microseconds) pair, in 1/AHZ second, as a 32-bit long. */
  function Scaled(sec: int, usec: int): int {
    Wrap32(Wrap32(sec * AHZ) + TruncDiv(usec, 1000000 / AHZ))
  }

  /** In 64ths of a second, cut off, for every proper time that 32 bits can hold. */
  lemma ScaledMeans(sec: int, usec: int)
    requires 0 <= sec < 0x200_0000 && 0 <= usec < 1000000
    ensures var t := Scaled(sec, usec); t * 15625 <= sec * 1000000 + usec < (t + 1) * 15625
  {
    assert sec * AHZ < 0x8000_0000;
    assert Wrap32(sec * AHZ) == sec * AHZ;
    var q := usec / 15625;
    assert q * 15625 <= usec < (q + 1) * 15625 && 0 <= q < 64;
    assert Wrap32(sec * AHZ + q) == sec * AHZ + q;
  }

  /** The number a sixteen-bit code stands for. */
  function Decode(code: int): int
    requires 0 <= code < 0x1_0000
  {
    (code % FRACTION) * Pow8(code / FRACTION)
  }

  /** e is the exponent at which T first fits thirteen bits. */
  ghost predicate Fits(T: int, e: Exponent) {
    && T < FRACTION * Pow8(e)
    && (e > 0 ==> T >= FRACTION * Pow8(e - 1))
  }

  /** f * 8^e is the multiple of 8^e nearest to T, halves rounded upward. */
  ghost predicate RoundedTo(T: int, e: Exponent, f: int) {
    0 - Pow8(e) < 2 * (f * Pow8(e) - T) <= Pow8(e)
  }

  /** Joins an exponent and a fraction; a fraction of 8192 is carried into the exponent. */
  function Pack(e: int, f: int): int {
    if f < FRACTION then e * FRACTION + f else (e + 1) * FRACTION + FRACTION / 8
  }

  /** The code of T: e is the exponent before any carry, f the rounded fraction. */
  ghost predicate EncodesAt(T: int, code: int, e: Exponent, f: int) {
    Fits(T, e) && RoundedTo(T, e, f) && 0 <= f <= FRACTION && code == Pack(e, f)
  }

  ghost predicate Encodes(T: int, code: int) {
    exists e: Exponent, f: int :: EncodesAt(T, code, e, f)
  }

  /**
   * The encoder. Negative times never enter the shifting loop and are returned
   * as they are; every other time gets the code described by Encodes.
   */
  method Compress(sec: int, usec: int) returns (code: int)
    ensures Scaled(sec, usec) >= 0 ==> Encodes(Scaled(sec, usec), code)
    ensures Scaled(sec, usec) < 0 ==> code == Scaled(sec, usec)
  {
    hide Wrap32, TruncDiv, Fits, RoundedTo;
    NoFraction(sec);
    var t := Wrap32(sec * AHZ);
    if usec != 0 {
      t := Wrap32(t + TruncDiv(usec, 1000000 / AHZ));
    }
    if t < 0 {
      return t;
    }
    ghost var T := t;
    var exp, round;
    t, exp, round := ShiftDown(t);
    ghost var e, f := exp, if round != 0 then t + 1 else t;
    if round != 0 {
      t := t + 1;
      if t >= 8192 {
        t := t / 8;
        exp := exp + 1;
      }
    }
    code := exp * 8192 + t;
    assert EncodesAt(T, code, e, f);
  }

  lemma NoFraction(sec: int)
    ensures Scaled(sec, 0) == Wrap32(sec * AHZ)
  {
    var w := Wrap32(sec * AHZ);
    assert Wrap32(w) == w;
  }

  /** The shifting loop, for times that are not negative. */
  method ShiftDown(T: int) returns (t: int, exp: int, round: int)
    requires 0 <= T < 0x8000_0000
    ensures 0 <= t < FRACTION && 0 <= exp <= 6
    ensures Fits(T, exp) && RoundedTo(T, exp, if round != 0 then t + 1 else t)
  {
    hide Shifted, Fits, RoundedTo, Pow8;
    t, exp, round := T, 0, 0;
    ghost var p, r := 1, 0;
    NotShifted(T);
    while t >= 8192
      invariant 0 <= exp <= 6 && 0 <= t && p == Pow8(exp) && Shifted(T, p, t, r, round)
      invariant exp > 0 ==> T >= FRACTION * Pow8(exp - 1)
      decreases t
    {
      MoreToShift(T, exp, t, r, round);
      ShiftOne(T, p, t, r, round);
      r, p := Times(t % 8, p) + r, 8 * p;
      exp, round, t := exp + 1, (t / 4 % 2) * 4, t / 8;
    }
    Settled(T, exp, t, r, round);
  }

  /** Loop invariant: T is t units of p and a remainder, whose upper half is what `round` records. */
  ghost predicate Shifted(T: int, p: int, t: int, r: int, round: int) {
    0 <= t && T == Times(t, p) + r && 0 <= r < p && (round != 0 <==> 2 * r >= p)
  }

  function Times(a: int, p: int): int {
    a * p
  }

  /** One shift by a base-8 digit; the digit's top bit is the new rounding bit. */
  lemma ShiftOne(T: int, p: int, t: int, r: int, round: int)
    requires Shifted(T, p, t, r, round)
    ensures Shifted(T, 8 * p, t / 8, Times(t % 8, p) + r, (t / 4 % 2) * 4)
  {
    hide Shifted, Times;
    TopBit(t);
    ShiftParts(T, p, t, t / 8, t % 8, r, round, (t / 4 % 2) * 4);
  }

  lemma ShiftParts(T: int, p: int, t: int, a: int, b: int, r: int, round: int, bit: int)
    requires Shifted(T, p, t, r, round) && 0 <= b < 8 && t == 8 * a + b && (bit != 0 <==> b >= 4)
    ensures Shifted(T, 8 * p, a, Times(b, p) + r, bit)
  {
    hide Times;
    Regroup(a, b, p);
    Digit(b, p);
  }

  lemma TopBit(t: int)
    ensures (t / 4 % 2) * 4 != 0 <==> t % 8 >= 4
  {
    var a, b := t / 8, t % 8;
    assert t == 8 * a + b;
    assert b >= 4 ==> t / 4 == 2 * a + 1;
    assert b < 4 ==> t / 4 == 2 * a;
  }

  lemma Regroup(a: int, b: int, p: int)
    ensures Times(8 * a + b, p) == Times(a, 8 * p) + Times(b, p)
  {
  }

  lemma Digit(b: int, p: int)
    requires 0 <= b < 8 && p > 0
    ensures 0 <= Times(b, p) <= 7 * p && (if b >= 4 then Times(b, p) >= 4 * p else Times(b, p) <= 3 * p)
  {
  }

  lemma NotShifted(T: int)
    requires T >= 0
    ensures Shifted(T, 1, T, 0, 0) && Pow8(0) == 1
  {
  }

  /** A time below 2^31 still too long for a fraction has not yet been shifted six times. */
  lemma MoreToShift(T: int, e: Exponent, t: int, r: int, round: int)
    requires Shifted(T, Pow8(e), t, r, round) && t >= FRACTION && T < 0x8000_0000
    ensures e < 6 && T >= FRACTION * Pow8(e) && Pow8(e + 1) == 8 * Pow8(e)
  {
    MulAtLeast(t, FRACTION, Pow8(e));
  }

  /** At loop exit the exponent is the right one and the round bit decides the nearest multiple. */
  lemma Settled(T: int, e: Exponent, t: int, r: int, round: int)
    requires Shifted(T, Pow8(e), t, r, round) && t < FRACTION
    requires e > 0 ==> T >= FRACTION * Pow8(e - 1)
    ensures Fits(T, e)
    ensures RoundedTo(T, e, if round != 0 then t + 1 else t)
  {
    assert t * Pow8(e) <= (FRACTION - 1) * Pow8(e);
    assert (t + 1) * Pow8(e) == t * Pow8(e) + Pow8(e);
  }

  /** A non-negative 32-bit time needs exponent 6 at most. */
  lemma ExponentBound(T: int, e: Exponent)
    requires 0 <= T < 0x8000_0000 && Fits(T, e)
    ensures e <= 6
  {
  }

  lemma DecodePacked(e: Exponent, f: int)
    requires 0 <= f <= FRACTION && e <= 6
    ensures 0 <= Pack(e, f) < 0x1_0000
    ensures Decode(Pack(e, f)) == f * Pow8(e)
  {
  }

  /** The code of a 31-bit time fits sixteen bits and is off by at most half a unit of its exponent. */
  lemma CodeIsAccurate(T: int, code: int)
    requires 0 <= T < 0x8000_0000 && Encodes(T, code)
    ensures 0 <= code < 0x1_0000
    ensures exists e: Exponent :: Fits(T, e) && 2 * Distance(Decode(code), T) <= Pow8(e)
  {
    var e: Exponent, f: int :| EncodesAt(T, code, e, f);
    ExponentBound(T, e);
    DecodePacked(e, f);
    assert Fits(T, e);
  }

  /** Exponents are ordered as the numbers are. */
  lemma FitsOrdered(S: int, T: int, d: Exponent, e: Exponent)
    requires S <= T && Fits(S, d) && Fits(T, e)
    ensures d <= e
  {
  }

  /** Rounding at one exponent is monotone. */
  lemma RoundingOrdered(S: int, T: int, e: Exponent, f: int, g: int)
    requires S <= T && RoundedTo(S, e, f) && RoundedTo(T, e, g)
    ensures f <= g
  {
    var p := Pow8(e);
    if f >= g + 1 {
      MulAtLeast(f, g + 1, p);
      assert false;
    }
  }

  lemma MulAtLeast(a: int, b: int, p: int)
    requires a >= b && p >= 0
    ensures a * p >= b * p
  {
  }

  /** A fraction with a positive exponent is at least 1024. */
  lemma NormalFraction(T: int, e: Exponent, f: int)
    requires e > 0 && Fits(T, e) && RoundedTo(T, e, f)
    ensures f >= FRACTION / 8
  {
    var p := Pow8(e);
    assert 8 * Pow8(e - 1) == p;
    if f <= 1023 {
      MulAtLeast(1023, f, p);
      assert false;
    }
  }

  /** The encoding is a function of T and never decreases. */
  lemma CodeIsMonotone(S: int, T: int, c: int, d: int)
    requires 0 <= S <= T && Encodes(S, c) && Encodes(T, d)
    ensures c <= d
    ensures S == T ==> c == d
  {
    hide EncodesAt;
    var e: Exponent, f: int :| EncodesAt(S, c, e, f);
    var e': Exponent, f': int :| EncodesAt(T, d, e', f');
    CodeOrdered(S, T, c, d, e, f, e', f');
    if S == T {
      CodeOrdered(T, S, d, c, e', f', e, f);
    }
  }

  lemma CodeOrdered(S: int, T: int, c: int, d: int, e: Exponent, f: int, e': Exponent, f': int)
    requires S <= T && EncodesAt(S, c, e, f) && EncodesAt(T, d, e', f')
    ensures c <= d
  {
    hide Fits, RoundedTo, Pow8;
    FitsOrdered(S, T, e, e');
    if e < e' {
      NormalFraction(T, e', f');
    } else {
      RoundingOrdered(S, T, e, f, f');
    }
  }

  function Distance(a: int, b: int): int {
    if a < b then b - a else a - b
  }

  /** No sixteen-bit code at all stands for a number closer to T than the one chosen. */
  lemma CodeIsNearest(T: int, code: int, other: int)
    requires 0 <= T < 0x8000_0000 && Encodes(T, code)
    requires 0 <= other < 0x1_0000
    ensures 0 <= code < 0x1_0000
    ensures Distance(Decode(code), T) <= Distance(Decode(other), T)
  {
    var e: Exponent, f: int :| EncodesAt(T, code, e, f);
    ExponentBound(T, e);
    DecodePacked(e, f);
    var d: Exponent, g := other / FRACTION, other % FRACTION;
    if d < e {
      // every number of a smaller exponent lies below 1024 * 8^e, which is at most T
      BelowGrid(T, d, e, g);
      GridNearest(T, e, f, FRACTION / 8);
    } else {
      // a number of a larger exponent is also a multiple of 8^e
      var k := OnGrid(d, e, g);
      GridNearest(T, e, f, k);
    }
  }

  lemma BelowGrid(T: int, d: Exponent, e: Exponent, g: int)
    requires d < e && Fits(T, e) && 0 <= g < FRACTION
    ensures g * Pow8(d) <= FRACTION / 8 * Pow8(e) <= T
  {
    MulAtLeast(FRACTION, g, Pow8(d));
    assert FRACTION / 8 * Pow8(e) == FRACTION * Pow8(e - 1);
    MulAtLeast(Pow8(e - 1), Pow8(d), FRACTION);
  }

  lemma OnGrid(d: Exponent, e: Exponent, g: int) returns (k: int)
    requires e <= d
    ensures g * Pow8(d) == k * Pow8(e)
  {
    Pow8Sum(e, d - e);
    k := g * Pow8(d - e);
    Reassociate(g, Pow8(d - e), Pow8(e));
  }

  lemma Reassociate(a: int, b: int, c: int)
    ensures a * (b * c) == (a * b) * c
  {
  }

  lemma Pow8Sum(a: Exponent, b: Exponent)
    requires a + b <= 7
    ensures Pow8(a + b) == Pow8(b) * Pow8(a)
  {
  }

  lemma GridNearest(T: int, e: Exponent, f: int, g: int)
    requires RoundedTo(T, e, f)
    ensures Distance(f * Pow8(e), T) <= Distance(g * Pow8(e), T)
  {
    var p := Pow8(e);
    if g < f {
      MulAtLeast(f - 1, g, p);
      assert (f - 1) * p == f * p - p;
    } else if g > f {
      MulAtLeast(g, f + 1, p);
      assert (f + 1) * p == f * p + p;
    }
  }
}
