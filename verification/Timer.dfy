/**
 * Interval timers and the slewing of the clock by adjtime.
 *
 * Times are seconds and microseconds; their value in microseconds is the
 * reference everything is stated in.
 */
module Timer {

  const SECOND := 1000000

  datatype TimeVal = TimeVal(sec: int, usec: int)

  function Us(t: TimeVal): int {
    t.sec * SECOND + t.usec
  }

  /** A time as the kernel keeps it. */
  predicate Normal(t: TimeVal) {
    t.sec >= 0 && 0 <= t.usec < SECOND
  }

  predicate IsSet(t: TimeVal) {
    t.sec != 0 || t.usec != 0
  }

  // ----- itimerfix and itimerdecr -----

  /** itimerfix: out of range is an error; a value below one tick of the clock is raised to it. */
  method ItimerFix(tv: TimeVal, tick: nat) returns (ok: bool, fixed: TimeVal)
    requires 0 < tick < SECOND
    ensures ok <==> 0 <= tv.sec <= 100000000 && 0 <= tv.usec < SECOND
    ensures ok ==> Normal(fixed) && (Us(fixed) == 0 || Us(fixed) >= tick)
    ensures ok && Us(tv) == 0 ==> Us(fixed) == 0
    ensures ok && Us(tv) > 0 ==> Us(fixed) == if Us(tv) < tick then tick else Us(tv)
  {
    if tv.sec < 0 || tv.sec > 100000000 || tv.usec < 0 || tv.usec >= SECOND {
      return false, tv;
    }
    fixed := tv;
    if tv.sec == 0 && tv.usec != 0 && tv.usec < tick {
      fixed := fixed.(usec := tick);
    }
    ok := true;
  }

  /** A timer after the reload that carries the overshoot over. */
  function Reload(interval: TimeVal, over: int): TimeVal {
    var u := interval.usec - over;
    if u < 0 then TimeVal(interval.sec - 1, u + SECOND) else TimeVal(interval.sec, u)
  }

  /** What itimerdecr leaves in it_value, and whether the timer ran on (it returns 1) or expired. */
  function Decr(value: TimeVal, interval: TimeVal, usec: int): (TimeVal, bool) {
    if value.usec < usec && value.sec == 0 then
      (if IsSet(interval) then Reload(interval, usec - value.usec) else TimeVal(0, 0), false)
    else
      var v := if value.usec < usec then TimeVal(value.sec - 1, value.usec + SECOND - usec)
               else TimeVal(value.sec, value.usec - usec);
      if IsSet(v) then (v, true)
      else (if IsSet(interval) then Reload(interval, 0) else v, false)
  }

  /** The itimerval in place. */
  class Itimer {
    var interval: TimeVal
    var value: TimeVal

    method Decrement(delta: int) returns (running: bool)
      modifies this`value
      ensures (value, running) == Decr(old(value), interval, delta)
    {
      var usec, expired := delta, false;
      if value.usec < usec {
        if value.sec == 0 {
          usec := usec - value.usec;
          expired := true;
        } else {
          value := TimeVal(value.sec - 1, value.usec + SECOND);
        }
      }
      if !expired {
        value := value.(usec := value.usec - usec);
        usec := 0;
        if IsSet(value) {
          return true;
        }
      }
      if IsSet(interval) {
        value := interval;
        value := value.(usec := value.usec - usec);
        if value.usec < 0 {
          value := TimeVal(value.sec - 1, value.usec + SECOND);
        }
      } else {
        value := value.(usec := 0);
      }
      running := false;
    }
  }

  /**
   * One step in microseconds: before the end the value drops by the step; at
   * or past the end it is the interval less the overshoot. The new value is a
   * proper, running timer if and only if the overshoot is below the interval.
   */
  lemma DecrMeaning(value: TimeVal, interval: TimeVal, usec: int)
    requires Normal(value) && IsSet(value) && Normal(interval) && 0 <= usec < SECOND
    ensures var (v, running) := Decr(value, interval, usec);
      && (running <==> Us(value) > usec)
      && (running ==> Normal(v) && Us(v) == Us(value) - usec)
      && (!running && !IsSet(interval) ==> v == TimeVal(0, 0))
      && (!running && IsSet(interval) ==> Us(v) == Us(interval) - (usec - Us(value)))
      && (!running && IsSet(interval) ==> (Normal(v) && IsSet(v) <==> usec - Us(value) < Us(interval)))
  {
  }

  /**
   * Steps that never exceed the interval are always safe, and a step longer
   * than the interval is not: then some running timer is stopped or wrecked.
   */
  lemma SafeStepIff(interval: TimeVal, usec: int)
    requires Normal(interval) && IsSet(interval) && 0 <= usec < SECOND
    ensures usec <= Us(interval) <==>
      forall value :: Normal(value) && IsSet(value) && Us(value) <= usec ==>
        (var (v, running) := Decr(value, interval, usec); Normal(v) && IsSet(v))
  {
    forall value | Normal(value) && IsSet(value) && Us(value) <= usec
      ensures var (v, running) := Decr(value, interval, usec);
        Normal(v) && IsSet(v) <==> usec - Us(value) < Us(interval)
    {
      DecrMeaning(value, interval, usec);
    }
    if usec > Us(interval) {
      var one := TimeVal(0, 1);
      assert Normal(one) && IsSet(one) && Us(one) == 1;
    }
  }

  // ----- Every run of a timer -----

  datatype Progress = Progress(value: TimeVal, fired: nat)

  /** hardclock steps a timer only while it is set. */
  function Advance(s: Progress, interval: TimeVal, usec: int): Progress {
    if !IsSet(s.value) then s
    else
      var (v, running) := Decr(s.value, interval, usec);
      Progress(v, if running then s.fired else s.fired + 1)
  }

  function RunTimer(start: TimeVal, interval: TimeVal, steps: seq<int>): Progress {
    if steps == [] then Progress(start, 0)
    else Advance(RunTimer(start, interval, steps[..|steps| - 1]), interval, steps[|steps| - 1])
  }

  function Elapsed(steps: seq<int>): int {
    if steps == [] then 0 else Elapsed(steps[..|steps| - 1]) + steps[|steps| - 1]
  }

  predicate Steps(steps: seq<int>, most: int) {
    forall i :: 0 <= i < |steps| ==> 0 <= steps[i] <= most
  }

  /**
   * A repeating timer never drifts: what is left is always the start plus one
   * interval for every expiry, less the time elapsed.
   */
  lemma {:induction false} NoDrift(start: TimeVal, interval: TimeVal, steps: seq<int>, most: int)
    requires Normal(start) && IsSet(start) && Normal(interval) && IsSet(interval)
    requires 0 <= most < SECOND && most <= Us(interval) && Steps(steps, most)
    ensures var s := RunTimer(start, interval, steps);
      && Normal(s.value) && IsSet(s.value)
      && Us(s.value) == Us(start) + s.fired * Us(interval) - Elapsed(steps)
      && Us(s.value) > 0 && (s.fired > 0 ==> Us(s.value) <= Us(interval))
  {
    hide Us, Decr;
    SetIsPositive(start);
    if steps != [] {
      var n := |steps| - 1;
      NoDrift(start, interval, steps[..n], most);
      var s := RunTimer(start, interval, steps[..n]);
      DecrMeaning(s.value, interval, steps[n]);
      Next(s.fired, Us(interval));
      SetIsPositive(Advance(s, interval, steps[n]).value);
    }
  }

  lemma SetIsPositive(t: TimeVal)
    requires Normal(t)
    ensures IsSet(t) <==> Us(t) > 0
  {
  }

  lemma Next(n: nat, w: int)
    ensures (n + 1) * w == n * w + w
  {
  }

  /** The k-th expiry comes at the first step at which the elapsed time reaches start + (k - 1) * interval. */
  lemma ExpiryOnTime(start: TimeVal, interval: TimeVal, steps: seq<int>, most: int, k: nat)
    requires Normal(start) && IsSet(start) && Normal(interval) && IsSet(interval) && k > 0
    requires 0 <= most < SECOND && most <= Us(interval) && Steps(steps, most)
    ensures RunTimer(start, interval, steps).fired >= k <==> Elapsed(steps) >= Us(start) + (k - 1) * Us(interval)
  {
    hide Us, RunTimer, Elapsed;
    NoDrift(start, interval, steps, most);
    SetIsPositive(interval);
    var n, w := RunTimer(start, interval, steps).fired, Us(interval);
    Next(k - 1, w);
    if n >= k {
      Scaled(k, n, w);
    } else {
      Scaled(n, k - 1, w);
    }
  }

  // ----- A step longer than the interval -----

  /** A timer that was stopped, or wrecked so that its seconds are negative, never fires again. */
  lemma {:induction false} NeverFiresAgain(v: TimeVal, interval: TimeVal, steps: seq<int>)
    requires (v.sec < 0 && 0 <= v.usec < SECOND) || v == TimeVal(0, 0)
    requires Steps(steps, SECOND - 1)
    ensures var s := RunTimer(v, interval, steps);
      && s.fired == 0
      && (v == TimeVal(0, 0) ==> s.value == v)
      && (v.sec < 0 ==> s.value.sec < 0 && 0 <= s.value.usec < SECOND && Us(s.value) == Us(v) - Elapsed(steps))
  {
    if steps != [] {
      NeverFiresAgain(v, interval, steps[..|steps| - 1]);
    }
  }

  /** An expiry whose overshoot reaches the interval is the last: the timer stands still or counts away from zero. */
  lemma LateExpiryIsLast(value: TimeVal, interval: TimeVal, usec: int, steps: seq<int>)
    requires Normal(value) && IsSet(value) && Normal(interval) && IsSet(interval) && 0 <= usec < SECOND
    requires usec - Us(value) >= Us(interval) && Steps(steps, SECOND - 1)
    ensures RunTimer(Decr(value, interval, usec).0, interval, steps).fired == 0
  {
    NeverFiresAgain(Decr(value, interval, usec).0, interval, steps);
  }

  function FullSteps(n: nat): seq<int> {
    if n == 0 then [] else FullSteps(n - 1) + [SECOND - 1]
  }

  lemma {:induction false} FullRun(v: TimeVal, interval: TimeVal, n: nat)
    requires Normal(v) && Normal(interval) && n * (SECOND - 1) < Us(v)
    ensures Steps(FullSteps(n), SECOND - 1)
    ensures var s := RunTimer(v, interval, FullSteps(n));
      s.fired == 0 && Normal(s.value) && IsSet(s.value) && Us(s.value) == Us(v) - n * (SECOND - 1)
  {
    hide Decr, Us;
    SetIsPositive(v);
    if n > 0 {
      FullRun(v, interval, n - 1);
      var f := FullSteps(n);
      assert f[..|f| - 1] == FullSteps(n - 1);
      var s := RunTimer(v, interval, FullSteps(n - 1));
      DecrMeaning(s.value, interval, SECOND - 1);
      SetIsPositive(Advance(s, interval, SECOND - 1).value);
    }
  }

  /** A running timer does fire, given time. */
  lemma FiresInTime(v: TimeVal, interval: TimeVal)
    requires Normal(v) && IsSet(v) && Normal(interval)
    ensures exists steps :: Steps(steps, SECOND - 1) && RunTimer(v, interval, steps).fired > 0
  {
    hide Us, Decr;
    SetIsPositive(v);
    var n := (Us(v) - 1) / (SECOND - 1);
    FullRun(v, interval, n);
    var f := FullSteps(n + 1);
    assert f[..|f| - 1] == FullSteps(n);
    var s := RunTimer(v, interval, FullSteps(n));
    DecrMeaning(s.value, interval, SECOND - 1);
    assert Steps(f, SECOND - 1) && RunTimer(v, interval, f).fired > 0;
  }

  /** After an expiry the timer can fire again if and only if the overshoot was below the interval. */
  lemma FiresAgainIff(value: TimeVal, interval: TimeVal, usec: int)
    requires Normal(value) && IsSet(value) && Normal(interval) && IsSet(interval)
    requires Us(value) <= usec < SECOND
    ensures usec - Us(value) < Us(interval) <==>
      exists steps :: Steps(steps, SECOND - 1) && RunTimer(Decr(value, interval, usec).0, interval, steps).fired > 0
  {
    var v := Decr(value, interval, usec).0;
    DecrMeaning(value, interval, usec);
    if usec - Us(value) < Us(interval) {
      FiresInTime(v, interval);
    } else {
      forall steps | Steps(steps, SECOND - 1)
        ensures RunTimer(v, interval, steps).fired == 0
      {
        LateExpiryIsLast(value, interval, usec, steps);
      }
    }
  }

  /**
   * One microsecond before its expiry, a timer with an interval of one tick
   * (15625 microseconds) meets a clock interrupt that is late: by one tick and
   * a microsecond, and it is stopped; by more, and it is wrecked.
   */
  lemma LateInterruptEndsTimer()
    ensures Decr(TimeVal(0, 1), TimeVal(0, 15625), 15626) == (TimeVal(0, 0), false)
    ensures Decr(TimeVal(0, 1), TimeVal(0, 15625), 40000) == (TimeVal(-1, 975626), false)
    ensures forall steps :: Steps(steps, SECOND - 1) ==>
      RunTimer(TimeVal(-1, 975626), TimeVal(0, 15625), steps).fired == 0
  {
    forall steps | Steps(steps, SECOND - 1)
      ensures RunTimer(TimeVal(-1, 975626), TimeVal(0, 15625), steps).fired == 0
    {
      NeverFiresAgain(TimeVal(-1, 975626), TimeVal(0, 15625), steps);
    }
  }

  lemma {:induction false} Scaled(a: nat, b: nat, w: int)
    requires a <= b && w >= 0
    ensures a * w <= b * w
  {
    assert (b - a) * w >= 0;
    assert b * w == a * w + (b - a) * w;
  }

  /** A timer that does not repeat expires once, at the first step that reaches its value. */
  lemma {:induction false} OneShot(start: TimeVal, steps: seq<int>, most: int)
    requires Normal(start) && IsSet(start) && 0 <= most < SECOND && Steps(steps, most)
    ensures var s := RunTimer(start, TimeVal(0, 0), steps);
      && s.fired == (if Elapsed(steps) >= Us(start) then 1 else 0)
      && (s.fired == 0 ==> Normal(s.value) && IsSet(s.value) && Us(s.value) == Us(start) - Elapsed(steps))
      && (s.fired == 1 ==> !IsSet(s.value))
  {
    if steps != [] {
      var n := |steps| - 1;
      OneShot(start, steps[..n], most);
      var s := RunTimer(start, TimeVal(0, 0), steps[..n]);
      if s.fired == 0 {
        DecrMeaning(s.value, TimeVal(0, 0), steps[n]);
      }
    }
  }

  // ----- realitexpire -----

  function Fix(t: TimeVal): TimeVal {
    var a := if t.usec < 0 then TimeVal(t.sec - 1, t.usec + SECOND) else t;
    if a.usec >= SECOND then TimeVal(a.sec + 1, a.usec - SECOND) else a
  }

  /** timevaladd adds, and normal times stay normal. */
  function Add(a: TimeVal, b: TimeVal): (r: TimeVal)
    ensures Us(r) == Us(a) + Us(b)
    ensures Normal(a) && Normal(b) ==> Normal(r)
  {
    Fix(TimeVal(a.sec + b.sec, a.usec + b.usec))
  }

  predicate Later(a: TimeVal, b: TimeVal) {
    a.sec > b.sec || (a.sec == b.sec && a.usec > b.usec)
  }

  lemma LaterMeans(a: TimeVal, b: TimeVal)
    requires 0 <= a.usec < SECOND && 0 <= b.usec < SECOND
    ensures Later(a, b) <==> Us(a) > Us(b)
  {
  }

  /**
   * The reload of the real-time timer: the first alarm after now that is a
   * whole number of intervals past the old one, unless the old one is more
   * than ten seconds behind, when the phase is given up.
   */
  method RealitExpire(value: TimeVal, interval: TimeVal, now: TimeVal) returns (next: TimeVal, ghost n: nat)
    requires Normal(value) && Normal(interval) && Normal(now)
    ensures !IsSet(interval) ==> next == TimeVal(0, 0)
    ensures IsSet(interval) && value.sec < now.sec - 10 ==> next == now
    ensures IsSet(interval) && value.sec >= now.sec - 10 ==>
      Normal(next) && n >= 1 && Us(next) == Us(value) + n * Us(interval) > Us(now)
    ensures IsSet(interval) && value.sec >= now.sec - 10 && n > 1 ==> Us(value) + (n - 1) * Us(interval) <= Us(now)
  {
    n := 1;
    if !IsSet(interval) {
      return TimeVal(0, 0), 1;
    }
    if value.sec < now.sec - 10 {
      return now, 1;
    }
    next := Add(value, interval);
    while !Later(next, now)
      invariant Normal(next) && n >= 1 && Us(next) == Us(value) + n * Us(interval)
      invariant n > 1 ==> Us(value) + (n - 1) * Us(interval) <= Us(now)
      decreases Us(now) - Us(next)
    {
      LaterMeans(next, now);
      next := Add(next, interval);
      n := n + 1;
      assert n * Us(interval) == (n - 1) * Us(interval) + Us(interval);
    }
    LaterMeans(next, now);
  }

  // ----- adjtime and the slewing in hardclock -----

  const BIGADJ := 1000000

  function Wrap32(x: int): (r: int)
    ensures -0x8000_0000 <= r < 0x8000_0000
  {
    var m := x % 0x1_0000_0000;
    if m < 0x8000_0000 then m else m - 0x1_0000_0000
  }

  /** Division of C, towards zero. */
  function Quot(a: int, b: int): int
    requires b > 0
  {
    if a >= 0 then a / b else -((-a) / b)
  }

  function Rem(a: int, b: int): int
    requires b > 0
  {
    a - Quot(a, b) * b
  }

  predicate Multiple(x: int, d: int)
    requires d > 0
  {
    Rem(x, d) == 0
  }

  /** The clock and its pending correction. */
  datatype Clock = Clock(time: TimeVal, timedelta: int, tickdelta: int)

  /** The skew per tick that adjtime settles on: it keeps the old one while a correction is pending. */
  function Skew(c: Clock, ndelta: int, tickadj: int): int {
    if c.timedelta != 0 then c.tickdelta else if ndelta > BIGADJ then 10 * tickadj else tickadj
  }

  /** Round towards zero to whole ticks of skew. */
  function Rounded(ndelta: int, d: int): int
    requires d > 0
  {
    if Rem(ndelta, d) != 0 then Quot(ndelta, d) * d else ndelta
  }

  lemma QuotBounds(a: int, b: int)
    requires b > 0
    ensures a >= 0 ==> 0 <= Quot(a, b) * b <= a < Quot(a, b) * b + b
    ensures a <= 0 ==> 0 >= Quot(a, b) * b >= a > Quot(a, b) * b - b
  {
    if a >= 0 {
      DivBounds(a, b);
    } else {
      DivBounds(-a, b);
      Opposite((-a) / b, b);
    }
  }

  lemma DivBounds(x: nat, b: int)
    requires b > 0
    ensures 0 <= (x / b) * b <= x < (x / b) * b + b
  {
    assert x == b * (x / b) + x % b;
  }

  lemma Opposite(q: int, b: int)
    ensures (-q) * b == -(q * b)
  {
  }

  lemma Sign(q: int, b: int)
    requires b > 0
    ensures q > 0 <==> q * b > 0
    ensures q < 0 <==> q * b < 0
  {
    if q > 0 {
      Scaled(1, q, b);
    } else if q < 0 {
      Scaled(1, -q, b);
      Opposite(q, b);
    }
  }

  /** Whole multiples divide exactly. */
  lemma MultipleOf(q: int, b: int)
    requires b > 0
    ensures Quot(q * b, b) == q && Multiple(q * b, b)
  {
    Sign(q, b);
    Opposite(q, b);
    if q >= 0 {
      Exact(q, b);
    } else {
      Exact(-q, b);
    }
  }

  lemma Exact(q: nat, b: int)
    requires b > 0
    ensures q * b >= 0 && (q * b) / b == q
  {
    Scaled(0, q, b);
    var d := (q * b) / b;
    DivBounds(q * b, b);
    Sign(d, b);
    if d < q {
      Next(d, b);
      Scaled(d + 1, q, b);
    } else if d > q {
      Next(q, b);
      Scaled(q + 1, d, b);
    }
  }

  /** The rounded correction: whole ticks of skew, no larger than what was asked, and short of it by less than one. */
  lemma RoundedMeans(ndelta: int, d: int)
    requires d > 0
    ensures Multiple(Rounded(ndelta, d), d)
    ensures ndelta >= 0 ==> 0 <= Rounded(ndelta, d) <= ndelta < Rounded(ndelta, d) + d
    ensures ndelta <= 0 ==> 0 >= Rounded(ndelta, d) >= ndelta > Rounded(ndelta, d) - d
  {
    QuotBounds(ndelta, d);
    MultipleOf(Quot(ndelta, d), d);
  }

  class TimeOfDay {
    var time: TimeVal
    var timedelta: int
    var tickdelta: int

    ghost function View(): Clock
      reads this
    {
      Clock(time, timedelta, tickdelta)
    }

    /** adjtime; the old correction is handed back as a time. */
    method AdjTime(atv: TimeVal, tickadj: nat) returns (oatv: TimeVal)
      requires tickadj > 0 && (timedelta != 0 ==> tickdelta > 0)
      modifies this`timedelta, this`tickdelta
      ensures tickdelta > 0 && View() == Adjusted(old(View()), atv, tickadj)
      ensures oatv.sec * SECOND + oatv.usec == old(timedelta) && -SECOND < oatv.usec < SECOND
      ensures Granted(old(View()), View(), atv.sec * 1000000 + atv.usec, tickadj)
    {
      AdjustedMeans(View(), atv, tickadj);
      var ndelta := Wrap32(atv.sec * SECOND + atv.usec);
      if timedelta == 0 {
        if ndelta > BIGADJ {
          tickdelta := 10 * tickadj;
        } else {
          tickdelta := tickadj;
        }
      }
      if Rem(ndelta, tickdelta) != 0 {
        ndelta := Quot(ndelta, tickdelta) * tickdelta;
      }
      QuotBounds(timedelta, SECOND);
      oatv := TimeVal(Quot(timedelta, SECOND), Rem(timedelta, SECOND));
      timedelta := ndelta;
    }

    /** The clock part of hardclock for a tick of `tick` microseconds. */
    method Tick(tick: nat)
      requires timedelta != 0 ==> tickdelta >= 0
      modifies this`time, this`timedelta
      ensures View() == Ticked(old(View()), tick)
    {
      var delta := tick;
      if timedelta != 0 {
        if timedelta < 0 {
          delta := tick - tickdelta;
          timedelta := timedelta + tickdelta;
        } else {
          delta := tick + tickdelta;
          timedelta := timedelta - tickdelta;
        }
      }
      time := time.(usec := time.usec + delta);
      if time.usec >= SECOND {
        time := TimeVal(time.sec + 1, time.usec - SECOND);
      }
    }
  }

  /**
   * What is granted of a correction by `asked` microseconds, taken to 32 bits:
   * whole ticks of skew towards zero, short by less than one of them. The skew
   * of a correction under way stays; otherwise it is tenfold for more than a
   * second forward.
   */
  ghost predicate Granted(c: Clock, c1: Clock, asked: int, tickadj: nat) {
    GrantedOf(c, c1, (asked + 0x8000_0000) % 0x1_0000_0000 - 0x8000_0000, tickadj)
  }

  ghost predicate GrantedOf(c: Clock, c1: Clock, want: int, tickadj: nat) {
    var x, d := c1.timedelta, c1.tickdelta;
    && c1.time == c.time && d > 0 && Multiple(x, d)
    && d == (if c.timedelta != 0 then c.tickdelta else if want > 1000000 then 10 * tickadj else tickadj)
    && (if want >= 0 then 0 <= x <= want < x + d else x - d < want <= x <= 0)
  }

  lemma AdjustedMeans(c: Clock, atv: TimeVal, tickadj: nat)
    requires tickadj > 0 && (c.timedelta != 0 ==> c.tickdelta > 0)
    ensures Granted(c, Adjusted(c, atv, tickadj), atv.sec * 1000000 + atv.usec, tickadj)
  {
    hide Rounded, Wrap32, Multiple, GrantedOf;
    var asked := atv.sec * 1000000 + atv.usec;
    WrapIs(asked);
    RoundedGrants(c, Wrap32(asked), tickadj);
  }

  lemma WrapIs(x: int)
    ensures Wrap32(x) == (x + 0x8000_0000) % 0x1_0000_0000 - 0x8000_0000
  {
  }

  lemma RoundedGrants(c: Clock, want: int, tickadj: nat)
    requires tickadj > 0 && (c.timedelta != 0 ==> c.tickdelta > 0)
    ensures var d := Skew(c, want, tickadj); GrantedOf(c, Clock(c.time, Rounded(want, d), d), want, tickadj)
  {
    hide Rounded, Multiple;
    RoundedMeans(want, Skew(c, want, tickadj));
  }

  function Adjusted(c: Clock, atv: TimeVal, tickadj: nat): Clock
    requires tickadj > 0 && (c.timedelta != 0 ==> c.tickdelta > 0)
  {
    var ndelta := Wrap32(atv.sec * SECOND + atv.usec);
    var d := Skew(c, ndelta, tickadj);
    Clock(c.time, Rounded(ndelta, d), d)
  }

  /** BUMPTIME carries at most one second. */
  function Bump(t: TimeVal, usec: int): TimeVal {
    var u := t.usec + usec;
    if u >= SECOND then TimeVal(t.sec + 1, u - SECOND) else TimeVal(t.sec, u)
  }

  function Ticked(c: Clock, tick: int): Clock {
    if c.timedelta == 0 then c.(time := Bump(c.time, tick))
    else if c.timedelta < 0 then Clock(Bump(c.time, tick - c.tickdelta), c.timedelta + c.tickdelta, c.tickdelta)
    else Clock(Bump(c.time, tick + c.tickdelta), c.timedelta - c.tickdelta, c.tickdelta)
  }

  datatype Event = HardTick(tick: int) | Adjust(atv: TimeVal)

  /** The clock, the ticks so far, and the corrections granted less those withdrawn. */
  datatype History = History(c: Clock, elapsed: int, granted: int)

  function Happen(h: History, e: Event, tickadj: nat): History
    requires tickadj > 0 && (h.c.timedelta != 0 ==> h.c.tickdelta > 0)
  {
    match e
    case HardTick(tick) => History(Ticked(h.c, tick), h.elapsed + tick, h.granted)
    case Adjust(atv) =>
      var c := Adjusted(h.c, atv, tickadj);
      History(c, h.elapsed, h.granted - h.c.timedelta + c.timedelta)
  }

  /** Where the clock stands: no time is lost, and the pending correction is whole ticks of skew. */
  ghost predicate OnCourse(h: History, start: TimeVal) {
    && (h.c.timedelta != 0 ==> h.c.tickdelta > 0 && Multiple(h.c.timedelta, h.c.tickdelta))
    && Us(h.c.time) + h.c.timedelta == Us(start) + h.elapsed + h.granted
  }

  /** Any ticks, however short or late, and any adjtime calls. */
  function RunClock(start: TimeVal, events: seq<Event>, tickadj: nat): (h: History)
    requires tickadj > 0
    ensures OnCourse(h, start)
    decreases |events|
  {
    if events == [] then History(Clock(start, 0, 0), 0, 0)
    else
      var h, e := RunClock(start, events[..|events| - 1], tickadj), events[|events| - 1];
      HappenKeeps(h, e, tickadj, start);
      Happen(h, e, tickadj)
  }

  /** One tick of skew less is still whole, and nearer to zero. */
  lemma OneLess(x: int, d: int)
    requires d > 0 && x != 0 && Multiple(x, d)
    ensures x > 0 ==> x >= d && Multiple(x - d, d) && Quot(x - d, d) == Quot(x, d) - 1
    ensures x < 0 ==> x <= -d && Multiple(x + d, d) && Quot(x + d, d) == Quot(x, d) + 1
  {
    var q := Quot(x, d);
    Sign(q, d);
    if x > 0 {
      Next(q - 1, d);
      MultipleOf(q - 1, d);
      Sign(q - 1, d);
    } else {
      Opposite(q, d);
      Opposite(q + 1, d);
      Next(-q - 1, d);
      MultipleOf(q + 1, d);
      Sign(q + 1, d);
    }
  }

  lemma HappenKeeps(h: History, e: Event, tickadj: nat, start: TimeVal)
    requires tickadj > 0 && OnCourse(h, start)
    ensures OnCourse(Happen(h, e, tickadj), start)
  {
    hide Rem, Quot;
    match e
    case HardTick(tick) =>
      if h.c.timedelta != 0 {
        OneLess(h.c.timedelta, h.c.tickdelta);
      }
    case Adjust(atv) =>
      var ndelta := Wrap32(atv.sec * SECOND + atv.usec);
      RoundedMeans(ndelta, Skew(h.c, ndelta, tickadj));
  }

  // ----- When the clock stays a proper time -----

  /** What one tick adds to the clock. */
  function Skewed(c: Clock, tick: int): int {
    if c.timedelta == 0 then tick else if c.timedelta < 0 then tick - c.tickdelta else tick + c.tickdelta
  }

  /**
   * BUMPTIME does not borrow and carries once: the skewed tick must keep the microseconds between 0
   * and two seconds.
   */
  predicate Carries(c: Clock, tick: int) {
    0 <= c.time.usec + Skewed(c, tick) < 2 * SECOND
  }

  lemma NormalIffCarries(c: Clock, tick: int)
    requires c.time.sec >= 0
    ensures Normal(Ticked(c, tick).time) <==> Carries(c, tick)
  {
  }

  /** The clock just before event n of a run. */
  ghost function Before(start: TimeVal, events: seq<Event>, tickadj: nat, n: nat): Clock
    requires tickadj > 0 && n <= |events|
  {
    RunClock(start, events[..n], tickadj).c
  }

  /** Over every run: the clock is a proper time throughout if and only if each tick, when it came, kept it so. */
  lemma StaysNormalIff(start: TimeVal, events: seq<Event>, tickadj: nat)
    requires tickadj > 0 && Normal(start)
    ensures (forall n: nat :: n <= |events| ==> Normal(Before(start, events, tickadj, n).time)) <==>
      (forall n: nat :: n < |events| && events[n].HardTick? ==>
           Carries(Before(start, events, tickadj, n), events[n].tick))
  {
    hide RunClock;
    if forall n: nat :: n <= |events| ==> Normal(Before(start, events, tickadj, n).time) {
      forall n: nat | n < |events| && events[n].HardTick?
        ensures Carries(Before(start, events, tickadj, n), events[n].tick)
      {
        BeforeNext(start, events, tickadj, n);
        assert Normal(Before(start, events, tickadj, n).time) && Normal(Before(start, events, tickadj, n + 1).time);
        NormalIffCarries(Before(start, events, tickadj, n), events[n].tick);
      }
    }
    if forall n: nat :: n < |events| && events[n].HardTick? ==>
         Carries(Before(start, events, tickadj, n), events[n].tick) {
      forall n: nat | n <= |events|
        ensures Normal(Before(start, events, tickadj, n).time)
      {
        NormalUpTo(start, events, tickadj, n);
      }
    }
  }

  lemma BeforeNext(start: TimeVal, events: seq<Event>, tickadj: nat, n: nat)
    requires tickadj > 0 && n < |events|
    ensures var c, c1 := Before(start, events, tickadj, n), Before(start, events, tickadj, n + 1);
      if events[n].HardTick? then c1 == Ticked(c, events[n].tick) else c1.time == c.time
  {
    assert events[..n + 1][..n] == events[..n];
  }

  lemma BeforeFirst(start: TimeVal, events: seq<Event>, tickadj: nat)
    requires tickadj > 0
    ensures Before(start, events, tickadj, 0).time == start
  {
    assert events[..0] == [];
  }

  lemma {:induction false} NormalUpTo(start: TimeVal, events: seq<Event>, tickadj: nat, n: nat)
    requires tickadj > 0 && Normal(start) && n <= |events|
    requires forall i: nat :: i < n && events[i].HardTick? ==>
      Carries(Before(start, events, tickadj, i), events[i].tick)
    ensures Normal(Before(start, events, tickadj, n).time)
    decreases n
  {
    hide Before, Ticked, Carries;
    if n == 0 {
      BeforeFirst(start, events, tickadj);
    } else {
      NormalUpTo(start, events, tickadj, n - 1);
      BeforeNext(start, events, tickadj, n - 1);
      if events[n - 1].HardTick? {
        NormalIffCarries(Before(start, events, tickadj, n - 1), events[n - 1].tick);
      }
    }
  }

  /** Ticks no shorter than the skew, and that leave a second's room for it, never spoil a proper clock. */
  lemma LongTicksCarry(c: Clock, tick: int)
    requires Normal(c.time) && (c.timedelta != 0 ==> 0 <= c.tickdelta <= tick) && 0 <= tick <= SECOND
    requires c.timedelta != 0 ==> tick + c.tickdelta <= SECOND
    ensures Carries(c, tick) && Normal(Ticked(c, tick).time)
  {
  }

  /** Two seconds forwards, changed to a millisecond backwards, and a short tick just after a full second. */
  const HURRIED := [Adjust(TimeVal(2, 0)), Adjust(TimeVal(0, -1000)), HardTick(100)]

  /**
   * The clock is spoilt by a tick shorter than the skew: a correction that
   * replaces a large pending one keeps its tenfold skew, the tick after a late
   * one is short, and the microseconds go below zero with nothing borrowed.
   */
  lemma ShortTickSpoilsClock()
    ensures RunClock(TimeVal(5, 10), HURRIED, 62).c == Clock(TimeVal(5, -510), 0, 620)
    ensures !Normal(RunClock(TimeVal(5, 10), HURRIED, 62).c.time)
  {
    hide RunClock, Rounded, Wrap32, OnCourse, Multiple, Rem, Quot;
    var start, two := TimeVal(5, 10), HURRIED[..2];
    HurriedStep(start, HURRIED[..1], HURRIED[0], []);
    HurriedStep(start, two, HURRIED[1], HURRIED[..1]);
    HurriedStep(start, HURRIED, HURRIED[2], two);
    NoEvents(start);
    HurriedSums();
  }

  lemma HurriedStep(start: TimeVal, events: seq<Event>, e: Event, before: seq<Event>)
    requires events == before + [e]
    ensures RunClock(start, events, 62) == Happen(RunClock(start, before, 62), e, 62)
  {
    assert events[..|events| - 1] == before;
  }

  lemma NoEvents(start: TimeVal)
    ensures RunClock(start, [], 62) == History(Clock(start, 0, 0), 0, 0)
  {
  }

  lemma HurriedSums()
    ensures Wrap32(2000000) == 2000000 && Wrap32(-1000) == -1000
    ensures Rounded(2000000, 620) == 1999500 && Rounded(-1000, 620) == -620
  {
  }

  // ----- A correction runs out exactly -----

  function Ticks(c: Clock, ticks: seq<int>): Clock {
    if ticks == [] then c else Ticked(Ticks(c, ticks[..|ticks| - 1]), ticks[|ticks| - 1])
  }

  function Abs(x: int): int {
    if x < 0 then -x else x
  }

  /**
   * With no further adjtime, n ticks of any length take n steps of tickdelta off the
   * correction until it is zero, which it is after exactly
   * |timedelta| / tickdelta ticks and not before; meanwhile the clock
   * advances by the ticks plus what has gone off the correction.
   */
  lemma {:induction false} SlewsExactly(c: Clock, ticks: seq<int>)
    requires c.tickdelta > 0 && Multiple(c.timedelta, c.tickdelta)
    ensures var c1 := Ticks(c, ticks);
      && c1.tickdelta == c.tickdelta && Multiple(c1.timedelta, c.tickdelta)
      && Us(c1.time) == Us(c.time) + Elapsed(ticks) + (c.timedelta - c1.timedelta)
      && (c1.timedelta == 0 <==> |ticks| >= Abs(Quot(c.timedelta, c.tickdelta)))
      && (c1.timedelta != 0 ==> Abs(Quot(c1.timedelta, c.tickdelta)) == Abs(Quot(c.timedelta, c.tickdelta)) - |ticks|)
      && (c1.timedelta > 0 ==> c.timedelta > 0) && (c1.timedelta < 0 ==> c.timedelta < 0)
  {
    hide Rem, Quot, Multiple;
    if ticks == [] {
      ZeroQuot(c.timedelta, c.tickdelta);
    } else {
      var n := |ticks| - 1;
      SlewsExactly(c, ticks[..n]);
      var c0, c1 := Ticks(c, ticks[..n]), Ticks(c, ticks);
      if c0.timedelta != 0 {
        OneLess(c0.timedelta, c.tickdelta);
        ZeroQuot(c0.timedelta, c.tickdelta);
        ZeroQuot(c1.timedelta, c.tickdelta);
      }
    }
  }

  lemma ZeroQuot(x: int, d: int)
    requires d > 0 && Multiple(x, d)
    ensures x == 0 <==> Quot(x, d) == 0
    ensures x > 0 ==> Quot(x, d) > 0
    ensures x < 0 ==> Quot(x, d) < 0
  {
    if x != 0 {
      OneLess(x, d);
      QuotBounds(x, d);
    }
  }
}
