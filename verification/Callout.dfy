/**
 * The callout queue: a list of pending calls whose times are kept as
 * differences, so that a clock tick touches only the head.
 *
 * The difference list is proved to refine a plain list of absolute deadlines
 * under every operation, and over every run callouts fire in deadline order,
 * never early, each with its exact lateness.
 */
module CalloutDeltas {

  function Max(a: int, b: int): int {
    if a > b then a else b
  }

  /**
   * Ticks left for every entry of a difference list that follows `base` ticks:
   * positive differences accumulate; entries already due (zero or negative,
   * with nothing positive before them) carry their own time.
   */
  function Left(ts: seq<int>, base: int): (r: seq<int>)
    ensures |r| == |ts|
  {
    if ts == [] then [] else [base + ts[0]] + Left(ts[1..], base + Max(ts[0], 0))
  }

  /** hardclock's walk: decrement up to and including the first entry not yet due. */
  function Tick(ts: seq<int>): seq<int> {
    if ts == [] then []
    else if ts[0] > 0 then [ts[0] - 1] + ts[1..]
    else [ts[0] - 1] + Tick(ts[1..])
  }

  /** Where timeout() links a call due in t ticks. */
  function Position(ts: seq<int>, t: int): (k: nat)
    ensures k <= |ts|
  {
    if ts == [] || ts[0] >= t then 0 else 1 + Position(ts[1..], t - Max(ts[0], 0))
  }

  /** The difference that timeout() stores there. */
  function Residue(ts: seq<int>, t: int): int {
    if ts == [] || ts[0] >= t then t else Residue(ts[1..], t - Max(ts[0], 0))
  }

  /** The list with t linked in at k and the difference taken from the entry after it. */
  function Linked(ts: seq<int>, k: nat, t: int): seq<int>
    requires k <= |ts|
  {
    ts[..k] + [t] + (if k < |ts| then [ts[k] - t] + ts[k + 1..] else [])
  }

  /** untimeout(): unlink entry k and give its positive difference to the entry after it. */
  function Unlinked(ts: seq<int>, k: nat): seq<int>
    requires k < |ts|
  {
    ts[..k] + (if k + 1 < |ts| then [ts[k + 1] + Max(ts[k], 0)] + ts[k + 2..] else [])
  }

  ghost predicate Sorted(s: seq<int>) {
    forall i, j :: 0 <= i < j < |s| ==> s[i] <= s[j]
  }

  lemma {:induction false} LeftShift(ts: seq<int>, b: int, d: int)
    ensures forall i :: 0 <= i < |ts| ==> Left(ts, b + d)[i] == Left(ts, b)[i] + d
  {
    if ts != [] {
      LeftShift(ts[1..], b + Max(ts[0], 0), d);
    }
  }

  /** One tick takes exactly one tick from the time left of every entry, overdue ones included. */
  lemma {:induction false} TickLowersAll(ts: seq<int>)
    ensures |Tick(ts)| == |ts|
    ensures forall i :: 0 <= i < |ts| ==> Left(Tick(ts), 0)[i] == Left(ts, 0)[i] - 1
  {
    if ts != [] {
      if ts[0] > 0 {
        assert Tick(ts)[1..] == ts[1..];
        LeftShift(ts[1..], ts[0], -1);
      } else {
        assert Tick(ts)[1..] == Tick(ts[1..]);
        TickLowersAll(ts[1..]);
      }
    }
  }

  /** Cutting a difference list: the part after k starts from the base reached there. */
  function BaseAt(ts: seq<int>, base: int, k: nat): int
    requires k <= |ts|
  {
    if k == 0 then base else BaseAt(ts[1..], base + Max(ts[0], 0), k - 1)
  }

  lemma {:induction false} LeftSplit(ts: seq<int>, base: int, k: nat)
    requires k <= |ts|
    ensures Left(ts, base) == Left(ts[..k], base) + Left(ts[k..], BaseAt(ts, base, k))
  {
    if k > 0 {
      LeftSplit(ts[1..], base + Max(ts[0], 0), k - 1);
      assert ts[1..][..k - 1] == ts[..k][1..];
      assert ts[1..][k - 1..] == ts[k..];
    }
  }

  lemma {:induction false} LeftConcat(a: seq<int>, b: seq<int>, base: int)
    ensures Left(a + b, base) == Left(a, base) + Left(b, BaseAt(a, base, |a|))
  {
    LeftSplit(a + b, base, |a|);
    assert (a + b)[..|a|] == a && (a + b)[|a|..] == b;
    BaseOfPrefix(a, b, base);
  }

  lemma {:induction false} BaseOfPrefix(a: seq<int>, b: seq<int>, base: int)
    ensures BaseAt(a + b, base, |a|) == BaseAt(a, base, |a|)
  {
    if a != [] {
      assert (a + b)[1..] == a[1..] + b;
      BaseOfPrefix(a[1..], b, base + Max(a[0], 0));
    }
  }

  /** Replacing the part of a list from k on keeps the times before k. */
  lemma ReplaceTail(ts: seq<int>, k: nat, rest: seq<int>)
    requires k <= |ts|
    ensures Left(ts[..k] + rest, 0) == Left(ts, 0)[..k] + Left(rest, BaseAt(ts, 0, k))
    ensures Left(ts, 0)[k..] == Left(ts[k..], BaseAt(ts, 0, k))
  {
    LeftSplit(ts, 0, k);
    LeftConcat(ts[..k], rest, 0);
    BaseOfPrefix(ts[..k], ts[k..], 0);
    assert ts[..k] + ts[k..] == ts;
  }

  lemma LeftFirst(ts: seq<int>, base: int)
    requires ts != []
    ensures Left(ts, base)[0] == base + ts[0]
    ensures forall i :: 0 < i < |ts| ==> Left(ts, base)[i] == Left(ts[1..], base + Max(ts[0], 0))[i - 1]
  {
  }

  lemma {:induction false} PositionEarlier(ts: seq<int>, base: int, t: int)
    ensures var k, L := Position(ts, t), Left(ts, base);
      (forall i :: 0 <= i < k ==> L[i] < base + t) && (k < |ts| ==> L[k] >= base + t)
  {
    hide Left;
    if ts != [] {
      LeftFirst(ts, base);
      if ts[0] < t {
        PositionEarlier(ts[1..], base + Max(ts[0], 0), t - Max(ts[0], 0));
      }
    }
  }

  lemma {:induction false} ResidueThere(ts: seq<int>, base: int, t: int)
    requires t >= 1
    ensures var k := Position(ts, t);
      && BaseAt(ts, base, k) + Residue(ts, t) == base + t && Residue(ts, t) >= 1
      && (k < |ts| ==> ts[k] >= Residue(ts, t))
  {
    if ts != [] && ts[0] < t {
      ResidueThere(ts[1..], base + Max(ts[0], 0), t - Max(ts[0], 0));
    }
  }

  /** timeout() walks past the entries due before the new call, and what is left is measured from there. */
  lemma PositionIsFirst(ts: seq<int>, base: int, t: int)
    requires t >= 1
    ensures var k, L := Position(ts, t), Left(ts, base);
      && (forall i :: 0 <= i < k ==> L[i] < base + t)
      && (k < |ts| ==> L[k] >= base + t)
      && BaseAt(ts, base, k) + Residue(ts, t) == base + t
      && Residue(ts, t) >= 1
      && (k < |ts| ==> ts[k] >= Residue(ts, t))
  {
    hide Left, BaseAt, Residue;
    PositionEarlier(ts, base, t);
    ResidueThere(ts, base, t);
  }

  /**
   * Inserting a call due in t ticks adds one entry with t ticks left, before
   * the first entry due no earlier, and changes no other entry's time.
   */
  lemma InsertAddsOne(ts: seq<int>, t: int)
    requires t >= 1
    ensures var k, L := Position(ts, t), Left(ts, 0);
      Left(Linked(ts, k, Residue(ts, t)), 0) == L[..k] + [t] + L[k..]
  {
    var k, r := Position(ts, t), Residue(ts, t);
    PositionIsFirst(ts, 0, t);
    var rest := if k < |ts| then [ts[k] - r] + ts[k + 1..] else [];
    LinkedTail(ts, k, r, BaseAt(ts, 0, k));
    assert Linked(ts, k, r) == ts[..k] + ([r] + rest);
    ReplaceTail(ts, k, [r] + rest);
  }

  lemma LinkedTail(ts: seq<int>, k: nat, r: int, base: int)
    requires k <= |ts| && r >= 1 && (k < |ts| ==> ts[k] >= r)
    ensures var rest := if k < |ts| then [ts[k] - r] + ts[k + 1..] else [];
      Left([r] + rest, base) == [base + r] + Left(ts[k..], base)
  {
    var rest := if k < |ts| then [ts[k] - r] + ts[k + 1..] else [];
    assert ([r] + rest)[1..] == rest;
    if k < |ts| {
      assert rest[1..] == ts[k + 1..] == ts[k..][1..];
    }
  }

  /** In a sorted list nothing negative follows something positive. */
  lemma {:induction false} NoNegativeAfterPositive(ts: seq<int>, base: int, k: nat)
    requires k + 1 < |ts| && ts[k] > 0 && Sorted(Left(ts, base))
    ensures ts[k + 1] >= 0
  {
    LeftSplit(ts, base, k);
    var b := BaseAt(ts, base, k);
    var r := ts[k..];
    assert Left(ts, base)[k] == Left(r, b)[0] == b + ts[k];
    assert Left(ts, base)[k + 1] == Left(r, b)[1];
    assert r[1..][0] == ts[k + 1];
    assert Left(r[1..], b + ts[k])[0] == b + ts[k] + ts[k + 1];
  }

  /** Removing entry k removes its time and changes no other entry's. */
  lemma RemoveDropsOne(ts: seq<int>, k: nat)
    requires k < |ts| && Sorted(Left(ts, 0))
    ensures Left(Unlinked(ts, k), 0) == Left(ts, 0)[..k] + Left(ts, 0)[k + 1..]
  {
    hide Left, Sorted;
    if k + 1 < |ts| && ts[k] > 0 {
      NoNegativeAfterPositive(ts, 0, k);
    }
    UnlinkedTail(ts, k, BaseAt(ts, 0, k));
    ReplaceTail(ts, k, if k + 1 < |ts| then [ts[k + 1] + Max(ts[k], 0)] + ts[k + 2..] else []);
    assert Left(ts, 0)[k + 1..] == Left(ts, 0)[k..][1..];
  }

  lemma UnlinkedTail(ts: seq<int>, k: nat, base: int)
    requires k < |ts| && (k + 1 < |ts| && ts[k] > 0 ==> ts[k + 1] >= 0)
    ensures var rest := if k + 1 < |ts| then [ts[k + 1] + Max(ts[k], 0)] + ts[k + 2..] else [];
      Left(rest, base) == Left(ts[k..], base)[1..]
  {
    assert ts[k..][1..] == ts[k + 1..];
    assert Left(ts[k..], base)[1..] == Left(ts[k + 1..], base + Max(ts[k], 0));
    if k + 1 < |ts| {
      var rest := [ts[k + 1] + Max(ts[k], 0)] + ts[k + 2..];
      assert rest[1..] == ts[k + 2..] == ts[k + 1..][1..];
    }
  }

  /** A due head can be popped without touching the others. */
  lemma PopDueHead(ts: seq<int>)
    requires ts != [] && ts[0] <= 0
    ensures Left(ts[1..], 0) == Left(ts, 0)[1..]
  {
  }
}

/** Runs of the clock, of timeout() and untimeout(), and of softclock(). */
module CalloutRuns {
  import opened CalloutDeltas

  /** A call: function and argument. */
  datatype Call = Call(fun: int, arg: int)

  /** A call handed to its function at tick `at` with second argument `late`. */
  datatype Firing = Firing(call: Call, at: int, late: int)

  /**
   * The kernel's state: parallel views of the linked list (calls, differences,
   * table slots), the free slots, the tick count and the calls made so far.
   */
  datatype State = State(now: int, calls: seq<Call>, times: seq<int>, slots: seq<nat>, free: seq<nat>,
                         log: seq<Firing>, panicked: bool)

  datatype Action = Hardclock | Timeout(call: Call, t: int) | Untimeout(call: Call) | Softclock

  function Initial(n: nat): State {
    State(0, [], [], [], seq(n, i => i), [], false)
  }

  function Find(calls: seq<Call>, call: Call): (k: nat)
    ensures k <= |calls|
    ensures forall i :: 0 <= i < k ==> calls[i] != call
    ensures k < |calls| ==> calls[k] == call
  {
    if calls == [] || calls[0] == call then 0 else 1 + Find(calls[1..], call)
  }

  function InsertAt<T>(s: seq<T>, k: nat, x: T): seq<T>
    requires k <= |s|
  {
    s[..k] + [x] + s[k..]
  }

  function RemoveAt<T>(s: seq<T>, k: nat): seq<T>
    requires k < |s|
  {
    s[..k] + s[k + 1..]
  }

  ghost predicate Shaped(s: State) {
    |s.calls| == |s.times| == |s.slots|
  }

  function AddCall(s: State, call: Call, t: int): State
    requires Shaped(s)
  {
    if s.free == [] then s.(panicked := true)
    else
      var k := Position(s.times, t);
      s.(calls := InsertAt(s.calls, k, call), times := Linked(s.times, k, Residue(s.times, t)),
         slots := InsertAt(s.slots, k, s.free[0]), free := s.free[1..])
  }

  function DropCall(s: State, k: nat): State
    requires Shaped(s) && k < |s.calls|
  {
    s.(calls := RemoveAt(s.calls, k), times := Unlinked(s.times, k),
       slots := RemoveAt(s.slots, k), free := [s.slots[k]] + s.free)
  }

  function FireHead(s: State): State
    requires Shaped(s) && s.times != []
  {
    s.(calls := s.calls[1..], times := s.times[1..], slots := s.slots[1..],
       free := [s.slots[0]] + s.free, log := s.log + [Firing(s.calls[0], s.now, s.times[0])])
  }

  function Step(s: State, a: Action): State
    requires Shaped(s)
  {
    if s.panicked then s else
    match a
    case Hardclock => s.(now := s.now + 1, times := Tick(s.times))
    case Timeout(call, t) => AddCall(s, call, Max(t, 1))
    case Untimeout(call) =>
      var k := Find(s.calls, call);
      if k == |s.calls| then s else DropCall(s, k)
    case Softclock => if s.times == [] || s.times[0] > 0 then s else FireHead(s)
  }

  // ----- the plain list of deadlines -----

  datatype Pending = Pending(call: Call, due: int)

  /** A call made at tick `at`, due at tick `due`. */
  datatype Made = Made(call: Call, due: int, at: int)

  datatype Plain = Plain(now: int, list: seq<Pending>, made: seq<Made>)

  /** The first entry due at or after tick d. */
  function FirstDue(list: seq<Pending>, d: int): (k: nat)
    ensures k <= |list|
    ensures forall i :: 0 <= i < k ==> list[i].due < d
    ensures k < |list| ==> list[k].due >= d
  {
    if list == [] || list[0].due >= d then 0 else 1 + FirstDue(list[1..], d)
  }

  function FindPending(list: seq<Pending>, call: Call): (k: nat)
    ensures k <= |list|
    ensures forall i :: 0 <= i < k ==> list[i].call != call
    ensures k < |list| ==> list[k].call == call
  {
    if list == [] || list[0].call == call then 0 else 1 + FindPending(list[1..], call)
  }

  function PlainAdd(p: Plain, call: Call, d: int): Plain {
    p.(list := InsertAt(p.list, FirstDue(p.list, d), Pending(call, d)))
  }

  function PlainDrop(p: Plain, call: Call): Plain {
    var k := FindPending(p.list, call);
    if k == |p.list| then p else p.(list := RemoveAt(p.list, k))
  }

  function PlainFire(p: Plain): Plain {
    if p.list == [] || p.list[0].due > p.now then p
    else p.(list := p.list[1..], made := p.made + [Made(p.list[0].call, p.list[0].due, p.now)])
  }

  function PlainStep(p: Plain, a: Action): Plain {
    match a
    case Hardclock => p.(now := p.now + 1)
    case Timeout(call, t) => PlainAdd(p, call, p.now + Max(t, 1))
    case Untimeout(call) => PlainDrop(p, call)
    case Softclock => PlainFire(p)
  }

  /**
   * What each step does to the calls that are waiting and to those made. A
   * tick only passes; timeout adds the one call, due that many ticks from now
   * but at least one, before the first that is due no earlier; untimeout takes
   * away the first such call, if there is one; softclock makes the first call
   * if it is due.
   */
  ghost predicate Does(p: Plain, p1: Plain, a: Action) {
    match a
    case Hardclock => p1.now == p.now + 1 && p1.list == p.list && p1.made == p.made
    case Timeout(call, t) =>
      && p1.now == p.now && p1.made == p.made
      && exists k :: 0 <= k <= |p.list| && AddedAt(p.list, p1.list, k, call, DueIn(p.now, t))
    case Untimeout(call) =>
      && p1.now == p.now && p1.made == p.made
      && (if exists i :: 0 <= i < |p.list| && p.list[i].call == call
          then exists k :: 0 <= k < |p.list| && TakenAt(p.list, p1.list, k, call)
          else p1.list == p.list)
    case Softclock =>
      && p1.now == p.now
      && (if p.list != [] && p.list[0].due <= p.now
          then p.list == [p.list[0]] + p1.list && p1.made == p.made + [Made(p.list[0].call, p.list[0].due, p.now)]
          else p1.list == p.list && p1.made == p.made)
  }

  function DueIn(now: int, t: int): int {
    if t < 1 then now + 1 else now + t
  }

  predicate AddedAt(list: seq<Pending>, list1: seq<Pending>, k: int, call: Call, due: int)
    requires 0 <= k <= |list|
  {
    && list1 == list[..k] + [Pending(call, due)] + list[k..]
    && (forall i :: 0 <= i < k ==> list[i].due < due) && (k < |list| ==> list[k].due >= due)
  }

  predicate TakenAt(list: seq<Pending>, list1: seq<Pending>, k: int, call: Call)
    requires 0 <= k < |list|
  {
    && list1 == list[..k] + list[k + 1..] && list[k].call == call
    && (forall i :: 0 <= i < k ==> list[i].call != call)
  }

  lemma PlainStepDoes(p: Plain, a: Action)
    ensures Does(p, PlainStep(p, a), a)
  {
    match a
    case Hardclock =>
    case Timeout(call, t) =>
      var d := DueIn(p.now, t);
      assert AddedAt(p.list, PlainStep(p, a).list, FirstDue(p.list, d), call, DueIn(p.now, t));
    case Untimeout(call) =>
      var k := FindPending(p.list, call);
      if k < |p.list| {
        assert TakenAt(p.list, PlainStep(p, a).list, k, call);
      }
    case Softclock =>
  }

  // ----- refinement -----

  function Deadlines(now: int, calls: seq<Call>, left: seq<int>): (r: seq<Pending>)
    requires |calls| == |left|
    ensures |r| == |calls|
    ensures forall i :: 0 <= i < |r| ==> r[i] == Pending(calls[i], now + left[i])
  {
    seq(|calls|, i requires 0 <= i < |calls| => Pending(calls[i], now + left[i]))
  }

  /** The second argument of a call is its deadline minus the current tick. */
  function Calls(log: seq<Firing>): (r: seq<Made>)
    ensures |r| == |log|
  {
    seq(|log|, i requires 0 <= i < |log| => Made(log[i].call, log[i].at + log[i].late, log[i].at))
  }

  function Abs(s: State): Plain
    requires Shaped(s)
  {
    Plain(s.now, Deadlines(s.now, s.calls, Left(s.times, 0)), Calls(s.log))
  }

  lemma LinkedSize(ts: seq<int>, t: int)
    ensures |Linked(ts, Position(ts, t), Residue(ts, t))| == |ts| + 1
  {
  }

  /** Two facts that determine the insertion point. */
  lemma {:induction false} FirstDueUnique(list: seq<Pending>, d: int, k: nat)
    requires k <= |list|
    requires forall i :: 0 <= i < k ==> list[i].due < d
    requires k < |list| ==> list[k].due >= d
    ensures FirstDue(list, d) == k
  {
    if k > 0 {
      assert list[0].due < d;
      FirstDueUnique(list[1..], d, k - 1);
    }
  }

  lemma {:induction false} FindUnique(list: seq<Pending>, call: Call, k: nat)
    requires k <= |list|
    requires forall i :: 0 <= i < k ==> list[i].call != call
    requires k < |list| ==> list[k].call == call
    ensures FindPending(list, call) == k
  {
    if k > 0 {
      assert list[0].call != call;
      FindUnique(list[1..], call, k - 1);
    }
  }

  lemma HardclockRefines(s: State)
    requires Shaped(s)
    ensures |Tick(s.times)| == |s.times|
    ensures Deadlines(s.now + 1, s.calls, Left(Tick(s.times), 0)) == Deadlines(s.now, s.calls, Left(s.times, 0))
  {
    TickLowersAll(s.times);
  }

  lemma TimeoutPlace(now: int, calls: seq<Call>, times: seq<int>, t: int)
    requires |calls| == |times| && t >= 1
    ensures FirstDue(Deadlines(now, calls, Left(times, 0)), now + t) == Position(times, t)
  {
    PositionIsFirst(times, 0, t);
    var list := Deadlines(now, calls, Left(times, 0));
    forall i | 0 <= i < Position(times, t) ensures list[i].due < now + t {
      assert Left(times, 0)[i] < t;
    }
    FirstDueUnique(list, now + t, Position(times, t));
  }

  lemma TimeoutTimes(times: seq<int>, t: int)
    requires t >= 1
    ensures var k := Position(times, t);
      Left(Linked(times, k, Residue(times, t)), 0) == InsertAt(Left(times, 0), k, t)
  {
    InsertAddsOne(times, t);
  }

  /** The lists after timeout(): the new call inserted at the deadline's place. */
  lemma TimeoutRefines(now: int, calls: seq<Call>, times: seq<int>, call: Call, t: int)
    requires |calls| == |times| && t >= 1
    ensures var k := Position(times, t); var ts := Linked(times, k, Residue(times, t));
      && |ts| == |times| + 1
      && Deadlines(now, InsertAt(calls, k, call), Left(ts, 0))
         == (var list := Deadlines(now, calls, Left(times, 0));
             InsertAt(list, FirstDue(list, now + t), Pending(call, now + t)))
  {
    LinkedSize(times, t);
    TimeoutTimes(times, t);
    InsertedList(now, calls, Left(times, 0), Position(times, t), call, t);
    TimeoutPlace(now, calls, times, t);
  }

  lemma InsertedList(now: int, calls: seq<Call>, left: seq<int>, k: nat, call: Call, t: int)
    requires |calls| == |left| && k <= |calls|
    ensures Deadlines(now, InsertAt(calls, k, call), InsertAt(left, k, t))
         == InsertAt(Deadlines(now, calls, left), k, Pending(call, now + t))
  {
  }

  /** The lists after untimeout() found its call at k. */
  lemma UntimeoutRefines(now: int, calls: seq<Call>, times: seq<int>, call: Call)
    requires |calls| == |times| && Sorted(Left(times, 0))
    ensures var k, list := Find(calls, call), Deadlines(now, calls, Left(times, 0));
      && FindPending(list, call) == k
      && (k < |calls| ==> |Unlinked(times, k)| == |times| - 1)
      && (k < |calls| ==> Deadlines(now, RemoveAt(calls, k), Left(Unlinked(times, k), 0)) == RemoveAt(list, k))
  {
    var k := Find(calls, call);
    FindUnique(Deadlines(now, calls, Left(times, 0)), call, k);
    if k < |calls| {
      RemoveDropsOne(times, k);
      RemovedList(now, calls, Left(times, 0), k);
    }
  }

  lemma RemovedList(now: int, calls: seq<Call>, left: seq<int>, k: nat)
    requires |calls| == |left| && k < |calls|
    ensures Deadlines(now, RemoveAt(calls, k), RemoveAt(left, k)) == RemoveAt(Deadlines(now, calls, left), k)
  {
  }

  lemma DeadlinesTail(now: int, calls: seq<Call>, left: seq<int>)
    requires |calls| == |left| > 0
    ensures Deadlines(now, calls[1..], left[1..]) == Deadlines(now, calls, left)[1..]
  {
  }

  lemma PoppedList(now: int, calls: seq<Call>, times: seq<int>)
    requires |calls| == |times| > 0
    ensures Left(times, 0)[0] == times[0]
    ensures times[0] <= 0 ==>
      Deadlines(now, calls[1..], Left(times[1..], 0)) == Deadlines(now, calls, Left(times, 0))[1..]
  {
    if times[0] <= 0 {
      PopDueHead(times);
      DeadlinesTail(now, calls, Left(times, 0));
    }
  }

  lemma LoggedCall(log: seq<Firing>, f: Firing)
    ensures Calls(log + [f]) == Calls(log) + [Made(f.call, f.at + f.late, f.at)]
  {
  }

  lemma FireHeadRefines(s: State)
    requires Shaped(s) && s.times != [] && s.times[0] <= 0
    ensures var u, p := FireHead(s), Abs(s);
      && Shaped(u) && p.list[0].due <= p.now
      && Abs(u) == p.(list := p.list[1..], made := p.made + [Made(p.list[0].call, p.list[0].due, p.now)])
  {
    PoppedList(s.now, s.calls, s.times);
    LoggedCall(s.log, Firing(s.calls[0], s.now, s.times[0]));
  }

  lemma AddCallRefines(s: State, call: Call, t: int)
    requires Shaped(s) && s.free != [] && t >= 1
    ensures Shaped(AddCall(s, call, t))
    ensures Abs(AddCall(s, call, t)) == PlainAdd(Abs(s), call, s.now + t)
  {
    TimeoutRefines(s.now, s.calls, s.times, call, t);
  }

  lemma DropCallRefines(s: State, call: Call)
    requires Shaped(s) && Sorted(Left(s.times, 0))
    ensures var k := Find(s.calls, call);
      && FindPending(Abs(s).list, call) == k
      && (k < |s.calls| ==> Shaped(DropCall(s, k)) && Abs(DropCall(s, k)) == Abs(s).(list := RemoveAt(Abs(s).list, k)))
  {
    UntimeoutRefines(s.now, s.calls, s.times, call);
  }

  // ----- every run -----

  ghost predicate ByDeadline(list: seq<Pending>) {
    forall i, j :: 0 <= i < j < |list| ==> list[i].due <= list[j].due
  }

  /** Calls were made in deadline order, none early, and none that is pending should have come first. */
  ghost predicate InOrder(p: Plain) {
    && ByDeadline(p.list)
    && (forall i, j :: 0 <= i < j < |p.made| ==> p.made[i].due <= p.made[j].due && p.made[i].at <= p.made[j].at)
    && (forall i :: 0 <= i < |p.made| ==> p.made[i].due <= p.made[i].at <= p.now)
    && (forall i, j :: 0 <= i < |p.made| && 0 <= j < |p.list| ==> p.made[i].due <= p.list[j].due)
  }

  lemma AddKeepsOrder(p: Plain, call: Call, d: int)
    requires InOrder(p) && d > p.now
    ensures InOrder(PlainAdd(p, call, d))
  {
    var k := FirstDue(p.list, d);
    var l := InsertAt(p.list, k, Pending(call, d));
    assert forall i :: 0 <= i < |l| ==>
         l[i] == (if i < k then p.list[i] else if i == k then Pending(call, d) else p.list[i - 1]);
  }

  lemma DropKeepsOrder(p: Plain, call: Call)
    requires InOrder(p)
    ensures InOrder(PlainDrop(p, call))
  {
    var k := FindPending(p.list, call);
    if k < |p.list| {
      var l := RemoveAt(p.list, k);
      assert forall i :: 0 <= i < |l| ==> l[i] == p.list[if i < k then i else i + 1];
    }
  }

  lemma FireKeepsOrder(p: Plain)
    requires InOrder(p)
    ensures InOrder(PlainFire(p))
  {
  }

  lemma TickKeepsOrder(p: Plain)
    requires InOrder(p)
    ensures InOrder(p.(now := p.now + 1))
  {
  }

  lemma PlainKeepsOrder(p: Plain, a: Action)
    requires InOrder(p)
    ensures InOrder(PlainStep(p, a))
  {
    hide InOrder;
    match a
    case Hardclock => TickKeepsOrder(p);
    case Timeout(call, t) => AddKeepsOrder(p, call, p.now + Max(t, 1));
    case Untimeout(call) => DropKeepsOrder(p, call);
    case Softclock => FireKeepsOrder(p);
  }

  /** The callout table: the queue and the free list hold every slot exactly once. */
  ghost predicate SlotsKept(n: nat, s: State) {
    multiset(s.slots) + multiset(s.free) == multiset(Initial(n).free)
  }

  lemma InsertSlot(s: seq<nat>, k: nat, x: nat)
    requires k <= |s|
    ensures multiset(InsertAt(s, k, x)) == multiset(s) + multiset{x}
  {
    assert s == s[..k] + s[k..];
  }

  lemma RemoveSlot(s: seq<nat>, k: nat)
    requires k < |s|
    ensures multiset(RemoveAt(s, k)) + multiset{s[k]} == multiset(s)
  {
    assert s == s[..k] + [s[k]] + s[k + 1..];
  }

  lemma AddKeepsSlots(n: nat, s: State, call: Call, t: int)
    requires Shaped(s) && SlotsKept(n, s)
    ensures SlotsKept(n, AddCall(s, call, t))
  {
    if s.free != [] {
      InsertSlot(s.slots, Position(s.times, t), s.free[0]);
      assert s.free == [s.free[0]] + s.free[1..];
    }
  }

  lemma DropKeepsSlots(n: nat, s: State, k: nat)
    requires Shaped(s) && SlotsKept(n, s) && k < |s.calls|
    ensures SlotsKept(n, DropCall(s, k))
  {
    RemoveSlot(s.slots, k);
  }

  lemma StepKeepsSlots(n: nat, s: State, a: Action)
    requires Shaped(s) && SlotsKept(n, s)
    ensures SlotsKept(n, Step(s, a))
  {
    match a
    case Hardclock =>
    case Timeout(call, t) => AddKeepsSlots(n, s, call, Max(t, 1));
    case Untimeout(call) =>
      var k := Find(s.calls, call);
      if k < |s.calls| { DropKeepsSlots(n, s, k); }
    case Softclock =>
      if s.times != [] { assert s.slots == [s.slots[0]] + s.slots[1..]; }
  }

  ghost predicate Inv(n: nat, s: State) {
    Shaped(s) && SlotsKept(n, s) && InOrder(Abs(s))
  }

  lemma SortedTimes(s: State)
    requires Shaped(s) && ByDeadline(Abs(s).list)
    ensures Sorted(Left(s.times, 0))
  {
    var L := Left(s.times, 0);
    forall i, j | 0 <= i < j < |L| ensures L[i] <= L[j] {
      assert Abs(s).list[i].due <= Abs(s).list[j].due;
    }
  }

  lemma SoftclockRefines(s: State)
    requires Shaped(s) && !s.panicked
    ensures Shaped(Step(s, Softclock)) && Abs(Step(s, Softclock)) == PlainStep(Abs(s), Softclock)
  {
    if s.times != [] {
      PoppedList(s.now, s.calls, s.times);
      if s.times[0] <= 0 { FireHeadRefines(s); }
    }
  }

  lemma UntimeoutStepRefines(s: State, call: Call)
    requires Shaped(s) && !s.panicked && ByDeadline(Abs(s).list)
    ensures var a := Untimeout(call); Shaped(Step(s, a)) && Abs(Step(s, a)) == PlainStep(Abs(s), a)
  {
    SortedTimes(s);
    DropCallRefines(s, call);
  }

  /** Every step of the kernel is the same step of the plain list. */
  lemma StepRefines(s: State, a: Action)
    requires Shaped(s) && !s.panicked && ByDeadline(Abs(s).list)
    ensures Shaped(Step(s, a))
    ensures Abs(Step(s, a)) == (if a.Timeout? && s.free == [] then Abs(s) else PlainStep(Abs(s), a))
  {
    hide Abs, Shaped, ByDeadline, AddCall, PlainAdd, PlainDrop, PlainFire, DropCall, FireHead, Find, Max;
    if a.Hardclock? {
      HardclockStepRefines(s);
    } else if a.Softclock? {
      SoftclockRefines(s);
    } else if a.Untimeout? {
      UntimeoutStepRefines(s, a.call);
    } else {
      TimeoutStepRefines(s, a.call, a.t);
    }
  }

  lemma HardclockStepRefines(s: State)
    requires Shaped(s) && !s.panicked
    ensures Shaped(Step(s, Hardclock)) && Abs(Step(s, Hardclock)) == PlainStep(Abs(s), Hardclock)
  {
    HardclockRefines(s);
  }

  lemma TimeoutStepRefines(s: State, call: Call, t: int)
    requires Shaped(s) && !s.panicked
    ensures var a := Timeout(call, t);
      Shaped(Step(s, a)) && Abs(Step(s, a)) == (if s.free == [] then Abs(s) else PlainStep(Abs(s), a))
  {
    hide PlainAdd;
    if s.free != [] {
      AddCallRefines(s, call, Max(t, 1));
    }
  }

  lemma StepKeeps(n: nat, s: State, a: Action)
    requires Inv(n, s)
    ensures Inv(n, Step(s, a))
  {
    StepKeepsSlots(n, s, a);
    if !s.panicked {
      StepRefines(s, a);
      PlainKeepsOrder(Abs(s), a);
    }
  }

  /** A run from boot with an n-entry callout table; `timeout table overflow` stops it. */
  ghost function Run(n: nat, actions: seq<Action>): (s: State)
    ensures Inv(n, s)
    decreases |actions|
  {
    if actions == [] then Initial(n)
    else
      var s := Run(n, actions[..|actions| - 1]);
      StepKeeps(n, s, actions[|actions| - 1]);
      Step(s, actions[|actions| - 1])
  }

  ghost function PlainRun(actions: seq<Action>): Plain {
    if actions == [] then Plain(0, [], [])
    else PlainStep(PlainRun(actions[..|actions| - 1]), actions[|actions| - 1])
  }

  /** Unless the table overflows, the kernel's run is the plain list's run. */
  lemma {:induction false} RunRefines(n: nat, actions: seq<Action>)
    ensures !Run(n, actions).panicked ==> Abs(Run(n, actions)) == PlainRun(actions)
  {
    if actions != [] {
      var before, a := actions[..|actions| - 1], actions[|actions| - 1];
      RunRefines(n, before);
      if !Run(n, before).panicked {
        StepRefines(Run(n, before), a);
      }
    }
  }

  /** Every step of the kernel, up to an overflow of the table, does that to the calls with their deadlines. */
  lemma EveryStepDoes(n: nat, actions: seq<Action>, a: Action)
    requires !Run(n, actions).panicked && !(a.Timeout? && Run(n, actions).free == [])
    ensures Does(Abs(Run(n, actions)), Abs(Run(n, actions + [a])), a)
  {
    hide Abs, Step, PlainStep, Does;
    assert (actions + [a])[..|actions|] == actions;
    StepRefines(Run(n, actions), a);
    PlainStepDoes(Abs(Run(n, actions)), a);
  }

  /**
   * The log is the plain list's record of calls: the same calls at the same ticks, with deadline
   * minus now as argument.
   */
  ghost predicate FiredAs(log: seq<Firing>, made: seq<Made>) {
    && |log| == |made|
    && forall i :: 0 <= i < |log| ==>
         log[i].call == made[i].call && log[i].at == made[i].at && log[i].late == made[i].due - made[i].at
  }

  /** How many actions of the run come before the table overflows. */
  ghost function Alive(n: nat, actions: seq<Action>): (m: nat)
    ensures m <= |actions|
    ensures !Run(n, actions).panicked ==> m == |actions|
    decreases |actions|
  {
    if actions == [] || !Run(n, actions).panicked then |actions| else Alive(n, actions[..|actions| - 1])
  }

  lemma {:induction false} LogIsPlain(n: nat, actions: seq<Action>)
    ensures Calls(Run(n, actions).log) == PlainRun(actions[..Alive(n, actions)]).made
    decreases |actions|
  {
    hide Abs, Step, PlainStep;
    RunRefines(n, actions);
    if !Run(n, actions).panicked {
      assert actions[..|actions|] == actions;
      MadeIs(Run(n, actions));
    } else {
      var before, a := actions[..|actions| - 1], actions[|actions| - 1];
      LogIsPlain(n, before);
      assert actions[..Alive(n, actions)] == before[..Alive(n, before)];
      OverflowFiresNothing(n, Run(n, before), a);
    }
  }

  lemma MadeIs(s: State)
    requires Shaped(s)
    ensures Abs(s).made == Calls(s.log)
  {
  }

  /** The step that overflows the table, and any after it, make no call. */
  lemma OverflowFiresNothing(n: nat, s: State, a: Action)
    requires Inv(n, s) && Step(s, a).panicked
    ensures Step(s, a).log == s.log
  {
  }

  /**
   * Over every run, up to an overflow of the table: the calls made are those
   * of the plain list of deadlines, each at its tick with its deadline minus
   * that tick as second argument; their deadlines never decrease and none is
   * made early; and the queue and the free list together are a permutation of
   * the callout table.
   */
  lemma EveryRunFiresInOrder(n: nat, actions: seq<Action>)
    ensures var s, made := Run(n, actions), PlainRun(actions[..Alive(n, actions)]).made;
      && FiredAs(s.log, made)
      && (forall i, j :: 0 <= i < j < |made| ==> made[i].due <= made[j].due)
      && (forall i :: 0 <= i < |made| ==> made[i].due <= made[i].at)
      && multiset(s.slots) + multiset(s.free) == multiset(Initial(n).free)
  {
    var s := Run(n, actions);
    var made := PlainRun(actions[..Alive(n, actions)]).made;
    LogIsPlain(n, actions);
    assert Abs(s).made == made;
    forall i | 0 <= i < |s.log|
      ensures s.log[i].call == made[i].call && s.log[i].at == made[i].at && s.log[i].late == made[i].due - made[i].at
    {
      assert Calls(s.log)[i] == made[i];
    }
  }
}
