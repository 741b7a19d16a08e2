/**
 * The callout table itself: entries linked by index, with the list header
 * `calltodo` and the free list, changed in place by hardclock, softclock,
 * timeout and untimeout.
 */
module CalloutTable {
  import opened CalloutDeltas
  import opened CalloutRuns

  const NULL := -1

  /** The slot at position i of a list, or NULL past its end. */
  function At(slots: seq<nat>, i: nat): int {
    if i < |slots| then slots[i] else NULL
  }

  /** The slot before position i, with NULL standing for the list header. */
  function Before(slots: seq<nat>, i: nat): int
    requires i <= |slots|
  {
    if i == 0 then NULL else slots[i - 1]
  }

  ghost predicate InRange(slots: seq<nat>, n: nat) {
    forall i :: 0 <= i < |slots| ==> slots[i] < n
  }

  ghost predicate Distinct(s: seq<nat>) {
    forall i, j :: 0 <= i < j < |s| ==> s[i] != s[j]
  }

  ghost predicate Apart(a: seq<nat>, b: seq<nat>) {
    forall i, j :: 0 <= i < |a| && 0 <= j < |b| ==> a[i] != b[j]
  }

  /** `first` heads a linked list running through exactly these slots. */
  ghost predicate Chain(next: seq<int>, first: int, slots: seq<nat>) {
    && first == At(slots, 0)
    && InRange(slots, |next|)
    && Distinct(slots)
    && (forall i {:trigger next[slots[i]]} :: 0 <= i < |slots| ==> next[slots[i]] == At(slots, i + 1))
  }

  /** The fields of the slots of a list, in list order. */
  function Pick<T>(field: seq<T>, slots: seq<nat>): (r: seq<T>)
    requires InRange(slots, |field|)
    ensures |r| == |slots| && forall i :: 0 <= i < |r| ==> r[i] == field[slots[i]]
  {
    seq(|slots|, i requires 0 <= i < |slots| => field[slots[i]])
  }

  lemma ChainHead(next: seq<int>, first: int, slots: seq<nat>)
    requires Chain(next, first, slots)
    ensures first == At(slots, 0) && InRange(slots, |next|)
  {
  }

  // ----- hardclock -----

  /** hardclock's loop has decremented the entries before i, all of them due already. */
  ghost predicate Ticked(ts: seq<int>, time: seq<int>, queue: seq<nat>, i: nat) {
    && |ts| == |queue| >= i
    && InRange(queue, |time|)
    && (forall j :: 0 <= j < |queue| ==> time[queue[j]] == (if j < i then ts[j] - 1 else ts[j]))
    && (forall j :: 0 <= j < i ==> ts[j] <= 0)
  }

  lemma TickedNext(ts: seq<int>, time: seq<int>, queue: seq<nat>, i: nat)
    requires i < |queue| && Distinct(queue) && Ticked(ts, time, queue, i)
    ensures var r := Pick(time[queue[i] := time[queue[i]] - 1], queue);
      && (ts[i] <= 0 ==> Ticked(ts, time[queue[i] := time[queue[i]] - 1], queue, i + 1))
      && r[i] == ts[i] - 1
      && (forall j :: 0 <= j < i ==> r[j] == ts[j] - 1)
      && (forall j :: i < j < |queue| ==> r[j] == ts[j])
  {
  }

  lemma {:induction false} TickedResult(ts: seq<int>, r: seq<int>, i: nat)
    requires |r| == |ts| >= i
    requires forall j :: 0 <= j < i ==> ts[j] <= 0 && r[j] == ts[j] - 1
    requires i < |ts| ==> ts[i] > 0 && r[i] == ts[i] - 1
    requires forall j :: i < j < |ts| ==> r[j] == ts[j]
    ensures r == Tick(ts)
  {
    if i > 0 {
      assert ts[0] <= 0;
      TickedResult(ts[1..], r[1..], i - 1);
    } else if ts != [] {
      assert r[1..] == ts[1..];
    }
  }

  /**
   * The queue part of hardclock: decrement entries until one is not yet past
   * due, and report whether softclock has work.
   */
  method TickLoop(next: seq<int>, start: seq<int>, calltodo: int, ghost queue: seq<nat>)
    returns (time: seq<int>, needsoft: bool)
    requires |start| == |next| && Chain(next, calltodo, queue)
    ensures |time| == |start| && Pick(time, queue) == Tick(Pick(start, queue))
    ensures needsoft <==> queue != [] && time[queue[0]] <= 0
  {
    time, needsoft := start, false;
    var p := calltodo;
    ghost var i, ts := 0, Pick(start, queue);
    while p != NULL
      invariant i <= |queue| && p == At(queue, i)
      invariant |time| == |next| && Ticked(ts, time, queue, i)
      invariant needsoft <==> i > 0
      decreases |queue| - i
    {
      TickedNext(ts, time, queue, i);
      time := time[p := time[p] - 1];
      if time[p] > 0 {
        break;
      }
      needsoft := true;
      if time[p] == 0 {
        break;
      }
      p := next[p];
      i := i + 1;
    }
    TickedResult(ts, Pick(time, queue), i);
  }

  // ----- timeout -----

  /** Position and residue found by an index walk from i. */
  function PlaceFrom(ts: seq<int>, i: nat, t: int): (nat, int)
    requires i <= |ts|
    decreases |ts| - i
  {
    if i == |ts| || ts[i] >= t then (i, t) else PlaceFrom(ts, i + 1, t - Max(ts[i], 0))
  }

  lemma PlaceStep(ts: seq<int>, i: nat, t: int)
    requires i <= |ts|
    ensures i < |ts| && ts[i] < t ==> PlaceFrom(ts, i, t) == PlaceFrom(ts, i + 1, t - Max(ts[i], 0))
    ensures i == |ts| || ts[i] >= t ==> PlaceFrom(ts, i, t) == (i, t)
  {
  }

  lemma {:induction false} PlaceIsPosition(ts: seq<int>, i: nat, t: int)
    requires i <= |ts|
    ensures PlaceFrom(ts, i, t) == (i + Position(ts[i..], t), Residue(ts[i..], t))
    decreases |ts| - i
  {
    if i < |ts| && ts[i] < t {
      PlaceIsPosition(ts, i + 1, t - Max(ts[i], 0));
      assert ts[i..][1..] == ts[i + 1..];
    }
  }

  /** The search loop of timeout(): the entries around the new one, and its difference. */
  method FindPlace(next: seq<int>, time: seq<int>, calltodo: int, ticks: int, ghost queue: seq<nat>)
    returns (p1: int, p2: int, t: int)
    requires |time| == |next| && Chain(next, calltodo, queue)
    ensures var k := Position(Pick(time, queue), ticks);
      p1 == Before(queue, k) && p2 == At(queue, k) && t == Residue(Pick(time, queue), ticks)
  {
    p1, p2, t := NULL, calltodo, ticks;
    ghost var i, ts := 0, Pick(time, queue);
    while p2 != NULL && time[p2] < t
      invariant i <= |queue| && p1 == Before(queue, i) && p2 == At(queue, i)
      invariant PlaceFrom(ts, 0, ticks) == PlaceFrom(ts, i, t)
      decreases |queue| - i
    {
      PlaceStep(ts, i, t);
      ghost var u := t - Max(ts[i], 0);
      if time[p2] > 0 {
        t := t - time[p2];
      }
      assert t == u;
      p1, p2 := p2, next[p2];
      i := i + 1;
    }
    PlaceStep(ts, i, t);
    PlaceIsPosition(ts, 0, ticks);
    assert ts[0..] == ts;
  }

  /** p->c_next = x, where NULL stands for the header; returns the header's link and the others. */
  function SetNext(first: int, next: seq<int>, p: int, x: int): (r: (int, seq<int>))
    requires -1 <= p < |next|
    ensures |r.1| == |next|
  {
    if p == NULL then (x, next) else (first, next[p := x])
  }

  /** Stores difference r in slot x and takes it from slot p. */
  function Store(time: seq<int>, x: nat, r: int, p: int): (stored: seq<int>)
    requires x < |time| && -1 <= p < |time|
    ensures |stored| == |time|
  {
    var t := time[x := r];
    if p == NULL then t else t[p := t[p] - r]
  }

  lemma InsertIndex<T>(s: seq<T>, k: nat, x: T, i: nat)
    requires k <= |s| && i <= |s|
    ensures InsertAt(s, k, x)[i] == if i < k then s[i] else if i == k then x else s[i - 1]
  {
  }

  lemma StoredTimes(time: seq<int>, queue: seq<nat>, k: nat, x: nat, r: int)
    requires InRange(queue, |time|) && Distinct(queue) && x < |time| && x !in queue && k <= |queue|
    ensures InRange(InsertAt(queue, k, x), |time|)
    ensures Pick(Store(time, x, r, At(queue, k)), InsertAt(queue, k, x)) == Linked(Pick(time, queue), k, r)
  {
    var q, ts, t := InsertAt(queue, k, x), Pick(time, queue), Store(time, x, r, At(queue, k));
    var l := Linked(ts, k, r);
    forall i | 0 <= i < |q| ensures t[q[i]] == l[i] {
      InsertIndex(queue, k, x, i);
      assert l[i] == (if i < k then ts[i] else if i == k then r else if i == k + 1 then ts[k] - r else ts[i - 1]);
    }
  }

  lemma StoredCall(call: seq<Call>, queue: seq<nat>, k: nat, x: nat, c: Call)
    requires InRange(queue, |call|) && x < |call| && x !in queue && k <= |queue|
    ensures InRange(InsertAt(queue, k, x), |call|)
    ensures Pick(call[x := c], InsertAt(queue, k, x)) == InsertAt(Pick(call, queue), k, c)
  {
  }

  lemma InsertedDistinct(queue: seq<nat>, k: nat, x: nat)
    requires Distinct(queue) && x !in queue && k <= |queue|
    ensures Distinct(InsertAt(queue, k, x))
  {
    var q := InsertAt(queue, k, x);
    forall i, j | 0 <= i < j < |q| ensures q[i] != q[j] {
      InsertIndex(queue, k, x, i);
      InsertIndex(queue, k, x, j);
    }
  }

  /** The queue's links after slot x has gone in at position k. */
  lemma LinkedIn(next: seq<int>, queue: seq<nat>, k: nat, x: nat)
    requires Chain(next, At(queue, 0), queue) && x < |next| && x !in queue && k <= |queue|
    ensures var (f, n) := SetNext(At(queue, 0), next, Before(queue, k), x);
      Chain(n[x := At(queue, k)], f, InsertAt(queue, k, x))
  {
    var (f, m) := SetNext(At(queue, 0), next, Before(queue, k), x);
    var n, q := m[x := At(queue, k)], InsertAt(queue, k, x);
    InsertedDistinct(queue, k, x);
    forall i | 0 <= i < |q| ensures q[i] < |n| && n[q[i]] == At(q, i + 1) {
      InsertIndex(queue, k, x, i);
      if i + 1 < |q| { InsertIndex(queue, k, x, i + 1); }
    }
    InsertIndex(queue, k, x, 0);
  }

  /** Links of slots outside a list do not matter to it. */
  lemma ChainFrame(next: seq<int>, n: seq<int>, first: int, slots: seq<nat>)
    requires Chain(next, first, slots) && |n| == |next|
    requires forall i :: 0 <= i < |slots| ==> n[slots[i]] == next[slots[i]]
    ensures Chain(n, first, slots)
  {
  }

  /** Taking the head off a list. */
  lemma ChainTail(next: seq<int>, slots: seq<nat>)
    requires slots != [] && Chain(next, slots[0], slots)
    ensures Chain(next, next[slots[0]], slots[1..]) && slots[0] !in slots[1..]
  {
  }

  /** Both lists after slot free[0] has gone into the queue at position k. */
  lemma MovedToQueue(next: seq<int>, queue: seq<nat>, free: seq<nat>, k: nat)
    requires Chain(next, At(queue, 0), queue) && Chain(next, At(free, 0), free) && Apart(queue, free)
    requires free != [] && k <= |queue|
    ensures var (f, m) := SetNext(At(queue, 0), next, Before(queue, k), free[0]); var n := m[free[0] := At(queue, k)];
      && Chain(n, f, InsertAt(queue, k, free[0])) && Chain(n, next[free[0]], free[1..])
      && Apart(InsertAt(queue, k, free[0]), free[1..])
  {
    var x := free[0];
    var (f, m) := SetNext(At(queue, 0), next, Before(queue, k), x);
    var n := m[x := At(queue, k)];
    NotIn(queue, free, 0);
    LinkedIn(next, queue, k, x);
    ChainTail(next, free);
    forall i | 0 <= i < |free[1..]| ensures n[free[1..][i]] == next[free[1..][i]] {
      assert free[1..][i] == free[i + 1];
    }
    ChainFrame(next, n, next[x], free[1..]);
    var q := InsertAt(queue, k, x);
    forall i, j | 0 <= i < |q| && 0 <= j < |free[1..]| ensures q[i] != free[1..][j] {
      InsertIndex(queue, k, x, i);
      assert free[1..][j] == free[j + 1];
    }
  }

  lemma NotIn(a: seq<nat>, b: seq<nat>, j: nat)
    requires Apart(a, b) && j < |b|
    ensures b[j] !in a
  {
  }

  lemma LinkedAll(time: seq<int>, call: seq<Call>, next: seq<int>, queue: seq<nat>, free: seq<nat>, k: nat,
                  r: int, c: Call)
    requires |time| == |call| == |next| && k <= |queue| && free != []
    requires Chain(next, At(queue, 0), queue) && Chain(next, At(free, 0), free) && Apart(queue, free)
    ensures var x, q := free[0], InsertAt(queue, k, free[0]);
      var (f, m) := SetNext(At(queue, 0), next, Before(queue, k), x); var n := m[x := At(queue, k)];
      && |n| == |next| && -1 <= Before(queue, k) < |next|
      && Chain(n, f, q) && Chain(n, next[x], free[1..]) && Apart(q, free[1..])
      && Pick(Store(time, x, r, At(queue, k)), q) == Linked(Pick(time, queue), k, r)
      && Pick(call[x := c], q) == InsertAt(Pick(call, queue), k, c)
  {
    NotIn(queue, free, 0);
    MovedToQueue(next, queue, free, k);
    StoredTimes(time, queue, k, free[0], r);
    StoredCall(call, queue, k, free[0], c);
  }

  // ----- untimeout and softclock -----

  /** The first entry with call c, found by an index walk from i. */
  function FindFrom(calls: seq<Call>, i: nat, c: Call): nat
    requires i <= |calls|
    decreases |calls| - i
  {
    if i == |calls| || calls[i] == c then i else FindFrom(calls, i + 1, c)
  }

  lemma {:induction false} FindFromIsFind(calls: seq<Call>, i: nat, c: Call)
    requires i <= |calls|
    ensures FindFrom(calls, i, c) == i + Find(calls[i..], c)
    decreases |calls| - i
  {
    if i < |calls| && calls[i] != c {
      FindFromIsFind(calls, i + 1, c);
      assert calls[i..][1..] == calls[i + 1..];
    }
  }

  /** The search loop of untimeout(): the first entry with this call and the one before it. */
  method FindCall(next: seq<int>, call: seq<Call>, calltodo: int, c: Call, ghost queue: seq<nat>)
    returns (p1: int, p2: int)
    requires |call| == |next| && Chain(next, calltodo, queue)
    ensures var k := Find(Pick(call, queue), c); p1 == Before(queue, k) && p2 == At(queue, k)
  {
    p1, p2 := NULL, calltodo;
    ghost var i, calls := 0, Pick(call, queue);
    while p2 != NULL && call[p2] != c
      invariant i <= |queue| && p1 == Before(queue, i) && p2 == At(queue, i)
      invariant FindFrom(calls, 0, c) == FindFrom(calls, i, c)
      decreases |queue| - i
    {
      p1, p2 := p2, next[p2];
      i := i + 1;
    }
    FindFromIsFind(calls, 0, c);
    assert calls[0..] == calls;
  }

  lemma RemoveIndex<T>(s: seq<T>, k: nat, i: nat)
    requires k < |s| && i < |s| - 1
    ensures RemoveAt(s, k)[i] == if i < k then s[i] else s[i + 1]
  {
  }

  lemma RemovedDistinct(queue: seq<nat>, k: nat)
    requires Distinct(queue) && k < |queue|
    ensures Distinct(RemoveAt(queue, k)) && queue[k] !in RemoveAt(queue, k)
  {
    var q := RemoveAt(queue, k);
    forall i, j | 0 <= i < j < |q| ensures q[i] != q[j] {
      RemoveIndex(queue, k, i);
      RemoveIndex(queue, k, j);
    }
    forall i | 0 <= i < |q| ensures q[i] != queue[k] {
      RemoveIndex(queue, k, i);
    }
  }

  /** The queue's links after the entry at position k has been bypassed. */
  lemma LinkedOut(next: seq<int>, queue: seq<nat>, k: nat)
    requires Chain(next, At(queue, 0), queue) && k < |queue|
    ensures var (f, n) := SetNext(At(queue, 0), next, Before(queue, k), next[queue[k]]);
      Chain(n, f, RemoveAt(queue, k))
  {
    var (f, n) := SetNext(At(queue, 0), next, Before(queue, k), next[queue[k]]);
    var q := RemoveAt(queue, k);
    RemovedDistinct(queue, k);
    forall i | 0 <= i < |q| ensures q[i] < |n| && n[q[i]] == At(q, i + 1) {
      LinkedOutAt(next, queue, k, i);
    }
    if q != [] { RemoveIndex(queue, k, 0); }
  }

  lemma LinkedOutAt(next: seq<int>, queue: seq<nat>, k: nat, i: nat)
    requires Chain(next, At(queue, 0), queue) && k < |queue| && i < |queue| - 1
    ensures var (f, n) := SetNext(At(queue, 0), next, Before(queue, k), next[queue[k]]); var q := RemoveAt(queue, k);
      q[i] < |n| && n[q[i]] == At(q, i + 1)
  {
    RemoveIndex(queue, k, i);
    if i + 1 < |queue| - 1 { RemoveIndex(queue, k, i + 1); }
  }

  /** Putting a slot at the head of a list. */
  lemma ChainCons(next: seq<int>, slots: seq<nat>, x: nat)
    requires Chain(next, At(slots, 0), slots) && x < |next| && x !in slots
    ensures Chain(next[x := At(slots, 0)], x, [x] + slots)
  {
    var n, s := next[x := At(slots, 0)], [x] + slots;
    forall i | 0 <= i < |s| ensures s[i] < |n| && n[s[i]] == At(s, i + 1) {
      if i > 0 { assert s[i] == slots[i - 1]; }
    }
  }

  /** Both lists after the entry at position k of the queue has gone to the free list. */
  lemma MovedToFree(next: seq<int>, queue: seq<nat>, free: seq<nat>, k: nat)
    requires Chain(next, At(queue, 0), queue) && Chain(next, At(free, 0), free) && Apart(queue, free)
    requires k < |queue|
    ensures var x := queue[k];
      var (f, m) := SetNext(At(queue, 0), next, Before(queue, k), next[x]);
      var n := m[x := At(free, 0)];
      && Chain(n, f, RemoveAt(queue, k)) && Chain(n, x, [x] + free)
      && Apart(RemoveAt(queue, k), [x] + free)
  {
    var x, q := queue[k], RemoveAt(queue, k);
    var (f, m) := SetNext(At(queue, 0), next, Before(queue, k), next[x]);
    LinkedOut(next, queue, k);
    RemovedDistinct(queue, k);
    OutsideFree(queue, free, k);
    ChainFrame(m, m[x := At(free, 0)], f, q);
    ChainFrame(next, m, At(free, 0), free);
    ChainCons(m, free, x);
  }

  lemma OutsideFree(queue: seq<nat>, free: seq<nat>, k: nat)
    requires Apart(queue, free) && Distinct(queue) && k < |queue|
    ensures queue[k] !in free && Apart(RemoveAt(queue, k), [queue[k]] + free)
  {
    var x, q := queue[k], RemoveAt(queue, k);
    assert forall j :: 0 <= j < |free| ==> queue[k] != free[j];
    forall i, j | 0 <= i < |q| && 0 <= j < |[x] + free| ensures q[i] != ([x] + free)[j] {
      RemoveIndex(queue, k, i);
      if j > 0 { assert ([x] + free)[j] == free[j - 1]; }
    }
  }

  /** Gives the positive difference of slot x to slot p, the one after it. */
  function Credit(time: seq<int>, x: nat, p: int): seq<int>
    requires x < |time| && -1 <= p < |time|
  {
    if p != NULL && time[x] > 0 then time[p := time[p] + time[x]] else time
  }

  lemma CreditedTimes(time: seq<int>, queue: seq<nat>, k: nat)
    requires InRange(queue, |time|) && Distinct(queue) && k < |queue|
    ensures InRange(RemoveAt(queue, k), |time|)
    ensures Pick(Credit(time, queue[k], At(queue, k + 1)), RemoveAt(queue, k)) == Unlinked(Pick(time, queue), k)
  {
    var q, ts, t := RemoveAt(queue, k), Pick(time, queue), Credit(time, queue[k], At(queue, k + 1));
    var l := Unlinked(ts, k);
    forall i | 0 <= i < |q| ensures q[i] < |t| && t[q[i]] == l[i] {
      RemoveIndex(queue, k, i);
      assert l[i] == (if i < k then ts[i] else if i == k then ts[k + 1] + Max(ts[k], 0) else ts[i + 1]);
    }
  }

  lemma RemainingCalls(call: seq<Call>, queue: seq<nat>, k: nat)
    requires InRange(queue, |call|) && k < |queue|
    ensures InRange(RemoveAt(queue, k), |call|)
    ensures Pick(call, RemoveAt(queue, k)) == RemoveAt(Pick(call, queue), k)
  {
  }

  lemma UnlinkedAll(time: seq<int>, call: seq<Call>, next: seq<int>, queue: seq<nat>, free: seq<nat>, k: nat)
    requires |time| == |call| == |next| && k < |queue|
    requires Chain(next, At(queue, 0), queue) && Chain(next, At(free, 0), free) && Apart(queue, free)
    ensures var x, q := queue[k], RemoveAt(queue, k);
      var (f, m) := SetNext(At(queue, 0), next, Before(queue, k), next[x]); var n := m[x := At(free, 0)];
      && next[x] == At(queue, k + 1) && |n| == |next| && -1 <= Before(queue, k) < |next|
      && |Credit(time, x, next[x])| == |time|
      && Chain(n, f, q) && Chain(n, x, [x] + free) && Apart(q, [x] + free)
      && Pick(Credit(time, x, next[x]), q) == Unlinked(Pick(time, queue), k)
      && Pick(call, q) == RemoveAt(Pick(call, queue), k)
  {
    MovedToFree(next, queue, free, k);
    CreditedTimes(time, queue, k);
    RemainingCalls(call, queue, k);
  }

  lemma PoppedAll(time: seq<int>, call: seq<Call>, next: seq<int>, queue: seq<nat>, free: seq<nat>)
    requires |time| == |call| == |next| && queue != []
    requires Chain(next, At(queue, 0), queue) && Chain(next, At(free, 0), free) && Apart(queue, free)
    ensures var x, n := queue[0], next[queue[0] := At(free, 0)];
      && Chain(n, next[x], queue[1..]) && Chain(n, x, [x] + free) && Apart(queue[1..], [x] + free)
      && Pick(time, queue[1..]) == Pick(time, queue)[1..] && Pick(call, queue[1..]) == Pick(call, queue)[1..]
      && Pick(time, queue)[0] == time[x] && Pick(call, queue)[0] == call[x]
  {
    MovedToFree(next, queue, free, 0);
    assert RemoveAt(queue, 0) == queue[1..];
  }

  lemma FirstInRange(slots: seq<nat>, n: nat)
    requires InRange(slots, n)
    ensures slots != [] ==> slots[0] < n
  {
  }

  class Table {
    // c_time, c_func with c_arg, and c_next of every slot
    var time: seq<int>
    var call: seq<Call>
    var next: seq<int>
    var calltodo: int
    var callfree: int
    ghost var queue: seq<nat>
    ghost var free: seq<nat>

    ghost predicate Valid()
      reads this
    {
      && |time| == |call| == |next|
      && Chain(next, calltodo, queue) && Chain(next, callfree, free) && Apart(queue, free)
    }

    ghost function Times(): seq<int>
      requires Valid()
      reads this
    {
      Pick(time, queue)
    }

    ghost function Calls(): seq<Call>
      requires Valid()
      reads this
    {
      Pick(call, queue)
    }

    method Hardclock() returns (needsoft: bool)
      requires Valid()
      modifies this`time
      ensures Valid()
      ensures Times() == Tick(old(Times()))
      ensures needsoft <==> queue != [] && Times()[0] <= 0
    {
      time, needsoft := TickLoop(next, time, calltodo, queue);
    }

    /** timeout(): false when the table is full, which is a panic. */
    method Timeout(c: Call, ticks: int) returns (ok: bool)
      requires Valid()
      modifies this
      ensures ok <==> old(free) != []
      ensures ok ==> Valid() && free == old(free)[1..]
      ensures ok ==> var ts, t := old(Times()), Max(ticks, 1); var k := Position(ts, t);
        && queue == InsertAt(old(queue), k, old(free)[0])
        && Times() == Linked(ts, k, Residue(ts, t)) && Calls() == InsertAt(old(Calls()), k, c)
    {
      hide Chain, Pick, InsertAt, Apart, InRange, SetNext, Store, Linked, Position, Residue;
      ChainHead(next, callfree, free);
      ChainHead(next, calltodo, queue);
      FirstInRange(free, |next|);
      var t := if ticks <= 0 then 1 else ticks;
      var x := callfree;
      if x == NULL {
        return false;
      }
      var p1, p2, r := FindPlace(next, time, calltodo, t, queue);
      ghost var k := Position(Times(), t);
      LinkedAll(time, call, next, queue, free, k, r, c);
      var links := SetNext(calltodo, next, p1, x);
      call, time := call[x := c], Store(time, x, r, p2);
      callfree, calltodo, next := next[x], links.0, links.1[x := p2];
      queue, free := InsertAt(queue, k, free[0]), free[1..];
      return true;
    }

    /** Moves the entry p2 at position k, which follows p1, to the free list. */
    method Unlink(p1: int, p2: int, ghost k: nat)
      requires Valid() && k < |queue| && p1 == Before(queue, k) && p2 == queue[k]
      modifies this
      ensures Valid()
      ensures queue == RemoveAt(old(queue), k) && free == [old(queue)[k]] + old(free)
      ensures Times() == Unlinked(old(Times()), k) && Calls() == RemoveAt(old(Calls()), k)
    {
      ChainHead(next, callfree, free);
      ChainHead(next, calltodo, queue);
      UnlinkedAll(time, call, next, queue, free, k);
      var after := next[p2];
      var links := SetNext(calltodo, next, p1, after);
      time := Credit(time, p2, after);
      calltodo, next, callfree := links.0, links.1[p2 := callfree], p2;
      queue, free := RemoveAt(queue, k), [queue[k]] + free;
    }

    /** untimeout(): the first entry with this call, if any, returns to the free list. */
    method Untimeout(c: Call)
      requires Valid()
      modifies this
      ensures Valid()
      ensures var k := Find(old(Calls()), c);
        if k == |old(queue)| then
          queue == old(queue) && free == old(free) && Times() == old(Times()) && Calls() == old(Calls())
        else && queue == RemoveAt(old(queue), k) && free == [old(queue)[k]] + old(free)
             && Times() == Unlinked(old(Times()), k) && Calls() == RemoveAt(old(Calls()), k)
    {
      var p1, p2 := FindCall(next, call, calltodo, c, queue);
      if p2 != NULL {
        Unlink(p1, p2, Find(Calls(), c));
      }
    }

    /** One turn of softclock: takes the head if it is due and says what to call, with its lateness. */
    method Softclock() returns (due: bool, c: Call, late: int)
      requires Valid()
      modifies this
      ensures Valid()
      ensures due <==> old(queue) != [] && old(Times())[0] <= 0
      ensures !due ==> queue == old(queue) && free == old(free) && Times() == old(Times()) && Calls() == old(Calls())
      ensures due ==> c == old(Calls())[0] && late == old(Times())[0]
      ensures due ==> queue == old(queue)[1..] && free == [old(queue)[0]] + old(free)
      ensures due ==> Times() == old(Times())[1..] && Calls() == old(Calls())[1..]
    {
      ChainHead(next, callfree, free);
      ChainHead(next, calltodo, queue);
      c, late := Call(0, 0), 0;
      var p := calltodo;
      if p == NULL || time[p] > 0 {
        return false, c, late;
      }
      PoppedAll(time, call, next, queue, free);
      c, late := call[p], time[p];
      calltodo := next[p];
      next := next[p := callfree];
      callfree := p;
      queue, free := queue[1..], [queue[0]] + free;
      return true, c, late;
    }
  }
}
