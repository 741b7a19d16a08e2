/**
 * select() against selwakeup().
 *
 * A selecting thread scans its descriptors and leaves its mark on every
 * socket buffer that is not ready; a buffer has room for one mark and a
 * collision bit. Interrupts may make buffers ready at any point between two
 * descriptors, or between the scan and the sleep. Over every run no thread
 * stays asleep while a buffer it asked about is ready.
 */
module Select {

  datatype Option<T> = None | Some(value: T)

  /**
   * A socket buffer: the thread that marked it, SB_COLL, whether it is ready to
   * be read or written, and, for a receive buffer, whether urgent data is about.
   */
  datatype Buf = Buf(sel: Option<nat>, coll: bool, ready: bool, urgent: bool)

  /** What a descriptor bit asks: a buffer, for reading or writing or for an exceptional condition. */
  datatype Interest = Interest(buf: nat, urgent: bool)

  predicate Has(b: Buf, urgent: bool) {
    if urgent then b.urgent else b.ready
  }

  function With(b: Buf, urgent: bool, value: bool): Buf {
    if urgent then b.(urgent := value) else b.(ready := value)
  }

  /** What is asked about is there. */
  predicate IsReady(s: State, x: Interest)
    requires x.buf < |s.bufs|
  {
    Has(s.bufs[x.buf], x.urgent)
  }

  /** A select in the middle of its scan. */
  datatype Scan = Scan(interests: seq<Interest>, next: nat, ncoll: nat, found: bool)

  /**
   * proc gives the process of each thread, ssel the processes with SSEL set,
   * asleep the threads on selwait with what they asked about.
   */
  datatype State = State(proc: seq<nat>, ssel: set<nat>, nselcoll: nat, bufs: seq<Buf>,
                         asleep: map<nat, seq<Interest>>, scanning: map<nat, Scan>)

  datatype Action =
    | Start(thread: nat, interests: seq<Interest>)
    | Check(thread: nat)                          // select of one descriptor
    | Finish(thread: nat, expired: bool)          // after the last descriptor: return, retry or sleep
    | Leave(thread: nat)                          // timeout or signal takes the thread off selwait
    | Arrive(buf: nat, urgent: bool)              // the buffer becomes ready, or has urgent data
    | Notify(buf: nat)                            // sbwakeup with nothing new to see
    | Drain(buf: nat, urgent: bool)               // somebody takes the data
    | Foreign(woken: Option<nat>, coll: bool)    // selwakeup from a driver that is not a socket

  function Proc(s: State, t: nat): nat {
    if t < |s.proc| then s.proc[t] else t
  }

  /** selwakeup: a collision wakes everybody, otherwise one thread is taken off its wait. */
  function SelWakeup(s: State, p: Option<nat>, coll: bool): State {
    var s1 := if coll then s.(nselcoll := s.nselcoll + 1, asleep := map[]) else s;
    if p.Some? then s1.(asleep := s1.asleep - {p.value}, ssel := s1.ssel - {Proc(s, p.value)}) else s1
  }

  /** sbselqueue on behalf of thread t. */
  function SbSelQueue(s: State, t: nat, b: nat): State
    requires b < |s.bufs|
  {
    if s.bufs[b].sel.Some? && s.bufs[b].sel.value in s.asleep then
      s.(bufs := s.bufs[b := s.bufs[b].(coll := true)])
    else
      s.(bufs := s.bufs[b := s.bufs[b].(sel := Some(t))])
  }

  /** The select half of sbwakeup. */
  function SbWakeup(s: State, b: nat): State
    requires b < |s.bufs|
  {
    if s.bufs[b].sel.Some? then
      var s1 := SelWakeup(s, s.bufs[b].sel, s.bufs[b].coll);
      s1.(bufs := s1.bufs[b := s1.bufs[b].(sel := None, coll := false)])
    else s
  }

  function SetReady(s: State, b: nat, urgent: bool, ready: bool): State
    requires b < |s.bufs|
  {
    s.(bufs := s.bufs[b := With(s.bufs[b], urgent, ready)])
  }

  function BeginScan(s: State, t: nat, interests: seq<Interest>): State {
    s.(ssel := s.ssel + {Proc(s, t)}, scanning := s.scanning[t := Scan(interests, 0, s.nselcoll, false)])
  }

  function CheckNext(s: State, t: nat): State
    requires t in s.scanning && s.scanning[t].next < |s.scanning[t].interests|
    requires s.scanning[t].interests[s.scanning[t].next].buf < |s.bufs|
  {
    var c := s.scanning[t];
    var x := c.interests[c.next];
    if IsReady(s, x) then s.(scanning := s.scanning[t := c.(next := c.next + 1, found := true)])
    else SbSelQueue(s, t, x.buf).(scanning := s.scanning[t := c.(next := c.next + 1)])
  }

  function FinishScan(s: State, t: nat, expired: bool): State
    requires t in s.scanning
  {
    var c := s.scanning[t];
    if c.found || expired then s.(scanning := s.scanning - {t})
    else if Proc(s, t) !in s.ssel || s.nselcoll != c.ncoll then BeginScan(s, t, c.interests)
    else s.(ssel := s.ssel - {Proc(s, t)}, scanning := s.scanning - {t}, asleep := s.asleep[t := c.interests])
  }

  /**
   * When may an action happen? `exclusive` is the uniprocessor rule: while a
   * scan is under way only interrupts come in between.
   */
  predicate Enabled(s: State, a: Action, exclusive: bool) {
    match a
    case Start(t, interests) =>
      && t !in s.asleep && t !in s.scanning && (exclusive ==> s.scanning == map[])
      && (forall i :: 0 <= i < |interests| ==> interests[i].buf < |s.bufs|)
    case Check(t) =>
      && t in s.scanning && s.scanning[t].next < |s.scanning[t].interests|
      && s.scanning[t].interests[s.scanning[t].next].buf < |s.bufs|
    case Finish(t, expired) => t in s.scanning && s.scanning[t].next == |s.scanning[t].interests|
    case Leave(t) => t in s.asleep
    case Arrive(b, urgent) => b < |s.bufs|
    case Notify(b) => b < |s.bufs|
    case Drain(b, urgent) => b < |s.bufs|
    case Foreign(p, coll) => true
  }

  function Step(s: State, a: Action, exclusive: bool): State
    requires Enabled(s, a, exclusive)
  {
    match a
    case Start(t, interests) => BeginScan(s, t, interests)
    case Check(t) => CheckNext(s, t)
    case Finish(t, expired) => FinishScan(s, t, expired)
    case Leave(t) => s.(asleep := s.asleep - {t})
    case Arrive(b, urgent) => SbWakeup(SetReady(s, b, urgent, true), b)
    case Notify(b) => SbWakeup(s, b)
    case Drain(b, urgent) => SetReady(s, b, urgent, false)
    case Foreign(p, coll) => SelWakeup(s, p, coll)
  }

  /** At the start nobody selects; marks left by threads that have gone do no harm. */
  predicate Initial(s: State) {
    s.asleep == map[] && s.scanning == map[]
  }

  function Run(init: State, actions: seq<Action>, exclusive: bool): State {
    if actions == [] then init
    else
      var s, a := Run(init, actions[..|actions| - 1], exclusive), actions[|actions| - 1];
      if Enabled(s, a, exclusive) then Step(s, a, exclusive) else s
  }

  // ----- The invariant -----

  /** A wakeup of buffer b will reach thread t. */
  predicate Reaches(s: State, x: Interest, t: nat) {
    && x.buf < |s.bufs| && !IsReady(s, x)
    && s.bufs[x.buf].sel.Some? && (s.bufs[x.buf].coll || s.bufs[x.buf].sel.value == t)
  }

  ghost predicate AllReach(s: State, interests: seq<Interest>, n: nat, t: nat)
    requires n <= |interests|
  {
    forall i :: 0 <= i < n ==> Reaches(s, interests[i], t)
  }

  ghost predicate SleepersSafe(s: State) {
    forall t :: t in s.asleep ==> AllReach(s, s.asleep[t], |s.asleep[t]|, t)
  }

  /** The scan has already lost: it found something, or the final test will send it round again. */
  predicate Retries(s: State, t: nat)
    requires t in s.scanning
  {
    s.scanning[t].found || Proc(s, t) !in s.ssel || s.scanning[t].ncoll < s.nselcoll
  }

  ghost predicate ScannerSafe(s: State, t: nat)
    requires t in s.scanning
  {
    var c := s.scanning[t];
    && t !in s.asleep && c.ncoll <= s.nselcoll && c.next <= |c.interests|
    && (forall i :: 0 <= i < |c.interests| ==> c.interests[i].buf < |s.bufs|)
    && (Retries(s, t) || AllReach(s, c.interests, c.next, t))
  }

  ghost predicate Safe(s: State) {
    && SleepersSafe(s)
    && (forall t :: t in s.scanning ==> ScannerSafe(s, t))
    && (forall t, u :: t in s.scanning && u in s.scanning ==> t == u)
  }

  /**
   * A buffer whose mark reaches t is still marked for t after any wakeup, unless t itself was woken
   * or told to retry.
   */
  lemma WakeupKeeps(s: State, b: nat, t: nat, x: Interest)
    requires b < |s.bufs| && Reaches(s, x, t)
    ensures var s1 := SbWakeup(s, b);
      Reaches(s1, x, t) || (t !in s1.asleep && (Proc(s, t) !in s1.ssel || s1.nselcoll > s.nselcoll))
  {
  }

  lemma WakeupGrows(s: State, b: nat)
    requires b < |s.bufs|
    ensures var s1 := SbWakeup(s, b);
      && s1.nselcoll >= s.nselcoll && s1.ssel <= s.ssel && s1.asleep.Keys <= s.asleep.Keys && s1.proc == s.proc
      && (forall t :: t in s1.asleep ==> s1.asleep[t] == s.asleep[t])
      && s1.scanning == s.scanning && |s1.bufs| == |s.bufs|
  {
  }

  lemma NotifyKeeps(s: State, b: nat)
    requires Safe(s) && b < |s.bufs|
    ensures Safe(SbWakeup(s, b))
  {
    hide SbWakeup, Reaches;
    var s1 := SbWakeup(s, b);
    WakeupGrows(s, b);
    forall t | t in s1.asleep
      ensures AllReach(s1, s1.asleep[t], |s1.asleep[t]|, t)
    {
      forall i | 0 <= i < |s1.asleep[t]|
        ensures Reaches(s1, s1.asleep[t][i], t)
      {
        assert AllReach(s, s.asleep[t], |s.asleep[t]|, t);
        WakeupKeeps(s, b, t, s.asleep[t][i]);
      }
    }
    forall t | t in s1.scanning
      ensures ScannerSafe(s1, t)
    {
      assert ScannerSafe(s, t);
      var c := s.scanning[t];
      if !Retries(s1, t) {
        forall i | 0 <= i < c.next
          ensures Reaches(s1, c.interests[i], t)
        {
          WakeupKeeps(s, b, t, c.interests[i]);
        }
      }
    }
  }

  /** After a wakeup of b nobody's mark is on b: whoever was asleep for it is awake. */
  lemma WakeupEmpties(s: State, x: Interest, t: nat)
    requires x.buf < |s.bufs| && Reaches(s, x, t)
    ensures t !in SbWakeup(s, x.buf).asleep
  {
  }

  /** A change of one buffer that keeps every mark it can. */
  lemma ReadyKeeps(s: State, b: nat, urgent: bool, ready: bool)
    requires Safe(s) && b < |s.bufs| && (ready ==> s.bufs[b].sel.None?)
    ensures Safe(SetReady(s, b, urgent, ready))
  {
    hide Reaches;
    var s1 := SetReady(s, b, urgent, ready);
    forall x: Interest, t: nat | Reaches(s, x, t)
      ensures Reaches(s1, x, t)
    {
      ReadyKeepsReach(s, b, urgent, ready, x, t);
    }
    forall t | t in s1.scanning
      ensures ScannerSafe(s1, t)
    {
      assert ScannerSafe(s, t);
    }
  }

  lemma ReadyKeepsReach(s: State, b: nat, urgent: bool, ready: bool, x: Interest, t: nat)
    requires b < |s.bufs| && (ready ==> s.bufs[b].sel.None?) && Reaches(s, x, t)
    ensures Reaches(SetReady(s, b, urgent, ready), x, t)
  {
  }

  lemma ArriveIsWakeThenReady(s: State, b: nat, urgent: bool)
    requires b < |s.bufs|
    ensures SbWakeup(SetReady(s, b, urgent, true), b) == SetReady(SbWakeup(s, b), b, urgent, true)
    ensures SbWakeup(s, b).bufs[b].sel.None?
  {
  }

  lemma ForeignKeeps(s: State, p: Option<nat>, coll: bool)
    requires Safe(s)
    ensures Safe(SelWakeup(s, p, coll))
  {
    hide AllReach;
    var s1 := SelWakeup(s, p, coll);
    forall t | t in s1.asleep
      ensures AllReach(s1, s1.asleep[t], |s1.asleep[t]|, t)
    {
      SameBufs(s, s1, s.asleep[t], |s.asleep[t]|, t);
    }
    forall t | t in s1.scanning
      ensures ScannerSafe(s1, t)
    {
      assert ScannerSafe(s, t);
      if !Retries(s1, t) {
        SameBufs(s, s1, s.scanning[t].interests, s.scanning[t].next, t);
      }
    }
  }

  lemma SameBufs(s: State, s1: State, interests: seq<Interest>, n: nat, t: nat)
    requires s.bufs == s1.bufs && n <= |interests| && AllReach(s, interests, n, t)
    ensures AllReach(s1, interests, n, t)
  {
    forall i | 0 <= i < n
      ensures Reaches(s1, interests[i], t)
    {
      assert Reaches(s, interests[i], t);
    }
  }

  /** Marking a buffer takes no mark away from a sleeping thread, and makes its wakeup reach the marker. */
  lemma QueueKeeps(s: State, t: nat, b: nat, x: Interest, u: nat)
    requires b < |s.bufs|
    requires Reaches(s, x, u) && (u in s.asleep || u == t)
    ensures Reaches(SbSelQueue(s, t, b), x, u)
  {
  }

  lemma QueueReaches(s: State, t: nat, x: Interest)
    requires x.buf < |s.bufs| && !IsReady(s, x)
    ensures Reaches(SbSelQueue(s, t, x.buf), x, t)
  {
  }

  lemma CheckKeeps(s: State, t: nat)
    requires Safe(s) && Enabled(s, Check(t), true)
    ensures Safe(CheckNext(s, t))
  {
    hide Reaches;
    var s1 := CheckNext(s, t);
    var c := s.scanning[t];
    assert ScannerSafe(s, t);
    if IsReady(s, c.interests[c.next]) {
      assert s1.bufs == s.bufs;
      forall u | u in s1.asleep
        ensures AllReach(s1, s1.asleep[u], |s1.asleep[u]|, u)
      {
        SameBufs(s, s1, s.asleep[u], |s.asleep[u]|, u);
      }
      assert ScannerSafe(s1, t);
    } else {
      MarkKeeps(s, t);
    }
  }

  lemma MarkKeeps(s: State, t: nat)
    requires Safe(s) && Enabled(s, Check(t), true)
    requires var c := s.scanning[t]; !IsReady(s, c.interests[c.next])
    ensures Safe(CheckNext(s, t))
  {
    hide Reaches;
    var s1 := CheckNext(s, t);
    var c := s.scanning[t];
    var b := c.interests[c.next].buf;
    var q := SbSelQueue(s, t, b);
    assert ScannerSafe(s, t);
    forall u | u in s1.asleep
      ensures AllReach(s1, s1.asleep[u], |s1.asleep[u]|, u)
    {
      forall i | 0 <= i < |s.asleep[u]|
        ensures Reaches(s1, s.asleep[u][i], u)
      {
        assert AllReach(s, s.asleep[u], |s.asleep[u]|, u);
        QueueKeeps(s, t, b, s.asleep[u][i], u);
        SameReach(q, s1, s.asleep[u][i], u);
      }
    }
    if !Retries(s1, t) {
      forall i | 0 <= i < c.next + 1
        ensures Reaches(s1, c.interests[i], t)
      {
        if i < c.next {
          QueueKeeps(s, t, b, c.interests[i], t);
        } else {
          QueueReaches(s, t, c.interests[i]);
        }
        SameReach(q, s1, c.interests[i], t);
      }
    }
    assert ScannerSafe(s1, t);
  }

  lemma SameReach(s: State, s1: State, x: Interest, t: nat)
    requires s.bufs == s1.bufs && Reaches(s, x, t)
    ensures Reaches(s1, x, t)
  {
  }

  lemma FinishKeeps(s: State, t: nat, expired: bool)
    requires Safe(s) && Enabled(s, Finish(t, expired), true)
    ensures Safe(FinishScan(s, t, expired))
  {
    hide AllReach;
    var s1 := FinishScan(s, t, expired);
    assert ScannerSafe(s, t);
    forall u | u in s1.asleep
      ensures AllReach(s1, s1.asleep[u], |s1.asleep[u]|, u)
    {
      if u == t {
        SameBufs(s, s1, s.scanning[t].interests, s.scanning[t].next, t);
      } else {
        SameBufs(s, s1, s.asleep[u], |s.asleep[u]|, u);
      }
    }
    NothingYet(s1, s.scanning[t].interests, t);
  }

  lemma NothingYet(s: State, interests: seq<Interest>, t: nat)
    ensures AllReach(s, interests, 0, t)
  {
  }

  lemma StartKeeps(s: State, t: nat, interests: seq<Interest>)
    requires Safe(s) && Enabled(s, Start(t, interests), true)
    ensures Safe(BeginScan(s, t, interests))
  {
    hide AllReach;
    var s1 := BeginScan(s, t, interests);
    forall u | u in s1.asleep
      ensures AllReach(s1, s1.asleep[u], |s1.asleep[u]|, u)
    {
      SameBufs(s, s1, s.asleep[u], |s.asleep[u]|, u);
    }
    NothingYet(s1, interests, t);
  }

  lemma LeaveKeeps(s: State, t: nat)
    requires Safe(s)
    ensures Safe(s.(asleep := s.asleep - {t}))
  {
    hide AllReach;
    var s1 := s.(asleep := s.asleep - {t});
    forall u | u in s1.asleep
      ensures AllReach(s1, s1.asleep[u], |s1.asleep[u]|, u)
    {
      SameBufs(s, s1, s.asleep[u], |s.asleep[u]|, u);
    }
    forall u | u in s1.scanning
      ensures ScannerSafe(s1, u)
    {
      assert ScannerSafe(s, u);
      if !Retries(s1, u) {
        SameBufs(s, s1, s.scanning[u].interests, s.scanning[u].next, u);
      }
    }
  }

  lemma StepKeeps(s: State, a: Action)
    requires Safe(s) && Enabled(s, a, true)
    ensures Safe(Step(s, a, true))
  {
    hide Safe, SelWakeup, SbWakeup, BeginScan, CheckNext, FinishScan, SetReady;
    match a
    case Start(t, interests) => StartKeeps(s, t, interests);
    case Check(t) => CheckKeeps(s, t);
    case Finish(t, expired) => FinishKeeps(s, t, expired);
    case Leave(t) => LeaveKeeps(s, t);
    case Arrive(b, urgent) =>
      NotifyKeeps(s, b);
      WakeupGrows(s, b);
      ArriveIsWakeThenReady(s, b, urgent);
      ReadyKeeps(SbWakeup(s, b), b, urgent, true);
    case Notify(b) => NotifyKeeps(s, b);
    case Drain(b, urgent) => ReadyKeeps(s, b, urgent, false);
    case Foreign(p, coll) => ForeignKeeps(s, p, coll);
  }

  lemma {:induction false} EveryRunIsSafe(init: State, actions: seq<Action>)
    requires Initial(init)
    ensures Safe(Run(init, actions, true))
  {
    if actions != [] {
      var s, a := Run(init, actions[..|actions| - 1], true), actions[|actions| - 1];
      EveryRunIsSafe(init, actions[..|actions| - 1]);
      if Enabled(s, a, true) {
        StepKeeps(s, a);
      }
    }
  }

  /**
   * No wakeup is lost: in every reachable state no thread is asleep on
   * selwait while a buffer it asked about is ready, and the next wakeup of
   * any such buffer takes it off its wait.
   */
  lemma NoWakeupIsLost(init: State, actions: seq<Action>, t: nat, i: nat)
    requires Initial(init)
    requires var s := Run(init, actions, true); t in s.asleep && i < |s.asleep[t]|
    ensures var s := Run(init, actions, true);
      var x := s.asleep[t][i];
      && x.buf < |s.bufs| && !IsReady(s, x)
      && (s.bufs[x.buf].sel == Some(t) || (s.bufs[x.buf].coll && s.bufs[x.buf].sel.Some?))
      && t !in Step(s, Arrive(x.buf, x.urgent), true).asleep
  {
    hide Run;
    var s := Run(init, actions, true);
    EveryRunIsSafe(init, actions);
    assert AllReach(s, s.asleep[t], |s.asleep[t]|, t);
    var x := s.asleep[t][i];
    assert Reaches(s, x, t);
    WakeupEmpties(s, x, t);
    ArriveIsWakeThenReady(s, x.buf, x.urgent);
  }

  /** A buffer that became ready after the scan had passed it keeps the thread from sleeping. */
  lemma ReadyMeansRetry(init: State, actions: seq<Action>, t: nat, i: nat)
    requires Initial(init)
    requires var s := Run(init, actions, true);
      && Enabled(s, Finish(t, false), true) && i < |s.scanning[t].interests|
      && s.scanning[t].interests[i].buf < |s.bufs| && IsReady(s, s.scanning[t].interests[i])
    ensures var s := Run(init, actions, true);
      var s1 := Step(s, Finish(t, false), true);
      t !in s1.asleep && (s.scanning[t].found || (t in s1.scanning && s1.scanning[t].next == 0))
  {
    hide Run;
    var s := Run(init, actions, true);
    EveryRunIsSafe(init, actions);
    if !Retries(s, t) {
      PassedIsNotReady(s, t, i);
    }
  }

  lemma PassedIsNotReady(s: State, t: nat, i: nat)
    requires Safe(s) && t in s.scanning && !Retries(s, t)
    requires i < s.scanning[t].next <= |s.scanning[t].interests|
    ensures s.scanning[t].interests[i].buf < |s.bufs| && !IsReady(s, s.scanning[t].interests[i])
  {
    assert ScannerSafe(s, t);
    assert Reaches(s, s.scanning[t].interests[i], t);
  }

  /** selwakeup without a collision wakes the one thread; with one it wakes all and is counted. */
  lemma WakeupMeans(s: State, p: Option<nat>, coll: bool, t: nat)
    ensures var s1 := SelWakeup(s, p, coll);
      && (t in s1.asleep <==> t in s.asleep && !coll && p != Some(t))
      && (t in s1.asleep ==> s1.asleep[t] == s.asleep[t])
      && s1.nselcoll == (if coll then s.nselcoll + 1 else s.nselcoll)
      && s1.ssel == (if p.Some? then s.ssel - {Proc(s, p.value)} else s.ssel)
      && s1.bufs == s.bufs && s1.scanning == s.scanning && s1.proc == s.proc
  {
  }

  /** Data that arrives is there, is announced to whoever left a mark, and takes the mark away. */
  lemma ArriveMeans(s: State, b: nat, urgent: bool, t: nat)
    requires b < |s.bufs|
    ensures var s1, before := Step(s, Arrive(b, urgent), true), s.bufs[b];
      && s1.bufs == s.bufs[b := s1.bufs[b]] && s1.scanning == s.scanning && s1.proc == s.proc
      && Has(s1.bufs[b], urgent) && Has(s1.bufs[b], !urgent) == Has(before, !urgent) && s1.bufs[b].sel.None?
      && (t in s1.asleep <==> t in s.asleep && (before.sel.None? || (!before.coll && before.sel != Some(t))))
      && (t in s1.asleep ==> s1.asleep[t] == s.asleep[t])
  {
    WakeupMeans(s, s.bufs[b].sel, s.bufs[b].coll, t);
  }

  /** A wakeup with nothing new to see does the same to threads and marks. */
  lemma NotifyMeans(s: State, b: nat, t: nat)
    requires b < |s.bufs|
    ensures var s1, before := Step(s, Notify(b), true), s.bufs[b];
      && s1.bufs == s.bufs[b := before.(sel := None, coll := if before.sel.Some? then false else before.coll)]
      && s1.scanning == s.scanning && s1.proc == s.proc
      && (t in s1.asleep <==> t in s.asleep && (before.sel.None? || (!before.coll && before.sel != Some(t))))
  {
    WakeupMeans(s, s.bufs[b].sel, s.bufs[b].coll, t);
  }

  /** Data that is taken is gone, and nobody is told; a timeout or signal takes off its wait just the one thread. */
  lemma DrainAndLeaveMean(s: State, a: Action)
    requires Enabled(s, a, true) && (a.Drain? || a.Leave?)
    ensures var s1 := Step(s, a, true);
      && s1.ssel == s.ssel && s1.nselcoll == s.nselcoll && s1.scanning == s.scanning && s1.proc == s.proc
      && (a.Drain? ==>
           && s1.asleep == s.asleep && s1.bufs == s.bufs[a.buf := s1.bufs[a.buf]]
           && !Has(s1.bufs[a.buf], a.urgent) && Has(s1.bufs[a.buf], !a.urgent) == Has(s.bufs[a.buf], !a.urgent)
           && s1.bufs[a.buf].sel == s.bufs[a.buf].sel && s1.bufs[a.buf].coll == s.bufs[a.buf].coll)
      && (a.Leave? ==> s1.bufs == s.bufs && s1.asleep == s.asleep - {a.thread})
  {
  }

  /**
   * How a scan ends. A select that found something or whose time is up is over,
   * and nothing else changes. Otherwise the thread goes round again if SSEL is
   * gone or a collision was counted, and sleeps if not.
   */
  lemma FinishMeans(init: State, actions: seq<Action>, t: nat, expired: bool)
    requires Initial(init) && Enabled(Run(init, actions, true), Finish(t, expired), true)
    ensures var s := Run(init, actions, true);
      var s1, c := Step(s, Finish(t, expired), true), s.scanning[t];
      && t !in s.asleep && s1.bufs == s.bufs && s1.nselcoll == s.nselcoll && s1.proc == s.proc
      && (c.found || expired ==>
           t !in s1.asleep && s1.asleep == s.asleep && s1.scanning == map[] && s1.ssel == s.ssel)
      && (!c.found && !expired && (Proc(s, t) !in s.ssel || s.nselcoll != c.ncoll) ==>
           && s1.asleep == s.asleep && Proc(s, t) in s1.ssel
           && s1.scanning == map[t := Scan(c.interests, 0, s.nselcoll, false)])
      && (!c.found && !expired && Proc(s, t) in s.ssel && s.nselcoll == c.ncoll ==>
           s1.asleep == s.asleep[t := c.interests] && s1.scanning == map[] && Proc(s, t) !in s1.ssel)
  {
    hide Run;
    var s := Run(init, actions, true);
    EveryRunIsSafe(init, actions);
    assert ScannerSafe(s, t);
    OnlyScanner(s, t);
  }

  lemma OnlyScanner(s: State, t: nat)
    requires Safe(s) && t in s.scanning
    ensures s.scanning == map[t := s.scanning[t]]
  {
    assert s.scanning.Keys == {t};
  }

  /** Two threads, two processes, one buffer. */
  const READ := Interest(0, false)
  const TWO := State([0, 1], {}, 0, [Buf(None, false, false, false)], map[], map[])
  const OVERLAP := [Start(0, [READ]), Start(1, [READ]), Check(0), Check(1),
                    Finish(0, false), Finish(1, false), Arrive(0, false)]

  /** Both threads have looked at the buffer: the second one's mark has replaced the first one's. */
  const BOTH_SCANNED := State([0, 1], {0, 1}, 0, [Buf(Some(1), false, false, false)], map[],
                              map[0 := Scan([READ], 1, 0, false), 1 := Scan([READ], 1, 0, false)])

  /**
   * The rule that only interrupts come between scan and sleep is needed: if a
   * second thread scans in between, its mark replaces the first thread's,
   * which then sleeps through the arrival.
   */
  lemma OverlappingScansLoseOne()
    ensures var s := Run(TWO, OVERLAP, false);
      0 in s.asleep && s.asleep[0] == [READ] && |s.bufs| == 1 && s.bufs[0].ready
  {
    hide Run;
    BothScanned();
    BothSleep();
    RunNext(TWO, OVERLAP, 6, false);
    assert OVERLAP[..7] == OVERLAP;
  }

  lemma RunNext(init: State, actions: seq<Action>, n: nat, exclusive: bool)
    requires n < |actions|
    ensures var s := Run(init, actions[..n], exclusive);
      Run(init, actions[..n + 1], exclusive)
        == if Enabled(s, actions[n], exclusive) then Step(s, actions[n], exclusive) else s
  {
    hide Enabled, Step;
    assert actions[..n + 1][..n] == actions[..n];
  }

  lemma BothScanned()
    ensures Run(TWO, OVERLAP[..4], false) == BOTH_SCANNED
  {
    hide Run;
    BothStarted();
    RunNext(TWO, OVERLAP, 2, false);
    RunNext(TWO, OVERLAP, 3, false);
  }

  lemma BothStarted()
    ensures Run(TWO, OVERLAP[..2], false) == State([0, 1], {0, 1}, 0, TWO.bufs, map[],
      map[0 := Scan([READ], 0, 0, false), 1 := Scan([READ], 0, 0, false)])
  {
    hide Run;
    assert Run(TWO, OVERLAP[..0], false) == TWO by { RunNone(TWO); }
    RunNext(TWO, OVERLAP, 0, false);
    RunNext(TWO, OVERLAP, 1, false);
  }

  lemma BothSleep()
    requires Run(TWO, OVERLAP[..4], false) == BOTH_SCANNED
    ensures var s := Run(TWO, OVERLAP[..6], false);
      s.bufs == BOTH_SCANNED.bufs && s.asleep == map[0 := [READ], 1 := [READ]]
  {
    hide Run;
    RunNext(TWO, OVERLAP, 4, false);
    RunNext(TWO, OVERLAP, 5, false);
  }

  /** What may happen between two instructions of a scan. */
  predicate Interrupt(a: Action) {
    a.Leave? || a.Arrive? || a.Notify? || a.Drain? || a.Foreign?
  }

  /** The bit for the i-th descriptor says whether its buffer was ready when it was looked at. */
  predicate SawReady(s: State, interests: seq<Interest>, i: nat, bit: bool)
    requires i < |interests|
  {
    interests[i].buf < |s.bufs| && bit == IsReady(s, interests[i])
  }

  ghost predicate Interrupts(world: seq<seq<Action>>) {
    forall i, j :: 0 <= i < |world| && 0 <= j < |world[i]| ==> Interrupt(world[i][j])
  }

  // ----- One call of select as a run: `world` gives the interrupts of each moment -----

  function Drop(world: seq<seq<Action>>, n: nat): seq<seq<Action>> {
    if n <= |world| then world[n..] else []
  }

  function First(world: seq<seq<Action>>): seq<Action> {
    if world == [] then [] else world[0]
  }

  /** The first n descriptors looked at, with the interrupts of one moment before each. */
  function Scanned(t: nat, world: seq<seq<Action>>, n: nat): seq<Action> {
    if n == 0 then [] else Scanned(t, world, n - 1) + First(Drop(world, n - 1)) + [Check(t)]
  }

  /** All that happens in a scan before descriptor i is looked at. */
  function Looking(t: nat, world: seq<seq<Action>>, i: nat): seq<Action> {
    Scanned(t, world, i) + First(Drop(world, i))
  }

  /** The moments left for round r, each round taking one for every descriptor and one before the sleep. */
  function Rest(world: seq<seq<Action>>, n: nat, r: nat): seq<seq<Action>> {
    if r == 0 then world else Drop(Rest(world, n, r - 1), n + 1)
  }

  /** The state in which round r of a select of n descriptors begins, s being that of round 0. */
  function RoundStart(s: State, t: nat, n: nat, world: seq<seq<Action>>, r: nat): State {
    if r == 0 then s
    else Run(RoundStart(s, t, n, world, r - 1), Looking(t, Rest(world, n, r - 1), n) + [Finish(t, false)], true)
  }

  /** The state in which round r looks at descriptor i. */
  function LooksAt(s: State, t: nat, n: nat, world: seq<seq<Action>>, r: nat, i: nat): State {
    Run(RoundStart(s, t, n, world, r), Looking(t, Rest(world, n, r), i), true)
  }

  /** The state in which the call ends after round r: asleep, or with what it found. */
  function SelectEnd(s: State, t: nat, n: nat, world: seq<seq<Action>>, r: nat, slept: bool): State {
    if slept then RoundStart(s, t, n, world, r + 1)
    else Run(RoundStart(s, t, n, world, r), Scanned(t, Rest(world, n, r), n) + [Finish(t, false)], true)
  }

  /** What round r sees of each descriptor. */
  ghost predicate Sees(s: State, t: nat, interests: seq<Interest>, world: seq<seq<Action>>, r: nat, bits: seq<bool>) {
    && |bits| == |interests|
    && (forall i :: 0 <= i < |interests| ==>
      SawReady(LooksAt(s, t, |interests|, world, r, i), interests, i, bits[i]))
  }

  ghost predicate SeesNothing(s: State, t: nat, interests: seq<Interest>, world: seq<seq<Action>>, r: nat) {
    Sees(s, t, interests, world, r, seq(|interests|, i => false))
  }

  lemma {:induction false} RunThen(s: State, a: seq<Action>, b: seq<Action>)
    ensures Run(Run(s, a, true), b, true) == Run(s, a + b, true)
    decreases |b|
  {
    hide Enabled, Step;
    if b == [] {
      assert a + b == a;
    } else {
      assert (a + b)[..|a + b| - 1] == a + b[..|b| - 1];
      RunThen(s, a, b[..|b| - 1]);
    }
  }

  lemma RunOne(s: State, a: Action)
    ensures Run(s, [a], true) == if Enabled(s, a, true) then Step(s, a, true) else s
  {
    hide Enabled, Step;
    assert [a][..0] == [];
  }

  lemma RunNone(s: State)
    ensures forall exclusive :: Run(s, [], exclusive) == s
  {
  }

  lemma ToLook(s: State, t: nat, world: seq<seq<Action>>, i: nat)
    ensures Run(Run(s, Scanned(t, world, i), true), First(Drop(world, i)), true) == Run(s, Looking(t, world, i), true)
  {
    hide Run;
    RunThen(s, Scanned(t, world, i), First(Drop(world, i)));
  }

  lemma LookThenCheck(s: State, t: nat, world: seq<seq<Action>>, i: nat)
    requires Enabled(Run(s, Looking(t, world, i), true), Check(t), true)
    ensures Run(s, Scanned(t, world, i + 1), true) == CheckNext(Run(s, Looking(t, world, i), true), t)
  {
    hide Run, CheckNext;
    RunThen(s, Looking(t, world, i), [Check(t)]);
    RunOne(Run(s, Looking(t, world, i), true), Check(t));
  }

  lemma DropMore(world: seq<seq<Action>>, n: nat)
    ensures Drop(Drop(world, n), 1) == Drop(world, n + 1)
  {
  }

  /** A round that neither finds anything nor ends in sleep leads to the next one. */
  lemma ToNextRound(s: State, t: nat, n: nat, world: seq<seq<Action>>, r: nat, last: State)
    requires last == Run(RoundStart(s, t, n, world, r), Looking(t, Rest(world, n, r), n), true)
    requires Enabled(last, Finish(t, false), true)
    ensures RoundStart(s, t, n, world, r + 1) == FinishScan(last, t, false)
    ensures Rest(world, n, r + 1) == Drop(Drop(Rest(world, n, r), n), 1)
  {
    hide Run, FinishScan, Looking;
    RunThen(RoundStart(s, t, n, world, r), Looking(t, Rest(world, n, r), n), [Finish(t, false)]);
    RunOne(last, Finish(t, false));
    DropMore(Rest(world, n, r), n);
  }

  /** The kernel's select state, changed in place. */
  class Kernel {
    const proc: seq<nat>
    var ssel: set<nat>
    var nselcoll: nat
    var bufs: seq<Buf>
    var asleep: map<nat, seq<Interest>>
    ghost var scanning: map<nat, Scan>

    constructor (proc: seq<nat>, bufs: seq<Buf>)
      ensures View() == State(proc, {}, 0, bufs, map[], map[])
    {
      this.proc, this.bufs := proc, bufs;
      ssel, nselcoll, asleep, scanning := {}, 0, map[], map[];
    }

    ghost function View(): State
      reads this
    {
      State(proc, ssel, nselcoll, bufs, asleep, scanning)
    }

    function ProcOf(t: nat): nat {
      if t < |proc| then proc[t] else t
    }

    method WakeSelector(p: Option<nat>, coll: bool)
      modifies this
      ensures View() == SelWakeup(old(View()), p, coll)
    {
      if coll {
        nselcoll := nselcoll + 1;
        asleep := map[];
      }
      if p.Some? {
        asleep := asleep - {p.value};
        ssel := ssel - {ProcOf(p.value)};
      }
    }

    method QueueSelector(t: nat, b: nat)
      requires b < |bufs|
      modifies this
      ensures View() == SbSelQueue(old(View()), t, b)
    {
      if bufs[b].sel.Some? && bufs[b].sel.value in asleep {
        bufs := bufs[b := bufs[b].(coll := true)];
      } else {
        bufs := bufs[b := bufs[b].(sel := Some(t))];
      }
    }

    method WakeBuffer(b: nat)
      requires b < |bufs|
      modifies this
      ensures View() == SbWakeup(old(View()), b)
    {
      if bufs[b].sel.Some? {
        WakeSelector(bufs[b].sel, bufs[b].coll);
        bufs := bufs[b := bufs[b].(sel := None, coll := false)];
      }
    }

    /** An interrupt, or a timeout or signal for a sleeping thread. */
    method Interrupted(a: Action)
      requires Interrupt(a)
      modifies this
      ensures View() == if Enabled(old(View()), a, true) then Step(old(View()), a, true) else old(View())
    {
      match a {
        case Leave(t) => asleep := asleep - {t};
        case Arrive(b, urgent) =>
          if b < |bufs| {
            bufs := bufs[b := With(bufs[b], urgent, true)];
            WakeBuffer(b);
          }
        case Notify(b) =>
          if b < |bufs| {
            WakeBuffer(b);
          }
        case Drain(b, urgent) =>
          if b < |bufs| {
            bufs := bufs[b := With(bufs[b], urgent, false)];
          }
        case Foreign(p, coll) => WakeSelector(p, coll);
        case _ =>
      }
    }

    /** The interrupts of one moment. */
    method Moment(world: seq<seq<Action>>) returns (rest: seq<seq<Action>>)
      requires Interrupts(world)
      requires Safe(View())
      modifies this
      ensures View() == Run(old(View()), First(world), true) && rest == Drop(world, 1)
      ensures Safe(View()) && scanning == old(scanning) && nselcoll >= old(nselcoll)
      ensures world == [] ==> View() == old(View())
    {
      hide Safe, Enabled, Step, Run;
      RunNone(View());
      if world == [] {
        return [];
      }
      var i := 0;
      assert world[0][..0] == [];
      while i < |world[0]|
        invariant 0 <= i <= |world[0]| && View() == Run(old(View()), world[0][..i], true)
        invariant Safe(View()) && scanning == old(scanning) && nselcoll >= old(nselcoll)
      {
        ghost var s := View();
        Interrupted(world[0][i]);
        InterruptFrame(s, world[0][i]);
        RunOne(s, world[0][i]);
        RunThen(old(View()), world[0][..i], [world[0][i]]);
        assert world[0][..i] + [world[0][i]] == world[0][..i + 1];
        i := i + 1;
      }
      assert world[0][..i] == world[0];
      rest := world[1..];
    }

    /**
     * select with no timeout: scan, and sleep unless something was found or
     * a wakeup came in between, in which case scan again. `world` says which
     * interrupts come at each moment between two descriptors. Every round
     * before the last saw nothing ready, the bits are what the last one saw,
     * and either some descriptor was ready then, or the thread sleeps and will
     * be reached by the next wakeup of any buffer it asked about.
     */
    method DoSelect(t: nat, interests: seq<Interest>, world: seq<seq<Action>>)
      returns (obits: seq<bool>, slept: bool, ghost rounds: nat)
      requires Interrupts(world)
      requires Safe(View()) && Enabled(View(), Start(t, interests), true)
      modifies this
      ensures Safe(View()) && scanning == map[]
      ensures |obits| == |interests| && (slept <==> true !in obits)
      ensures Sees(BeginScan(old(View()), t, interests), t, interests, world, rounds, obits)
      ensures forall r :: 0 <= r < rounds ==>
        SeesNothing(BeginScan(old(View()), t, interests), t, interests, world, r)
      ensures View() == SelectEnd(BeginScan(old(View()), t, interests), t, |interests|, world, rounds, slept)
      ensures slept ==> t in asleep && asleep[t] == interests
      ensures slept ==> forall i :: 0 <= i < |interests| ==> Reaches(View(), interests[i], t)
    {
      hide Safe, Reaches, Run, RoundStart, Rest, Looking, Scanned, Sees, SeesNothing, SelectEnd, First, Drop;
      hide Interrupts, BeginScan, FinishScan;
      ghost var s := View();
      StartKeeps(s, t, interests);
      var rest, n := world, 0;
      var ncoll := Begin(t, interests);
      ghost var s0 := View();
      rounds := 0;
      FirstRound(s0, t, |interests|, world);
      while true
        invariant Safe(View()) && scanning == map[t := Scan(interests, 0, ncoll, false)]
        invariant ProcOf(t) in ssel && nselcoll == ncoll
        invariant View() == RoundStart(s0, t, |interests|, world, rounds) && rest == Rest(world, |interests|, rounds)
        invariant forall r :: 0 <= r < rounds ==> SeesNothing(s0, t, interests, world, r)
        invariant Interrupts(rest)
        decreases |rest|
      {
        ghost var w := rest;
        obits, n, rest := ScanAll(t, interests, ncoll, rest);
        AllSeen(s0, t, interests, world, rounds, obits);
        StillInterrupts(w, |interests|);
        if n > 0 {
          break;
        }
        rest := Moment(rest);
        s := View();
        ToLook(RoundStart(s0, t, |interests|, world, rounds), t, w, |interests|);
        ToNextRound(s0, t, |interests|, world, rounds, s);
        EndIsNextRound(s0, t, |interests|, world, rounds);
        SawNone(s0, t, interests, world, rounds, obits);
        slept, ncoll := SleepOrRetry(t, interests, ncoll);
        if slept {
          return;
        }
        DropMore(w, |interests|);
        StillInterrupts(w, |interests| + 1);
        rounds := rounds + 1;
      }
      slept := false;
      FinishKeeps(View(), t, false);
      EndIsFound(s0, t, |interests|, world, rounds, View());
      FoundEnds(View(), t, interests, ncoll);
      scanning := map[];
    }

    /** The head of the loop in select: SSEL is set and the count of collisions noted. */
    method Begin(t: nat, interests: seq<Interest>) returns (ncoll: nat)
      requires scanning == map[]
      modifies this
      ensures View() == BeginScan(old(View()), t, interests) && ncoll == nselcoll && ProcOf(t) in ssel
      ensures scanning == map[t := Scan(interests, 0, ncoll, false)]
    {
      ncoll := nselcoll;
      ssel := ssel + {ProcOf(t)};
      scanning := scanning[t := Scan(interests, 0, ncoll, false)];
    }

    /** The foot of the loop, when nothing was found. */
    method SleepOrRetry(t: nat, interests: seq<Interest>, ncoll: nat) returns (slept: bool, next: nat)
      requires Safe(View()) && scanning == map[t := Scan(interests, |interests|, ncoll, false)]
      modifies this
      ensures Safe(View()) && View() == FinishScan(old(View()), t, false)
      ensures slept <==> ProcOf(t) in old(ssel) && old(nselcoll) == ncoll
      ensures slept ==> scanning == map[] && t in asleep && asleep[t] == interests
      ensures slept ==> forall i :: 0 <= i < |interests| ==> Reaches(View(), interests[i], t)
      ensures !slept ==> next == nselcoll && ProcOf(t) in ssel && scanning == map[t := Scan(interests, 0, next, false)]
    {
      hide Safe, Reaches;
      FinishKeeps(View(), t, false);
      if ProcOf(t) !in ssel || nselcoll != ncoll {
        scanning := map[];
        next := Begin(t, interests);
        slept := false;
        assert old(scanning)[t := Scan(interests, 0, next, false)] == scanning;
        return;
      }
      ssel := ssel - {ProcOf(t)};
      asleep := asleep[t := interests];
      scanning := map[];
      slept, next := true, ncoll;
      SleeperReached(View(), t);
    }

    /** The select routine of a socket, for the descriptor the scan has come to. */
    method CheckOne(t: nat, x: Interest) returns (ready: bool)
      requires Safe(View()) && Enabled(View(), Check(t), true)
      requires x == scanning[t].interests[scanning[t].next]
      modifies this
      ensures Safe(View()) && View() == CheckNext(old(View()), t) && ready == IsReady(old(View()), x)
      ensures ssel == old(ssel) && nselcoll == old(nselcoll)
      ensures var c := old(scanning[t]);
        scanning == old(scanning)[t := c.(next := c.next + 1, found := c.found || ready)]
    {
      hide Safe;
      CheckKeeps(View(), t);
      ready := if x.urgent then bufs[x.buf].urgent else bufs[x.buf].ready;
      if !ready {
        QueueSelector(t, x.buf);
        scanning := scanning[t := scanning[t].(next := scanning[t].next + 1)];
      } else {
        scanning := scanning[t := scanning[t].(next := scanning[t].next + 1, found := true)];
      }
    }

    /** selscan, with interrupts before every descriptor. */
    method ScanAll(t: nat, interests: seq<Interest>, ghost ncoll: nat, world: seq<seq<Action>>)
      returns (obits: seq<bool>, n: nat, rest: seq<seq<Action>>)
      requires Interrupts(world)
      requires Safe(View()) && scanning == map[t := Scan(interests, 0, ncoll, false)]
      modifies this
      ensures Safe(View()) && scanning == map[t := Scan(interests, |interests|, ncoll, n > 0)]
      ensures View() == Run(old(View()), Scanned(t, world, |interests|), true) && rest == Drop(world, |interests|)
      ensures world == [] ==> ssel == old(ssel) && nselcoll == old(nselcoll)
      ensures |obits| == |interests| && (n > 0 <==> true in obits)
      ensures forall i :: 0 <= i < |interests| ==>
        SawReady(Run(old(View()), Looking(t, world, i), true), interests, i, obits[i])
    {
      hide Safe, Run, Looking, Drop, Scanned, Interrupts, SawReady;
      ghost var s0 := View();
      obits, n, rest := [], 0, world;
      NothingScanned(s0, t, world);
      while |obits| < |interests|
        invariant |obits| <= |interests| && (n > 0 <==> true in obits)
        invariant forall i :: 0 <= i < |obits| ==>
          SawReady(Run(s0, Looking(t, world, i), true), interests, i, obits[i])
        invariant Safe(View()) && scanning == map[t := Scan(interests, |obits|, ncoll, n > 0)]
        invariant View() == Run(s0, Scanned(t, world, |obits|), true) && rest == Drop(world, |obits|)
        invariant world == [] ==> ssel == old(ssel) && nselcoll == old(nselcoll)
      {
        var ready;
        ready, rest := LookNext(t, interests, |obits|, Scan(interests, |obits|, ncoll, n > 0), s0, world, rest);
        if ready {
          n := n + 1;
        }
        obits := obits + [ready];
      }
    }

    /** One turn of selscan's loop. */
    method LookNext(t: nat, interests: seq<Interest>, i: nat, ghost c: Scan,
                    ghost s0: State, ghost world: seq<seq<Action>>, rest: seq<seq<Action>>)
      returns (ready: bool, left: seq<seq<Action>>)
      requires Interrupts(world) && i < |interests| && c.interests == interests && c.next == i
      requires Safe(View()) && scanning == map[t := c]
      requires View() == Run(s0, Scanned(t, world, i), true) && rest == Drop(world, i)
      modifies this
      ensures Safe(View()) && scanning == map[t := Scan(interests, i + 1, c.ncoll, c.found || ready)]
      ensures View() == Run(s0, Scanned(t, world, i + 1), true) && left == Drop(world, i + 1)
      ensures SawReady(Run(s0, Looking(t, world, i), true), interests, i, ready)
      ensures world == [] ==> ssel == old(ssel) && nselcoll == old(nselcoll)
    {
      hide Safe, Run, Looking, First, Drop, CheckNext, Scanned, Interrupts;
      StillInterrupts(world, i);
      left := Moment(rest);
      ToLook(s0, t, world, i);
      DropMore(world, i);
      ScannerInRange(View(), t, i);
      LookThenCheck(s0, t, world, i);
      ready := CheckOne(t, interests[i]);
    }
  }

  lemma FoundEnds(s: State, t: nat, interests: seq<Interest>, ncoll: nat)
    requires s.scanning == map[t := Scan(interests, |interests|, ncoll, true)]
    ensures FinishScan(s, t, false) == s.(scanning := map[])
  {
  }

  lemma NothingScanned(s: State, t: nat, world: seq<seq<Action>>)
    ensures Run(s, Scanned(t, world, 0), true) == s && Drop(world, 0) == world
  {
  }

  /** Everything that happens in the first r rounds. */
  function Past(t: nat, n: nat, world: seq<seq<Action>>, r: nat): seq<Action> {
    if r == 0 then [] else Past(t, n, world, r - 1) + (Looking(t, Rest(world, n, r - 1), n) + [Finish(t, false)])
  }

  lemma {:induction false} RoundIsReached(s: State, t: nat, n: nat, world: seq<seq<Action>>, r: nat)
    ensures RoundStart(s, t, n, world, r) == Run(s, Past(t, n, world, r), true)
  {
    hide Run, Looking, Rest;
    if r == 0 {
      RunNone(s);
    } else {
      RoundIsReached(s, t, n, world, r - 1);
      RunThen(s, Past(t, n, world, r - 1), Looking(t, Rest(world, n, r - 1), n) + [Finish(t, false)]);
    }
  }

  /** The states in which a select looks at its descriptors are states of the run it is part of. */
  lemma LooksAtIsReached(init: State, actions: seq<Action>, t: nat, interests: seq<Interest>,
                         world: seq<seq<Action>>, r: nat, i: nat)
    requires Initial(init) && Enabled(Run(init, actions, true), Start(t, interests), true)
    ensures var n := |interests|;
      var s := LooksAt(BeginScan(Run(init, actions, true), t, interests), t, n, world, r, i);
      && s == Run(init, actions + [Start(t, interests)] + Past(t, n, world, r) + Looking(t, Rest(world, n, r), i), true)
      && Safe(s)
  {
    hide Run, Looking, Rest, Past, RoundStart, Safe, BeginScan;
    var n, begin := |interests|, actions + [Start(t, interests)];
    RunThen(init, actions, [Start(t, interests)]);
    RunOne(Run(init, actions, true), Start(t, interests));
    RoundIsReached(Run(init, begin, true), t, n, world, r);
    RunThen(init, begin, Past(t, n, world, r));
    RunThen(init, begin + Past(t, n, world, r), Looking(t, Rest(world, n, r), i));
    EveryRunIsSafe(init, begin + Past(t, n, world, r) + Looking(t, Rest(world, n, r), i));
  }

  lemma FirstRound(s: State, t: nat, n: nat, world: seq<seq<Action>>)
    ensures RoundStart(s, t, n, world, 0) == s && Rest(world, n, 0) == world
  {
  }

  lemma EndIsNextRound(s: State, t: nat, n: nat, world: seq<seq<Action>>, r: nat)
    ensures SelectEnd(s, t, n, world, r, true) == RoundStart(s, t, n, world, r + 1)
  {
  }

  lemma EndIsFound(s: State, t: nat, n: nat, world: seq<seq<Action>>, r: nat, last: State)
    requires last == Run(RoundStart(s, t, n, world, r), Scanned(t, Rest(world, n, r), n), true)
    requires Enabled(last, Finish(t, false), true)
    ensures SelectEnd(s, t, n, world, r, false) == FinishScan(last, t, false)
  {
    hide Run, FinishScan, RoundStart, Scanned;
    RunThen(RoundStart(s, t, n, world, r), Scanned(t, Rest(world, n, r), n), [Finish(t, false)]);
    RunOne(last, Finish(t, false));
  }

  lemma StillInterrupts(world: seq<seq<Action>>, n: nat)
    requires Interrupts(world)
    ensures var rest := Drop(world, n);
      Interrupts(rest) && |rest| <= |world| && (world != [] && n > 0 ==> |rest| < |world|)
  {
    var rest := Drop(world, n);
    if n <= |world| {
      forall i, j | 0 <= i < |rest| && 0 <= j < |rest[i]|
        ensures Interrupt(rest[i][j])
      {
        assert rest[i] == world[n + i];
      }
    }
  }

  lemma AllSeen(s: State, t: nat, interests: seq<Interest>, world: seq<seq<Action>>, r: nat, bits: seq<bool>)
    requires |bits| == |interests|
    requires var s1, w := RoundStart(s, t, |interests|, world, r), Rest(world, |interests|, r);
      forall i :: 0 <= i < |interests| ==> SawReady(Run(s1, Looking(t, w, i), true), interests, i, bits[i])
    ensures Sees(s, t, interests, world, r, bits)
  {
  }

  lemma SeesSize(s: State, t: nat, interests: seq<Interest>, world: seq<seq<Action>>, r: nat, bits: seq<bool>)
    requires Sees(s, t, interests, world, r, bits)
    ensures |bits| == |interests|
  {
  }

  lemma SawNone(s: State, t: nat, interests: seq<Interest>, world: seq<seq<Action>>, r: nat, bits: seq<bool>)
    requires Sees(s, t, interests, world, r, bits) && true !in bits
    ensures SeesNothing(s, t, interests, world, r)
  {
    hide Sees;
    SeesSize(s, t, interests, world, r, bits);
    forall i | 0 <= i < |bits|
      ensures !bits[i]
    {
      assert bits[i] in bits;
    }
    assert bits == seq(|interests|, i => false);
  }

  lemma ScannerInRange(s: State, t: nat, i: nat)
    requires Safe(s) && t in s.scanning && i < |s.scanning[t].interests|
    ensures s.scanning[t].interests[i].buf < |s.bufs|
  {
    assert ScannerSafe(s, t);
  }

  lemma SleeperReached(s: State, t: nat)
    requires Safe(s) && t in s.asleep
    ensures forall i :: 0 <= i < |s.asleep[t]| ==> Reaches(s, s.asleep[t][i], t)
  {
    assert AllReach(s, s.asleep[t], |s.asleep[t]|, t);
  }

  lemma InterruptFrame(s: State, a: Action)
    requires Interrupt(a) && Safe(s)
    ensures var s1 := if Enabled(s, a, true) then Step(s, a, true) else s;
      Safe(s1) && s1.scanning == s.scanning && |s1.bufs| == |s.bufs| && s1.nselcoll >= s.nselcoll
  {
    hide Safe;
    if Enabled(s, a, true) {
      StepKeeps(s, a);
    }
  }
}
