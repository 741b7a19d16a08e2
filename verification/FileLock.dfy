/**
 * BSD advisory locks on a vnode: flock(2), its release, and release on last
 * close, as a state machine whose steps are the code between two sleeps.
 *
 * A vnode keeps two counters and three flag bits; a file keeps two flag bits.
 * Both wait channels share the bit VLWAIT, which only the exclusive release
 * clears. Over every run of any number of processes and files the counters
 * and bits agree with the set of holders, the panics are unreachable and no
 * sleeper is left behind by the release it waits for.
 */
module FileLock {

  type Proc = nat
  type File = nat
  type Fd = nat

  datatype Mode = Shared | Exclusive

  /** A lock request as flock() passes it on: one mode, and whether to wait. */
  datatype Request = Request(mode: Mode, nonblocking: bool)

  /**
   * The lock words: v_flag bits, v_shlockc, v_exlockc, and the files whose
   * f_flag has FSHLOCK or FEXLOCK.
   */
  datatype Locks = Locks(vshlock: bool, vexlock: bool, vlwait: bool, shlockc: int, exlockc: int,
                         fshlock: set<File>, fexlock: set<File>)

  const UNLOCKED := Locks(false, false, false, 0, 0, {}, {})

  /** What a piece of code did: the new lock words, which channels it woke, whether it panicked. */
  datatype Effect = Effect(locks: Locks, wakeSh: bool, wakeEx: bool, panicked: bool)

  datatype Outcome = Granted | WouldBlock | SleepEx | SleepSh

  // ----- the code between two sleeps, on the lock words -----

  function ReleaseShared(e: Effect, f: File): Effect {
    var l := e.locks;
    if !l.vshlock then e.(panicked := true)
    else
      var last := l.shlockc - 1 == 0;
      Effect(l.(shlockc := l.shlockc - 1, vshlock := !last, fshlock := l.fshlock - {f}),
             e.wakeSh || (last && l.vlwait), e.wakeEx, e.panicked)
  }

  function ReleaseExclusive(e: Effect, f: File): Effect {
    var l := e.locks;
    if !l.vexlock then e.(panicked := true)
    else
      var last := l.exlockc - 1 == 0;
      Effect(l.(exlockc := l.exlockc - 1, vexlock := !last, vlwait := l.vlwait && !last,
                fexlock := l.fexlock - {f}),
             e.wakeSh, e.wakeEx || (last && l.vlwait), e.panicked)
  }

  /** vno_bsd_unlock: release those of the two kinds that the file holds. */
  function Unlock(l: Locks, f: File, sh: bool, ex: bool): Effect {
    var e := Effect(l, false, false, false);
    var e1 := if sh && f in l.fshlock then ReleaseShared(e, f) else e;
    if ex && f in l.fexlock then ReleaseExclusive(e1, f) else e1
  }

  /**
   * What one attempt of vno_bsd_lock does, said without its loops: drop the
   * file's own conflicting locks; then either take the lock, or fail, or
   * raise VLWAIT and sleep on the channel of the lock in the way.
   */
  function Attempt(l: Locks, f: File, req: Request): (Effect, Outcome) {
    Finish(Unlock(l, f, req.mode == Exclusive, true), f, req)
  }

  function Finish(e: Effect, f: File, req: Request): (Effect, Outcome) {
    var m := e.locks;
    if m.fexlock != {} then
      if req.nonblocking then (e, WouldBlock) else (e.(locks := m.(vlwait := true)), SleepEx)
    else if req.mode == Exclusive && m.fshlock != {} then
      if req.nonblocking then (e, WouldBlock) else (e.(locks := m.(vlwait := true)), SleepSh)
    else
      (e.(locks := Grant(m, f, req.mode)), Granted)
  }

  function Grant(l: Locks, f: File, mode: Mode): Locks {
    if mode == Exclusive then l.(exlockc := l.exlockc + 1, vexlock := true, fexlock := l.fexlock + {f})
    else if f in l.fshlock then l
    else l.(shlockc := l.shlockc + 1, vshlock := true, fshlock := l.fshlock + {f})
  }

  /** The counters and bits say exactly who holds what, and holders never conflict. */
  ghost predicate Consistent(l: Locks) {
    && l.shlockc == |l.fshlock|
    && l.exlockc == |l.fexlock|
    && (l.vshlock <==> l.fshlock != {})
    && (l.vexlock <==> l.fexlock != {})
    && l.exlockc <= 1
    && (l.fexlock != {} ==> l.fshlock == {})
  }

  lemma ReleaseSharedKeeps(e: Effect, f: File)
    requires Consistent(e.locks) && f in e.locks.fshlock
    ensures Consistent(ReleaseShared(e, f).locks)
    ensures ReleaseShared(e, f).panicked == e.panicked
  {
    assert |e.locks.fshlock - {f}| == |e.locks.fshlock| - 1;
  }

  lemma ReleaseExclusiveKeeps(e: Effect, f: File)
    requires Consistent(e.locks) && f in e.locks.fexlock
    ensures Consistent(ReleaseExclusive(e, f).locks)
    ensures ReleaseExclusive(e, f).locks.fexlock == {}
    ensures ReleaseExclusive(e, f).panicked == e.panicked
  {
    assert |e.locks.fexlock - {f}| == |e.locks.fexlock| - 1;
  }

  /** Unlocking never panics, keeps the words consistent and removes just the file's own locks. */
  lemma UnlockKeeps(l: Locks, f: File, sh: bool, ex: bool)
    requires Consistent(l)
    ensures var e := Unlock(l, f, sh, ex);
      && Consistent(e.locks) && !e.panicked
      && e.locks.fshlock == (if sh then l.fshlock - {f} else l.fshlock)
      && e.locks.fexlock == (if ex then l.fexlock - {f} else l.fexlock)
  {
    hide Consistent;
    var e := Effect(l, false, false, false);
    if sh && f in l.fshlock { ReleaseSharedKeeps(e, f); }
    var e1 := if sh && f in l.fshlock then ReleaseShared(e, f) else e;
    if ex && f in l.fexlock { ReleaseExclusiveKeeps(e1, f); }
  }

  /** Another file holds a lock that excludes a lock of this mode. */
  predicate Excluded(l: Locks, f: File, mode: Mode) {
    l.fexlock - {f} != {} || (mode == Exclusive && l.fshlock - {f} != {})
  }

  /**
   * The meaning of an attempt in terms of holders only. It is granted exactly
   * when no other file excludes it; otherwise the file has lost its own locks
   * that stood in the way and nobody has gained any.
   */
  lemma AttemptMeaning(l: Locks, f: File, req: Request)
    requires Consistent(l)
    ensures var (e, out) := Attempt(l, f, req);
      && Consistent(e.locks) && !e.panicked
      && (out == Granted <==> !Excluded(l, f, req.mode))
      && (out == Granted && req.mode == Exclusive ==> e.locks.fexlock == {f} && e.locks.fshlock == {})
      && (out == Granted && req.mode == Shared ==> e.locks.fexlock == {} && e.locks.fshlock == l.fshlock + {f})
      && (out != Granted ==> e.locks.fexlock == l.fexlock - {f})
      && (out != Granted ==> e.locks.fshlock == (if req.mode == Exclusive then l.fshlock - {f} else l.fshlock))
      && (out == WouldBlock ==> req.nonblocking)
      && (out == SleepEx ==> e.locks.fexlock != {} && e.locks.vlwait && !req.nonblocking)
      && (out == SleepSh ==> e.locks.fshlock != {} && e.locks.vlwait && !req.nonblocking)
  {
    hide Unlock, Finish, Consistent;
    UnlockKeeps(l, f, req.mode == Exclusive, true);
    FinishMeaning(Unlock(l, f, req.mode == Exclusive, true), f, req);
  }

  /** The second half of an attempt, once the file's own locks that stood in the way are gone. */
  lemma FinishMeaning(u: Effect, f: File, req: Request)
    requires Consistent(u.locks) && !u.panicked
    ensures var (e, out) := Finish(u, f, req);
      && Consistent(e.locks) && !e.panicked
      && (out == Granted <==> u.locks.fexlock == {} && (req.mode == Exclusive ==> u.locks.fshlock == {}))
      && (out == Granted && req.mode == Exclusive ==> e.locks.fexlock == {f} && e.locks.fshlock == {})
      && (out == Granted && req.mode == Shared ==> e.locks.fexlock == {} && e.locks.fshlock == u.locks.fshlock + {f})
      && (out != Granted ==> e.locks.fexlock == u.locks.fexlock && e.locks.fshlock == u.locks.fshlock)
      && (out == WouldBlock ==> req.nonblocking)
      && (out == SleepEx ==> e.locks.fexlock != {} && e.locks.vlwait && !req.nonblocking)
      && (out == SleepSh ==> e.locks.fshlock != {} && e.locks.vlwait && !req.nonblocking)
  {
    GrantKeeps(u.locks, f, req.mode);
  }

  /** An exclusive lock has one holder. */
  lemma OnlyHolder(l: Locks)
    requires Consistent(l) && l.fexlock != {}
    ensures exists g :: l.fexlock == {g}
  {
    var g :| g in l.fexlock;
    assert |l.fexlock - {g}| == 0;
    assert l.fexlock == {g};
  }

  lemma GrantKeeps(l: Locks, f: File, mode: Mode)
    requires Consistent(l)
    ensures l.fexlock == {} && (mode == Exclusive ==> l.fshlock == {}) ==> Consistent(Grant(l, f, mode))
  {
  }

  /**
   * What releases do to VLWAIT and the wakeups: a channel whose lock becomes
   * free is woken if VLWAIT was up, and VLWAIT comes down only with the
   * exclusive lock.
   */
  lemma UnlockWakes(l: Locks, f: File, sh: bool, ex: bool)
    requires Consistent(l)
    ensures var e := Unlock(l, f, sh, ex);
      && (l.vlwait && l.vshlock && !e.locks.vshlock ==> e.wakeSh)
      && (l.vlwait && l.vexlock && !e.locks.vexlock ==> e.wakeEx)
      && (l.vlwait && !e.locks.vlwait ==> l.vexlock && !e.locks.vexlock)
  {
    UnlockKeeps(l, f, sh, ex);
  }

  // ----- whole system -----

  datatype Desc = Desc(proc: Proc, file: File)

  /** Where a process is: outside the lock code, asleep on a channel, or woken and about to retry. */
  datatype Status =
    | Outside
    | AsleepEx(fd: Fd, req: Request)
    | AsleepSh(fd: Fd, req: Request)
    | Woken(fd: Fd, req: Request)

  datatype State = State(locks: Locks, fds: map<Fd, Desc>, fcount: map<File, int>,
                         status: map<Proc, Status>, panicked: bool)

  const INITIAL := State(UNLOCKED, map[], map[], map[], false)

  datatype Action =
    | Open(p: Proc, fd: Fd, f: File)                 // a new open file
    | Share(fd: Fd, newFd: Fd, q: Proc)              // dup, fork: another descriptor of the same file
    | Flock(p: Proc, fd: Fd, req: Request)
    | Funlock(p: Proc, fd: Fd)
    | Close(p: Proc, fd: Fd)
    | Retry(p: Proc)                                 // a woken process runs again
    | Interrupt(p: Proc)                             // a signal takes the process out of its sleep

  function StatusOf(s: State, p: Proc): Status {
    if p in s.status then s.status[p] else Outside
  }

  function Wake(status: map<Proc, Status>, e: Effect): map<Proc, Status> {
    map p | p in status ::
      match status[p]
      case AsleepEx(fd, req) => if e.wakeEx then Woken(fd, req) else status[p]
      case AsleepSh(fd, req) => if e.wakeSh then Woken(fd, req) else status[p]
      case _ => status[p]
  }

  function Apply(s: State, e: Effect): State {
    s.(locks := e.locks, status := Wake(s.status, e), panicked := s.panicked || e.panicked)
  }

  /** One attempt by process p through descriptor fd. */
  function Try(s: State, p: Proc, fd: Fd, req: Request): State
    requires fd in s.fds
  {
    var (e, out) := Attempt(s.locks, s.fds[fd].file, req);
    var t := Apply(s, e);
    t.(status := t.status[p := Parked(out, fd, req)])
  }

  /** Where a process is left by the outcome of an attempt. */
  function Parked(out: Outcome, fd: Fd, req: Request): Status {
    match out
    case SleepEx => AsleepEx(fd, req)
    case SleepSh => AsleepSh(fd, req)
    case _ => Outside
  }

  /** closef: only the last descriptor reaches vno_close, which drops the file's locks. */
  function CloseFd(s: State, fd: Fd): State
    requires fd in s.fds && s.fds[fd].file in s.fcount
  {
    var f := s.fds[fd].file;
    var t := s.(fds := s.fds - {fd});
    if s.fcount[f] > 1 then t.(fcount := s.fcount[f := s.fcount[f] - 1])
    else Apply(t, Unlock(s.locks, f, true, true)).(fcount := s.fcount - {f})
  }

  predicate Owns(s: State, p: Proc, fd: Fd) {
    fd in s.fds && s.fds[fd].proc == p && StatusOf(s, p) == Outside
  }

  predicate Enabled(s: State, a: Action) {
    !s.panicked &&
    match a
    case Open(p, fd, f) => fd !in s.fds && f !in s.fcount
    case Share(fd, newFd, q) =>
      fd in s.fds && newFd !in s.fds && StatusOf(s, s.fds[fd].proc) == Outside && s.fds[fd].file in s.fcount
    case Flock(p, fd, req) => Owns(s, p, fd)
    case Funlock(p, fd) => Owns(s, p, fd)
    case Close(p, fd) => Owns(s, p, fd) && s.fds[fd].file in s.fcount
    case Retry(p) => StatusOf(s, p).Woken? && StatusOf(s, p).fd in s.fds
    case Interrupt(p) => !StatusOf(s, p).Outside?
  }

  function Step(s: State, a: Action): State
    requires Enabled(s, a)
  {
    match a
    case Open(p, fd, f) => s.(fds := s.fds[fd := Desc(p, f)], fcount := s.fcount[f := 1])
    case Share(fd, newFd, q) =>
      var f := s.fds[fd].file;
      s.(fds := s.fds[newFd := Desc(q, f)], fcount := s.fcount[f := s.fcount[f] + 1])
    case Flock(p, fd, req) =>
      var f := s.fds[fd].file;
      if (f in s.locks.fexlock && req.mode == Exclusive) || (f in s.locks.fshlock && req.mode == Shared) then s
      else Try(s, p, fd, req)
    case Funlock(p, fd) => Apply(s, Unlock(s.locks, s.fds[fd].file, true, true))
    case Close(p, fd) => CloseFd(s, fd)
    case Retry(p) => Try(s, p, s.status[p].fd, s.status[p].req)
    case Interrupt(p) => s.(status := s.status[p := Outside])
  }

  /** A run: actions that are not enabled leave the state alone. */
  function Run(actions: seq<Action>): State {
    if actions == [] then INITIAL
    else
      var s := Run(actions[..|actions| - 1]);
      var a := actions[|actions| - 1];
      if Enabled(s, a) then Step(s, a) else s
  }

  function Refs(s: State, f: File): set<Fd> {
    set d | d in s.fds && s.fds[d].file == f
  }

  /** f_count counts the descriptors of every open file, and only open files hold locks. */
  ghost predicate Counted(s: State) {
    && (forall d :: d in s.fds ==> s.fds[d].file in s.fcount)
    && (forall f :: f in s.fcount ==> s.fcount[f] == |Refs(s, f)| > 0)
    && s.locks.fshlock <= s.fcount.Keys && s.locks.fexlock <= s.fcount.Keys
  }

  /** Every sleeper waits for a lock that is held, with VLWAIT up, through a descriptor of its own. */
  ghost predicate SleeperSafe(l: Locks, st: Status) {
    && (st.AsleepEx? ==> l.vexlock && l.vlwait)
    && (st.AsleepSh? ==> l.vshlock && l.vlwait)
  }

  ghost predicate NoLostWakeup(s: State) {
    forall p :: p in s.status ==> SleeperSafe(s.locks, s.status[p])
  }

  ghost predicate OwnDescriptors(s: State) {
    forall p :: p in s.status && !s.status[p].Outside? ==> s.status[p].fd in s.fds && s.fds[s.status[p].fd].proc == p
  }

  ghost predicate Inv(s: State) {
    !s.panicked && Consistent(s.locks) && Counted(s) && NoLostWakeup(s) && OwnDescriptors(s)
  }

  // ----- every step keeps the invariant -----

  /** Waking after a release leaves no sleeper on a channel whose lock is gone. */
  lemma UnlockKeepsSleepers(s: State, f: File, sh: bool, ex: bool)
    requires Consistent(s.locks) && NoLostWakeup(s)
    ensures NoLostWakeup(Apply(s, Unlock(s.locks, f, sh, ex)))
  {
    UnlockKeeps(s.locks, f, sh, ex);
    UnlockWakes(s.locks, f, sh, ex);
    var e := Unlock(s.locks, f, sh, ex);
    forall p | p in s.status
      ensures SleeperSafe(e.locks, Wake(s.status, e)[p])
    {
      assert SleeperSafe(s.locks, s.status[p]);
    }
  }

  lemma WakeKeepsDescriptors(s: State, e: Effect)
    requires OwnDescriptors(s)
    ensures OwnDescriptors(Apply(s, e))
  {
  }

  lemma TryKeepsSleepers(s: State, p: Proc, fd: Fd, req: Request)
    requires Consistent(s.locks) && NoLostWakeup(s) && fd in s.fds
    ensures NoLostWakeup(Try(s, p, fd, req))
  {
    var f := s.fds[fd].file;
    var u := Unlock(s.locks, f, req.mode == Exclusive, true);
    UnlockKeepsSleepers(s, f, req.mode == Exclusive, true);
    UnlockKeeps(s.locks, f, req.mode == Exclusive, true);
    FinishKeepsSleepers(Apply(s, u), u, f, fd, p, req);
    SameWake(s.status, u, Finish(u, f, req).0);
  }

  /** Taking the lock, failing or going to sleep after the release strands nobody. */
  lemma FinishKeepsSleepers(t: State, u: Effect, f: File, fd: Fd, p: Proc, req: Request)
    requires t.locks == u.locks && Consistent(u.locks) && NoLostWakeup(t)
    ensures var (e, out) := Finish(u, f, req);
      NoLostWakeup(t.(locks := e.locks, status := t.status[p := Parked(out, fd, req)]))
  {
    var (e, out) := Finish(u, f, req);
    forall q | q in t.status ensures SleeperSafe(e.locks, t.status[q]) {
      assert SleeperSafe(t.locks, t.status[q]);
    }
  }

  lemma TryCounts(s: State, p: Proc, fd: Fd, req: Request)
    requires Consistent(s.locks) && Counted(s) && fd in s.fds
    ensures Counted(Try(s, p, fd, req))
  {
    hide Consistent, Attempt, Wake, Refs;
    AttemptMeaning(s.locks, s.fds[fd].file, req);
    SameRefs(s, Try(s, p, fd, req));
  }

  lemma TryKeepsDescriptors(s: State, p: Proc, fd: Fd, req: Request)
    requires OwnDescriptors(s) && fd in s.fds && s.fds[fd].proc == p
    ensures OwnDescriptors(Try(s, p, fd, req))
  {
    hide Attempt, Wake;
    WakeKeepsDescriptors(s, Attempt(s.locks, s.fds[fd].file, req).0);
  }

  lemma TryKeeps(s: State, p: Proc, fd: Fd, req: Request)
    requires Inv(s) && fd in s.fds && s.fds[fd].proc == p
    ensures Inv(Try(s, p, fd, req))
  {
    hide NoLostWakeup, Consistent, Attempt, Wake, Counted, OwnDescriptors, Parked;
    AttemptMeaning(s.locks, s.fds[fd].file, req);
    TryKeepsSleepers(s, p, fd, req);
    TryCounts(s, p, fd, req);
    TryKeepsDescriptors(s, p, fd, req);
  }

  lemma SameRefs(s: State, t: State)
    requires Counted(s) && t.fds == s.fds && t.fcount == s.fcount
    requires t.locks.fshlock <= s.fcount.Keys && t.locks.fexlock <= s.fcount.Keys
    ensures Counted(t)
  {
    forall f | f in t.fcount ensures t.fcount[f] == |Refs(t, f)| > 0 {
      assert Refs(t, f) == Refs(s, f);
    }
  }

  lemma UnlockStepKeeps(s: State, f: File)
    requires Inv(s)
    ensures Inv(Apply(s, Unlock(s.locks, f, true, true)))
  {
    var e := Unlock(s.locks, f, true, true);
    UnlockKeeps(s.locks, f, true, true);
    UnlockKeepsSleepers(s, f, true, true);
    WakeKeepsDescriptors(s, e);
    SameRefs(s, Apply(s, e));
  }

  lemma RefsAdded(s: State, fd: Fd, d: Desc, f: File)
    requires fd !in s.fds
    ensures Refs(s.(fds := s.fds[fd := d]), f) == if f == d.file then Refs(s, f) + {fd} else Refs(s, f)
  {
  }

  lemma AddDescCounts(s: State, fd: Fd, d: Desc, n: int)
    requires Counted(s) && fd !in s.fds
    requires n == (if d.file in s.fcount then s.fcount[d.file] + 1 else 1)
    ensures Counted(s.(fds := s.fds[fd := d], fcount := s.fcount[d.file := n]))
  {
    var t := s.(fds := s.fds[fd := d], fcount := s.fcount[d.file := n]);
    forall f | f in t.fcount ensures t.fcount[f] == |Refs(t, f)| > 0 {
      RefsAdded(s, fd, d, f);
      assert Refs(t, f) == Refs(s.(fds := s.fds[fd := d]), f);
      if f !in s.fcount { assert Refs(s, f) == {}; }
    }
  }

  lemma AddDescKeeps(s: State, fd: Fd, d: Desc, n: int)
    requires Inv(s) && fd !in s.fds
    requires n == (if d.file in s.fcount then s.fcount[d.file] + 1 else 1)
    ensures Inv(s.(fds := s.fds[fd := d], fcount := s.fcount[d.file := n]))
  {
    AddDescCounts(s, fd, d, n);
    hide Counted;
  }

  lemma RefsDropped(s: State, fd: Fd, g: File)
    requires fd in s.fds
    ensures Refs(s.(fds := s.fds - {fd}), g) == if g == s.fds[fd].file then Refs(s, g) - {fd} else Refs(s, g)
  {
  }

  /** The references of every file after descriptor fd is gone. */
  lemma RefsAfterClose(s: State, t: State, fd: Fd, g: File)
    requires fd in s.fds && t.fds == s.fds - {fd}
    ensures Refs(t, g) == if g == s.fds[fd].file then Refs(s, g) - {fd} else Refs(s, g)
    ensures fd in Refs(s, s.fds[fd].file)
  {
    RefsDropped(s, fd, g);
  }

  lemma CloseCountsMore(s: State, t: State, fd: Fd)
    requires Counted(s) && fd in s.fds && s.fcount[s.fds[fd].file] > 1 && t.fds == s.fds - {fd} && t.locks == s.locks
    requires var f := s.fds[fd].file; t.fcount == s.fcount[f := s.fcount[f] - 1]
    ensures Counted(t)
  {
    hide Refs;
    forall g | g in t.fcount ensures t.fcount[g] == |Refs(t, g)| > 0 {
      RefsAfterClose(s, t, fd, g);
    }
  }

  lemma CloseCountsLast(s: State, t: State, fd: Fd)
    requires Counted(s) && fd in s.fds && s.fcount[s.fds[fd].file] == 1 && t.fds == s.fds - {fd}
    requires var f := s.fds[fd].file;
      && t.fcount == s.fcount - {f} && t.locks.fshlock == s.locks.fshlock - {f}
      && t.locks.fexlock == s.locks.fexlock - {f}
    ensures Counted(t)
  {
    hide Refs;
    var f := s.fds[fd].file;
    RefsAfterClose(s, t, fd, f);
    LastReference(s, f, fd);
    forall g | g in t.fcount ensures t.fcount[g] == |Refs(t, g)| > 0 {
      RefsAfterClose(s, t, fd, g);
    }
    forall d | d in t.fds ensures t.fds[d].file in t.fcount {
      NotReferenced(s, d, f);
    }
  }

  lemma NotReferenced(s: State, d: Fd, f: File)
    requires d in s.fds && d !in Refs(s, f)
    ensures s.fds[d].file != f
  {
  }

  /** Only the last close touches the locks, and it drops all that the file holds. */
  lemma CloseCounts(s: State, p: Proc, fd: Fd)
    requires Inv(s) && Owns(s, p, fd)
    ensures Counted(CloseFd(s, fd))
    ensures var f := s.fds[fd].file;
      && (s.fcount[f] > 1 ==> CloseFd(s, fd).locks == s.locks && CloseFd(s, fd).status == s.status)
      && (s.fcount[f] == 1 ==> f !in CloseFd(s, fd).locks.fshlock && f !in CloseFd(s, fd).locks.fexlock)
  {
    hide Unlock, Consistent, NoLostWakeup, OwnDescriptors, Wake, Refs;
    var f := s.fds[fd].file;
    var t := CloseFd(s, fd);
    if s.fcount[f] > 1 {
      CloseCountsMore(s, t, fd);
    } else {
      UnlockKeeps(s.locks, f, true, true);
      CloseCountsLast(s, t, fd);
    }
  }

  lemma LastReference(s: State, f: File, fd: Fd)
    requires fd in Refs(s, f) && |Refs(s, f)| == 1
    ensures Refs(s, f) == {fd}
  {
    assert |Refs(s, f) - {fd}| == 0;
  }

  lemma CloseKeeps(s: State, p: Proc, fd: Fd)
    requires Inv(s) && Owns(s, p, fd)
    ensures Inv(CloseFd(s, fd))
  {
    hide Unlock, Wake, Consistent, Counted;
    var f := s.fds[fd].file;
    CloseCounts(s, p, fd);
    UnlockKeeps(s.locks, f, true, true);
    UnlockKeepsSleepers(s, f, true, true);
    var t := s.(fds := s.fds - {fd});
    assert OwnDescriptors(t);
    WakeKeepsDescriptors(t, Unlock(s.locks, f, true, true));
  }

  lemma StepKeeps(s: State, a: Action)
    requires Inv(s) && Enabled(s, a)
    ensures Inv(Step(s, a))
  {
    match a
    case Open(p, fd, f) => AddDescKeeps(s, fd, Desc(p, f), 1);
    case Share(fd, newFd, q) => AddDescKeeps(s, newFd, Desc(q, s.fds[fd].file), s.fcount[s.fds[fd].file] + 1);
    case Flock(p, fd, req) => TryKeeps(s, p, fd, req);
    case Funlock(p, fd) => UnlockStepKeeps(s, s.fds[fd].file);
    case Close(p, fd) => CloseKeeps(s, p, fd);
    case Retry(p) => TryKeeps(s, p, s.status[p].fd, s.status[p].req);
    case Interrupt(p) => SameRefs(s, Step(s, a));
  }

  /**
   * Safety over every run: counters and bits agree with the holders, at most
   * one file is exclusive and then none is shared, no panic is reached, and
   * every sleeper waits for a held lock with VLWAIT up.
   */
  lemma {:induction false} EveryRunIsSafe(actions: seq<Action>)
    ensures Inv(Run(actions))
  {
    if actions != [] {
      var before, a := actions[..|actions| - 1], actions[|actions| - 1];
      EveryRunIsSafe(before);
      if Enabled(Run(before), a) {
        StepKeeps(Run(before), a);
      }
    }
  }

  /** A step other than its own interruption leaves a sleeper asleep or wakes it. */
  lemma SleeperStaysOrWakes(s: State, a: Action, p: Proc)
    requires Inv(s) && Enabled(s, a) && a != Interrupt(p)
    requires StatusOf(s, p).AsleepEx? || StatusOf(s, p).AsleepSh?
    ensures StatusOf(Step(s, a), p) == StatusOf(s, p) || StatusOf(Step(s, a), p).Woken?
  {
  }

  /** The step that frees a lock wakes every process asleep on its channel. */
  lemma ReleaseWakesAll(actions: seq<Action>, a: Action, p: Proc)
    requires Enabled(Run(actions), a) && a != Interrupt(p)
    ensures var s, t := Run(actions), Run(actions + [a]);
      && (StatusOf(s, p).AsleepEx? && !t.locks.vexlock ==> StatusOf(t, p).Woken?)
      && (StatusOf(s, p).AsleepSh? && !t.locks.vshlock ==> StatusOf(t, p).Woken?)
  {
    EveryRunIsSafe(actions);
    EveryRunIsSafe(actions + [a]);
    assert (actions + [a])[..|actions|] == actions;
    var s, t := Run(actions), Run(actions + [a]);
    if StatusOf(s, p).AsleepEx? || StatusOf(s, p).AsleepSh? {
      SleeperStaysOrWakes(s, a, p);
      assert p in t.status ==> SleeperSafe(t.locks, t.status[p]);
    }
  }

  // ----- what each step does, in terms of holders and processes only -----

  /** A process stays where it was, or was asleep and is now woken. */
  predicate Undisturbed(before: Status, after: Status) {
    after == before || ((before.AsleepEx? || before.AsleepSh?) && after == Woken(before.fd, before.req))
  }

  ghost predicate OthersUndisturbed(s: State, t: State, p: Proc) {
    && t.fds == s.fds && t.fcount == s.fcount
    && (forall q: Proc :: q != p ==> Undisturbed(StatusOf(s, q), StatusOf(t, q)))
  }

  /**
   * What a request for a lock comes to. If no other file holds a lock that
   * excludes it, the file holds the lock asked for and none of the other kind,
   * and the process is out of the lock code. Otherwise the file has given up
   * what it held that stands in the way, and the process has failed or is
   * asleep on the channel of a lock that another file holds.
   */
  ghost predicate Requested(s: State, t: State, p: Proc, fd: Fd, f: File, req: Request) {
    var others := s.locks.fexlock - {f};
    && OthersUndisturbed(s, t, p)
    && (if others == {} && (req.mode == Shared || s.locks.fshlock - {f} == {}) then
          && StatusOf(t, p) == Outside
          && (req.mode == Exclusive ==> t.locks.fexlock == {f} && t.locks.fshlock == {})
          && (req.mode == Shared ==> t.locks.fexlock == {} && t.locks.fshlock == s.locks.fshlock + {f})
        else
          && t.locks.fexlock == others
          && t.locks.fshlock == (if req.mode == Exclusive then s.locks.fshlock - {f} else s.locks.fshlock)
          && StatusOf(t, p) == (if req.nonblocking then Outside
                                else if others != {} then AsleepEx(fd, req) else AsleepSh(fd, req)))
  }

  lemma WakeUndisturbs(status: map<Proc, Status>, e: Effect, q: Proc)
    requires q in status
    ensures Undisturbed(status[q], Wake(status, e)[q])
  {
  }

  lemma ApplyUndisturbs(s: State, e: Effect, q: Proc)
    ensures Undisturbed(StatusOf(s, q), StatusOf(Apply(s, e), q))
  {
    hide Undisturbed;
    if q in s.status {
      WakeUndisturbs(s.status, e, q);
    } else {
      StaysPut(Outside);
    }
  }

  lemma StaysPut(st: Status)
    ensures Undisturbed(st, st)
  {
  }

  lemma TryMeans(s: State, p: Proc, fd: Fd, req: Request)
    requires Consistent(s.locks) && fd in s.fds
    ensures Requested(s, Try(s, p, fd, req), p, fd, s.fds[fd].file, req)
  {
    hide Consistent, Attempt, Wake, Undisturbed;
    var f := s.fds[fd].file;
    AttemptMeaning(s.locks, f, req);
    AttemptSleeps(s.locks, f, req);
    var e := Attempt(s.locks, f, req).0;
    forall q: Proc | q != p
      ensures Undisturbed(StatusOf(s, q), StatusOf(Try(s, p, fd, req), q))
    {
      ApplyUndisturbs(s, e, q);
    }
  }

  /** Which channel a request that is not granted sleeps on. */
  lemma AttemptSleeps(l: Locks, f: File, req: Request)
    requires Consistent(l)
    ensures var out := Attempt(l, f, req).1;
      out != Granted ==>
        out == if req.nonblocking then WouldBlock else if l.fexlock - {f} != {} then SleepEx else SleepSh
  {
    hide Unlock, Attempt, Consistent;
    AttemptCases(l, f, req);
    UnlockKeeps(l, f, req.mode == Exclusive, true);
  }

  lemma HolderIsFree(l: Locks, f: File, mode: Mode)
    requires Consistent(l) && ((f in l.fexlock && mode == Exclusive) || (f in l.fshlock && mode == Shared))
    ensures !Excluded(l, f, mode)
  {
    if l.fexlock != {} {
      OnlyHolder(l);
    }
  }

  /** A file that already has what it asks for keeps it. */
  lemma AlreadyHeld(s: State, p: Proc, fd: Fd, f: File, req: Request)
    requires Consistent(s.locks) && StatusOf(s, p) == Outside
    requires (f in s.locks.fexlock && req.mode == Exclusive) || (f in s.locks.fshlock && req.mode == Shared)
    ensures Requested(s, s, p, fd, f, req)
  {
    if s.locks.fexlock != {} {
      OnlyHolder(s.locks);
    }
  }

  lemma FlockMeans(s: State, p: Proc, fd: Fd, req: Request)
    requires Inv(s) && Enabled(s, Flock(p, fd, req))
    ensures Requested(s, Step(s, Flock(p, fd, req)), p, fd, s.fds[fd].file, req)
  {
    hide Requested, Try, Consistent, Counted, NoLostWakeup, OwnDescriptors;
    var f := s.fds[fd].file;
    if (f in s.locks.fexlock && req.mode == Exclusive) || (f in s.locks.fshlock && req.mode == Shared) {
      AlreadyHeld(s, p, fd, f, req);
    } else {
      TryMeans(s, p, fd, req);
    }
  }

  /** flock, and a woken process that tries again, in every reachable state. */
  lemma FlockTakes(actions: seq<Action>, a: Action)
    requires Enabled(Run(actions), a) && (a.Flock? || a.Retry?)
    ensures var s := Run(actions);
      var fd, req := if a.Flock? then a.fd else s.status[a.p].fd, if a.Flock? then a.req else s.status[a.p].req;
      Requested(s, Step(s, a), a.p, fd, s.fds[fd].file, req)
  {
    hide Run, Requested, Try;
    var s := Run(actions);
    EveryRunIsSafe(actions);
    if a.Flock? {
      FlockMeans(s, a.p, a.fd, a.req);
    } else {
      TryMeans(s, a.p, s.status[a.p].fd, s.status[a.p].req);
    }
  }

  /** Unlocking leaves the file without a lock and the other files with theirs. */
  lemma FunlockDrops(actions: seq<Action>, p: Proc, fd: Fd)
    requires Enabled(Run(actions), Funlock(p, fd))
    ensures var s := Run(actions);
      var t, f := Step(s, Funlock(p, fd)), s.fds[fd].file;
      && t.locks.fshlock == s.locks.fshlock - {f} && t.locks.fexlock == s.locks.fexlock - {f}
      && StatusOf(t, p) == Outside && OthersUndisturbed(s, t, p)
  {
    hide Run, Unlock, Wake, Undisturbed;
    var s := Run(actions);
    EveryRunIsSafe(actions);
    var e := Unlock(s.locks, s.fds[fd].file, true, true);
    UnlockKeeps(s.locks, s.fds[fd].file, true, true);
    forall q: Proc
      ensures Undisturbed(StatusOf(s, q), StatusOf(Apply(s, e), q))
    {
      ApplyUndisturbs(s, e, q);
    }
    OutsideStays(StatusOf(s, p), StatusOf(Apply(s, e), p));
  }

  lemma OutsideStays(before: Status, after: Status)
    requires Undisturbed(before, after) && before == Outside
    ensures after == Outside
  {
  }

  /** A close takes the descriptor away, and the locks with it exactly when it was the file's last. */
  lemma CloseDrops(actions: seq<Action>, p: Proc, fd: Fd)
    requires Enabled(Run(actions), Close(p, fd))
    ensures var s := Run(actions);
      var t, f := Step(s, Close(p, fd)), s.fds[fd].file;
      var last := forall d :: d in s.fds && d != fd ==> s.fds[d].file != f;
      && t.fds == s.fds - {fd}
      && t.locks.fshlock == (if last then s.locks.fshlock - {f} else s.locks.fshlock)
      && t.locks.fexlock == (if last then s.locks.fexlock - {f} else s.locks.fexlock)
      && (forall q: Proc :: Undisturbed(StatusOf(s, q), StatusOf(t, q)))
  {
    hide Run, Unlock, Wake, Undisturbed, Refs;
    var s := Run(actions);
    EveryRunIsSafe(actions);
    var f := s.fds[fd].file;
    var e := Unlock(s.locks, f, true, true);
    UnlockKeeps(s.locks, f, true, true);
    LastMeans(s, fd);
    forall q: Proc
      ensures Undisturbed(StatusOf(s, q), StatusOf(Step(s, Close(p, fd)), q))
    {
      StaysPut(StatusOf(s, q));
      ApplyUndisturbs(s.(fds := s.fds - {fd}), e, q);
    }
  }

  lemma LastMeans(s: State, fd: Fd)
    requires Counted(s) && fd in s.fds
    ensures var f := s.fds[fd].file;
      s.fcount[f] > 1 <==> exists d :: d in s.fds && d != fd && s.fds[d].file == f
  {
    var f := s.fds[fd].file;
    assert fd in Refs(s, f);
    if s.fcount[f] > 1 {
      AnotherOne(Refs(s, f), fd);
    } else {
      LastReference(s, f, fd);
      assert forall d :: d in s.fds && s.fds[d].file == f ==> d in Refs(s, f);
    }
  }

  lemma AnotherOne(fds: set<Fd>, fd: Fd)
    requires fd in fds && |fds| > 1
    ensures exists d :: d in fds && d != fd
  {
    var rest := fds - {fd};
    assert |rest| > 0;
    var d :| d in rest;
  }

  // ----- the code itself -----

  /** The lock words of a vnode and its files, and the processes in the lock code, changed in place. */
  class Vnode {
    var vshlock: bool
    var vexlock: bool
    var vlwait: bool
    var shlockc: int
    var exlockc: int
    var fshlock: set<File>
    var fexlock: set<File>
    var status: map<Proc, Status>

    function Words(): Locks
      reads this
    {
      Locks(vshlock, vexlock, vlwait, shlockc, exlockc, fshlock, fexlock)
    }

    /** wakeup() on one of the two channels. */
    method Wakeup(sh: bool, ex: bool)
      modifies this`status
      ensures status == Wake(old(status), Effect(Words(), sh, ex, false))
    {
      status := Wake(status, Effect(Words(), sh, ex, false));
    }

    /** vno_bsd_unlock. Its two panics are the asserted conditions. */
    method BsdUnlock(f: File, sh: bool, ex: bool)
      requires Consistent(Words())
      modifies this
      ensures Words() == Unlock(old(Words()), f, sh, ex).locks
      ensures status == Wake(old(status), Unlock(old(Words()), f, sh, ex))
    {
      var kindSh, kindEx := sh && f in fshlock, ex && f in fexlock;
      ghost var w := Words();
      NoWake(status, Effect(w, false, false, false));
      if !kindSh && !kindEx {
        return;
      }
      var waiting := vlwait;
      if kindSh {
        assert vshlock;
        assert !kindEx;
        shlockc := shlockc - 1;
        if shlockc == 0 {
          vshlock := false;
          if waiting { Wakeup(true, false); }
        }
        fshlock := fshlock - {f};
      }
      if kindEx {
        assert vexlock;
        exlockc := exlockc - 1;
        if exlockc == 0 {
          vexlock, vlwait := false, false;
          if waiting { Wakeup(false, true); }
        }
        fexlock := fexlock - {f};
      }
    }

    /** The `while` at the head of vno_bsd_lock: true when another file's exclusive lock is in the way. */
    method DropExclusive(f: File, ghost w: Locks, ghost st: map<Proc, Status>, ghost u: Effect) returns (blocked: bool)
      requires Consistent(w) && Consistent(u.locks) && Released(w, st, u, Words(), status)
      requires u.locks.fexlock == w.fexlock - {f} && (f in w.fexlock ==> Unlock(w, f, false, true) == u)
      modifies this
      ensures Released(w, st, u, Words(), status)
      ensures blocked <==> vexlock
      ensures blocked ==> f !in fexlock
      ensures fshlock == old(fshlock) || f in w.fexlock
    {
      while vexlock
        invariant Released(w, st, u, Words(), status)
        invariant fshlock == old(fshlock) || f in w.fexlock
        decreases fexlock
      {
        if f !in fexlock {
          return true;
        }
        BsdUnlock(f, false, true);
      }
      return false;
    }

    /** The assignments at the end of vno_bsd_lock; the asserted condition is its panic. */
    method Take(f: File, mode: Mode)
      requires Consistent(Words()) && !vexlock
      modifies this`shlockc, this`vshlock, this`fshlock, this`exlockc, this`vexlock, this`fexlock
      ensures Words() == Grant(old(Words()), f, mode)
    {
      assert f !in fexlock;
      if mode == Exclusive {
        exlockc := exlockc + 1;
        vexlock := true;
        fexlock := fexlock + {f};
      }
      if mode == Shared && f !in fshlock {
        shlockc := shlockc + 1;
        vshlock := true;
        fshlock := fshlock + {f};
      }
    }

    /**
     * The retry structure of vno_bsd_lock: drop the file's own locks that are
     * in the way and say which channel is still to be waited for, if any.
     */
    method DropOwn(f: File, mode: Mode) returns (wait: Outcome)
      requires Consistent(Words())
      modifies this
      ensures var u := Unlock(old(Words()), f, mode == Exclusive, true);
        Words() == u.locks && status == Wake(old(status), u)
      ensures Consistent(Words())
      ensures wait == if vexlock then SleepEx else if mode == Exclusive && vshlock then SleepSh else Granted
    {
      ghost var w, u := Words(), Unlock(Words(), f, mode == Exclusive, true);
      UnlockKeeps(w, f, mode == Exclusive, true);
      OwnLockIsOneKind(w, f, mode, status);
      var again := true;
      while again
        invariant Released(w, old(status), u, Words(), status)
        invariant !again ==> !vexlock && !(mode == Exclusive && vshlock)
        decreases again, fshlock
      {
        again := false;
        var blocked := DropExclusive(f, w, old(status), u);
        if blocked {
          return SleepEx;
        }
        if mode == Exclusive && vshlock {
          if f !in fshlock {
            return SleepSh;
          }
          BsdUnlock(f, true, false);
          again := true;
        }
      }
      return Granted;
    }

    /**
     * vno_bsd_lock from `again` until it returns or sleeps, by process p
     * through descriptor fd of file f.
     */
    method BsdLock(p: Proc, fd: Fd, f: File, req: Request) returns (out: Outcome)
      requires Consistent(Words())
      modifies this
      ensures Words() == Attempt(old(Words()), f, req).0.locks
      ensures out == Attempt(old(Words()), f, req).1
      ensures status == Wake(old(status), Attempt(old(Words()), f, req).0)[p := Parked(out, fd, req)]
    {
      hide Unlock, Wake, Consistent, Parked, Attempt, Finish, Grant;
      ghost var w, st, u := Words(), status, Unlock(Words(), f, req.mode == Exclusive, true);
      AttemptCases(w, f, req);
      SameWake(st, u, Attempt(w, f, req).0);
      out := DropOwn(f, req.mode);
      BitsSay(Words());
      if out == Granted {
        Take(f, req.mode);
      } else if req.nonblocking {
        out := WouldBlock;
      } else {
        vlwait := true;
      }
      status := status[p := Parked(out, fd, req)];
    }

    /** vno_bsd_lock from its first line: a file that has the lock it asks for returns at once. */
    method FlockFile(ghost s: State, p: Proc, fd: Fd, f: File, req: Request) returns (out: Outcome)
      requires Inv(s) && s.locks == Words() && s.status == status
      requires Enabled(s, Flock(p, fd, req)) && s.fds[fd].file == f
      modifies this
      ensures var t := Step(s, Flock(p, fd, req)); Words() == t.locks && status == t.status
      ensures out == Granted <==> !Excluded(s.locks, f, req.mode)
    {
      hide Consistent, Attempt, Wake, Counted, NoLostWakeup, OwnDescriptors;
      if (f in fexlock && req.mode == Exclusive) || (f in fshlock && req.mode == Shared) {
        HolderIsFree(s.locks, f, req.mode);
        return Granted;
      }
      AttemptMeaning(s.locks, f, req);
      out := BsdLock(p, fd, f, req);
    }
  }

  /** An attempt by its outcome. */
  lemma AttemptCases(l: Locks, f: File, req: Request)
    ensures var (e, out) := Attempt(l, f, req);
      var u := Unlock(l, f, req.mode == Exclusive, true);
      && e.wakeSh == u.wakeSh && e.wakeEx == u.wakeEx
      && (out == Granted <==> u.locks.fexlock == {} && (req.mode == Exclusive ==> u.locks.fshlock == {}))
      && (out != Granted ==> out == if req.nonblocking then WouldBlock
                                    else if u.locks.fexlock != {} then SleepEx else SleepSh)
      && e.locks == (if out == Granted then Grant(u.locks, f, req.mode)
                     else if out == WouldBlock then u.locks else u.locks.(vlwait := true))
  {
    hide Unlock, Grant;
  }

  lemma BitsSay(l: Locks)
    requires Consistent(l)
    ensures (l.vexlock <==> l.fexlock != {}) && (l.vshlock <==> l.fshlock != {})
  {
  }

  lemma SameWake(status: map<Proc, Status>, e: Effect, e': Effect)
    requires e.wakeSh == e'.wakeSh && e.wakeEx == e'.wakeEx
    ensures Wake(status, e) == Wake(status, e')
  {
  }

  lemma NoWake(status: map<Proc, Status>, e: Effect)
    requires !e.wakeSh && !e.wakeEx
    ensures Wake(status, e) == status
  {
  }

  /** Where the retry loop can be: nothing released yet, or the file's own locks gone. */
  ghost predicate Released(w: Locks, st: map<Proc, Status>, u: Effect, now: Locks, status: map<Proc, Status>) {
    || (now == w && status == st)
    || (now == u.locks && status == Wake(st, u))
  }

  /** A file never holds both kinds, so dropping the kind in the way drops all that matters. */
  lemma OwnLockIsOneKind(w: Locks, f: File, mode: Mode, st: map<Proc, Status>)
    requires Consistent(w)
    ensures var u := Unlock(w, f, mode == Exclusive, true);
      && (f in w.fexlock ==> Unlock(w, f, false, true) == u)
      && (mode == Exclusive && f in w.fshlock ==> Unlock(w, f, true, false) == u)
      && (f !in w.fexlock && !(mode == Exclusive && f in w.fshlock) ==> u.locks == w && Wake(st, u) == st)
  {
    UnlockKeeps(w, f, mode == Exclusive, true);
  }
}
