/**
 * The mark phase of the garbage collector for descriptors in flight between
 * Unix-domain sockets.
 *
 * Files are marked in passes over the file table; a file found in a queued
 * message is marked and deferred, and passes go on while any file is
 * deferred. The phase is proved to mark exactly the reachable files, and to
 * terminate exactly when no reachable file in flight has a zero count.
 */
module UnixGc {

  type File = nat

  /** An mbuf of a queued record; `files` is empty when m_len is zero or the mbuf is not MT_RIGHTS. */
  datatype Mbuf = Rights(files: seq<File>) | Data

  type Record = seq<Mbuf>

  /** A socket of the Unix domain that can carry rights: its receive buffer. */
  datatype Socket = Socket(locked: bool, records: seq<Record>)

  datatype Option<+T> = None | Some(value: T)

  /** A file table entry; sock is None for every file the collector does not look into. */
  datatype Entry = Entry(count: int, msgcount: int, sock: Option<Socket>)

  /** The file list, in list order. */
  type Table = seq<Entry>

  /** The first non-empty rights mbuf of a record, from position i: unp_scan stops at it. */
  function FirstRights(r: Record, i: nat): seq<File>
    requires i <= |r|
    decreases |r| - i
  {
    if i == |r| then []
    else if r[i].Rights? && r[i].files != [] then r[i].files
    else FirstRights(r, i + 1)
  }

  function Elems(s: seq<File>): set<File> {
    set f | f in s
  }

  /** The files unp_scan hands to its operation, from record k on. */
  function Scanned(rs: seq<Record>, k: nat): set<File>
    requires k <= |rs|
    decreases |rs| - k
  {
    if k == |rs| then {} else Elems(FirstRights(rs[k], 0)) + Scanned(rs, k + 1)
  }

  /** The files that file f keeps alive. */
  function Targets(t: Table, f: File): set<File>
    requires f < |t|
  {
    if t[f].sock.Some? then Scanned(t[f].sock.value.records, 0) else {}
  }

  /** Messages only hold files of the table. */
  predicate WellFormed(t: Table) {
    forall f, g :: 0 <= f < |t| && g in Targets(t, f) ==> g < |t|
  }

  /** Referenced from outside the messages in flight. */
  predicate Root(t: Table, f: File) {
    f < |t| && t[f].count != 0 && t[f].count != t[f].msgcount
  }

  /** A chain of files, each but the last one live, each found in a message held by the one before. */
  ghost predicate Path(t: Table, p: seq<File>) {
    && p != []
    && (forall i :: 0 <= i < |p| ==> p[i] < |t|)
    && Root(t, p[0])
    && (forall i :: 0 <= i < |p| - 1 ==> t[p[i]].count != 0 && p[i + 1] in Targets(t, p[i]))
  }

  ghost predicate Reachable(t: Table, f: File) {
    exists p :: Path(t, p) && p[|p| - 1] == f
  }

  /** FMARK and FDEFER bits; unp_defer is the number of deferred files. */
  datatype Marks = Marks(mark: set<File>, defer: set<File>)

  const CLEAR := Marks({}, {})

  /** unp_mark on every file of a set. */
  function MarkAll(m: Marks, fs: set<File>): Marks {
    Marks(m.mark + fs, m.defer + (fs - m.mark))
  }

  /** The body of the collector's inner loop for file f. */
  function Visit(t: Table, m: Marks, f: File): Marks
    requires f < |t|
  {
    if t[f].count == 0 then m
    else if f in m.defer then MarkAll(Marks(m.mark, m.defer - {f}), Targets(t, f))
    else if f in m.mark || t[f].count == t[f].msgcount then m
    else MarkAll(Marks(m.mark + {f}, m.defer), Targets(t, f))
  }

  /** The first n files visited in list order. */
  function Visited(t: Table, m: Marks, n: nat): Marks
    requires n <= |t|
  {
    if n == 0 then m else Visit(t, Visited(t, m, n - 1), n - 1)
  }

  function Pass(t: Table, m: Marks): Marks {
    Visited(t, m, |t|)
  }

  function Passes(t: Table, k: nat): Marks {
    if k == 0 then CLEAR else Pass(t, Passes(t, k - 1))
  }

  // ----- what every visit keeps -----

  /** Processed files have all their targets marked. */
  ghost predicate Closed(t: Table, m: Marks) {
    forall f, g :: 0 <= f < |t| && f in m.mark && f !in m.defer && g in Targets(t, f) ==> g in m.mark
  }

  /** The invariant of the mark phase. */
  ghost predicate Inv(t: Table, m: Marks) {
    && m.defer <= m.mark
    && (forall f :: f in m.mark ==> f < |t| && Reachable(t, f))
    && Closed(t, m)
    && (forall f :: f in m.mark && t[f].count == 0 ==> f in m.defer)
  }

  lemma ExtendPath(t: Table, f: File, g: File)
    requires f < |t| && Reachable(t, f) && t[f].count != 0 && g in Targets(t, f) && WellFormed(t)
    ensures Reachable(t, g)
  {
    var p :| Path(t, p) && p[|p| - 1] == f;
    var q := p + [g];
    assert Path(t, q) && q[|q| - 1] == g;
  }

  lemma RootReachable(t: Table, f: File)
    requires Root(t, f)
    ensures Reachable(t, f)
  {
    assert Path(t, [f]) && [f][0] == f;
  }

  lemma VisitKeeps(t: Table, m: Marks, f: File)
    requires WellFormed(t) && Inv(t, m) && f < |t|
    ensures Inv(t, Visit(t, m, f))
    ensures m.mark <= Visit(t, m, f).mark
    ensures Root(t, f) ==> f in Visit(t, m, f).mark
  {
    if Root(t, f) { RootReachable(t, f); }
    if t[f].count != 0 && (f in m.mark || Root(t, f)) {
      forall g | g in Targets(t, f) ensures Reachable(t, g) {
        ExtendPath(t, f, g);
      }
    }
  }

  /** What a prefix of a pass has achieved. */
  lemma {:induction false} VisitedKeeps(t: Table, m: Marks, n: nat)
    requires WellFormed(t) && Inv(t, m) && n <= |t|
    ensures var v := Visited(t, m, n);
      && Inv(t, v) && m.mark <= v.mark
      && v.defer - m.defer <= v.mark - m.mark
      && (forall f :: 0 <= f < n && Root(t, f) ==> f in v.mark)
      && (forall f :: 0 <= f < n && t[f].count != 0 && f in v.defer && f in m.mark ==> v.mark != m.mark)
  {
    hide Closed, Reachable, Visit, WellFormed, Root;
    if n > 0 {
      VisitedKeeps(t, m, n - 1);
      var u := Visited(t, m, n - 1);
      VisitKeeps(t, u, n - 1);
      VisitDefers(t, u, n - 1);
    }
  }

  /** A visit defers only files it marks, and undefers the live file it visits. */
  lemma VisitDefers(t: Table, m: Marks, f: File)
    requires f < |t| && m.defer <= m.mark
    ensures var v := Visit(t, m, f);
      && v.defer - m.defer <= v.mark - m.mark
      && (t[f].count != 0 && f in m.mark ==> f !in v.defer)
  {
  }

  lemma {:induction false} PassesKeep(t: Table, k: nat)
    requires WellFormed(t)
    ensures Inv(t, Passes(t, k))
    ensures k > 0 ==> forall f: File :: Root(t, f) ==> f in Passes(t, k).mark
  {
    if k > 0 {
      PassesKeep(t, k - 1);
      VisitedKeeps(t, Passes(t, k - 1), |t|);
    }
  }

  /** With nothing deferred, marks spread along every path. */
  lemma {:induction false} PathMarked(t: Table, m: Marks, p: seq<File>)
    requires Inv(t, m) && m.defer == {} && Path(t, p)
    requires forall f: File :: Root(t, f) ==> f in m.mark
    ensures p[|p| - 1] in m.mark
  {
    if |p| > 1 {
      var q := p[..|p| - 1];
      assert Path(t, q);
      PathMarked(t, m, q);
      assert p[|p| - 1] in Targets(t, p[|p| - 2]);
    }
  }

  /** When the loop ends the marks are exactly the reachable files, and each of them is live. */
  lemma MarksAreReachable(t: Table, k: nat)
    requires WellFormed(t) && k > 0 && Passes(t, k).defer == {}
    ensures forall f: File :: f in Passes(t, k).mark <==> Reachable(t, f)
    ensures forall f: File :: Reachable(t, f) ==> f < |t| && t[f].count != 0
  {
    PassesKeep(t, k);
    var m := Passes(t, k);
    forall f: File | Reachable(t, f) ensures f in m.mark {
      var p :| Path(t, p) && p[|p| - 1] == f;
      PathMarked(t, m, p);
    }
  }

  /** No reachable file in flight has lost all its references. */
  ghost predicate AllLive(t: Table) {
    forall f: File :: Reachable(t, f) ==> f < |t| && t[f].count != 0
  }

  ghost predicate Collectable(t: Table) {
    WellFormed(t) && AllLive(t)
  }

  /** A pass that starts with a deferred file marks a new one or leaves none deferred. */
  lemma PassProgress(t: Table, m: Marks)
    requires WellFormed(t) && Inv(t, m) && AllLive(t)
    ensures var v := Pass(t, m);
      v.mark > m.mark || (v.mark == m.mark && v.defer == {})
  {
    VisitedKeeps(t, m, |t|);
    var v := Pass(t, m);
    if v.mark == m.mark {
      forall f | f in v.mark ensures t[f].count != 0 {
        assert Reachable(t, f);
      }
    }
  }

  lemma MarksBounded(t: Table, m: Marks)
    requires Inv(t, m)
    ensures |m.mark| <= |t|
  {
    SubsetSize(m.mark, UpTo(|t|));
  }

  function UpTo(n: nat): (r: set<File>)
    ensures |r| == n
    ensures forall f: File :: f in r <==> f < n
  {
    if n == 0 then {} else UpTo(n - 1) + {n - 1}
  }

  lemma {:induction false} SubsetSize<T>(a: set<T>, b: set<T>)
    requires a <= b
    ensures |a| <= |b|
    ensures a < b ==> |a| < |b|
  {
    if a != {} {
      var x :| x in a;
      SubsetSize(a - {x}, b - {x});
    }
  }

  /** The passes settle after at most one more pass than there are unmarked files. */
  lemma {:induction false} PassesSettle(t: Table, k: nat) returns (n: nat)
    requires WellFormed(t) && AllLive(t)
    ensures n > k && Passes(t, n).defer == {}
    decreases |t| - |Passes(t, k).mark|
  {
    PassesKeep(t, k);
    PassesKeep(t, k + 1);
    PassProgress(t, Passes(t, k));
    MarksBounded(t, Passes(t, k + 1));
    if Passes(t, k + 1).mark == Passes(t, k).mark {
      n := k + 1;
    } else {
      SubsetSize(Passes(t, k).mark, Passes(t, k + 1).mark);
      n := PassesSettle(t, k + 1);
    }
  }

  /** The mark phase stops exactly when every reachable file is live. */
  lemma StopsIffAllLive(t: Table)
    requires WellFormed(t)
    ensures (exists k: nat :: k > 0 && Passes(t, k).defer == {}) <==> AllLive(t)
  {
    if k: nat :| k > 0 && Passes(t, k).defer == {} {
      MarksAreReachable(t, k);
    }
    if AllLive(t) {
      var k := PassesSettle(t, 0);
    }
  }

  /**
   * The kernel's bookkeeping gives that condition: a file in a message has a
   * positive message count, and no count is below its message count. Then the
   * roots are the files referenced from outside.
   */
  lemma CountedTableIsLive(t: Table)
    requires WellFormed(t)
    requires forall f :: 0 <= f < |t| ==> t[f].count >= t[f].msgcount >= 0
    requires forall f, g :: 0 <= f < |t| && g in Targets(t, f) ==> t[g].msgcount > 0
    ensures AllLive(t)
    ensures forall f: File :: Root(t, f) <==> f < |t| && t[f].count > t[f].msgcount
  {
    forall f: File | Reachable(t, f) ensures f < |t| && t[f].count != 0 {
      var p :| Path(t, p) && p[|p| - 1] == f;
      if |p| > 1 {
        assert p[|p| - 2] < |t| && p[|p| - 1] in Targets(t, p[|p| - 2]);
      }
    }
  }

  // ----- one rights mbuf per record -----

  /** The files of every rights mbuf of a record. */
  function AllRights(r: Record): set<File> {
    set i, f | 0 <= i < |r| && r[i].Rights? && f in r[i].files :: f
  }

  /** At most one mbuf of the record carries files. */
  predicate OneRights(r: Record) {
    forall i, j :: 0 <= i < j < |r| && r[i].Rights? && r[j].Rights? ==> r[i].files == [] || r[j].files == []
  }

  lemma OnlyOne(r: Record, i: nat, j: nat)
    requires OneRights(r) && i < |r| && j < |r| && r[i].Rights? && r[j].Rights? && r[i].files != [] && r[j].files != []
    ensures i == j
  {
  }

  /** Stopping at the first rights mbuf misses nothing when a record has one. */
  lemma FirstRightsAreAll(r: Record)
    requires OneRights(r)
    ensures Elems(FirstRights(r, 0)) == AllRights(r)
  {
    var k := FirstIndex(r, 0);
    if k < |r| {
      forall i: nat, f | i < |r| && r[i].Rights? && f in r[i].files ensures i == k {
        OnlyOne(r, i, k);
      }
    }
  }

  /** All the files in messages, from record k on. */
  function AllScanned(rs: seq<Record>, k: nat): set<File>
    requires k <= |rs|
    decreases |rs| - k
  {
    if k == |rs| then {} else AllRights(rs[k]) + AllScanned(rs, k + 1)
  }

  /** The files that file f holds in messages, whether or not unp_scan would see them. */
  function Held(t: Table, f: File): set<File>
    requires f < |t|
  {
    if t[f].sock.Some? then AllScanned(t[f].sock.value.records, 0) else {}
  }

  ghost predicate HeldPath(t: Table, p: seq<File>) {
    && p != []
    && (forall i :: 0 <= i < |p| ==> p[i] < |t|)
    && Root(t, p[0])
    && (forall i :: 0 <= i < |p| - 1 ==> t[p[i]].count != 0 && p[i + 1] in Held(t, p[i]))
  }

  /** Reachable through all the rights that are queued. */
  ghost predicate HeldReachable(t: Table, f: File) {
    exists p :: HeldPath(t, p) && p[|p| - 1] == f
  }

  /** At most one rights mbuf in every record of every socket. */
  ghost predicate OneRightsEach(t: Table) {
    forall f, k :: 0 <= f < |t| && t[f].sock.Some? && 0 <= k < |t[f].sock.value.records| ==>
      OneRights(t[f].sock.value.records[k])
  }

  lemma {:induction false} ScannedIsAll(rs: seq<Record>, k: nat)
    requires k <= |rs| && forall i :: 0 <= i < |rs| ==> OneRights(rs[i])
    ensures Scanned(rs, k) == AllScanned(rs, k)
    decreases |rs| - k
  {
    if k < |rs| {
      FirstRightsAreAll(rs[k]);
      ScannedIsAll(rs, k + 1);
    }
  }

  lemma TargetsAreHeld(t: Table, f: File)
    requires OneRightsEach(t) && f < |t|
    ensures Targets(t, f) == Held(t, f)
  {
    if t[f].sock.Some? {
      var rs := t[f].sock.value.records;
      forall i | 0 <= i < |rs|
        ensures OneRights(rs[i])
      {
        assert OneRights(t[f].sock.value.records[i]);
      }
      ScannedIsAll(rs, 0);
    }
  }

  lemma SamePaths(t: Table, p: seq<File>)
    requires OneRightsEach(t)
    ensures Path(t, p) <==> HeldPath(t, p)
  {
    hide Targets, Held, OneRightsEach;
    forall i | 0 <= i < |p| && p[i] < |t|
      ensures Targets(t, p[i]) == Held(t, p[i])
    {
      TargetsAreHeld(t, p[i]);
    }
  }

  /**
   * With at most one rights mbuf in a record, the mark phase ends with the
   * marks on exactly the files reachable through all queued rights.
   */
  lemma MarksAreHeldReachable(t: Table, k: nat)
    requires WellFormed(t) && OneRightsEach(t) && k > 0 && Passes(t, k).defer == {}
    ensures forall f: File :: f in Passes(t, k).mark <==> HeldReachable(t, f)
  {
    hide Path, HeldPath, Passes, OneRightsEach;
    MarksAreReachable(t, k);
    forall f: File
      ensures Reachable(t, f) <==> HeldReachable(t, f)
    {
      forall p
        ensures Path(t, p) <==> HeldPath(t, p)
      {
        SamePaths(t, p);
      }
    }
  }

  lemma {:induction false} FirstIndex(r: Record, i: nat) returns (k: nat)
    requires i <= |r|
    ensures i <= k <= |r|
    ensures forall j :: i <= j < k ==> !(r[j].Rights? && r[j].files != [])
    ensures k < |r| ==> r[k].Rights? && r[k].files != [] && FirstRights(r, i) == r[k].files
    ensures k == |r| ==> FirstRights(r, i) == []
    decreases |r| - i
  {
    if i == |r| || (r[i].Rights? && r[i].files != []) {
      k := i;
    } else {
      k := FirstIndex(r, i + 1);
    }
  }

  /** With a second rights mbuf in one record its files are not seen. */
  lemma SecondRightsMissed(f: File, g: File)
    requires f != g
    ensures g in AllRights([Rights([f]), Rights([g])])
    ensures g !in FirstRights([Rights([f]), Rights([g])], 0)
  {
    var r := [Rights([f]), Rights([g])];
    assert r[1].Rights? && g in r[1].files;
  }

  // ----- the code itself -----

  lemma MarkNone(m: Marks)
    ensures MarkAll(m, {}) == m
  {
  }

  lemma MarkAllTwice(m: Marks, a: set<File>, b: set<File>)
    ensures MarkAll(MarkAll(m, a), b) == MarkAll(m, a + b)
  {
  }

  /** A socket whose receive buffer is locked makes the collector wait and start over. */
  predicate HasLocked(t: Table) {
    exists f :: 0 <= f < |t| && t[f].sock.Some? && t[f].sock.value.locked
  }

  lemma LockedFile(t: Table, f: File)
    requires f < |t| && t[f].sock.Some? && t[f].sock.value.locked
    ensures HasLocked(t)
  {
  }

  class Collector {
    var fmark: set<File>
    var fdefer: set<File>
    var unpDefer: int

    function M(): Marks
      reads this
    {
      Marks(fmark, fdefer)
    }

    /** unp_defer counts the files with FDEFER, which all have FMARK. */
    ghost predicate Counted()
      reads this
    {
      unpDefer == |fdefer| && fdefer <= fmark
    }

    /** Nothing is deferred and the marks are exactly the reachable files. */
    ghost predicate Settled(t: Table)
      reads this
    {
      unpDefer == 0 && fdefer == {} && forall f: File :: f in fmark <==> Reachable(t, f)
    }

    /** unp_mark. */
    method UnpMark(f: File)
      requires Counted()
      modifies this
      ensures Counted() && M() == MarkAll(old(M()), {f})
    {
      if f in fmark {
        return;
      }
      unpDefer := unpDefer + 1;
      fmark, fdefer := fmark + {f}, fdefer + {f};
    }

    /** The innermost loop of unp_scan: the operation on each file of an mbuf. */
    method MarkFiles(fs: seq<File>)
      requires Counted()
      modifies this
      ensures Counted() && M() == MarkAll(old(M()), Elems(fs))
    {
      for i := 0 to |fs|
        invariant Counted() && M() == MarkAll(old(M()), Elems(fs[..i]))
      {
        MarkAllTwice(old(M()), Elems(fs[..i]), {fs[i]});
        assert Elems(fs[..i + 1]) == Elems(fs[..i]) + {fs[i]};
        UnpMark(fs[i]);
      }
      assert fs[..|fs|] == fs;
    }

    /** The walk along one record: stop at the first rights mbuf that is not empty. */
    method ScanRecord(m: Record)
      requires Counted()
      modifies this
      ensures Counted() && M() == MarkAll(old(M()), Elems(FirstRights(m, 0)))
    {
      var i := 0;
      while i < |m| && !(m[i].Rights? && m[i].files != [])
        invariant 0 <= i <= |m| && FirstRights(m, 0) == FirstRights(m, i)
      {
        i := i + 1;
      }
      assert MarkAll(M(), {}) == M();
      if i < |m| {
        MarkFiles(m[i].files);
      }
    }

    /** unp_scan with unp_mark: every record. */
    method UnpScan(records: seq<Record>)
      requires Counted()
      modifies this
      ensures Counted() && M() == MarkAll(old(M()), Scanned(records, 0))
    {
      hide MarkAll, FirstRights, Elems, Counted;
      MarkNone(M());
      ghost var done: set<File> := {};
      for k := 0 to |records|
        invariant Counted() && M() == MarkAll(old(M()), done)
        invariant Scanned(records, 0) == done + Scanned(records, k)
      {
        ghost var fs := Elems(FirstRights(records[k], 0));
        MarkAllTwice(old(M()), done, fs);
        ScanRecord(records[k]);
        done := done + fs;
      }
      assert done + {} == done;
    }

    method Undefer(f: File)
      requires Counted() && f in fdefer
      modifies this`fdefer, this`unpDefer
      ensures Counted() && fdefer == old(fdefer) - {f}
    {
      fdefer := fdefer - {f};
      unpDefer := unpDefer - 1;
    }

    /** The body of the inner loop for file f; abandoned, before its messages are scanned, if the buffer is locked. */
    method VisitFile(t: Table, f: File) returns (blocked: bool)
      requires Counted() && f < |t|
      modifies this
      ensures Counted()
      ensures !blocked ==> M() == Visit(t, old(M()), f)
      ensures blocked ==> HasLocked(t)
    {
      hide MarkAll, Scanned, HasLocked;
      blocked := false;
      if t[f].count == 0 {
        return;
      }
      if f in fdefer {
        Undefer(f);
      } else {
        if f in fmark || t[f].count == t[f].msgcount {
          return;
        }
        fmark := fmark + {f};
      }
      if t[f].sock.None? {
        MarkNone(M());
        return;
      }
      if t[f].sock.value.locked {
        LockedFile(t, f);
        return true;
      }
      UnpScan(t[f].sock.value.records);
    }

    /** One pass over the file list, abandoned at a locked receive buffer. */
    method RunPass(t: Table) returns (blocked: bool)
      requires Counted()
      modifies this
      ensures Counted()
      ensures !blocked ==> M() == Pass(t, old(M()))
      ensures blocked ==> HasLocked(t)
    {
      hide Visit, HasLocked;
      for f := 0 to |t|
        invariant Counted() && M() == Visited(t, old(M()), f)
      {
        blocked := VisitFile(t, f);
        if blocked {
          return;
        }
      }
      return false;
    }

    /** From `restart` to the end of the do-while: clear the bits, then pass while files are deferred. */
    method MarkPhase(t: Table) returns (blocked: bool)
      requires Collectable(t)
      modifies this
      ensures blocked ==> HasLocked(t)
      ensures !blocked ==> Settled(t)
    {
      fmark, fdefer, unpDefer := {}, {}, 0;
      ghost var k := 0;
      blocked := RunPass(t);
      if blocked { return; }
      k := 1;
      while unpDefer > 0
        invariant Counted() && k > 0 && M() == Passes(t, k)
        decreases |t| - |fmark|, |fdefer|
      {
        PassesKeep(t, k);
        PassesKeep(t, k + 1);
        PassProgress(t, Passes(t, k));
        MarksBounded(t, Passes(t, k + 1));
        SubsetSize(Passes(t, k).mark, Passes(t, k + 1).mark);
        blocked := RunPass(t);
        if blocked { return; }
        k := k + 1;
      }
      MarksAreReachable(t, k);
    }

    /**
     * The whole mark phase with its waits: worlds[i] is the file table found
     * after the i-th wait for a locked buffer. It ends in the first world where
     * it meets no locked buffer, with the marks of that world.
     */
    method Gc(worlds: seq<Table>) returns (k: nat)
      requires forall i :: 0 <= i < |worlds| ==> Collectable(worlds[i])
      modifies this
      ensures k <= |worlds|
      ensures forall i :: 0 <= i < k ==> HasLocked(worlds[i])
      ensures k < |worlds| ==> Settled(worlds[k])
    {
      hide HasLocked, Collectable, Reachable;
      k := 0;
      while k < |worlds|
        invariant k <= |worlds|
        invariant forall i :: 0 <= i < k ==> HasLocked(worlds[i])
      {
        var blocked := MarkPhase(worlds[k]);
        if !blocked {
          return;
        }
        k := k + 1;
      }
    }
  }
}
