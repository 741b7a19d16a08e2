/**
 * The buffer cache as a machine. Processes seize buffers, write them at once
 * or later, grow and shrink them, reuse them for other blocks; the device
 * completes transfers at any time. Each action is what the code does between
 * two points where it can sleep.
 *
 * Sizes are in fragments of one device block. Over every run no fragment is
 * mapped by two valid buffers, nothing that has not reached the disk is
 * dropped, and a buffer that is marked done holds what was last written.
 */
module BufferCache {

  /** Fragments in the largest block; blocks lie within aligned groups of this size. */
  const RND := 8

  datatype Option<T> = None | Some(value: T)

  datatype Transfer = Idle | Reading | Writing

  /** B_BUSY: nobody, a process, or the device for an asynchronous transfer. */
  datatype Holder = Free | Held(pid: nat) | Device

  datatype Buf = Buf(vp: Option<nat>, blkno: nat, data: seq<int>, done: bool, delwri: bool, inval: bool,
                     holder: Holder, io: Transfer)

  /**
   * The buffers, what is on the disk, and what was last written to each
   * fragment of each vnode. `scanned` remembers a finished search for
   * overlaps; it matters only if the allocation after it can sleep.
   */
  datatype State = State(bufs: seq<Buf>, disk: (nat, nat) -> int, last: (nat, nat) -> int, scanned: map<nat, nat>)

  /** Does the buffer stand for fragment k of vnode v? */
  predicate Maps(b: Buf, v: nat, k: nat) {
    b.vp == Some(v) && !b.inval && b.blkno <= k < b.blkno + |b.data|
  }

  /** Its contents have yet to reach the disk. */
  predicate Dirty(b: Buf) {
    b.delwri || b.io == Writing
  }

  predicate Within(blkno: nat, n: nat) {
    blkno % RND + n <= RND
  }

  // ----- Actions -----

  datatype Action =
    | Seize(pid: nat, i: nat)                             // notavail
    | Release(pid: nat, i: nat)                           // brelse
    | Invalidate(pid: nat, i: nat)                        // B_INVAL and brelse, on a clean overlapping buffer
    | Reuse(pid: nat, i: nat, vp: Option<nat>, blkno: nat) // end of getnewbuf, and the new identity
    | Write(pid: nat, i: nat, data: seq<int>, async: bool) // bwrite or bawrite by the holder
    | Flush(pid: nat, i: nat, async: bool)                // bwrite of a delayed-write buffer
    | Delay(pid: nat, i: nat, data: seq<int>)             // bdwrite
    | Read(pid: nat, i: nat, async: bool)                 // the strategy call of bread
    | Complete(i: nat)                                    // biodone
    | Shrink(pid: nat, i: nat, n: nat)                    // brealloc to a smaller size
    | Stale(pid: nat, i: nat)                             // brealloc clears B_DONE before growing
    | Scan(pid: nat, i: nat, n: nat)                      // the search for overlaps ends with none
    | Grow(pid: nat, i: nat, n: nat, junk: seq<int>)      // allocbuf to a larger size

  /** The holder has the buffer and no transfer is under way. */
  predicate Mine(s: State, pid: nat, i: nat) {
    i < |s.bufs| && s.bufs[i].holder == Held(pid) && s.bufs[i].io == Idle
  }

  predicate Known(b: Buf) {
    b.vp.Some? && !b.inval
  }

  /** The test for overlap in brealloc, against fragments start to start + n. */
  predicate Overlaps(e: Buf, v: nat, start: nat, n: nat) {
    e.vp == Some(v) && !e.inval && |e.data| != 0 && !(e.blkno >= start + n) && !(e.blkno + |e.data| <= start)
  }

  /** The buffers the search looks at: those whose block hashes alike. */
  predicate SameChain(e: Buf, blkno: nat) {
    e.blkno / RND == blkno / RND
  }

  predicate NoOverlap(s: State, i: nat, n: nat)
    requires i < |s.bufs|
  {
    s.bufs[i].vp.Some? ==>
      forall j :: 0 <= j < |s.bufs| && j != i && SameChain(s.bufs[j], s.bufs[i].blkno) ==>
        !Overlaps(s.bufs[j], s.bufs[i].vp.value, s.bufs[i].blkno, n)
  }

  /** `atomic`: the allocation follows the search with no sleep in between. */
  predicate Enabled(s: State, a: Action, atomic: bool) {
    match a
    case Seize(p, i) => i < |s.bufs| && s.bufs[i].holder == Free
    case Release(p, i) => Mine(s, p, i)
    case Invalidate(p, i) => Mine(s, p, i) && !s.bufs[i].delwri
    case Reuse(p, i, vp, blkno) => Mine(s, p, i) && !s.bufs[i].delwri
    case Write(p, i, data, async) => Mine(s, p, i) && Known(s.bufs[i]) && |data| == |s.bufs[i].data|
    case Flush(p, i, async) => Mine(s, p, i) && s.bufs[i].delwri
    case Delay(p, i, data) => Mine(s, p, i) && Known(s.bufs[i]) && |data| == |s.bufs[i].data|
    case Read(p, i, async) => Mine(s, p, i) && Known(s.bufs[i]) && !s.bufs[i].done
    case Complete(i) => i < |s.bufs| && s.bufs[i].io != Idle
    case Shrink(p, i, n) => Mine(s, p, i) && !s.bufs[i].delwri && n < |s.bufs[i].data|
    case Stale(p, i) => Mine(s, p, i) && !s.bufs[i].delwri
    case Scan(p, i, n) =>
      Mine(s, p, i) && !s.bufs[i].delwri && !s.bufs[i].done && n > |s.bufs[i].data| && NoOverlap(s, i, n)
    case Grow(p, i, n, junk) =>
      && Mine(s, p, i) && !s.bufs[i].delwri && !s.bufs[i].done && n > |s.bufs[i].data| && |junk| == n
      && (Known(s.bufs[i]) ==> Within(s.bufs[i].blkno, n))
      && (if atomic then NoOverlap(s, i, n) else i in s.scanned && s.scanned[i] == n)
  }

  /** A mapping with the range of a buffer replaced by its contents. */
  function Put(m: (nat, nat) -> int, b: Buf, data: seq<int>): (nat, nat) -> int
    requires |data| == |b.data|
  {
    (v: nat, k: nat) => if Maps(b, v, k) then data[k - b.blkno] else m(v, k)
  }

  function Get(m: (nat, nat) -> int, b: Buf): seq<int> {
    if b.vp.Some? then seq(|b.data|, k requires 0 <= k < |b.data| => m(b.vp.value, b.blkno + k)) else b.data
  }

  function Set(s: State, i: nat, b: Buf): State
    requires i < |s.bufs|
  {
    s.(bufs := s.bufs[i := b], scanned := s.scanned - {i})
  }

  function Step(s: State, a: Action, atomic: bool): State
    requires Enabled(s, a, atomic)
  {
    match a
    case Seize(p, i) => Set(s, i, s.bufs[i].(holder := Held(p)))
    case Release(p, i) => Set(s, i, s.bufs[i].(holder := Free))
    case Invalidate(p, i) => Set(s, i, s.bufs[i].(inval := true, holder := Free))
    case Reuse(p, i, vp, blkno) => Set(s, i, Buf(vp, blkno, [], false, false, vp.None?, Held(p), Idle))
    case Write(p, i, data, async) =>
      var b := s.bufs[i];
      Set(s, i, b.(data := data, done := false, delwri := false, io := Writing,
                     holder := if async then Device else Held(p)))
      .(last := Put(s.last, b, data))
    case Flush(p, i, async) =>
      Set(s, i, s.bufs[i].(done := false, delwri := false, io := Writing, holder := if async then Device else Held(p)))
    case Delay(p, i, data) =>
      var b := s.bufs[i];
      Set(s, i, b.(data := data, done := true, delwri := true, holder := Free)).(last := Put(s.last, b, data))
    case Read(p, i, async) =>
      Set(s, i, s.bufs[i].(io := Reading, holder := if async then Device else Held(p)))
    case Complete(i) =>
      var b := s.bufs[i];
      var holder := if b.holder == Device then Free else b.holder;
      if b.io == Reading then Set(s, i, b.(data := Get(s.disk, b), done := true, io := Idle, holder := holder))
      else Set(s, i, b.(done := true, io := Idle, holder := holder)).(disk := Put(s.disk, b, b.data))
    case Shrink(p, i, n) => Set(s, i, s.bufs[i].(data := s.bufs[i].data[..n]))
    case Stale(p, i) => Set(s, i, s.bufs[i].(done := false))
    case Scan(p, i, n) => s.(scanned := s.scanned[i := n])
    case Grow(p, i, n, junk) => Set(s, i, s.bufs[i].(data := junk))
  }

  // ----- The invariant -----

  /** What holds of one buffer. */
  ghost predicate BufOk(b: Buf, last: (nat, nat) -> int) {
    && (b.done || Dirty(b) ==> forall v: nat, k: nat :: Maps(b, v, k) ==> b.data[k - b.blkno] == last(v, k))
    && (b.delwri ==> b.done && Known(b) && b.io == Idle)
    && (b.io != Idle ==> b.holder != Free && Known(b) && !b.done && !b.delwri)
    && (b.io == Idle ==> b.holder != Device)
    && (Known(b) ==> Within(b.blkno, |b.data|))
  }

  /** No fragment is mapped by two valid buffers. */
  ghost predicate NoneTwice(s: State) {
    forall i, j, v: nat, k: nat {:trigger Maps(s.bufs[i], v, k), Maps(s.bufs[j], v, k)} ::
      0 <= i < j < |s.bufs| ==> !(Maps(s.bufs[i], v, k) && Maps(s.bufs[j], v, k))
  }

  ghost predicate OnDisk(s: State, v: nat, k: nat) {
    s.disk(v, k) == s.last(v, k)
  }

  /** Some buffer still has to bring fragment k of v to the disk. */
  ghost predicate Pending(s: State, v: nat, k: nat) {
    exists i :: 0 <= i < |s.bufs| && Dirty(s.bufs[i]) && Maps(s.bufs[i], v, k)
  }

  ghost predicate Safe(s: State) {
    && NoneTwice(s)
    && (forall i :: 0 <= i < |s.bufs| ==> BufOk(s.bufs[i], s.last))
    && (forall v: nat, k: nat :: OnDisk(s, v, k) || Pending(s, v, k))
  }

  // ----- Every action keeps it -----

  /** No other buffer stands for anything that b does. */
  ghost predicate Alone(s: State, i: nat, b: Buf) {
    forall j, v: nat, k: nat {:trigger Maps(s.bufs[j], v, k)} ::
      0 <= j < |s.bufs| && j != i && Maps(b, v, k) ==> !Maps(s.bufs[j], v, k)
  }

  ghost predicate Shrunk(b: Buf, b1: Buf) {
    forall v: nat, k: nat {:trigger Maps(b1, v, k)} :: Maps(b1, v, k) ==> Maps(b, v, k)
  }

  lemma StillAlone(s: State, i: nat, b1: Buf)
    requires NoneTwice(s) && i < |s.bufs| && Shrunk(s.bufs[i], b1)
    ensures Alone(s, i, b1)
  {
    forall j, v: nat, k: nat | 0 <= j < |s.bufs| && j != i && Maps(b1, v, k)
      ensures !Maps(s.bufs[j], v, k)
    {
      assert Maps(s.bufs[i], v, k);
      NotBoth(s, i, j, v, k);
    }
  }

  lemma NotBoth(s: State, i: nat, j: nat, v: nat, k: nat)
    requires NoneTwice(s) && i < |s.bufs| && j < |s.bufs| && i != j
    ensures !(Maps(s.bufs[i], v, k) && Maps(s.bufs[j], v, k))
  {
    var a, b := if i < j then i else j, if i < j then j else i;
    assert !(Maps(s.bufs[a], v, k) && Maps(s.bufs[b], v, k));
  }

  lemma UpdateNoneTwice(s: State, s1: State, i: nat)
    requires NoneTwice(s) && i < |s.bufs| == |s1.bufs| && s1.bufs == s.bufs[i := s1.bufs[i]] && Alone(s, i, s1.bufs[i])
    ensures NoneTwice(s1)
  {
    forall a, b, v: nat, k: nat | 0 <= a < b < |s1.bufs|
      ensures !(Maps(s1.bufs[a], v, k) && Maps(s1.bufs[b], v, k))
    {
      if a == i {
        assert s1.bufs[b] == s.bufs[b];
      } else if b == i {
        assert s1.bufs[a] == s.bufs[a];
      } else {
        assert !(Maps(s.bufs[a], v, k) && Maps(s.bufs[b], v, k));
      }
    }
  }

  /** The bookkeeping outside buffer i: `last` may change only where i maps. */
  lemma OthersOk(s: State, s1: State, i: nat, j: nat)
    requires Safe(s) && i < |s.bufs| && j < |s.bufs| && i != j
    requires forall v: nat, k: nat :: s1.last(v, k) != s.last(v, k) ==> Maps(s.bufs[i], v, k)
    ensures BufOk(s.bufs[j], s1.last)
  {
    var b := s.bufs[j];
    assert BufOk(b, s.last);
    if b.done || Dirty(b) {
      forall v: nat, k: nat | Maps(b, v, k)
        ensures b.data[k - b.blkno] == s1.last(v, k)
      {
        StillAlone(s, i, s.bufs[i]);
        assert !Maps(s.bufs[i], v, k);
      }
    }
  }

  /**
   * Replacing buffer i keeps the invariant if its new form is sound, stands
   * for nothing that another buffer does, and leaves no fragment that
   * differs from the disk uncovered.
   */
  lemma Update(s: State, s1: State, i: nat)
    requires Safe(s) && i < |s.bufs| == |s1.bufs| && s1.bufs == s.bufs[i := s1.bufs[i]]
    requires Alone(s, i, s1.bufs[i]) && BufOk(s1.bufs[i], s1.last)
    requires forall v: nat, k: nat :: s1.last(v, k) != s.last(v, k) ==> Maps(s.bufs[i], v, k)
    requires forall v: nat, k: nat :: s1.disk(v, k) != s.disk(v, k) ==> Maps(s.bufs[i], v, k)
    requires forall v: nat, k: nat {:trigger Maps(s.bufs[i], v, k)} :: Maps(s.bufs[i], v, k) && Dirty(s.bufs[i]) ==>
      OnDisk(s1, v, k) || (Dirty(s1.bufs[i]) && Maps(s1.bufs[i], v, k))
    requires forall v: nat, k: nat {:trigger Maps(s.bufs[i], v, k)} :: Maps(s.bufs[i], v, k) && OnDisk(s, v, k) ==>
      OnDisk(s1, v, k) || (Dirty(s1.bufs[i]) && Maps(s1.bufs[i], v, k))
    ensures Safe(s1)
  {
    UpdateNoneTwice(s, s1, i);
    forall j | 0 <= j < |s1.bufs|
      ensures BufOk(s1.bufs[j], s1.last)
    {
      if j != i {
        OthersOk(s, s1, i, j);
      }
    }
    forall v: nat, k: nat
      ensures OnDisk(s1, v, k) || Pending(s1, v, k)
    {
      UpdateDisk(s, s1, i, v, k);
    }
  }

  lemma UpdateDisk(s: State, s1: State, i: nat, v: nat, k: nat)
    requires Safe(s) && i < |s.bufs| == |s1.bufs| && s1.bufs == s.bufs[i := s1.bufs[i]]
    requires s1.last(v, k) != s.last(v, k) || s1.disk(v, k) != s.disk(v, k) ==> Maps(s.bufs[i], v, k)
    requires Maps(s.bufs[i], v, k) && (Dirty(s.bufs[i]) || OnDisk(s, v, k)) ==>
      OnDisk(s1, v, k) || (Dirty(s1.bufs[i]) && Maps(s1.bufs[i], v, k))
    ensures OnDisk(s1, v, k) || Pending(s1, v, k)
  {
    assert OnDisk(s, v, k) || Pending(s, v, k);
    if !OnDisk(s, v, k) {
      var j :| 0 <= j < |s.bufs| && Dirty(s.bufs[j]) && Maps(s.bufs[j], v, k);
      if j != i {
        assert s1.bufs[j] == s.bufs[j];
      }
    }
  }

  /** Actions that leave the disk and the written data alone and keep a dirty buffer dirty. */
  lemma QuietUpdate(s: State, s1: State, i: nat)
    requires Safe(s) && i < |s.bufs| == |s1.bufs| && s1.bufs == s.bufs[i := s1.bufs[i]]
    requires s1.last == s.last && s1.disk == s.disk && BufOk(s1.bufs[i], s.last) && Alone(s, i, s1.bufs[i])
    requires Dirty(s.bufs[i]) ==> Dirty(s1.bufs[i]) && Shrunk(s1.bufs[i], s.bufs[i])
    ensures Safe(s1)
  {
    hide BufOk;
    Update(s, s1, i);
  }

  lemma SeizeKeeps(s: State, p: nat, i: nat)
    requires Safe(s) && i < |s.bufs| && s.bufs[i].holder == Free
    ensures Safe(Set(s, i, s.bufs[i].(holder := Held(p))))
  {
    var s1 := Set(s, i, s.bufs[i].(holder := Held(p)));
    StillAlone(s, i, s1.bufs[i]);
    QuietUpdate(s, s1, i);
  }

  lemma ReleaseKeeps(s: State, p: nat, i: nat, inval: bool)
    requires Safe(s) && Mine(s, p, i) && (inval ==> !s.bufs[i].delwri)
    ensures Safe(Set(s, i, s.bufs[i].(holder := Free)))
    ensures inval ==> Safe(Set(s, i, s.bufs[i].(inval := true, holder := Free)))
  {
    var s1 := Set(s, i, s.bufs[i].(holder := Free));
    StillAlone(s, i, s1.bufs[i]);
    QuietUpdate(s, s1, i);
    if inval {
      var s2 := Set(s, i, s.bufs[i].(inval := true, holder := Free));
      StillAlone(s, i, s2.bufs[i]);
      QuietUpdate(s, s2, i);
    }
  }

  lemma ReuseKeeps(s: State, p: nat, i: nat, vp: Option<nat>, blkno: nat)
    requires Safe(s) && Mine(s, p, i) && !s.bufs[i].delwri
    ensures Safe(Set(s, i, Buf(vp, blkno, [], false, false, vp.None?, Held(p), Idle)))
  {
    var s1 := Set(s, i, Buf(vp, blkno, [], false, false, vp.None?, Held(p), Idle));
    StillAlone(s, i, s1.bufs[i]);
    Division(blkno);
    QuietUpdate(s, s1, i);
  }

  lemma Division(blkno: nat)
    ensures blkno % RND < RND && blkno == (blkno / RND) * RND + blkno % RND
  {
  }

  lemma FlushKeeps(s: State, p: nat, i: nat, async: bool)
    requires Safe(s) && Mine(s, p, i) && s.bufs[i].delwri
    ensures Safe(Step(s, Flush(p, i, async), true))
  {
    var s1 := Step(s, Flush(p, i, async), true);
    StillAlone(s, i, s1.bufs[i]);
    assert BufOk(s.bufs[i], s.last);
    QuietUpdate(s, s1, i);
  }

  lemma ReadKeeps(s: State, p: nat, i: nat, async: bool)
    requires Safe(s) && Mine(s, p, i) && Known(s.bufs[i]) && !s.bufs[i].done
    ensures Safe(Step(s, Read(p, i, async), true))
  {
    var s1 := Step(s, Read(p, i, async), true);
    StillAlone(s, i, s1.bufs[i]);
    assert BufOk(s.bufs[i], s.last);
    QuietUpdate(s, s1, i);
  }

  lemma ShrinkKeeps(s: State, p: nat, i: nat, n: nat)
    requires Safe(s) && Mine(s, p, i) && !s.bufs[i].delwri && n < |s.bufs[i].data|
    ensures Safe(Set(s, i, s.bufs[i].(data := s.bufs[i].data[..n])))
  {
    var s1 := Set(s, i, s.bufs[i].(data := s.bufs[i].data[..n]));
    StillAlone(s, i, s1.bufs[i]);
    assert BufOk(s.bufs[i], s.last);
    forall v: nat, k: nat | Maps(s1.bufs[i], v, k)
      ensures s1.bufs[i].data[k - s1.bufs[i].blkno] == s.bufs[i].data[k - s.bufs[i].blkno] && Maps(s.bufs[i], v, k)
    {
    }
    QuietUpdate(s, s1, i);
  }

  lemma StaleKeeps(s: State, p: nat, i: nat)
    requires Safe(s) && Mine(s, p, i) && !s.bufs[i].delwri
    ensures Safe(Set(s, i, s.bufs[i].(done := false)))
  {
    var s1 := Set(s, i, s.bufs[i].(done := false));
    StillAlone(s, i, s1.bufs[i]);
    assert BufOk(s.bufs[i], s.last);
    QuietUpdate(s, s1, i);
  }

  /** Looking at the hash chain of the block is enough: blocks within one group that overlap hash alike. */
  lemma ChainSuffices(e: Buf, v: nat, start: nat, n: nat)
    requires Overlaps(e, v, start, n) && Within(e.blkno, |e.data|) && Within(start, n) && n > 0
    ensures SameChain(e, start)
  {
    Division(e.blkno);
    Division(start);
  }

  lemma GrowAlone(s: State, i: nat, n: nat, junk: seq<int>)
    requires Safe(s) && i < |s.bufs| && |junk| == n && NoOverlap(s, i, n)
    requires Known(s.bufs[i]) ==> Within(s.bufs[i].blkno, n)
    ensures Alone(s, i, s.bufs[i].(data := junk))
  {
    var b := s.bufs[i].(data := junk);
    forall j, v: nat, k: nat | 0 <= j < |s.bufs| && j != i && Maps(b, v, k)
      ensures !Maps(s.bufs[j], v, k)
    {
      if Maps(s.bufs[j], v, k) {
        assert BufOk(s.bufs[j], s.last);
        ChainSuffices(s.bufs[j], v, b.blkno, n);
      }
    }
  }

  lemma GrowKeeps(s: State, p: nat, i: nat, n: nat, junk: seq<int>)
    requires Safe(s) && Enabled(s, Grow(p, i, n, junk), true)
    ensures Safe(Set(s, i, s.bufs[i].(data := junk)))
  {
    var s1 := Set(s, i, s.bufs[i].(data := junk));
    GrowAlone(s, i, n, junk);
    assert BufOk(s.bufs[i], s.last);
    QuietUpdate(s, s1, i);
  }

  lemma WriteKeeps(s: State, p: nat, i: nat, data: seq<int>, b1: Buf)
    requires Safe(s) && Mine(s, p, i) && Known(s.bufs[i]) && |data| == |s.bufs[i].data|
    requires var b := s.bufs[i];
      || b1 == b.(data := data, done := false, delwri := false, io := Writing, holder := Device)
      || b1 == b.(data := data, done := false, delwri := false, io := Writing, holder := Held(p))
      || b1 == b.(data := data, done := true, delwri := true, holder := Free)
    ensures Safe(Set(s, i, b1).(last := Put(s.last, s.bufs[i], data)))
  {
    var b := s.bufs[i];
    var s1 := Set(s, i, b1).(last := Put(s.last, b, data));
    assert BufOk(b, s.last);
    forall v: nat, k: nat
      ensures Maps(b1, v, k) <==> Maps(b, v, k)
    {
    }
    StillAlone(s, i, b1);
    Update(s, s1, i);
  }

  lemma CompleteWriteKeeps(s: State, i: nat, holder: Holder)
    requires Safe(s) && i < |s.bufs| && s.bufs[i].io == Writing && holder != Device
    ensures Safe(Set(s, i, s.bufs[i].(done := true, io := Idle, holder := holder))
                 .(disk := Put(s.disk, s.bufs[i], s.bufs[i].data)))
  {
    var b := s.bufs[i];
    var b1 := b.(done := true, io := Idle, holder := holder);
    var s1 := Set(s, i, b1).(disk := Put(s.disk, b, b.data));
    assert BufOk(b, s.last);
    forall v: nat, k: nat
      ensures Maps(b1, v, k) <==> Maps(b, v, k)
    {
    }
    StillAlone(s, i, b1);
    Update(s, s1, i);
  }

  /** What a clean buffer's range holds on the disk is what was last written. */
  lemma CleanIsOnDisk(s: State, i: nat, v: nat, k: nat)
    requires Safe(s) && i < |s.bufs| && !Dirty(s.bufs[i]) && Maps(s.bufs[i], v, k)
    ensures OnDisk(s, v, k)
  {
    if Pending(s, v, k) {
      var j: nat :| j < |s.bufs| && Dirty(s.bufs[j]) && Maps(s.bufs[j], v, k);
      NotBoth(s, i, j, v, k);
    }
  }

  lemma CompleteReadKeeps(s: State, i: nat, holder: Holder)
    requires Safe(s) && i < |s.bufs| && s.bufs[i].io == Reading && holder != Device
    ensures Safe(Set(s, i, s.bufs[i].(data := Get(s.disk, s.bufs[i]), done := true, io := Idle, holder := holder)))
  {
    var b := s.bufs[i];
    var b1 := b.(data := Get(s.disk, b), done := true, io := Idle, holder := holder);
    var s1 := Set(s, i, b1);
    assert BufOk(b, s.last);
    forall v: nat, k: nat
      ensures Maps(b1, v, k) <==> Maps(b, v, k)
      ensures Maps(b1, v, k) ==> b1.data[k - b1.blkno] == s.last(v, k)
    {
      if Maps(b, v, k) {
        CleanIsOnDisk(s, i, v, k);
      }
    }
    StillAlone(s, i, b1);
    QuietUpdate(s, s1, i);
  }

  lemma StepKeeps(s: State, a: Action)
    requires Safe(s) && Enabled(s, a, true)
    ensures Safe(Step(s, a, true))
  {
    hide Safe, Put, Get, Set, NoOverlap;
    match a
    case Seize(p, i) => SeizeKeeps(s, p, i);
    case Release(p, i) => ReleaseKeeps(s, p, i, false);
    case Invalidate(p, i) => ReleaseKeeps(s, p, i, true);
    case Reuse(p, i, vp, blkno) => ReuseKeeps(s, p, i, vp, blkno);
    case Write(p, i, data, async) =>
      var b := s.bufs[i];
      WriteKeeps(s, p, i, data,
                 b.(data := data, done := false, delwri := false, io := Writing,
                    holder := if async then Device else Held(p)));
    case Flush(p, i, async) => FlushKeeps(s, p, i, async);
    case Delay(p, i, data) =>
      WriteKeeps(s, p, i, data, s.bufs[i].(data := data, done := true, delwri := true, holder := Free));
    case Read(p, i, async) => ReadKeeps(s, p, i, async);
    case Complete(i) =>
      var holder := if s.bufs[i].holder == Device then Free else s.bufs[i].holder;
      if s.bufs[i].io == Reading {
        CompleteReadKeeps(s, i, holder);
      } else {
        CompleteWriteKeeps(s, i, holder);
      }
    case Shrink(p, i, n) => ShrinkKeeps(s, p, i, n);
    case Stale(p, i) => StaleKeeps(s, p, i);
    case Scan(p, i, n) => ScanKeeps(s, i, n);
    case Grow(p, i, n, junk) => GrowKeeps(s, p, i, n, junk);
  }

  lemma ScanKeeps(s: State, i: nat, n: nat)
    requires Safe(s)
    ensures Safe(s.(scanned := s.scanned[i := n]))
  {
    var s1 := s.(scanned := s.scanned[i := n]);
    assert s1.bufs == s.bufs;
    forall v: nat, k: nat
      ensures OnDisk(s1, v, k) || Pending(s1, v, k)
    {
      assert OnDisk(s, v, k) || Pending(s, v, k);
    }
  }

  // ----- Every run -----

  /** An empty cache in front of a disk. */
  ghost predicate Initial(s: State) {
    && s.disk == s.last && s.scanned == map[]
    && forall i :: 0 <= i < |s.bufs| ==> s.bufs[i] == Buf(None, 0, [], false, false, true, Free, Idle)
  }

  function Run(init: State, actions: seq<Action>, atomic: bool): State {
    if actions == [] then init
    else
      var s, a := Run(init, actions[..|actions| - 1], atomic), actions[|actions| - 1];
      if Enabled(s, a, atomic) then Step(s, a, atomic) else s
  }

  lemma InitialIsSafe(s: State)
    requires Initial(s)
    ensures Safe(s)
  {
  }

  lemma {:induction false} EveryRunIsSafe(init: State, actions: seq<Action>)
    requires Initial(init)
    ensures Safe(Run(init, actions, true))
  {
    if actions == [] {
      InitialIsSafe(init);
    } else {
      var s, a := Run(init, actions[..|actions| - 1], true), actions[|actions| - 1];
      EveryRunIsSafe(init, actions[..|actions| - 1]);
      if Enabled(s, a, true) {
        StepKeeps(s, a);
      }
    }
  }

  // ----- What was written, read off the list of actions -----

  /** A write or delayed write, by its holder, of a buffer that stands for fragment k of v. */
  predicate Writes(s: State, a: Action, v: nat, k: nat) {
    (a.Write? || a.Delay?) && Mine(s, a.pid, a.i) && |a.data| == |s.bufs[a.i].data| && Maps(s.bufs[a.i], v, k)
  }

  /** What the latest such action of the list put there, or what was on the disk at the start. */
  function LastWritten(init: State, actions: seq<Action>, v: nat, k: nat): int {
    if actions == [] then init.disk(v, k)
    else
      var before, a := actions[..|actions| - 1], actions[|actions| - 1];
      var s := Run(init, before, true);
      if Writes(s, a, v, k) then a.data[k - s.bufs[a.i].blkno] else LastWritten(init, before, v, k)
  }

  lemma {:induction false} LastIsWritten(init: State, actions: seq<Action>, v: nat, k: nat)
    requires Initial(init)
    ensures Run(init, actions, true).last(v, k) == LastWritten(init, actions, v, k)
  {
    hide Enabled, Step, Writes, Initial;
    if actions == [] {
      SameAtFirst(init, v, k);
    } else {
      var before, a := actions[..|actions| - 1], actions[|actions| - 1];
      LastIsWritten(init, before, v, k);
      LastChanges(Run(init, before, true), a, v, k);
    }
  }

  lemma SameAtFirst(init: State, v: nat, k: nat)
    requires Initial(init)
    ensures init.last(v, k) == init.disk(v, k)
  {
  }

  lemma LastChanges(s: State, a: Action, v: nat, k: nat)
    ensures Writes(s, a, v, k) ==> Enabled(s, a, true) && 0 <= k - s.bufs[a.i].blkno < |a.data|
    ensures Enabled(s, a, true) ==>
      Step(s, a, true).last(v, k) == if Writes(s, a, v, k) then a.data[k - s.bufs[a.i].blkno] else s.last(v, k)
  {
  }

  /** What is done to a buffer leaves the others, and the disk and what was written outside its range, alone. */
  lemma OnlyItsBuffer(s: State, a: Action, atomic: bool, j: nat, v: nat, k: nat)
    requires Enabled(s, a, atomic) && j < |s.bufs|
    ensures var s1 := Step(s, a, atomic);
      && |s1.bufs| == |s.bufs| && (j != a.i ==> s1.bufs[j] == s.bufs[j])
      && (!Maps(s.bufs[a.i], v, k) ==> s1.disk(v, k) == s.disk(v, k) && s1.last(v, k) == s.last(v, k))
      && (!a.Complete? ==> s1.disk(v, k) == s.disk(v, k))
  {
  }

  /**
   * bdwrite leaves the data in the buffer, marked as done and as yet to be
   * written, for anybody to take; bwrite and bawrite leave it on its way to
   * the disk, still with its writer or with nobody.
   */
  lemma WriteMeans(s: State, a: Action)
    requires Enabled(s, a, true) && (a.Write? || a.Delay?)
    ensures var b, b1 := s.bufs[a.i], Step(s, a, true).bufs[a.i];
      && b1.data == a.data && b1.vp == b.vp && b1.blkno == b.blkno && !b1.inval
      && (a.Delay? ==> b1.done && b1.delwri && b1.holder == Free && b1.io == Idle)
      && (a.Write? ==> b1.io == Writing && !b1.delwri && b1.holder == if a.async then Device else Held(a.pid))
  {
  }

  /**
   * Starting a transfer leaves the data alone: a delayed write is no longer
   * marked and on its way, a read is under way; an asynchronous one leaves the
   * buffer with the device, another with its process.
   */
  lemma StartMeans(s: State, a: Action)
    requires Enabled(s, a, true) && (a.Flush? || a.Read?)
    ensures var b, b1 := s.bufs[a.i], Step(s, a, true).bufs[a.i];
      && b1.data == b.data && b1.vp == b.vp && b1.blkno == b.blkno && b1.inval == b.inval
      && b1.holder == (if a.async then Device else Held(a.pid))
      && (a.Flush? ==> b1.io == Writing && !b1.delwri && !b1.done)
      && (a.Read? ==> b1.io == Reading && b1.delwri == b.delwri && b1.done == b.done)
  {
  }

  /** A completed read has brought what is on the disk, a completed write has taken the buffer's data there. */
  lemma CompleteMeans(s: State, i: nat, v: nat, k: nat)
    requires Safe(s) && Enabled(s, Complete(i), true) && Maps(s.bufs[i], v, k)
    ensures var b, s1 := s.bufs[i], Step(s, Complete(i), true);
      && Maps(s1.bufs[i], v, k) && s1.bufs[i].done && s1.bufs[i].io == Idle
      && s1.bufs[i].holder == (if b.holder == Device then Free else b.holder)
      && s1.bufs[i].data[k - b.blkno] == s1.disk(v, k)
      && (b.io == Writing ==> s1.bufs[i].data == b.data)
      && (b.io == Reading ==> s1.disk(v, k) == s.disk(v, k))
  {
  }

  /**
   * In every reachable state, whatever bread returns (a valid buffer marked
   * done) holds the data last written to its fragments, and no other valid
   * buffer stands for any of them.
   */
  lemma ReadsAreCurrent(init: State, actions: seq<Action>, i: nat, v: nat, k: nat)
    requires Initial(init)
    requires var s := Run(init, actions, true); i < |s.bufs| && s.bufs[i].done && Maps(s.bufs[i], v, k)
    ensures var s := Run(init, actions, true);
      && s.bufs[i].data[k - s.bufs[i].blkno] == LastWritten(init, actions, v, k)
      && forall j: nat :: j < |s.bufs| && j != i ==> !Maps(s.bufs[j], v, k)
  {
    hide Run, LastWritten;
    var s := Run(init, actions, true);
    EveryRunIsSafe(init, actions);
    LastIsWritten(init, actions, v, k);
    assert BufOk(s.bufs[i], s.last);
    forall j: nat | j < |s.bufs| && j != i
      ensures !Maps(s.bufs[j], v, k)
    {
      NotBoth(s, i, j, v, k);
    }
  }

  /** Once nothing is dirty the disk holds everything that was written. */
  lemma FlushedMeansOnDisk(init: State, actions: seq<Action>, v: nat, k: nat)
    requires Initial(init)
    requires var s := Run(init, actions, true); forall i :: 0 <= i < |s.bufs| ==> !Dirty(s.bufs[i])
    ensures Run(init, actions, true).disk(v, k) == LastWritten(init, actions, v, k)
  {
    hide Run, LastWritten;
    var s := Run(init, actions, true);
    EveryRunIsSafe(init, actions);
    LastIsWritten(init, actions, v, k);
    assert OnDisk(s, v, k) || Pending(s, v, k);
  }

  /**
   * A buffer with a delayed write is never reused, shrunk, grown or
   * invalidated: after any action it is the same block, and is still marked or
   * on its way to the disk with the same data, unless its holder has just
   * written it anew.
   */
  lemma DirtyIsKept(s: State, a: Action, i: nat)
    requires Safe(s) && Enabled(s, a, true) && i < |s.bufs| && Dirty(s.bufs[i])
    ensures var b, b1 := s.bufs[i], Step(s, a, true).bufs[i];
      && b1.vp == b.vp && b1.blkno == b.blkno && |b1.data| == |b.data| && !b1.inval
      && (a != Complete(i) ==> Dirty(b1))
      && (a == Complete(i) ==> b.io == Writing)
      && (((a.Write? || a.Delay?) && a.i == i) || b1.data == b.data)
  {
    assert BufOk(s.bufs[i], s.last);
  }

  /** With a completed write the disk has what was last written in that buffer. */
  lemma CompletionReachesDisk(s: State, i: nat, v: nat, k: nat)
    requires Safe(s) && Enabled(s, Complete(i), true) && s.bufs[i].io == Writing && Maps(s.bufs[i], v, k)
    ensures var s1 := Step(s, Complete(i), true); s1.disk(v, k) == s1.last(v, k)
  {
    assert BufOk(s.bufs[i], s.last);
  }

  // ----- When the allocation sleeps -----

  /**
   * If the allocation sleeps after the search, the growth is safe exactly
   * when the search would still find nothing.
   */
  lemma GrowSafeIff(s: State, p: nat, i: nat, n: nat, junk: seq<int>)
    requires Safe(s) && Enabled(s, Grow(p, i, n, junk), false) && Known(s.bufs[i])
    ensures Safe(Step(s, Grow(p, i, n, junk), false)) <==> NoOverlap(s, i, n)
  {
    var s1 := Step(s, Grow(p, i, n, junk), false);
    if NoOverlap(s, i, n) {
      GrowKeeps(s, p, i, n, junk);
    } else {
      var v, start := s.bufs[i].vp.value, s.bufs[i].blkno;
      var j: nat :| j < |s.bufs| && j != i && Overlaps(s.bufs[j], v, start, n);
      var k := Meet(s.bufs[j], v, start, n);
      assert s1.bufs[j] == s.bufs[j];
      assert Maps(s1.bufs[i], v, k);
      if NoneTwice(s1) {
        NotBoth(s1, i, j, v, k);
      }
    }
  }

  /** A fragment that an overlapping buffer shares with the range. */
  lemma Meet(e: Buf, v: nat, start: nat, n: nat) returns (k: nat)
    requires Overlaps(e, v, start, n) && n > 0
    ensures Maps(e, v, k) && start <= k < start + n
  {
    k := if e.blkno > start then e.blkno else start;
  }

  /** A growth of a valid buffer finds the search still right. */
  predicate StillClear(s: State, a: Action) {
    a.Grow? && a.i < |s.bufs| && Known(s.bufs[a.i]) ==> NoOverlap(s, a.i, a.n)
  }

  /** A buffer that stands for nothing may grow as it likes. */
  lemma GrowUnknown(s: State, p: nat, i: nat, n: nat, junk: seq<int>)
    requires Safe(s) && Enabled(s, Grow(p, i, n, junk), false) && !Known(s.bufs[i])
    ensures Safe(Step(s, Grow(p, i, n, junk), false))
  {
    var s1 := Step(s, Grow(p, i, n, junk), false);
    assert BufOk(s.bufs[i], s.last);
    QuietUpdate(s, s1, i);
  }

  /** A step of the machine whose allocations sleep is safe exactly when any growth in it is still clear. */
  lemma StepSafeIff(s: State, a: Action)
    requires Safe(s) && Enabled(s, a, false)
    ensures Safe(Step(s, a, false)) <==> StillClear(s, a)
  {
    hide Safe, NoOverlap, Set, Put, Get;
    if a.Grow? {
      if Known(s.bufs[a.i]) {
        GrowSafeIff(s, a.pid, a.i, a.n, a.junk);
      } else {
        GrowUnknown(s, a.pid, a.i, a.n, a.junk);
      }
    } else {
      StepKeeps(s, a);
    }
  }

  /** The state before action n of a run whose allocations sleep. */
  ghost function Before(init: State, actions: seq<Action>, n: nat): State
    requires n <= |actions|
  {
    Run(init, actions[..n], false)
  }

  /** No growth up to action n met an overlap that had come up while its allocation slept. */
  ghost predicate ClearUpTo(init: State, actions: seq<Action>, n: nat)
    requires n <= |actions|
  {
    forall i: nat :: i < n && Enabled(Before(init, actions, i), actions[i], false) ==>
      StillClear(Before(init, actions, i), actions[i])
  }

  lemma BeforeNext(init: State, actions: seq<Action>, n: nat)
    requires n < |actions|
    ensures var s := Before(init, actions, n);
      Before(init, actions, n + 1)
      == if Enabled(s, actions[n], false) then Step(s, actions[n], false) else s
  {
    assert actions[..n + 1][..n] == actions[..n];
  }

  lemma {:induction false} SafeUpTo(init: State, actions: seq<Action>, n: nat)
    requires Initial(init) && n <= |actions| && ClearUpTo(init, actions, n)
    ensures Safe(Before(init, actions, n))
    decreases n
  {
    hide Safe, Before, Step, Enabled, StillClear;
    if n == 0 {
      InitialIsSafe(init);
      BeforeFirst(init, actions);
    } else {
      SafeUpTo(init, actions, n - 1);
      BeforeNext(init, actions, n - 1);
      var s := Before(init, actions, n - 1);
      if Enabled(s, actions[n - 1], false) {
        StepSafeIff(s, actions[n - 1]);
      }
    }
  }

  lemma BeforeFirst(init: State, actions: seq<Action>)
    ensures Before(init, actions, 0) == init
  {
    assert actions[..0] == [];
  }

  /**
   * Over every run in which allocations may sleep: the cache is safe
   * throughout if and only if every growth of a valid buffer found, when it
   * came, that the search before the sleep was still right.
   */
  lemma SleepingRunSafeIff(init: State, actions: seq<Action>)
    requires Initial(init)
    ensures (forall n: nat :: n <= |actions| ==> Safe(Before(init, actions, n))) <==>
      ClearUpTo(init, actions, |actions|)
  {
    hide Safe, Before, Step, Enabled, StillClear;
    if forall n: nat :: n <= |actions| ==> Safe(Before(init, actions, n)) {
      forall i: nat | i < |actions| && Enabled(Before(init, actions, i), actions[i], false)
        ensures StillClear(Before(init, actions, i), actions[i])
      {
        BeforeNext(init, actions, i);
        assert Safe(Before(init, actions, i)) && Safe(Before(init, actions, i + 1));
        StepSafeIff(Before(init, actions, i), actions[i]);
      }
    }
    if ClearUpTo(init, actions, |actions|) {
      forall n: nat | n <= |actions|
        ensures Safe(Before(init, actions, n))
      {
        SafeUpTo(init, actions, n);
      }
    }
  }

  ghost function EmptyCache(n: nat): State {
    State(seq(n, _ => Buf(None, 0, [], false, false, true, Free, Idle)), (v, k) => 0, (v, k) => 0, map[])
  }

  /** One process takes a buffer for fragments 0 to 7 and sleeps in the allocation; another takes one for fragment 4. */
  const DOUBLING: seq<Action> := [
    Seize(1, 0), Reuse(1, 0, Some(0), 0), Scan(1, 0, 8),
    Seize(2, 1), Reuse(2, 1, Some(0), 4), Scan(2, 1, 1), Grow(2, 1, 1, [7]),
    Grow(1, 0, 8, [0, 0, 0, 0, 0, 0, 0, 0])]

  lemma RunOne(init: State, actions: seq<Action>, a: Action, atomic: bool)
    ensures var s := Run(init, actions, atomic);
      Run(init, actions + [a], atomic) == if Enabled(s, a, atomic) then Step(s, a, atomic) else s
  {
    assert (actions + [a])[..|actions|] == actions;
  }

  const FIRST := Buf(Some(0), 0, [], false, false, false, Held(1), Idle)
  const SECOND := Buf(Some(0), 4, [], false, false, false, Held(2), Idle)

  /** That can happen: a run after which two valid buffers stand for the same fragment. */
  lemma SleepingAllocationDoubles()
    ensures var s := Run(EmptyCache(2), DOUBLING, false);
      |s.bufs| == 2 && Maps(s.bufs[0], 0, 4) && Maps(s.bufs[1], 0, 4)
  {
    hide Run, EmptyCache;
    var e := EmptyCache(2);
    RunFive(e);
    var s5 := e.(bufs := [FIRST, SECOND], scanned := map[0 := 8]);
    RunOne(e, DOUBLING[..5], DOUBLING[5], false);
    var s6 := s5.(scanned := map[0 := 8, 1 := 1]);
    assert s6 == Step(s5, DOUBLING[5], false);
    RunOne(e, DOUBLING[..5] + [DOUBLING[5]], DOUBLING[6], false);
    var s7 := s5.(bufs := [FIRST, SECOND.(data := [7])]);
    assert s7 == Step(s6, DOUBLING[6], false);
    RunOne(e, DOUBLING[..5] + [DOUBLING[5]] + [DOUBLING[6]], DOUBLING[7], false);
    assert DOUBLING[..5] + [DOUBLING[5]] + [DOUBLING[6]] + [DOUBLING[7]] == DOUBLING;
    assert Step(s7, DOUBLING[7], false).bufs == [FIRST.(data := [0, 0, 0, 0, 0, 0, 0, 0]), SECOND.(data := [7])];
  }

  lemma RunFive(e: State)
    requires e == EmptyCache(2)
    ensures Run(e, DOUBLING[..5], false) == e.(bufs := [FIRST, SECOND], scanned := map[0 := 8])
  {
    hide Run, EmptyCache;
    RunThree(e);
    var s3 := e.(bufs := [FIRST, e.bufs[1]], scanned := map[0 := 8]);
    RunOne(e, DOUBLING[..3], DOUBLING[3], false);
    var s4 := s3.(bufs := [FIRST, e.bufs[1].(holder := Held(2))]);
    assert s4 == Step(s3, DOUBLING[3], false);
    RunOne(e, DOUBLING[..3] + [DOUBLING[3]], DOUBLING[4], false);
    assert DOUBLING[..5] == DOUBLING[..3] + [DOUBLING[3]] + [DOUBLING[4]];
    assert Step(s4, DOUBLING[4], false) == s3.(bufs := [FIRST, SECOND]);
  }

  lemma RunNone(init: State)
    ensures Run(init, [], false) == init
  {
  }

  lemma RunThree(e: State)
    requires e == EmptyCache(2)
    ensures |e.bufs| == 2 && e.bufs[1].holder == Free && e.bufs[1].io == Idle && !e.bufs[1].delwri
    ensures Run(e, DOUBLING[..3], false) == e.(bufs := [FIRST, e.bufs[1]], scanned := map[0 := 8])
  {
    hide Run;
    var none := Buf(None, 0, [], false, false, true, Free, Idle);
    assert e.bufs == [none, none];
    RunNone(e);
    RunOne(e, [], DOUBLING[0], false);
    var s1 := e.(bufs := [none.(holder := Held(1)), none]);
    assert s1 == Step(e, DOUBLING[0], false);
    RunOne(e, [] + [DOUBLING[0]], DOUBLING[1], false);
    var s2 := e.(bufs := [FIRST, none]);
    assert s2 == Step(s1, DOUBLING[1], false);
    RunOne(e, [] + [DOUBLING[0]] + [DOUBLING[1]], DOUBLING[2], false);
    assert DOUBLING[..3] == [] + [DOUBLING[0]] + [DOUBLING[1]] + [DOUBLING[2]];
    assert Enabled(s2, DOUBLING[2], false);
  }
}
