/**
 * getblk, brealloc, getnewbuf, bread, bwrite and bflush as they run: each
 * does nothing but actions of the buffer cache machine, with other processes
 * and the device acting wherever it sleeps. So all of them keep the
 * invariant, and bread hands back the data last written.
 *
 * `world` is what happens at each successive sleep; if it ends while the
 * caller is still waiting, the method returns with no answer.
 */
module BufferOps {
  import opened BufferCache

  /** Something that happens while process `me` sleeps. */
  predicate Foreign(a: Action, me: nat) {
    a.Complete? || a.pid != me
  }

  predicate ForeignWorld(world: seq<seq<Action>>, me: nat) {
    forall i, j :: 0 <= i < |world| && 0 <= j < |world[i]| ==> Foreign(world[i][j], me)
  }

  /** What others leave of a buffer that `me` holds: only a transfer of its own can have finished. */
  predicate Kept(b: Buf, b1: Buf) {
    && b1.vp == b.vp && b1.blkno == b.blkno && |b1.data| == |b.data| && b1.inval == b.inval
    && b1.holder == b.holder && b1.delwri == b.delwri
    && (b.io == Idle ==> b1 == b)
    && (b1.io != Idle ==> b1 == b)
    && (b.io != Idle && b1.io == Idle ==> b1.done)
    && (b.io == Writing ==> b1.data == b.data)
  }

  ghost predicate AllKept(s: State, s1: State, me: nat) {
    |s1.bufs| == |s.bufs| &&
    forall i :: 0 <= i < |s.bufs| && s.bufs[i].holder == Held(me) ==> Kept(s.bufs[i], s1.bufs[i])
  }

  lemma ForeignStep(s: State, a: Action, me: nat)
    requires Safe(s) && Foreign(a, me)
    ensures var s1 := if Enabled(s, a, true) then Step(s, a, true) else s; Safe(s1) && AllKept(s, s1, me)
  {
    hide Safe, Step, Enabled, Kept, BufOk;
    if Enabled(s, a, true) {
      StepKeeps(s, a);
      ForeignSize(s, a);
      forall i | 0 <= i < |s.bufs| && s.bufs[i].holder == Held(me)
        ensures Kept(s.bufs[i], Step(s, a, true).bufs[i])
      {
        BufOf(s, i);
        ForeignLeaves(s, a, me, i);
      }
    } else {
      forall i | 0 <= i < |s.bufs|
        ensures Kept(s.bufs[i], s.bufs[i])
      {
        KeptSame(s.bufs[i]);
      }
    }
  }

  lemma ForeignSize(s: State, a: Action)
    requires Enabled(s, a, true)
    ensures |Step(s, a, true).bufs| == |s.bufs|
  {
  }

  lemma ForeignLeaves(s: State, a: Action, me: nat, i: nat)
    requires Enabled(s, a, true) && Foreign(a, me) && |Step(s, a, true).bufs| == |s.bufs|
    requires i < |s.bufs| && s.bufs[i].holder == Held(me) && BufOk(s.bufs[i], s.last)
    ensures Kept(s.bufs[i], Step(s, a, true).bufs[i])
  {
    hide Kept;
    if a.Complete? && a.i == i {
      CompleteLeaves(s, i);
    } else {
      assert Step(s, a, true).bufs[i] == s.bufs[i];
      KeptSame(s.bufs[i]);
    }
  }

  lemma CompleteLeaves(s: State, i: nat)
    requires Enabled(s, Complete(i), true) && BufOk(s.bufs[i], s.last) && s.bufs[i].holder.Held?
    ensures var s1 := Step(s, Complete(i), true); |s1.bufs| == |s.bufs| && Kept(s.bufs[i], s1.bufs[i])
  {
  }

  lemma KeptSame(b: Buf)
    ensures Kept(b, b)
  {
  }

  lemma BufOf(s: State, i: nat)
    requires Safe(s) && i < |s.bufs|
    ensures BufOk(s.bufs[i], s.last)
  {
  }

  lemma KeptTwice(s: State, s1: State, s2: State, me: nat)
    requires AllKept(s, s1, me) && AllKept(s1, s2, me)
    ensures AllKept(s, s2, me)
  {
  }

  /** A mapping of fragments agrees with data laid out from a block. */
  ghost predicate Agrees(m: (nat, nat) -> int, v: nat, blkno: nat, data: seq<int>) {
    forall k: nat {:trigger data[k]} :: k < |data| ==> m(v, blkno + k) == data[k]
  }

  /** A buffer marked done agrees with what was last written, and if clean with the disk. */
  lemma Current(s: State, i: nat)
    requires Safe(s) && i < |s.bufs| && s.bufs[i].done && Known(s.bufs[i])
    ensures var b := s.bufs[i];
      Agrees(s.last, b.vp.value, b.blkno, b.data) && (!Dirty(b) ==> Agrees(s.disk, b.vp.value, b.blkno, b.data))
  {
    hide Safe, Maps;
    var b := s.bufs[i];
    forall k: nat | k < |b.data|
      ensures s.last(b.vp.value, b.blkno + k) == b.data[k]
      ensures !Dirty(b) ==> s.disk(b.vp.value, b.blkno + k) == b.data[k]
    {
      CurrentAt(s, i, b.blkno + k);
    }
  }

  lemma CurrentAt(s: State, i: nat, f: nat)
    requires Safe(s) && i < |s.bufs| && s.bufs[i].done && Known(s.bufs[i])
    requires s.bufs[i].blkno <= f < s.bufs[i].blkno + |s.bufs[i].data|
    ensures var b := s.bufs[i];
      s.last(b.vp.value, f) == b.data[f - b.blkno] && (!Dirty(b) ==> s.disk(b.vp.value, f) == b.data[f - b.blkno])
  {
    hide Safe;
    var b := s.bufs[i];
    BufOf(s, i);
    assert Maps(b, b.vp.value, f);
    if !Dirty(b) {
      CleanIsOnDisk(s, i, b.vp.value, f);
    }
  }

  lemma PutAgrees(m: (nat, nat) -> int, b: Buf, data: seq<int>)
    requires Known(b) && |data| == |b.data|
    ensures Agrees(Put(m, b, data), b.vp.value, b.blkno, data)
  {
    forall k: nat | k < |data|
      ensures Put(m, b, data)(b.vp.value, b.blkno + k) == data[k]
    {
      assert Maps(b, b.vp.value, b.blkno + k);
    }
  }

  /** How many buffers nobody holds, from i on. */
  function FreeCount(bufs: seq<Buf>, i: nat): nat
    requires i <= |bufs|
    decreases |bufs| - i
  {
    if i == |bufs| then 0 else (if bufs[i].holder == Free then 1 else 0) + FreeCount(bufs, i + 1)
  }

  lemma {:induction false} OneFewer(bufs: seq<Buf>, j: nat, b: Buf, i: nat)
    requires i <= |bufs| && j < |bufs| && bufs[j].holder == Free && b.holder != Free
    ensures FreeCount(bufs[j := b], i) == FreeCount(bufs, i) - (if i <= j then 1 else 0)
    decreases |bufs| - i
  {
    if i < |bufs| {
      OneFewer(bufs, j, b, i + 1);
    }
  }

  class Cache {
    var s: State

    /** One action of the caller. */
    method Do(a: Action)
      requires Safe(s) && Enabled(s, a, true)
      modifies this
      ensures Safe(s) && s == Step(old(s), a, true)
    {
      StepKeeps(s, a);
      s := Step(s, a, true);
    }

    /** sleep: the others get their turn. */
    method Sleep(me: nat, world: seq<seq<Action>>) returns (rest: seq<seq<Action>>)
      requires Safe(s) && world != [] && ForeignWorld(world, me)
      modifies this
      ensures Safe(s) && AllKept(old(s), s, me) && rest == world[1..] && ForeignWorld(rest, me)
    {
      hide Safe, Step, Enabled;
      var i := 0;
      while i < |world[0]|
        invariant 0 <= i <= |world[0]| && Safe(s) && AllKept(old(s), s, me)
      {
        ghost var s0 := s;
        ForeignStep(s, world[0][i], me);
        if Enabled(s, world[0][i], true) {
          s := Step(s, world[0][i], true);
        }
        KeptTwice(old(s), s0, s, me);
        i := i + 1;
      }
      rest := world[1..];
    }

    /** biowait; false if the world ends before the transfer does. */
    method Biowait(me: nat, i: nat, world: seq<seq<Action>>) returns (ok: bool, rest: seq<seq<Action>>)
      requires Safe(s) && i < |s.bufs| && s.bufs[i].holder == Held(me) && s.bufs[i].io != Idle
      requires ForeignWorld(world, me)
      modifies this
      ensures Safe(s) && AllKept(old(s), s, me) && ForeignWorld(rest, me) && |rest| <= |world|
      ensures ok ==> |rest| < |world| && s.bufs[i].io == Idle && s.bufs[i].done
    {
      hide Safe;
      rest := world;
      while s.bufs[i].io != Idle
        invariant Safe(s) && AllKept(old(s), s, me) && ForeignWorld(rest, me) && |rest| <= |world|
        invariant s.bufs[i].holder == Held(me) && (s.bufs[i].io == Idle ==> |rest| < |world| && s.bufs[i].done)
        decreases |rest|
      {
        if rest == [] {
          return false, rest;
        }
        ghost var s0 := s;
        rest := Sleep(me, rest);
        KeptTwice(old(s), s0, s, me);
      }
      ok := true;
    }

    /** bwrite of a delayed-write buffer, waiting for it. */
    method FlushAndWait(me: nat, i: nat, world: seq<seq<Action>>) returns (ok: bool, rest: seq<seq<Action>>)
      requires Safe(s) && Enabled(s, Flush(me, i, false), true) && ForeignWorld(world, me)
      modifies this
      ensures Safe(s) && |s.bufs| == |old(s).bufs| && ForeignWorld(rest, me) && |rest| <= |world|
      ensures ok ==> |rest| < |world|
      ensures forall j :: 0 <= j < |s.bufs| && j != i && old(s).bufs[j].holder == Held(me) ==>
        Kept(old(s).bufs[j], s.bufs[j])
    {
      hide Safe, ForeignWorld;
      Do(Flush(me, i, false));
      ok, rest := Biowait(me, i, world);
      if ok {
        Do(Release(me, i));
      }
    }

    /** bwrite by the holder: after it the data is what was last written, and it has reached the disk. */
    method Bwrite(me: nat, i: nat, data: seq<int>, world: seq<seq<Action>>) returns (ok: bool, rest: seq<seq<Action>>)
      requires Safe(s) && Enabled(s, Write(me, i, data, false), true) && ForeignWorld(world, me)
      modifies this
      ensures Safe(s) && ForeignWorld(rest, me) && |rest| <= |world| && |s.bufs| == |old(s).bufs|
      ensures ok ==> s.bufs[i].holder == Free && s.bufs[i].done && s.bufs[i].data == data
      ensures ok ==> var b := old(s).bufs[i];
        Agrees(s.last, b.vp.value, b.blkno, data) && Agrees(s.disk, b.vp.value, b.blkno, data)
    {
      hide Safe, ForeignWorld;
      Do(Write(me, i, data, false));
      ok, rest := Biowait(me, i, world);
      if ok {
        Do(Release(me, i));
        Current(s, i);
      }
    }

    /** bdwrite: the data is what was last written, and waits in the buffer for anybody to read or flush it. */
    method Bdwrite(me: nat, i: nat, data: seq<int>)
      requires Safe(s) && Enabled(s, Delay(me, i, data), true)
      modifies this
      ensures Safe(s) && |s.bufs| == |old(s).bufs| && s.bufs == old(s).bufs[i := s.bufs[i]] && s.disk == old(s).disk
      ensures var b, b0 := s.bufs[i], old(s).bufs[i];
        && b.data == data && b.vp == b0.vp && b.blkno == b0.blkno && !b.inval
        && b.done && b.delwri && b.holder == Free && b.io == Idle
        && Agrees(s.last, b.vp.value, b.blkno, data)
    {
      hide Safe;
      Do(Delay(me, i, data));
      Current(s, i);
    }

    /** bawrite: the data is what was last written, and is on its way to the disk. */
    method Bawrite(me: nat, i: nat, data: seq<int>)
      requires Safe(s) && Enabled(s, Write(me, i, data, true), true)
      modifies this
      ensures Safe(s) && |s.bufs| == |old(s).bufs| && s.bufs == old(s).bufs[i := s.bufs[i]] && s.disk == old(s).disk
      ensures var b, b0 := s.bufs[i], old(s).bufs[i];
        && b.data == data && b.vp == b0.vp && b.blkno == b0.blkno && !b.inval
        && !b.delwri && b.holder == Device && b.io == Writing
        && Agrees(s.last, b.vp.value, b.blkno, data)
    {
      hide Safe;
      PutAgrees(s.last, s.bufs[i], data);
      Do(Write(me, i, data, true));
    }

    /**
     * getnewbuf: some free buffer, in whatever order the free lists give
     * them. A delayed write is started, not dropped, and the search goes on.
     */
    method GetNewBuf(me: nat, world: seq<seq<Action>>) returns (r: Option<nat>, rest: seq<seq<Action>>)
      requires Safe(s) && ForeignWorld(world, me)
      modifies this
      ensures Safe(s) && |s.bufs| == |old(s).bufs| && ForeignWorld(rest, me) && |rest| <= |world|
      ensures r.Some? ==> Mine(s, me, r.value) && !s.bufs[r.value].delwri
    {
      hide Safe, ForeignWorld, FreeCount;
      rest := world;
      while true
        invariant Safe(s) && |s.bufs| == |old(s).bufs| && ForeignWorld(rest, me) && |rest| <= |world|
        decreases |rest|, FreeCount(s.bufs, 0)
      {
        if !(exists i :: 0 <= i < |s.bufs| && s.bufs[i].holder == Free) {
          if rest == [] {
            return None, rest;
          }
          rest := Sleep(me, rest);
        } else {
          var i: nat :| i < |s.bufs| && s.bufs[i].holder == Free;
          var clean := TakeFree(me, i);
          if clean {
            return Some(i), rest;
          }
        }
      }
    }

    /** A free buffer is taken; if it was a delayed write that is started instead, and it is no longer free. */
    method TakeFree(me: nat, i: nat) returns (clean: bool)
      requires Safe(s) && i < |s.bufs| && s.bufs[i].holder == Free
      modifies this
      ensures Safe(s) && |s.bufs| == |old(s).bufs|
      ensures clean ==> Mine(s, me, i) && !s.bufs[i].delwri
      ensures !clean ==> FreeCount(s.bufs, 0) < FreeCount(old(s).bufs, 0)
    {
      hide Safe;
      ghost var before := s.bufs;
      BufOf(s, i);
      Do(Seize(me, i));
      if !s.bufs[i].delwri {
        return true;
      }
      Do(Flush(me, i, true));
      OneFewer(before, i, s.bufs[i], 0);
      assert s.bufs == before[i := s.bufs[i]];
      clean := false;
    }
  
    /** Before `upto` the search finds no overlap. */
    ghost predicate Passed(i: nat, n: nat, upto: nat)
      reads this
    {
      && i < |s.bufs| && upto <= |s.bufs|
      && (s.bufs[i].vp.Some? ==>
           forall j :: 0 <= j < upto && j != i && SameChain(s.bufs[j], s.bufs[i].blkno) ==>
             !Overlaps(s.bufs[j], s.bufs[i].vp.value, s.bufs[i].blkno, n))
    }

    /** One overlapping buffer that nobody holds: written if dirty, otherwise invalidated. */
    method ClearOverlap(me: nat, i: nat, ep: nat, ghost size: nat, world: seq<seq<Action>>)
      returns (ok: bool, written: bool, rest: seq<seq<Action>>)
      requires Safe(s) && Mine(s, me, i) && Known(s.bufs[i]) && !s.bufs[i].delwri && ForeignWorld(world, me)
      requires ep < |s.bufs| && ep != i && s.bufs[ep].holder == Free
      modifies this
      ensures Safe(s) && |s.bufs| == |old(s).bufs| && s.bufs[i] == old(s).bufs[i]
      ensures ForeignWorld(rest, me) && |rest| <= |world| && (ok && written ==> |rest| < |world|)
      ensures ok && !written ==> rest == world && s.bufs == old(s).bufs[ep := s.bufs[ep]]
      ensures ok && !written ==> !Overlaps(s.bufs[ep], s.bufs[i].vp.value, s.bufs[i].blkno, size)
    {
      hide Safe, ForeignWorld, Overlaps, SameChain;
      rest, written := world, false;
      BufOf(s, ep);
      Do(Seize(me, ep));
      if s.bufs[ep].delwri {
        ok, rest := FlushAndWait(me, ep, rest);
        written := true;
        return;
      }
      Do(Invalidate(me, ep));
      InvalidNever(s.bufs[ep], s.bufs[i].vp.value, s.bufs[i].blkno, size);
      ok := true;
    }

    /**
     * The search of brealloc: overlapping buffers are waited for, written if
     * dirty and started over, or invalidated if clean; at its end there are
     * none. Buffer i, held and clean, is not touched.
     */
    method DispatchOverlaps(me: nat, i: nat, size: nat, world: seq<seq<Action>>)
      returns (ok: bool, rest: seq<seq<Action>>)
      requires Safe(s) && Mine(s, me, i) && Known(s.bufs[i]) && !s.bufs[i].delwri && ForeignWorld(world, me)
      modifies this
      ensures Safe(s) && |s.bufs| == |old(s).bufs| && s.bufs[i] == old(s).bufs[i]
      ensures ForeignWorld(rest, me) && |rest| <= |world|
      ensures ok ==> NoOverlap(s, i, size)
    {
      hide Safe, ForeignWorld, Overlaps, SameChain;
      rest := world;
      var ep := 0;
      while ep < |s.bufs|
        invariant Safe(s) && |s.bufs| == |old(s).bufs| && s.bufs[i] == old(s).bufs[i]
        invariant ForeignWorld(rest, me) && |rest| <= |world| && ep <= |s.bufs| && Passed(i, size, ep)
        decreases |rest|, |s.bufs| - ep
      {
        var e := s.bufs[ep];
        if ep == i || !SameChain(e, s.bufs[i].blkno) || !Overlaps(e, s.bufs[i].vp.value, s.bufs[i].blkno, size) {
          ep := ep + 1;
          continue;
        }
        if e.holder != Free {
          if rest == [] {
            return false, rest;
          }
          rest := Sleep(me, rest);
          ep := 0;
          continue;
        }
        var written;
        ok, written, rest := ClearOverlap(me, i, ep, size, rest);
        if !ok {
          return;
        }
        ep := if written then 0 else ep + 1;
      }
      ok := true;
    }

    /**
     * brealloc: false if a delayed write had to be done first and the buffer
     * was given up, true if it now has the size asked for, no answer if still
     * waiting.
     */
    method Brealloc(me: nat, i: nat, size: nat, junk: seq<int>, world: seq<seq<Action>>)
      returns (r: Option<bool>, rest: seq<seq<Action>>)
      requires Safe(s) && Mine(s, me, i) && Known(s.bufs[i]) && ForeignWorld(world, me)
      requires size > 0 && Within(s.bufs[i].blkno, size) && |junk| == size
      modifies this
      ensures Safe(s) && |s.bufs| == |old(s).bufs| && ForeignWorld(rest, me) && |rest| <= |world|
      ensures r == Some(true) ==> Mine(s, me, i) && Known(s.bufs[i]) && |s.bufs[i].data| == size
      ensures r == Some(true) ==> s.bufs[i].vp == old(s).bufs[i].vp && s.bufs[i].blkno == old(s).bufs[i].blkno
      ensures r == Some(false) ==> |rest| < |world|
    {
      hide Safe, ForeignWorld, NoOverlap, Within;
      rest := world;
      if size == |s.bufs[i].data| {
        return Some(true), rest;
      }
      if s.bufs[i].delwri {
        var written;
        written, rest := FlushAndWait(me, i, rest);
        return if written then Some(false) else None, rest;
      }
      if size < |s.bufs[i].data| {
        Do(Shrink(me, i, size));
        return Some(true), rest;
      }
      Do(Stale(me, i));
      var clear;
      clear, rest := DispatchOverlaps(me, i, size, rest);
      if !clear {
        return None, rest;
      }
      Do(Grow(me, i, size, junk));
      r := Some(true);
    }

    /** The hash search of getblk. */
    method InCore(vp: nat, blkno: nat) returns (r: Option<nat>)
      ensures r.Some? ==> r.value < |s.bufs| && Known(s.bufs[r.value])
      ensures r.Some? ==> s.bufs[r.value].vp == Some(vp) && s.bufs[r.value].blkno == blkno
      ensures r.None? ==> forall j :: 0 <= j < |s.bufs| ==>
        !(Known(s.bufs[j]) && s.bufs[j].vp == Some(vp) && s.bufs[j].blkno == blkno)
    {
      var j := 0;
      while j < |s.bufs|
        invariant 0 <= j <= |s.bufs|
        invariant forall k :: 0 <= k < j ==> !(Known(s.bufs[k]) && s.bufs[k].vp == Some(vp) && s.bufs[k].blkno == blkno)
      {
        if s.bufs[j].blkno == blkno && s.bufs[j].vp == Some(vp) && !s.bufs[j].inval {
          return Some(j);
        }
        j := j + 1;
      }
      r := None;
    }

    /** getblk: a buffer for exactly that block, held by the caller. */
    method Getblk(me: nat, vp: nat, blkno: nat, size: nat, junk: seq<int>, world: seq<seq<Action>>)
      returns (r: Option<nat>, rest: seq<seq<Action>>)
      requires Safe(s) && size > 0 && Within(blkno, size) && |junk| == size && ForeignWorld(world, me)
      modifies this
      ensures Safe(s) && |s.bufs| == |old(s).bufs| && ForeignWorld(rest, me)
      ensures r.Some? ==> Mine(s, me, r.value) && Known(s.bufs[r.value]) && |s.bufs[r.value].data| == size
      ensures r.Some? ==> s.bufs[r.value].vp == Some(vp) && s.bufs[r.value].blkno == blkno
    {
      hide Safe, ForeignWorld, Within;
      rest := world;
      while true
        invariant Safe(s) && |s.bufs| == |old(s).bufs| && ForeignWorld(rest, me)
        decreases |rest|
      {
        var found := InCore(vp, blkno);
        if found.Some? {
          if s.bufs[found.value].holder != Free {
            if rest == [] {
              return None, rest;
            }
            rest := Sleep(me, rest);
            continue;
          }
          BufOf(s, found.value);
          Do(Seize(me, found.value));
        } else {
          found, rest := GetNewBuf(me, rest);
          if found.None? {
            return None, rest;
          }
          Do(Reuse(me, found.value, Some(vp), blkno));
        }
        var sized;
        sized, rest := Brealloc(me, found.value, size, junk, rest);
        if sized.None? {
          return None, rest;
        }
        if sized.value {
          return found, rest;
        }
      }
    }

    /** bread: the buffer holds what was last written to the block, wherever it was found. */
    method Bread(me: nat, vp: nat, blkno: nat, size: nat, junk: seq<int>, world: seq<seq<Action>>)
      returns (r: Option<nat>, rest: seq<seq<Action>>)
      requires Safe(s) && size > 0 && Within(blkno, size) && |junk| == size && ForeignWorld(world, me)
      modifies this
      ensures Safe(s) && |s.bufs| == |old(s).bufs| && ForeignWorld(rest, me)
      ensures r.Some? ==> Mine(s, me, r.value) && |s.bufs[r.value].data| == size
      ensures r.Some? ==> Agrees(s.last, vp, blkno, s.bufs[r.value].data)
    {
      hide Safe, ForeignWorld, Within;
      r, rest := Getblk(me, vp, blkno, size, junk, world);
      if r.None? {
        return;
      }
      if !s.bufs[r.value].done {
        Do(Read(me, r.value, false));
        var ok;
        ok, rest := Biowait(me, r.value, rest);
        if !ok {
          return None, rest;
        }
      }
      Current(s, r.value);
    }

    /** bflush: start the write of every delayed-write buffer of vp, or of all, that nobody holds. */
    method Bflush(me: nat, vp: Option<nat>)
      requires Safe(s)
      modifies this
      ensures Safe(s) && |s.bufs| == |old(s).bufs|
      ensures forall i :: 0 <= i < |s.bufs| && s.bufs[i].holder == Free && Concerns(vp, s.bufs[i]) ==> !s.bufs[i].delwri
    {
      hide Safe;
      var i := 0;
      while i < |s.bufs|
        invariant Safe(s) && |s.bufs| == |old(s).bufs| && 0 <= i <= |s.bufs|
        invariant forall j :: 0 <= j < i && s.bufs[j].holder == Free && Concerns(vp, s.bufs[j]) ==> !s.bufs[j].delwri
        decreases FreeCount(s.bufs, 0), |s.bufs| - i
      {
        if s.bufs[i].holder == Free && s.bufs[i].delwri && Concerns(vp, s.bufs[i]) {
          ghost var before := s.bufs;
          BufOf(s, i);
          Do(Seize(me, i));
          Do(Flush(me, i, true));
          OneFewer(before, i, s.bufs[i], 0);
          assert s.bufs == before[i := s.bufs[i]];
          i := 0;
        } else {
          i := i + 1;
        }
      }
    }
  }

  predicate Concerns(vp: Option<nat>, b: Buf) {
    vp.None? || vp == b.vp
  }

  lemma InvalidNever(e: Buf, v: nat, start: nat, n: nat)
    ensures e.inval ==> !Overlaps(e, v, start, n)
  {
  }
}
