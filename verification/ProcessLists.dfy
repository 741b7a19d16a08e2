/**
 * The linked lists a process is on: allproc and zombproc, doubly linked with
 * a pointer back to the pointer that points here, and freeproc and the pid
 * hash chains, singly linked.
 */
module ProcessLists {
  import opened ProcessTree

  /** What p_prev points at: one of the two list heads, or the p_nxt of a process. */
  datatype Ref = AllHead | ZombHead | NxtOf(slot: int)

  /** s is the list of slots from head along next. */
  predicate SinglyAt(next: seq<int>, s: seq<int>, i: nat)
    requires i < |s|
  {
    0 <= s[i] < |next| && next[s[i]] == At(s, i + 1)
  }

  ghost predicate Singly(next: seq<int>, head: int, s: seq<int>) {
    head == At(s, 0) && Distinct(s) && forall i: nat {:trigger SinglyAt(next, s, i)} :: i < |s| ==> SinglyAt(next, s, i)
  }

  function BackRef(s: seq<int>, ref: Ref, i: nat): Ref
    requires i <= |s|
  {
    if i == 0 then ref else NxtOf(s[i - 1])
  }

  predicate DoublyAt(nxt: seq<int>, prev: seq<Ref>, ref: Ref, s: seq<int>, i: nat)
    requires i < |s|
  {
    0 <= s[i] < |nxt| && s[i] < |prev| && nxt[s[i]] == At(s, i + 1) && prev[s[i]] == BackRef(s, ref, i)
  }

  ghost predicate Doubly(nxt: seq<int>, prev: seq<Ref>, head: int, ref: Ref, s: seq<int>) {
    && head == At(s, 0) && Distinct(s)
    && forall i: nat {:trigger DoublyAt(nxt, prev, ref, s, i)} :: i < |s| ==> DoublyAt(nxt, prev, ref, s, i)
  }

  lemma SinglyHead(next: seq<int>, head: int, s: seq<int>)
    requires Singly(next, head, s)
    ensures head == NIL <==> s == []
    ensures s != [] ==> 0 <= head < |next| && head == s[0] && Singly(next, next[head], s[1..]) && head !in s[1..]
  {
    if s != [] {
      assert SinglyAt(next, s, 0);
      forall i: nat | i < |s[1..]|
        ensures SinglyAt(next, s[1..], i)
      {
        assert SinglyAt(next, s, i + 1);
      }
    }
  }

  lemma SinglyFrame(next: seq<int>, next1: seq<int>, head: int, s: seq<int>)
    requires Singly(next, head, s) && |next1| == |next|
    requires forall x :: x in s && 0 <= x < |next| ==> next1[x] == next[x]
    ensures Singly(next1, head, s)
  {
    forall i: nat | i < |s|
      ensures SinglyAt(next1, s, i)
    {
      assert SinglyAt(next, s, i);
      assert s[i] in s;
    }
  }

  lemma SinglyPush(next: seq<int>, head: int, s: seq<int>, p: nat)
    requires Singly(next, head, s) && p < |next| && p !in s
    ensures Singly(next[p := head], p, [p] + s)
  {
    var next1, s1 := next[p := head], [p] + s;
    forall i: nat | i < |s1|
      ensures SinglyAt(next1, s1, i)
    {
      if i > 0 {
        assert SinglyAt(next, s, i - 1);
      }
    }
  }

  /** Unlink s[k], k > 0, by pointing its predecessor past it. */
  lemma SinglyCut(next: seq<int>, head: int, s: seq<int>, k: nat)
    requires Singly(next, head, s) && 0 < k < |s|
    ensures 0 <= s[k - 1] < |next| && 0 <= s[k] < |next| && next[s[k - 1]] == s[k]
    ensures Singly(next[s[k - 1] := next[s[k]]], head, Without(s, k))
  {
    hide Distinct;
    assert SinglyAt(next, s, k) && SinglyAt(next, s, k - 1);
    var next1, s1 := next[s[k - 1] := next[s[k]]], Without(s, k);
    WithoutDistinct(s, k);
    forall i: nat | i < |s1|
      ensures SinglyAt(next1, s1, i)
    {
      var j := if i < k then i else i + 1;
      assert SinglyAt(next, s, j);
      SameIndex(s, j, k - 1);
    }
  }

  lemma WithoutDistinct(s: seq<int>, k: nat)
    requires Distinct(s) && k < |s|
    ensures Distinct(Without(s, k)) && s[k] !in Without(s, k)
    ensures forall x :: x != s[k] ==> (x in Without(s, k) <==> x in s)
  {
    forall x | x != s[k] && x in s
      ensures x in Without(s, k)
    {
      var j :| 0 <= j < |s| && s[j] == x;
      assert Without(s, k)[if j < k then j else j - 1] == x;
    }
  }

  lemma DoublyFrame(nxt: seq<int>, prev: seq<Ref>, nxt1: seq<int>, prev1: seq<Ref>, head: int, ref: Ref, s: seq<int>)
    requires Doubly(nxt, prev, head, ref, s) && |nxt1| == |nxt| && |prev1| == |prev|
    requires forall x :: x in s && 0 <= x < |nxt| ==> nxt1[x] == nxt[x]
    requires forall x :: x in s && 0 <= x < |prev| ==> prev1[x] == prev[x]
    ensures Doubly(nxt1, prev1, head, ref, s)
  {
    forall i: nat | i < |s|
      ensures DoublyAt(nxt1, prev1, ref, s, i)
    {
      assert DoublyAt(nxt, prev, ref, s, i);
      assert s[i] in s;
    }
  }

  function Relink(prev: seq<Ref>, head: int, ref: Ref): (r: seq<Ref>)
    ensures |r| == |prev|
  {
    if 0 <= head < |prev| then prev[head := ref] else prev
  }

  /** Insertion at the head: the old head, if any, now points back at p. */
  lemma DoublyPush(nxt: seq<int>, prev: seq<Ref>, head: int, ref: Ref, s: seq<int>, p: nat)
    requires Doubly(nxt, prev, head, ref, s) && p < |nxt| == |prev| && p !in s
    ensures Doubly(nxt[p := head], Relink(prev, head, NxtOf(p))[p := ref], p, ref, [p] + s)
  {
    hide Distinct;
    var nxt1, prev1, s1 := nxt[p := head], Relink(prev, head, NxtOf(p))[p := ref], [p] + s;
    DistinctConcat([p], s) by {
      assert Distinct([p]) by { DistinctOne(p); }
    }
    forall i: nat | i < |s1|
      ensures DoublyAt(nxt1, prev1, ref, s1, i)
    {
      if i > 0 {
        assert DoublyAt(nxt, prev, ref, s, i - 1);
        assert s1[i] == s[i - 1] && s[i - 1] in s;
        SameIndex(s, i - 1, 0);
      }
    }
  }

  lemma DistinctOne(p: int)
    ensures Distinct([p])
  {
  }

  /** Removal of s[k]: the pointer that p_prev names is set to p_nxt, and the next process points back there. */
  lemma DoublyCut(nxt: seq<int>, prev: seq<Ref>, head: int, ref: Ref, s: seq<int>, k: nat)
    requires Doubly(nxt, prev, head, ref, s) && |nxt| == |prev| && k < |s|
    ensures 0 <= s[k] < |nxt| && NIL <= nxt[s[k]] < |nxt| && prev[s[k]] == BackRef(s, ref, k)
    ensures k > 0 ==> 0 <= s[k - 1] < |nxt|
    ensures var head1 := if k == 0 then nxt[s[k]] else head;
      var nxt1 := if k == 0 then nxt else nxt[s[k - 1] := nxt[s[k]]];
      Doubly(nxt1, Relink(prev, nxt[s[k]], prev[s[k]]), head1, ref, Without(s, k))
  {
    hide Distinct;
    assert DoublyAt(nxt, prev, ref, s, k);
    if k + 1 < |s| {
      assert DoublyAt(nxt, prev, ref, s, k + 1);
    }
    if k > 0 {
      assert DoublyAt(nxt, prev, ref, s, k - 1);
    }
    var nxt1 := if k == 0 then nxt else nxt[s[k - 1] := nxt[s[k]]];
    var prev1, s1 := Relink(prev, nxt[s[k]], prev[s[k]]), Without(s, k);
    WithoutDistinct(s, k);
    forall i: nat | i < |s1|
      ensures DoublyAt(nxt1, prev1, ref, s1, i)
    {
      var j := if i < k then i else i + 1;
      assert DoublyAt(nxt, prev, ref, s, j);
      if k > 0 {
        SameIndex(s, j, k - 1);
      }
      if k + 1 < |s| {
        SameIndex(s, j, k + 1);
      }
    }
  }

  /**
   * The hash chain search of exit: find p on its chain and unlink it. The
   * panic after the loop is unreachable when p is on the chain.
   */
  method Unhash(hash: seq<int>, head: int, p: nat, ghost s: seq<int>)
    returns (hash1: seq<int>, head1: int, k: nat)
    requires Singly(hash, head, s) && p in s && p < |hash|
    ensures k < |s| && s[k] == p && |hash1| == |hash|
    ensures Singly(hash1, head1, Without(s, k))
    ensures head1 == if k == 0 then hash[p] else head
    ensures k == 0 ==> hash1 == hash
    ensures k > 0 ==> 0 <= s[k - 1] < |hash| && hash1 == hash[s[k - 1] := hash[p]]
  {
    SinglyHead(hash, head, s);
    hash1, head1 := hash, head;
    if p == head {
      assert Without(s, 0) == s[1..];
      return hash, hash[p], 0;
    }
    var x := head;
    k := 0;
    while true
      invariant k < |s| && s[k] == x && (forall i :: 0 <= i <= k ==> s[i] != p)
      decreases |s| - k
    {
      assert SinglyAt(hash, s, k);
      assert p in s[k + 1..] by {
        assert s == s[..k + 1] + s[k + 1..];
      }
      if hash[x] == p {
        SinglyCut(hash, head, s, k + 1);
        hash1 := hash[x := hash[p]];
        k := k + 1;
        return;
      }
      x, k := hash[x], k + 1;
    }
  }

  /** pfind: the first process on the chain with that pid. */
  method Pfind(hash: seq<int>, pids: seq<int>, head: int, pid: int, ghost s: seq<int>) returns (r: int)
    requires Singly(hash, head, s) && |pids| == |hash|
    ensures r == NIL ==> forall x :: x in s && 0 <= x < |pids| ==> pids[x] != pid
    ensures r != NIL ==> r in s && 0 <= r < |pids| && pids[r] == pid
  {
    SinglyHead(hash, head, s);
    r := head;
    ghost var k := 0;
    while r != NIL
      invariant 0 <= k <= |s| && r == At(s, k)
      invariant r == NIL <==> k == |s|
      invariant forall i :: 0 <= i < k && 0 <= s[i] < |pids| ==> pids[s[i]] != pid
      decreases |s| - k
    {
      assert SinglyAt(hash, s, k);
      if pids[r] == pid {
        return;
      }
      r, k := hash[r], k + 1;
      if k < |s| {
        assert SinglyAt(hash, s, k);
      }
    }
  }

  predicate Wanted(pids: seq<int>, want: int, x: int)
    requires 0 <= x < |pids|
  {
    want == 0 || want == pids[x]
  }

  /** No child before p in the list, where younger ones come first, is dead and asked for. */
  ghost predicate Youngest(s: seq<int>, p: int, pids: seq<int>, task: seq<bool>, want: int) {
    exists k :: 0 <= k < |s| && s[k] == p && forall j :: 0 <= j < k ==>
      0 <= s[j] < |pids| && s[j] < |task| && (want == 0 || pids[s[j]] == want ==> task[s[j]])
  }

  /** The search of wait1 along the children: the youngest dead one that matches, and how many matched up to it. */
  method FindDead(osptr: seq<int>, pids: seq<int>, task: seq<bool>, head: int, want: int, ghost s: seq<int>)
    returns (p: int, f: nat)
    requires Singly(osptr, head, s) && |pids| == |osptr| == |task|
    ensures p == NIL ==> forall x :: x in s && 0 <= x < |task| && Wanted(pids, want, x) ==> task[x]
    ensures p == NIL ==> (f == 0 <==> forall x :: x in s && 0 <= x < |pids| ==> !Wanted(pids, want, x))
    ensures p != NIL ==> p in s && 0 <= p < |task| && !task[p] && (want == 0 || pids[p] == want)
    ensures p != NIL ==> Youngest(s, p, pids, task, want)
  {
    SinglyHead(osptr, head, s);
    p, f := head, 0;
    ghost var k := 0;
    while p != NIL
      invariant 0 <= k <= |s| && p == At(s, k)
      invariant p == NIL <==> k == |s|
      invariant forall i :: 0 <= i < k ==> 0 <= s[i] < |pids|
      invariant forall i :: 0 <= i < k && Wanted(pids, want, s[i]) ==> task[s[i]]
      invariant f == 0 <==> forall i :: 0 <= i < k ==> !Wanted(pids, want, s[i])
      decreases |s| - k
    {
      assert SinglyAt(osptr, s, k);
      if want == 0 || want == pids[p] {
        f := f + 1;
        if !task[p] {
          assert s[k] == p;
          return;
        }
      }
      p, k := osptr[p], k + 1;
      if k < |s| {
        assert SinglyAt(osptr, s, k);
      }
    }
    if f == 0 {
      forall x | x in s && 0 <= x < |pids|
        ensures !Wanted(pids, want, x)
      {
        var i :| 0 <= i < |s| && s[i] == x;
      }
    } else {
      ghost var i :| 0 <= i < k && Wanted(pids, want, s[i]);
      assert s[i] in s;
    }
  }
}
