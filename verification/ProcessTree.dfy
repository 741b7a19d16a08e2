/**
 * The process tree: parent, youngest child, older and younger sibling
 * pointers, as fork, exit, wait and init_process rewrite them, and the
 * stackless walk of spgrp over it.
 *
 * Processes are slots of a table; a null pointer is NIL. The ghost value
 * `kids` lists the children of every slot, youngest first.
 */
module ProcessTree {

  const NIL := -1

  datatype Links = Links(pptr: seq<int>, cptr: seq<int>, osptr: seq<int>, ysptr: seq<int>)

  predicate Sized(t: Links, kids: seq<seq<int>>) {
    |t.pptr| == |t.cptr| == |t.osptr| == |t.ysptr| == |kids|
  }

  /** The i-th element of a child list, null off either end. */
  function At(s: seq<int>, i: int): int {
    if 0 <= i < |s| then s[i] else NIL
  }

  predicate HasParent(t: Links, q: int)
    requires 0 <= q < |t.pptr|
  {
    t.pptr[q] != NIL && t.pptr[q] != q
  }

  /** Slot q sits at place i of the child list s of p. */
  predicate Placed(t: Links, n: nat, p: int, s: seq<int>, i: nat)
    requires |t.pptr| == |t.osptr| == |t.ysptr| == n && i < |s|
  {
    && 0 <= s[i] < n && s[i] != p
    && t.pptr[s[i]] == p && t.osptr[s[i]] == At(s, i + 1) && t.ysptr[s[i]] == At(s, i - 1)
  }

  predicate Distinct(s: seq<int>) {
    forall i, j :: 0 <= i < j < |s| ==> s[i] != s[j]
  }

  /** s is the doubly linked list of children of p. */
  ghost predicate Chain(t: Links, n: nat, p: int, s: seq<int>)
    requires |t.pptr| == |t.osptr| == |t.ysptr| == n
  {
    Distinct(s) && forall i: nat {:trigger Placed(t, n, p, s, i)} :: i < |s| ==> Placed(t, n, p, s, i)
  }

  /** Slot p: its child list is well linked, and a slot that calls some slot its parent is on that slot's list. */
  ghost predicate Node(t: Links, kids: seq<seq<int>>, hole: int, p: nat)
    requires Sized(t, kids) && p < |kids|
  {
    && Chain(t, |kids|, p, kids[p])
    && (p != hole ==> t.cptr[p] == At(kids[p], 0))
    && (HasParent(t, p) ==> 0 <= t.pptr[p] < |kids| && p in kids[t.pptr[p]])
    && (!HasParent(t, p) ==> t.osptr[p] == NIL && t.ysptr[p] == NIL)
  }

  /**
   * Every child list is a well-formed doubly linked list of exactly the
   * processes with that p_pptr. While a process is exiting, its p_cptr is
   * stale: that process is the `hole`.
   */
  ghost predicate Forest(t: Links, kids: seq<seq<int>>, hole: int) {
    Sized(t, kids) && forall p: nat {:trigger kids[p]} :: p < |kids| ==> Node(t, kids, hole, p)
  }

  lemma MemberParent(t: Links, kids: seq<seq<int>>, hole: int, p: nat, x: int)
    requires Forest(t, kids, hole) && p < |kids| && x in kids[p]
    ensures 0 <= x < |kids| && x != p && t.pptr[x] == p
  {
    assert Node(t, kids, hole, p);
    var i: nat :| i < |kids[p]| && kids[p][i] == x;
    assert Placed(t, |kids|, p, kids[p], i);
  }

  /** Exactly the processes with that parent. */
  lemma KidsAreChildren(t: Links, kids: seq<seq<int>>, hole: int, p: nat, q: nat)
    requires Forest(t, kids, hole) && p < |kids| && q < |kids|
    ensures q in kids[p] <==> q != p && t.pptr[q] == p
  {
    assert Node(t, kids, hole, q);
    if q in kids[p] {
      MemberParent(t, kids, hole, p, q);
    }
  }

  /** A child list survives a change that leaves its members' pointers alone. */
  lemma ChainFrame(t: Links, t1: Links, n: nat, p: int, s: seq<int>)
    requires |t.pptr| == |t.osptr| == |t.ysptr| == n && |t1.pptr| == |t1.osptr| == |t1.ysptr| == n
    requires Chain(t, n, p, s)
    requires forall q :: 0 <= q < n && t.pptr[q] == p && q != p ==>
      t1.pptr[q] == p && t1.osptr[q] == t.osptr[q] && t1.ysptr[q] == t.ysptr[q]
    ensures Chain(t1, n, p, s)
  {
    forall i: nat | i < |s|
      ensures Placed(t1, n, p, s, i)
    {
      assert Placed(t, n, p, s, i);
    }
  }

  // ----- Putting a process at the head of a child list: fork, and adoption by init -----

  function Push(t: Links, q: nat, r: nat): (t1: Links)
    requires |t.pptr| == |t.cptr| == |t.osptr| == |t.ysptr|
    requires q < |t.pptr| && r < |t.pptr| && NIL <= t.cptr[r] < |t.pptr|
    ensures |t1.pptr| == |t1.cptr| == |t1.osptr| == |t1.ysptr| == |t.pptr|
  {
    var y := if t.cptr[r] != NIL then t.ysptr[t.cptr[r] := q] else t.ysptr;
    Links(t.pptr[q := r], t.cptr[r := q], t.osptr[q := t.cptr[r]], y[q := NIL])
  }

  function PushKid(kids: seq<seq<int>>, q: nat, r: nat): seq<seq<int>>
    requires r < |kids|
  {
    kids[r := [q] + kids[r]]
  }

  /** A process on no child list. */
  ghost predicate Orphan(kids: seq<seq<int>>, q: nat) {
    forall p {:trigger kids[p]} :: 0 <= p < |kids| ==> q !in kids[p]
  }

  lemma HeadInRange(t: Links, kids: seq<seq<int>>, hole: int, r: nat)
    requires Forest(t, kids, hole) && r < |kids| && r != hole
    ensures NIL <= t.cptr[r] < |t.pptr|
    ensures t.cptr[r] == At(kids[r], 0)
    ensures kids[r] != [] ==>
      0 <= kids[r][0] < |t.pptr| && t.pptr[kids[r][0]] == r && kids[r][0] != r && kids[r][0] in kids[r]
  {
    assert Node(t, kids, hole, r);
    if kids[r] != [] {
      assert Placed(t, |kids|, r, kids[r], 0);
    }
  }

  lemma PushHere(t: Links, kids: seq<seq<int>>, hole: int, q: nat, r: nat)
    requires Forest(t, kids, hole) && q < |kids| && r < |kids| && r != hole && q != r && Orphan(kids, q)
    requires NIL <= t.cptr[r] < |t.pptr|
    ensures Chain(Push(t, q, r), |kids|, r, [q] + kids[r])
  {
    var s, s1, t1 := kids[r], [q] + kids[r], Push(t, q, r);
    HeadInRange(t, kids, hole, r);
    assert q !in s;
    assert Node(t, kids, hole, r);
    forall i: nat | i < |s1|
      ensures Placed(t1, |kids|, r, s1, i)
    {
      if i > 0 {
        assert Placed(t, |kids|, r, s, i - 1);
        assert s1[i] == s[i - 1];
        assert s1[i] != q;
        if i > 1 {
          assert s[i - 1] != s[0];
        }
      }
    }
  }

  lemma PushElsewhere(t: Links, kids: seq<seq<int>>, hole: int, q: nat, r: nat, p: nat)
    requires Forest(t, kids, hole) && q < |kids| && r < |kids| && r != hole && q != r && Orphan(kids, q)
    requires NIL <= t.cptr[r] < |t.pptr| && p < |kids| && p != r
    ensures Chain(Push(t, q, r), |kids|, p, kids[p])
  {
    hide Push;
    HeadInRange(t, kids, hole, r);
    assert Node(t, kids, hole, p);
    var t1 := Push(t, q, r);
    assert q !in kids[p];
    forall i: nat | i < |kids[p]|
      ensures Placed(t1, |kids|, p, kids[p], i)
    {
      assert Placed(t, |kids|, p, kids[p], i);
      assert kids[p][i] != q;
      PushOther(t, q, r, kids[p][i]);
    }
  }

  lemma PushOther(t: Links, q: nat, r: nat, x: int)
    requires |t.pptr| == |t.cptr| == |t.osptr| == |t.ysptr|
    requires q < |t.pptr| && r < |t.pptr| && NIL <= t.cptr[r] < |t.pptr| && q != r
    requires 0 <= x < |t.pptr| && x != q && x != t.cptr[r]
    ensures var t1 := Push(t, q, r);
      && |t1.pptr| == |t1.cptr| == |t1.osptr| == |t1.ysptr| == |t.pptr|
      && t1.pptr[x] == t.pptr[x] && t1.osptr[x] == t.osptr[x] && t1.ysptr[x] == t.ysptr[x]
  {
  }

  lemma PushKeeps(t: Links, kids: seq<seq<int>>, hole: int, q: nat, r: nat)
    requires Forest(t, kids, hole) && q < |kids| && r < |kids| && r != hole && q != r && Orphan(kids, q)
    requires NIL <= t.cptr[r] < |t.pptr|
    ensures Forest(Push(t, q, r), PushKid(kids, q, r), hole)
  {
    hide Chain, Orphan;
    var t1, kids1 := Push(t, q, r), PushKid(kids, q, r);
    HeadInRange(t, kids, hole, r);
    assert q in kids1[r];
    forall p: nat | p < |kids1|
      ensures Node(t1, kids1, hole, p)
    {
      assert Node(t, kids, hole, p);
      if p == r {
        PushHere(t, kids, hole, q, r);
      } else {
        PushElsewhere(t, kids, hole, q, r, p);
      }
    }
  }

  // ----- Taking a process out of its siblings: wait, init_process and the exit loop -----

  /** Close the gap around p and give it the parent pointer `up`; the old parent's p_cptr is left alone. */
  function Splice(t: Links, p: nat, up: int): (t1: Links)
    requires |t.pptr| == |t.cptr| == |t.osptr| == |t.ysptr|
    requires p < |t.pptr| && NIL <= t.osptr[p] < |t.pptr| && NIL <= t.ysptr[p] < |t.pptr|
    ensures |t1.pptr| == |t1.cptr| == |t1.osptr| == |t1.ysptr| == |t.pptr|
  {
    var y := if t.osptr[p] != NIL then t.ysptr[t.osptr[p] := t.ysptr[p]] else t.ysptr;
    var o := if t.ysptr[p] != NIL then t.osptr[t.ysptr[p] := t.osptr[p]] else t.osptr;
    Links(t.pptr[p := up], t.cptr, o[p := NIL], y[p := NIL])
  }

  function Without(s: seq<int>, k: nat): seq<int>
    requires k < |s|
  {
    s[..k] + s[k + 1..]
  }

  /** The place of p among its siblings, and what its sibling pointers say. */
  lemma PlaceOf(t: Links, kids: seq<seq<int>>, hole: int, p: nat) returns (k: nat)
    requires Forest(t, kids, hole) && p < |kids| && HasParent(t, p)
    ensures 0 <= t.pptr[p] < |kids| && k < |kids[t.pptr[p]]| && kids[t.pptr[p]][k] == p
    ensures t.osptr[p] == At(kids[t.pptr[p]], k + 1) && t.ysptr[p] == At(kids[t.pptr[p]], k - 1)
    ensures NIL <= t.osptr[p] < |t.pptr| && NIL <= t.ysptr[p] < |t.pptr|
    ensures t.osptr[p] != p && t.ysptr[p] != p
  {
    assert Node(t, kids, hole, p);
    var s := kids[t.pptr[p]];
    assert Node(t, kids, hole, t.pptr[p]);
    k :| 0 <= k < |s| && s[k] == p;
    assert Placed(t, |kids|, t.pptr[p], s, k);
    if k + 1 < |s| {
      assert Placed(t, |kids|, t.pptr[p], s, k + 1);
    }
    if k > 0 {
      assert Placed(t, |kids|, t.pptr[p], s, k - 1);
    }
  }

  lemma SpliceHere(t: Links, n: nat, pp: int, s: seq<int>, k: nat, up: int)
    requires |t.pptr| == |t.cptr| == |t.osptr| == |t.ysptr| == n && Chain(t, n, pp, s) && k < |s|
    requires 0 <= s[k] < n && NIL <= t.osptr[s[k]] < n && NIL <= t.ysptr[s[k]] < n
    ensures Chain(Splice(t, s[k], up), n, pp, Without(s, k))
  {
    hide Splice;
    var t1, s1 := Splice(t, s[k], up), Without(s, k);
    assert Placed(t, n, pp, s, k);
    forall i: nat | i < |s1|
      ensures Placed(t1, n, pp, s1, i)
    {
      var j := if i < k then i else i + 1;
      assert s1[i] == s[j];
      assert Placed(t, n, pp, s, j);
      SpliceMember(t, n, pp, s, k, j, up);
    }
  }

  /** The pointers of the other siblings after p = s[k] is taken out. */
  lemma SpliceMember(t: Links, n: nat, pp: int, s: seq<int>, k: nat, j: nat, up: int)
    requires |t.pptr| == |t.cptr| == |t.osptr| == |t.ysptr| == n && Chain(t, n, pp, s) && k < |s| && j < |s| && j != k
    requires 0 <= s[k] < n && NIL <= t.osptr[s[k]] < n && NIL <= t.ysptr[s[k]] < n && 0 <= s[j] < n
    ensures var t1 := Splice(t, s[k], up);
      && t1.pptr[s[j]] == t.pptr[s[j]]
      && t1.osptr[s[j]] == At(s, if j + 1 == k then k + 1 else j + 1)
      && t1.ysptr[s[j]] == At(s, if j == k + 1 then k - 1 else j - 1)
  {
    hide Distinct;
    assert Placed(t, n, pp, s, k) && Placed(t, n, pp, s, j);
    SameIndex(s, j, k);
    if k + 1 < |s| {
      SameIndex(s, j, k + 1);
    }
    if k > 0 {
      SameIndex(s, j, k - 1);
    }
  }

  lemma SameIndex(s: seq<int>, a: nat, b: nat)
    requires Distinct(s) && a < |s| && b < |s|
    ensures s[a] == s[b] <==> a == b
  {
  }

  lemma SpliceElsewhere(t: Links, n: nat, pp: int, s: seq<int>, p: nat, up: int)
    requires |t.pptr| == |t.cptr| == |t.osptr| == |t.ysptr| == n && Chain(t, n, pp, s)
    requires p < n && NIL <= t.osptr[p] < n && NIL <= t.ysptr[p] < n
    requires p !in s && t.osptr[p] !in s && t.ysptr[p] !in s
    ensures Chain(Splice(t, p, up), n, pp, s)
  {
    var t1 := Splice(t, p, up);
    forall i: nat | i < |s|
      ensures Placed(t1, n, pp, s, i)
    {
      assert Placed(t, n, pp, s, i);
      assert s[i] != p && s[i] != t.osptr[p] && s[i] != t.ysptr[p];
    }
  }

  /** Membership in two lists at once is impossible. */
  lemma OneList(t: Links, kids: seq<seq<int>>, hole: int, a: nat, b: nat, x: int)
    requires Forest(t, kids, hole) && a < |kids| && b < |kids| && a != b && x in kids[a]
    ensures x !in kids[b]
  {
    MemberParent(t, kids, hole, a, x);
    if x in kids[b] {
      MemberParent(t, kids, hole, b, x);
    }
  }

  lemma SpliceKeeps(t: Links, kids: seq<seq<int>>, hole: int, p: nat, k: nat, up: int)
    requires Forest(t, kids, hole) && p < |kids| && HasParent(t, p) && (hole == NIL || hole == t.pptr[p])
    requires 0 <= t.pptr[p] < |kids| && k < |kids[t.pptr[p]]| && kids[t.pptr[p]][k] == p
    requires NIL <= t.osptr[p] < |t.pptr| && NIL <= t.ysptr[p] < |t.pptr| && (up == NIL || up == p)
    ensures Forest(Splice(t, p, up), kids[t.pptr[p] := Without(kids[t.pptr[p]], k)], t.pptr[p])
    ensures Orphan(kids[t.pptr[p] := Without(kids[t.pptr[p]], k)], p)
  {
    hide Chain;
    var pp, n := t.pptr[p], |kids|;
    var t1, s1 := Splice(t, p, up), Without(kids[pp], k);
    var kids1 := kids[pp := s1];
    SpliceGone(t, kids, hole, p, k);
    forall r: nat | r < n
      ensures Node(t1, kids1, pp, r)
    {
      assert Node(t, kids, hole, r);
      if r == pp {
        SpliceHere(t, n, pp, kids[pp], k, up);
      } else {
        SpliceNeighbours(t, kids, hole, p, k, r);
        SpliceElsewhere(t, n, r, kids[r], p, up);
      }
      SpliceUp(t, kids, hole, p, k, up, r);
    }
  }

  lemma SpliceNeighbours(t: Links, kids: seq<seq<int>>, hole: int, p: nat, k: nat, r: nat)
    requires Forest(t, kids, hole) && p < |kids| && HasParent(t, p) && r < |kids| && r != t.pptr[p]
    requires 0 <= t.pptr[p] < |kids| && k < |kids[t.pptr[p]]| && kids[t.pptr[p]][k] == p
    ensures p !in kids[r] && t.osptr[p] !in kids[r] && t.ysptr[p] !in kids[r]
  {
    var pp := t.pptr[p];
    assert Node(t, kids, hole, pp) && Node(t, kids, hole, r);
    assert Placed(t, |kids|, pp, kids[pp], k);
    OneList(t, kids, hole, pp, r, p);
    NilInNone(t, kids, hole, r);
    if k + 1 < |kids[pp]| {
      OneList(t, kids, hole, pp, r, kids[pp][k + 1]);
    }
    if k > 0 {
      OneList(t, kids, hole, pp, r, kids[pp][k - 1]);
    }
  }

  lemma NilInNone(t: Links, kids: seq<seq<int>>, hole: int, r: nat)
    requires Forest(t, kids, hole) && r < |kids|
    ensures NIL !in kids[r]
  {
    if NIL in kids[r] {
      MemberParent(t, kids, hole, r, NIL);
    }
  }

  lemma SpliceGone(t: Links, kids: seq<seq<int>>, hole: int, p: nat, k: nat)
    requires Forest(t, kids, hole) && p < |kids| && HasParent(t, p)
    requires 0 <= t.pptr[p] < |kids| && k < |kids[t.pptr[p]]| && kids[t.pptr[p]][k] == p
    ensures Orphan(kids[t.pptr[p] := Without(kids[t.pptr[p]], k)], p)
    ensures forall x :: x != p ==> (x in Without(kids[t.pptr[p]], k) <==> x in kids[t.pptr[p]])
  {
    var pp := t.pptr[p];
    var s := kids[pp];
    assert Node(t, kids, hole, pp);
    forall x | x != p && x in s
      ensures x in Without(s, k)
    {
      var j :| 0 <= j < |s| && s[j] == x;
      assert Without(s, k)[if j < k then j else j - 1] == x;
    }
    forall r | 0 <= r < |kids| && r != pp
      ensures p !in kids[r]
    {
      OneList(t, kids, hole, pp, r, p);
    }
    assert p !in Without(s, k);
  }

  /** Everybody but p still finds itself on its parent's list. */
  lemma SpliceUp(t: Links, kids: seq<seq<int>>, hole: int, p: nat, k: nat, up: int, r: nat)
    requires Forest(t, kids, hole) && p < |kids| && HasParent(t, p) && r < |kids|
    requires 0 <= t.pptr[p] < |kids| && k < |kids[t.pptr[p]]| && kids[t.pptr[p]][k] == p
    requires NIL <= t.osptr[p] < |t.pptr| && NIL <= t.ysptr[p] < |t.pptr| && (up == NIL || up == p)
    ensures var t1, kids1 := Splice(t, p, up), kids[t.pptr[p] := Without(kids[t.pptr[p]], k)];
      && (HasParent(t1, r) ==> 0 <= t1.pptr[r] < |kids1| && r in kids1[t1.pptr[r]])
      && (!HasParent(t1, r) ==> t1.osptr[r] == NIL && t1.ysptr[r] == NIL)
  {
    hide Orphan;
    assert Node(t, kids, hole, r);
    SpliceGone(t, kids, hole, p, k);
    if r != p && !HasParent(t, r) {
      NotNeighbour(t, kids, hole, p, k, r);
    }
  }

  lemma NotNeighbour(t: Links, kids: seq<seq<int>>, hole: int, p: nat, k: nat, r: nat)
    requires Forest(t, kids, hole) && p < |kids| && HasParent(t, p) && r < |kids| && !HasParent(t, r)
    requires 0 <= t.pptr[p] < |kids| && k < |kids[t.pptr[p]]| && kids[t.pptr[p]][k] == p
    ensures r != t.osptr[p] && r != t.ysptr[p]
  {
    var pp := t.pptr[p];
    assert Node(t, kids, hole, pp);
    assert Placed(t, |kids|, pp, kids[pp], k);
    if k + 1 < |kids[pp]| {
      assert Placed(t, |kids|, pp, kids[pp], k + 1);
    }
    if k > 0 {
      assert Placed(t, |kids|, pp, kids[pp], k - 1);
    }
  }

  /** Once its p_cptr is right again, a process is no hole. */
  lemma FillHole(t: Links, kids: seq<seq<int>>, hole: nat)
    requires Forest(t, kids, hole) && hole < |kids|
    ensures Forest(t.(cptr := t.cptr[hole := At(kids[hole], 0)]), kids, NIL)
  {
    hide Chain;
    var t1 := t.(cptr := t.cptr[hole := At(kids[hole], 0)]);
    forall r: nat | r < |kids|
      ensures Node(t1, kids, NIL, r)
    {
      assert Node(t, kids, hole, r);
      CptrFree(t, t1, |kids|, r, kids[r]);
    }
  }

  lemma CptrFree(t: Links, t1: Links, n: nat, p: int, s: seq<int>)
    requires |t.pptr| == |t.osptr| == |t.ysptr| == n && Chain(t, n, p, s)
    requires t1.pptr == t.pptr && t1.osptr == t.osptr && t1.ysptr == t.ysptr
    ensures Chain(t1, n, p, s)
  {
    ChainFrame(t, t1, n, p, s);
  }

  lemma OpenHole(t: Links, kids: seq<seq<int>>, hole: int)
    requires Forest(t, kids, NIL)
    ensures Forest(t, kids, hole)
  {
    forall r: nat | r < |kids|
      ensures Node(t, kids, hole, r)
    {
      assert Node(t, kids, NIL, r);
    }
  }

  // ----- Descendants and the walk of spgrp -----

  /** A tree together with its ghosts: the child lists, and when each process was born. */
  datatype Family = Family(t: Links, kids: seq<seq<int>>, birth: seq<nat>, limit: nat)

  /** Parents are older than their children, so there is no cycle. */
  ghost predicate Ordered(f: Family)
    requires |f.birth| == |f.t.pptr|
  {
    && (forall q: nat {:trigger f.birth[q]} :: q < |f.birth| ==> f.birth[q] <= f.limit)
    && forall q: nat {:trigger f.t.pptr[q]} :: q < |f.t.pptr| && HasParent(f.t, q) ==>
         0 <= f.t.pptr[q] < |f.birth| && f.birth[f.t.pptr[q]] < f.birth[q]
  }

  ghost predicate Good(f: Family, hole: int) {
    Forest(f.t, f.kids, hole) && |f.birth| == |f.t.pptr| && Ordered(f)
  }

  /** The i-th child of p. */
  lemma KidFacts(f: Family, hole: int, p: nat, i: nat)
    requires Good(f, hole) && p < |f.kids| && i < |f.kids[p]|
    ensures 0 <= f.kids[p][i] < |f.kids| && f.kids[p][i] != p && HasParent(f.t, f.kids[p][i])
    ensures f.t.pptr[f.kids[p][i]] == p && f.birth[p] < f.birth[f.kids[p][i]] <= f.limit && f.birth[p] <= f.limit
    ensures f.t.osptr[f.kids[p][i]] == At(f.kids[p], i + 1)
  {
    assert Node(f.t, f.kids, hole, p);
    assert Placed(f.t, |f.kids|, p, f.kids[p], i);
  }

  /** p and its descendants, each process before its children and these youngest first. */
  ghost function Preorder(f: Family, hole: int, p: nat): seq<int>
    requires Good(f, hole) && p < |f.kids|
    decreases f.limit - f.birth[p], |f.kids[p]| + 1
  {
    [p] + PreorderOfKids(f, hole, p, 0)
  }

  ghost function PreorderOfKids(f: Family, hole: int, p: nat, i: nat): seq<int>
    requires Good(f, hole) && p < |f.kids| && i <= |f.kids[p]|
    decreases f.limit - f.birth[p], |f.kids[p]| - i
  {
    if i == |f.kids[p]| then []
    else
      KidFacts(f, hole, p, i);
      Preorder(f, hole, f.kids[p][i]) + PreorderOfKids(f, hole, p, i + 1)
  }

  /** q is top or one of its descendants: following parent pointers from q leads to top. */
  ghost predicate Under(f: Family, hole: int, top: nat, q: nat)
    requires Good(f, hole) && top < |f.kids| && q < |f.kids|
    decreases f.birth[q]
  {
    q == top || (HasParent(f.t, q) && Under(f, hole, top, f.t.pptr[q]))
  }

  lemma {:induction false} UnderIsOlder(f: Family, hole: int, top: nat, q: nat)
    requires Good(f, hole) && top < |f.kids| && q < |f.kids| && Under(f, hole, top, q)
    ensures f.birth[top] <= f.birth[q]
    decreases f.birth[q]
  {
    if q != top {
      UnderIsOlder(f, hole, top, f.t.pptr[q]);
    }
  }

  lemma {:induction false} UnderTransitive(f: Family, hole: int, a: nat, b: nat, c: nat)
    requires Good(f, hole) && a < |f.kids| && b < |f.kids| && c < |f.kids|
    requires Under(f, hole, a, b) && Under(f, hole, b, c)
    ensures Under(f, hole, a, c)
    decreases f.birth[c]
  {
    if c != b {
      UnderTransitive(f, hole, a, b, f.t.pptr[c]);
    }
  }

  /** The subtrees of two siblings do not meet. */
  lemma {:induction false} SiblingsApart(f: Family, hole: int, a: nat, b: nat, x: nat)
    requires Good(f, hole) && a < |f.kids| && b < |f.kids| && x < |f.kids|
    requires HasParent(f.t, a) && HasParent(f.t, b) && f.t.pptr[a] == f.t.pptr[b]
    requires Under(f, hole, a, x) && Under(f, hole, b, x)
    ensures a == b
    decreases f.birth[x]
  {
    if x == a {
      if a != b {
        UnderIsOlder(f, hole, b, f.t.pptr[a]);
      }
    } else if x == b {
      UnderIsOlder(f, hole, a, f.t.pptr[b]);
    } else {
      SiblingsApart(f, hole, a, b, f.t.pptr[x]);
    }
  }

  /** The walk order holds only descendants ... */
  lemma {:induction false} PreorderIsUnder(f: Family, hole: int, p: nat, q: int)
    requires Good(f, hole) && p < |f.kids| && q in Preorder(f, hole, p)
    ensures 0 <= q < |f.kids| && Under(f, hole, p, q)
    decreases f.limit - f.birth[p], |f.kids[p]| + 1
  {
    if q != p {
      KidsOrderIsUnder(f, hole, p, 0, q);
    }
  }

  lemma {:induction false} KidsOrderIsUnder(f: Family, hole: int, p: nat, i: nat, q: int)
    requires Good(f, hole) && p < |f.kids| && i <= |f.kids[p]| && q in PreorderOfKids(f, hole, p, i)
    ensures 0 <= q < |f.kids| && Under(f, hole, p, q)
    ensures exists j: nat :: i <= j < |f.kids[p]| && 0 <= f.kids[p][j] < |f.kids| && Under(f, hole, f.kids[p][j], q)
    decreases f.limit - f.birth[p], |f.kids[p]| - i
  {
    KidFacts(f, hole, p, i);
    var kid := f.kids[p][i];
    if q in Preorder(f, hole, kid) {
      PreorderIsUnder(f, hole, kid, q);
      assert Under(f, hole, p, kid);
      UnderTransitive(f, hole, p, kid, q);
    } else {
      KidsOrderIsUnder(f, hole, p, i + 1, q);
    }
  }

  /** ... all of them ... */
  lemma {:induction false} UnderIsPreorder(f: Family, hole: int, p: nat, q: nat)
    requires Good(f, hole) && p < |f.kids| && q < |f.kids| && Under(f, hole, p, q)
    ensures q in Preorder(f, hole, p)
    decreases f.birth[q]
  {
    if q != p {
      var up := f.t.pptr[q];
      UnderIsPreorder(f, hole, p, up);
      assert Node(f.t, f.kids, hole, q);
      var i: nat :| i < |f.kids[up]| && f.kids[up][i] == q;
      KidFollows(f, hole, p, up, i);
    }
  }

  lemma {:induction false} KidFollows(f: Family, hole: int, p: nat, x: nat, i: nat)
    requires Good(f, hole) && p < |f.kids| && x < |f.kids| && i < |f.kids[x]| && x in Preorder(f, hole, p)
    ensures f.kids[x][i] in Preorder(f, hole, p)
    decreases f.limit - f.birth[p], |f.kids[p]| + 1
  {
    if x == p {
      KidInOrder(f, hole, p, 0, i);
    } else {
      KidFollowsKids(f, hole, p, 0, x, i);
    }
  }

  lemma {:induction false} KidFollowsKids(f: Family, hole: int, p: nat, k: nat, x: nat, i: nat)
    requires Good(f, hole) && p < |f.kids| && k <= |f.kids[p]| && x < |f.kids| && i < |f.kids[x]|
    requires x in PreorderOfKids(f, hole, p, k)
    ensures f.kids[x][i] in PreorderOfKids(f, hole, p, k)
    decreases f.limit - f.birth[p], |f.kids[p]| - k
  {
    KidFacts(f, hole, p, k);
    if x in Preorder(f, hole, f.kids[p][k]) {
      KidFollows(f, hole, f.kids[p][k], x, i);
    } else {
      KidFollowsKids(f, hole, p, k + 1, x, i);
    }
  }

  lemma {:induction false} KidInOrder(f: Family, hole: int, p: nat, k: nat, i: nat)
    requires Good(f, hole) && p < |f.kids| && k <= i < |f.kids[p]|
    ensures f.kids[p][i] in PreorderOfKids(f, hole, p, k)
    decreases i - k
  {
    KidFacts(f, hole, p, k);
    if k == i {
      assert f.kids[p][k] in Preorder(f, hole, f.kids[p][k]);
    } else {
      KidInOrder(f, hole, p, k + 1, i);
    }
  }

  /** ... and each of them once. */
  lemma {:induction false} PreorderDistinct(f: Family, hole: int, p: nat)
    requires Good(f, hole) && p < |f.kids|
    ensures Distinct(Preorder(f, hole, p))
    decreases f.limit - f.birth[p], |f.kids[p]| + 1
  {
    KidsOrderDistinct(f, hole, p, 0);
    var rest := PreorderOfKids(f, hole, p, 0);
    if p in rest {
      NotUnderKid(f, hole, p);
    }
    DistinctConcat([p], rest);
  }

  lemma NotUnderKid(f: Family, hole: int, p: nat)
    requires Good(f, hole) && p < |f.kids|
    ensures p !in PreorderOfKids(f, hole, p, 0)
  {
    if p in PreorderOfKids(f, hole, p, 0) {
      KidsOrderIsUnder(f, hole, p, 0, p);
      var j: nat :| j < |f.kids[p]| && 0 <= f.kids[p][j] < |f.kids| && Under(f, hole, f.kids[p][j], p);
      KidFacts(f, hole, p, j);
      UnderIsOlder(f, hole, f.kids[p][j], p);
    }
  }

  lemma DistinctConcat(a: seq<int>, b: seq<int>)
    requires Distinct(a) && Distinct(b) && (forall x :: x in a ==> x !in b)
    ensures Distinct(a + b)
  {
    forall i, j | 0 <= i < j < |a + b|
      ensures (a + b)[i] != (a + b)[j]
    {
      if i < |a| <= j {
        assert a[i] in a && b[j - |a|] in b;
      }
    }
  }

  lemma {:induction false} KidsOrderDistinct(f: Family, hole: int, p: nat, i: nat)
    requires Good(f, hole) && p < |f.kids| && i <= |f.kids[p]|
    ensures Distinct(PreorderOfKids(f, hole, p, i))
    decreases f.limit - f.birth[p], |f.kids[p]| - i
  {
    if i < |f.kids[p]| {
      KidFacts(f, hole, p, i);
      PreorderDistinct(f, hole, f.kids[p][i]);
      KidsOrderDistinct(f, hole, p, i + 1);
      forall x | x in Preorder(f, hole, f.kids[p][i])
        ensures x !in PreorderOfKids(f, hole, p, i + 1)
      {
        KidsOrderApart(f, hole, p, i, x);
      }
      DistinctConcat(Preorder(f, hole, f.kids[p][i]), PreorderOfKids(f, hole, p, i + 1));
    }
  }

  lemma KidsDiffer(f: Family, hole: int, p: nat, i: nat, j: nat)
    requires Good(f, hole) && p < |f.kids| && i < |f.kids[p]| && j < |f.kids[p]| && i != j
    ensures f.kids[p][i] != f.kids[p][j]
  {
    assert Node(f.t, f.kids, hole, p);
    SameIndex(f.kids[p], i, j);
  }

  lemma KidsOrderApart(f: Family, hole: int, p: nat, i: nat, x: int)
    requires Good(f, hole) && p < |f.kids| && i < |f.kids[p]| && 0 <= f.kids[p][i] < |f.kids|
    requires x in Preorder(f, hole, f.kids[p][i])
    ensures x !in PreorderOfKids(f, hole, p, i + 1)
  {
    KidFacts(f, hole, p, i);
    PreorderIsUnder(f, hole, f.kids[p][i], x);
    if x in PreorderOfKids(f, hole, p, i + 1) {
      KidsOrderIsUnder(f, hole, p, i + 1, x);
      var j: nat :| i + 1 <= j < |f.kids[p]| && 0 <= f.kids[p][j] < |f.kids| && Under(f, hole, f.kids[p][j], x);
      KidFacts(f, hole, p, j);
      KidsDiffer(f, hole, p, i, j);
      SiblingsApart(f, hole, f.kids[p][i], f.kids[p][j], x);
    }
  }

  // ----- spgrp -----

  const SIGTSTP := 18
  const SIGTTIN := 21
  const SIGTTOU := 22
  const STOPS := {SIGTSTP, SIGTTIN, SIGTTOU}

  /** Place of x in s, from i on. */
  function Find(s: seq<int>, x: int, i: nat): (k: nat)
    requires i < |s| && x in s[i..]
    ensures i <= k < |s| && s[k] == x
    decreases |s| - i
  {
    if s[i] == x then i else
      assert s[i..] == [s[i]] + s[i + 1..];
      Find(s, x, i + 1)
  }

  /** What is left to visit under top once the subtree of p is done. */
  ghost function Pending(f: Family, hole: int, top: nat, p: nat): seq<int>
    requires Good(f, hole) && top < |f.kids| && p < |f.kids| && Under(f, hole, top, p)
    decreases f.birth[p]
  {
    if p == top then []
    else
      assert Node(f.t, f.kids, hole, p);
      var up := f.t.pptr[p];
      assert f.kids[up] == f.kids[up][0..];
      PreorderOfKids(f, hole, up, Find(f.kids[up], p, 0) + 1) + Pending(f, hole, top, up)
  }

  /** Where the pending work of the i-th child begins. */
  lemma PendingOfKid(f: Family, hole: int, top: nat, p: nat, i: nat)
    requires Good(f, hole) && top < |f.kids| && p < |f.kids| && Under(f, hole, top, p) && i < |f.kids[p]|
    requires 0 <= f.kids[p][i] < |f.kids|
    ensures Under(f, hole, top, f.kids[p][i]) && f.kids[p][i] != top
    ensures PreorderOfKids(f, hole, p, i) + Pending(f, hole, top, p)
      == Preorder(f, hole, f.kids[p][i]) + Pending(f, hole, top, f.kids[p][i])
  {
    hide Preorder, Forest;
    KidFacts(f, hole, p, i);
    var kid := f.kids[p][i];
    UnderIsOlder(f, hole, top, p);
    KidPlace(f, hole, p, i);
    assert PreorderOfKids(f, hole, p, i) == Preorder(f, hole, kid) + PreorderOfKids(f, hole, p, i + 1);
  }

  /** The search for a child among its siblings finds its place. */
  lemma KidPlace(f: Family, hole: int, p: nat, i: nat)
    requires Good(f, hole) && p < |f.kids| && i < |f.kids[p]|
    ensures f.kids[p][i] in f.kids[p][0..] && Find(f.kids[p], f.kids[p][i], 0) == i
  {
    assert Node(f.t, f.kids, hole, p);
    assert f.kids[p] == f.kids[p][0..];
    SameIndex(f.kids[p], i, Find(f.kids[p], f.kids[p][i], 0));
  }

  /** The place of a visited process among its siblings, and the pending work there. */
  lemma PendingAt(f: Family, hole: int, top: nat, p: nat) returns (k: nat)
    requires Good(f, hole) && top < |f.kids| && p < |f.kids| && Under(f, hole, top, p) && p != top
    ensures |f.kids| == |f.birth| == |f.t.pptr| == |f.t.osptr|
    ensures HasParent(f.t, p) && 0 <= f.t.pptr[p] < |f.kids| && Under(f, hole, top, f.t.pptr[p])
    ensures f.birth[f.t.pptr[p]] < f.birth[p]
    ensures k < |f.kids[f.t.pptr[p]]| && f.kids[f.t.pptr[p]][k] == p
    ensures f.t.osptr[p] == At(f.kids[f.t.pptr[p]], k + 1)
    ensures Pending(f, hole, top, p)
      == PreorderOfKids(f, hole, f.t.pptr[p], k + 1) + Pending(f, hole, top, f.t.pptr[p])
  {
    hide Preorder, PreorderOfKids;
    var up := f.t.pptr[p];
    assert Node(f.t, f.kids, hole, p);
    assert f.kids[up] == f.kids[up][0..];
    k := Find(f.kids[up], p, 0);
    KidFacts(f, hole, up, k);
  }

  lemma NoMoreKids(f: Family, hole: int, p: nat)
    requires Good(f, hole) && p < |f.kids|
    ensures PreorderOfKids(f, hole, p, |f.kids[p]|) == []
  {
  }

  /** What the sibling pointer of a visited process says about the pending work. */
  lemma PendingAtSibling(f: Family, hole: int, top: nat, p: nat)
    requires Good(f, hole) && top < |f.kids| && p < |f.kids| && Under(f, hole, top, p) && p != top
    ensures HasParent(f.t, p) && 0 <= f.t.pptr[p] < |f.kids| && Under(f, hole, top, f.t.pptr[p])
    ensures f.birth[f.t.pptr[p]] < f.birth[p]
    ensures NIL <= f.t.osptr[p] < |f.kids|
    ensures f.t.osptr[p] == NIL ==> Pending(f, hole, top, p) == Pending(f, hole, top, f.t.pptr[p])
    ensures f.t.osptr[p] != NIL ==> Under(f, hole, top, f.t.osptr[p])
    ensures f.t.osptr[p] != NIL ==>
      Pending(f, hole, top, p) == Preorder(f, hole, f.t.osptr[p]) + Pending(f, hole, top, f.t.osptr[p])
  {
    hide Good, Under, Preorder, PreorderOfKids, Pending, Forest;
    var k := PendingAt(f, hole, top, p);
    var up := f.t.pptr[p];
    if k + 1 < |f.kids[up]| {
      KidFacts(f, hole, up, k + 1);
      PendingOfKid(f, hole, top, up, k + 1);
    } else {
      NoMoreKids(f, hole, up);
      assert [] + Pending(f, hole, top, up) == Pending(f, hole, top, up);
    }
  }

  lemma HoleNotUnder(f: Family, hole: int, top: nat, p: nat)
    requires Good(f, hole) && top < |f.kids| && p < |f.kids| && Under(f, hole, top, p)
    requires 0 <= hole < |f.kids| ==> !Under(f, hole, top, hole)
    ensures f.t.cptr[p] == At(f.kids[p], 0)
    ensures f.kids[p] != [] ==> 0 <= f.kids[p][0] < |f.kids|
  {
    assert Node(f.t, f.kids, hole, p);
    if f.kids[p] != [] {
      KidFacts(f, hole, p, 0);
    }
  }

  function Clear(sig: seq<set<int>>, p: int): (r: seq<set<int>>)
    ensures |r| == |sig|
    ensures forall q :: 0 <= q < |sig| ==> r[q] == if q == p then sig[q] - STOPS else sig[q]
  {
    if 0 <= p < |sig| then sig[p := sig[p] - STOPS] else sig
  }

  /**
   * spgrp: visit top and all its descendants with no stack, moving down to
   * the youngest child, across to the older sibling, or up until there is
   * one. It ends having visited each of them exactly once and nothing else.
   */
  method Spgrp(t: Links, sig: seq<set<int>>, top: nat, ghost f: Family, ghost hole: int)
    returns (n: nat, sig1: seq<set<int>>, ghost visited: seq<int>)
    requires f.t == t && Good(f, hole) && top < |t.pptr| == |sig|
    requires 0 <= hole < |t.pptr| ==> !Under(f, hole, top, hole)
    ensures visited == Preorder(f, hole, top) && n == |visited|
    ensures |sig1| == |sig|
    ensures forall q :: 0 <= q < |sig| ==> sig1[q] == if q in visited then sig[q] - STOPS else sig[q]
  {
    hide Good, Under, Preorder, PreorderOfKids, Pending, Forest;
    var p := top;
    n, sig1, visited := 0, sig, [];
    Sizes(f, hole, top);
    while true
      invariant 0 <= p < |t.pptr| && Under(f, hole, top, p)
      invariant n == |visited| && |sig1| == |sig|
      invariant visited + (Preorder(f, hole, p) + Pending(f, hole, top, p)) == Preorder(f, hole, top)
      invariant forall q :: 0 <= q < |sig| ==> sig1[q] == if q in visited then sig[q] - STOPS else sig[q]
      decreases |Preorder(f, hole, top)| - |visited|
    {
      var old_sig, old_visited := sig1, visited;
      sig1 := Clear(sig1, p);
      n, visited := n + 1, visited + [p];
      Visited(f, hole, top, p, old_visited);
      HoleNotUnder(f, hole, top, p);
      if t.cptr[p] != NIL {
        PendingOfKid(f, hole, top, p, 0);
        p := t.cptr[p];
      } else if p == top {
        return;
      } else if t.osptr[p] != NIL {
        PendingAtSibling(f, hole, top, p);
        p := t.osptr[p];
      } else {
        while true
          invariant 0 <= p < |t.pptr| && Under(f, hole, top, p) && p != top && t.osptr[p] == NIL
          invariant visited + Pending(f, hole, top, p) == Preorder(f, hole, top)
          decreases f.birth[p]
        {
          PendingAtSibling(f, hole, top, p);
          p := t.pptr[p];
          if p == top {
            NothingPending(f, hole, top);
            return;
          }
          PendingAtSibling(f, hole, top, p);
          if t.osptr[p] != NIL {
            p := t.osptr[p];
            break;
          }
        }
      }
    }
  }

  lemma Sizes(f: Family, hole: int, top: nat)
    requires Good(f, hole) && top < |f.t.pptr|
    ensures |f.kids| == |f.birth| == |f.t.pptr| == |f.t.cptr| == |f.t.osptr|
    ensures Under(f, hole, top, top) && Pending(f, hole, top, top) == []
  {
  }

  lemma NothingPending(f: Family, hole: int, top: nat)
    requires Good(f, hole) && top < |f.kids| && Under(f, hole, top, top)
    ensures Pending(f, hole, top, top) == []
  {
  }

  /** The split of what is to be visited once p itself has been. */
  lemma Visited(f: Family, hole: int, top: nat, p: nat, before: seq<int>)
    requires Good(f, hole) && top < |f.kids| && p < |f.kids| && Under(f, hole, top, p)
    requires before + (Preorder(f, hole, p) + Pending(f, hole, top, p)) == Preorder(f, hole, top)
    ensures before + [p] + (PreorderOfKids(f, hole, p, 0) + Pending(f, hole, top, p)) == Preorder(f, hole, top)
    ensures f.kids[p] == [] ==> before + [p] + Pending(f, hole, top, p) == Preorder(f, hole, top)
    ensures f.kids[p] == [] && p == top ==> before + [p] == Preorder(f, hole, top)
    ensures |before| < |Preorder(f, hole, top)|
  {
  }
}
