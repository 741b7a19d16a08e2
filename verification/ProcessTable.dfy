/**
 * The process table under fork, exit, wait and init_process: the tree, the
 * three lists and the pid hash together. Over every run the tree stays well
 * formed, the lists stay disjoint, and exactly the running processes can be
 * found by pid.
 */
module ProcessTable {
  import opened ProcessTree
  import opened ProcessLists

  const PIDHSZ := 64

  // ----- allproc, zombproc and freeproc -----

  datatype Queues = Queues(nxt: seq<int>, prev: seq<Ref>, allHead: int, zombHead: int, freeHead: int,
                           all: seq<int>, zomb: seq<int>, free: seq<int>)

  ghost predicate QueuesOk(q: Queues, n: nat) {
    && |q.nxt| == |q.prev| == n
    && Doubly(q.nxt, q.prev, q.allHead, AllHead, q.all)
    && Doubly(q.nxt, q.prev, q.zombHead, ZombHead, q.zomb)
    && Singly(q.nxt, q.freeHead, q.free)
    && (forall x :: x in q.all ==> x !in q.zomb && x !in q.free)
    && (forall x :: x in q.zomb ==> x !in q.free)
  }

  function TakeFree(q: Queues): Queues
    requires q.free != [] && 0 <= q.freeHead < |q.nxt|
  {
    q.(freeHead := q.nxt[q.freeHead], free := q.free[1..])
  }

  lemma TakeFreeKeeps(q: Queues, n: nat)
    requires QueuesOk(q, n) && q.free != []
    ensures 0 <= q.freeHead < |q.nxt| && q.freeHead == q.free[0]
    ensures QueuesOk(TakeFree(q), n)
    ensures q.freeHead !in q.all && q.freeHead !in q.zomb && q.freeHead !in q.free[1..]
  {
    SinglyHead(q.nxt, q.freeHead, q.free);
  }

  function OntoAll(q: Queues, p: nat): Queues
    requires p < |q.nxt| == |q.prev|
  {
    q.(nxt := q.nxt[p := q.allHead], prev := Relink(q.prev, q.allHead, NxtOf(p))[p := AllHead],
       allHead := p, all := [p] + q.all)
  }

  lemma OntoAllKeeps(q: Queues, n: nat, p: nat)
    requires QueuesOk(q, n) && p < n && p !in q.all && p !in q.zomb && p !in q.free
    ensures QueuesOk(OntoAll(q, p), n)
  {
    hide Distinct;
    var r := OntoAll(q, p);
    DoublyPush(q.nxt, q.prev, q.allHead, AllHead, q.all, p);
    HeadIsMember(q.all, q.allHead);
    DoublyFrame(q.nxt, q.prev, r.nxt, r.prev, q.zombHead, ZombHead, q.zomb);
    SinglyFrame(q.nxt, r.nxt, q.freeHead, q.free);
  }

  lemma HeadIsMember(s: seq<int>, head: int)
    requires head == At(s, 0)
    ensures head != NIL ==> head in s
  {
  }

  function OntoZomb(q: Queues, p: nat): Queues
    requires p < |q.nxt| == |q.prev|
  {
    q.(nxt := q.nxt[p := q.zombHead], prev := Relink(q.prev, q.zombHead, NxtOf(p))[p := ZombHead],
       zombHead := p, zomb := [p] + q.zomb)
  }

  lemma OntoZombKeeps(q: Queues, n: nat, p: nat)
    requires QueuesOk(q, n) && p < n && p !in q.all && p !in q.zomb && p !in q.free
    ensures QueuesOk(OntoZomb(q, p), n)
  {
    hide Distinct;
    var r := OntoZomb(q, p);
    DoublyPush(q.nxt, q.prev, q.zombHead, ZombHead, q.zomb, p);
    HeadIsMember(q.zomb, q.zombHead);
    DoublyFrame(q.nxt, q.prev, r.nxt, r.prev, q.allHead, AllHead, q.all);
    SinglyFrame(q.nxt, r.nxt, q.freeHead, q.free);
  }

  function OntoFree(q: Queues, p: nat): Queues
    requires p < |q.nxt|
  {
    q.(nxt := q.nxt[p := q.freeHead], freeHead := p, free := [p] + q.free)
  }

  lemma OntoFreeKeeps(q: Queues, n: nat, p: nat)
    requires QueuesOk(q, n) && p < n && p !in q.all && p !in q.zomb && p !in q.free
    ensures QueuesOk(OntoFree(q, p), n)
  {
    hide Distinct;
    var r := OntoFree(q, p);
    SinglyPush(q.nxt, q.freeHead, q.free, p);
    DoublyFrame(q.nxt, q.prev, r.nxt, r.prev, q.allHead, AllHead, q.all);
    DoublyFrame(q.nxt, q.prev, r.nxt, r.prev, q.zombHead, ZombHead, q.zomb);
  }

  /** Store v where a p_prev pointer points. */
  function Store(q: Queues, ref: Ref, v: int): Queues {
    match ref
    case AllHead => q.(allHead := v)
    case ZombHead => q.(zombHead := v)
    case NxtOf(x) => if 0 <= x < |q.nxt| then q.(nxt := q.nxt[x := v]) else q
  }

  /** Take p off whichever doubly linked list it is on. */
  function Unqueue(q: Queues, p: nat): Queues
    requires p < |q.nxt| == |q.prev|
  {
    Store(q, q.prev[p], q.nxt[p]).(prev := Relink(q.prev, q.nxt[p], q.prev[p]))
  }

  lemma OffAllKeeps(q: Queues, n: nat, k: nat)
    requires QueuesOk(q, n) && k < |q.all| && 0 <= q.all[k] < n
    ensures QueuesOk(Unqueue(q, q.all[k]).(all := Without(q.all, k)), n)
    ensures q.all[k] !in Without(q.all, k)
  {
    hide Distinct;
    var p := q.all[k];
    var r := Unqueue(q, p).(all := Without(q.all, k));
    DoublyCut(q.nxt, q.prev, q.allHead, AllHead, q.all, k);
    WithoutDistinct(q.all, k) by { DoublyDistinct(q.nxt, q.prev, q.allHead, AllHead, q.all); }
    NextIsMember(q.nxt, q.prev, q.allHead, AllHead, q.all, k);
    assert k > 0 ==> q.all[k - 1] in q.all;
    DoublyFrame(q.nxt, q.prev, r.nxt, r.prev, q.zombHead, ZombHead, q.zomb);
    SinglyFrame(q.nxt, r.nxt, q.freeHead, q.free);
  }

  lemma OffZombKeeps(q: Queues, n: nat, k: nat)
    requires QueuesOk(q, n) && k < |q.zomb| && 0 <= q.zomb[k] < n
    ensures QueuesOk(Unqueue(q, q.zomb[k]).(zomb := Without(q.zomb, k)), n)
    ensures q.zomb[k] !in Without(q.zomb, k)
  {
    hide Distinct;
    var p := q.zomb[k];
    var r := Unqueue(q, p).(zomb := Without(q.zomb, k));
    DoublyCut(q.nxt, q.prev, q.zombHead, ZombHead, q.zomb, k);
    WithoutDistinct(q.zomb, k) by { DoublyDistinct(q.nxt, q.prev, q.zombHead, ZombHead, q.zomb); }
    NextIsMember(q.nxt, q.prev, q.zombHead, ZombHead, q.zomb, k);
    assert k > 0 ==> q.zomb[k - 1] in q.zomb;
    DoublyFrame(q.nxt, q.prev, r.nxt, r.prev, q.allHead, AllHead, q.all);
    SinglyFrame(q.nxt, r.nxt, q.freeHead, q.free);
  }

  lemma DoublyDistinct(nxt: seq<int>, prev: seq<Ref>, head: int, ref: Ref, s: seq<int>)
    requires Doubly(nxt, prev, head, ref, s)
    ensures Distinct(s)
  {
  }

  lemma NextIsMember(nxt: seq<int>, prev: seq<Ref>, head: int, ref: Ref, s: seq<int>, k: nat)
    requires Doubly(nxt, prev, head, ref, s) && k < |s|
    ensures 0 <= s[k] < |nxt| && (nxt[s[k]] == NIL || nxt[s[k]] in s)
  {
    assert DoublyAt(nxt, prev, ref, s, k);
  }

  // ----- The pid hash -----

  datatype Hash = Hash(pid: seq<int>, hash: seq<int>, heads: seq<int>, buckets: seq<seq<int>>)

  function Bucket(pid: int): (b: nat)
    ensures b < PIDHSZ
  {
    pid % PIDHSZ
  }

  ghost predicate BucketOk(h: Hash, b: nat)
    requires b < |h.heads| && b < |h.buckets| && |h.pid| == |h.hash|
  {
    && Singly(h.hash, h.heads[b], h.buckets[b])
    && (forall x :: x in h.buckets[b] ==> 0 <= x < |h.pid| && Bucket(h.pid[x]) == b)
  }

  ghost predicate HashOk(h: Hash, n: nat) {
    && |h.pid| == |h.hash| == n && |h.heads| == |h.buckets| == PIDHSZ
    && forall b: nat {:trigger h.buckets[b]} :: b < PIDHSZ ==> BucketOk(h, b)
  }

  /** The process can be found by its pid. */
  predicate Hashed(h: Hash, x: int)
    requires |h.buckets| == PIDHSZ
  {
    0 <= x < |h.pid| && x in h.buckets[Bucket(h.pid[x])]
  }

  function Enter(h: Hash, p: nat, pid: int): Hash
    requires p < |h.pid| == |h.hash| && |h.heads| == |h.buckets| == PIDHSZ
  {
    var b := Bucket(pid);
    Hash(h.pid[p := pid], h.hash[p := h.heads[b]], h.heads[b := p], h.buckets[b := [p] + h.buckets[b]])
  }

  lemma EnterKeeps(h: Hash, n: nat, p: nat, pid: int)
    requires HashOk(h, n) && p < n && !Hashed(h, p)
    ensures HashOk(Enter(h, p, pid), n)
    ensures forall x :: Hashed(Enter(h, p, pid), x) <==> x == p || Hashed(h, x)
  {
    hide Singly;
    var h1 := Enter(h, p, pid);
    forall b: nat | b < PIDHSZ
      ensures BucketOk(h1, b)
    {
      assert BucketOk(h, b);
      assert p !in h.buckets[b];
      if b == Bucket(pid) {
        SinglyPush(h.hash, h.heads[b], h.buckets[b], p);
      } else {
        SinglyFrame(h.hash, h1.hash, h.heads[b], h.buckets[b]);
      }
    }
  }

  /** Take p, the k-th of its chain, off it. */
  function Leave(h: Hash, p: nat, k: nat): Hash
    requires p < |h.pid| == |h.hash| && |h.heads| == |h.buckets| == PIDHSZ && k < |h.buckets[Bucket(h.pid[p])]|
  {
    var b := Bucket(h.pid[p]);
    var s := h.buckets[b];
    var h1 := h.(buckets := h.buckets[b := Without(s, k)]);
    if k == 0 then h1.(heads := h.heads[b := h.hash[p]])
    else if 0 <= s[k - 1] < |h.hash| then h1.(hash := h.hash[s[k - 1] := h.hash[p]])
    else h1
  }

  lemma LeaveKeeps(h: Hash, n: nat, p: nat, k: nat)
    requires HashOk(h, n) && p < n && k < |h.buckets[Bucket(h.pid[p])]| && h.buckets[Bucket(h.pid[p])][k] == p
    ensures HashOk(Leave(h, p, k), n)
    ensures forall x :: Hashed(Leave(h, p, k), x) <==> x != p && Hashed(h, x)
  {
    hide Singly, Distinct;
    var h1, b0 := Leave(h, p, k), Bucket(h.pid[p]);
    assert BucketOk(h, b0);
    LeaveChain(h.hash, h.heads[b0], h.buckets[b0], k);
    forall b: nat | b < PIDHSZ
      ensures BucketOk(h1, b)
    {
      assert BucketOk(h, b);
      if b != b0 {
        assert k > 0 ==> h.buckets[b0][k - 1] in h.buckets[b0];
        SinglyFrame(h.hash, h1.hash, h.heads[b], h.buckets[b]);
      }
    }
  }

  lemma LeaveChain(hash: seq<int>, head: int, s: seq<int>, k: nat)
    requires Singly(hash, head, s) && k < |s|
    ensures 0 <= s[k] < |hash| && (k > 0 ==> 0 <= s[k - 1] < |hash|)
    ensures k == 0 ==> Singly(hash, hash[s[0]], Without(s, 0))
    ensures k > 0 ==> Singly(hash[s[k - 1] := hash[s[k]]], head, Without(s, k))
    ensures s[k] !in Without(s, k) && forall x :: x != s[k] ==> (x in Without(s, k) <==> x in s)
  {
    WithoutDistinct(s, k);
    SinglyHead(hash, head, s);
    if k > 0 {
      SinglyCut(hash, head, s, k);
    } else {
      assert Without(s, 0) == s[1..];
    }
  }

  // ----- What fork, exit, wait and init_process do to the tree -----

  /** cloneproc: c becomes the youngest child of p, born now. */
  ghost function ForkFamily(f: Family, c: nat, p: nat): Family
    requires Good(f, NIL) && c < |f.kids| && p < |f.kids| && NIL <= f.t.cptr[p] < |f.kids|
  {
    Family(Push(f.t, c, p), PushKid(f.kids, c, p), f.birth[c := f.limit + 1], f.limit + 1)
  }

  lemma Unattached(f: Family, hole: int, c: nat)
    requires Good(f, hole) && c < |f.kids| && !HasParent(f.t, c)
    ensures Orphan(f.kids, c)
  {
    forall p | 0 <= p < |f.kids|
      ensures c !in f.kids[p]
    {
      if c in f.kids[p] {
        MemberParent(f.t, f.kids, hole, p, c);
      }
    }
  }

  lemma ForkGood(f: Family, c: nat, p: nat)
    requires Good(f, NIL) && c < |f.kids| && p < |f.kids| && c != p && !HasParent(f.t, c) && f.kids[c] == []
    ensures NIL <= f.t.cptr[p] < |f.kids| && Good(ForkFamily(f, c, p), NIL)
    ensures ForkFamily(f, c, p).t.pptr == f.t.pptr[c := p]
  {
    hide Forest, Orphan;
    ForestSizes(f, NIL);
    HeadInRange(f.t, f.kids, NIL, p);
    Unattached(f, NIL, c);
    PushKeeps(f.t, f.kids, NIL, c, p);
    var g := ForkFamily(f, c, p);
    forall q: nat | q < |g.t.pptr| && HasParent(g.t, q)
      ensures 0 <= g.t.pptr[q] < |g.birth| && g.birth[g.t.pptr[q]] < g.birth[q]
    {
      if q != c {
        NotChildless(f, NIL, q, c);
      }
    }
  }

  lemma ForestSizes(f: Family, hole: int)
    requires Good(f, hole)
    ensures |f.kids| == |f.birth| == |f.t.pptr| == |f.t.cptr| == |f.t.osptr| == |f.t.ysptr|
  {
  }

  lemma NotChildless(f: Family, hole: int, q: nat, c: nat)
    requires Good(f, hole) && q < |f.kids| && c < |f.kids| && HasParent(f.t, q) && f.kids[c] == []
    ensures f.t.pptr[q] != c
  {
    assert Node(f.t, f.kids, hole, q);
  }

  /** One turn of the loop in exit: the youngest child of p goes to init. */
  ghost function AdoptLinks(t: Links, q: nat, init: nat): Links
    requires |t.pptr| == |t.cptr| == |t.osptr| == |t.ysptr| && q < |t.pptr| && init < |t.pptr| && q != init
    requires NIL <= t.osptr[q] < |t.pptr| && NIL <= t.cptr[init] < |t.pptr|
  {
    var y0 := if t.osptr[q] != NIL then t.ysptr[t.osptr[q] := NIL] else t.ysptr;
    var y1 := if t.cptr[init] != NIL then y0[t.cptr[init] := q] else y0;
    Links(t.pptr[q := init], t.cptr[init := q], t.osptr[q := t.cptr[init]], y1[q := NIL])
  }

  ghost function AdoptFamily(f: Family, p: nat, init: nat): Family
    requires Good(f, p) && p < |f.kids| && init < |f.kids| && f.kids[p] != [] && p != init
    requires var q := f.kids[p][0]; 0 <= q < |f.kids| && q != init
    requires NIL <= f.t.osptr[f.kids[p][0]] < |f.kids| && NIL <= f.t.cptr[init] < |f.kids|
  {
    var q := f.kids[p][0];
    f.(t := AdoptLinks(f.t, q, init), kids := f.kids[p := f.kids[p][1..]][init := [q] + f.kids[init]])
  }

  lemma AdoptIsSplicePush(t: Links, q: nat, init: nat)
    requires |t.pptr| == |t.cptr| == |t.osptr| == |t.ysptr| && q < |t.pptr| && init < |t.pptr| && q != init
    requires NIL <= t.osptr[q] < |t.pptr| && NIL <= t.cptr[init] < |t.pptr| && t.ysptr[q] == NIL
    ensures AdoptLinks(t, q, init) == Push(Splice(t, q, NIL), q, init)
  {
    var a, b := AdoptLinks(t, q, init), Push(Splice(t, q, NIL), q, init);
    assert a.pptr == b.pptr;
    assert a.osptr == b.osptr;
    assert a.ysptr == b.ysptr;
  }

  lemma AdoptReady(f: Family, p: nat, init: nat)
    requires Good(f, p) && p < |f.kids| && init < |f.kids| && f.kids[p] != [] && p != init
    requires f.birth[init] < f.birth[p]
    ensures var q := f.kids[p][0];
      && 0 <= q < |f.kids| && q != init && q != p && HasParent(f.t, q) && f.t.pptr[q] == p
      && NIL <= f.t.osptr[q] < |f.kids| && f.t.osptr[q] == At(f.kids[p], 1) && f.t.ysptr[q] == NIL
      && NIL <= f.t.cptr[init] < |f.kids| && f.birth[p] < f.birth[q]
  {
    KidFacts(f, p, p, 0);
    HeadInRange(f.t, f.kids, p, init);
    var k := PlaceOf(f.t, f.kids, p, f.kids[p][0]);
  }

  lemma AdoptGood(f: Family, p: nat, init: nat)
    requires Good(f, p) && p < |f.kids| && init < |f.kids| && f.kids[p] != [] && p != init
    requires f.birth[init] < f.birth[p]
    requires var q := f.kids[p][0]; 0 <= q < |f.kids| && q != init
    requires NIL <= f.t.osptr[f.kids[p][0]] < |f.kids| && NIL <= f.t.cptr[init] < |f.kids|
    ensures Good(AdoptFamily(f, p, init), p)
  {
    hide Forest, Orphan, Splice, Push, AdoptLinks;
    ForestSizes(f, p);
    AdoptReady(f, p, init);
    var q := f.kids[p][0];
    var g := AdoptFamily(f, p, init);
    var t1, kids1 := Splice(f.t, q, NIL), f.kids[p := Without(f.kids[p], 0)];
    assert Without(f.kids[p], 0) == f.kids[p][1..];
    SpliceKeeps(f.t, f.kids, p, q, 0, NIL);
    AdoptIsSplicePush(f.t, q, init);
    HeadInRange(t1, kids1, p, init);
    PushKeeps(t1, kids1, p, q, init);
    assert PushKid(kids1, q, init) == g.kids;
    AdoptParents(f.t, q, init);
  }

  lemma AdoptParents(t: Links, q: nat, init: nat)
    requires |t.pptr| == |t.cptr| == |t.osptr| == |t.ysptr| && q < |t.pptr| && init < |t.pptr| && q != init
    requires NIL <= t.osptr[q] < |t.pptr| && NIL <= t.cptr[init] < |t.pptr|
    ensures AdoptLinks(t, q, init).pptr == t.pptr[q := init]
  {
  }

  /** init_process (`up` is p itself) and wait (`up` is null): p leaves its parent. */
  ghost function DetachLinks(t: Links, p: nat, up: int): Links
    requires |t.pptr| == |t.cptr| == |t.osptr| == |t.ysptr| && p < |t.pptr| && 0 <= t.pptr[p] < |t.pptr|
    requires NIL <= t.osptr[p] < |t.pptr| && NIL <= t.ysptr[p] < |t.pptr|
  {
    var c := if t.cptr[t.pptr[p]] == p then t.cptr[t.pptr[p] := t.osptr[p]] else t.cptr;
    Splice(t, p, up).(cptr := c)
  }

  ghost function DetachFamily(f: Family, p: nat, up: int, k: nat): Family
    requires Good(f, NIL) && p < |f.kids| && 0 <= f.t.pptr[p] < |f.kids| && k < |f.kids[f.t.pptr[p]]|
    requires NIL <= f.t.osptr[p] < |f.kids| && NIL <= f.t.ysptr[p] < |f.kids|
  {
    f.(t := DetachLinks(f.t, p, up), kids := f.kids[f.t.pptr[p] := Without(f.kids[f.t.pptr[p]], k)])
  }

  lemma DetachGood(f: Family, p: nat, up: int, k: nat)
    requires Good(f, NIL) && p < |f.kids| && HasParent(f.t, p) && 0 <= f.t.pptr[p] < |f.kids|
    requires k < |f.kids[f.t.pptr[p]]| && f.kids[f.t.pptr[p]][k] == p && (up == NIL || up == p)
    requires NIL <= f.t.osptr[p] < |f.kids| && NIL <= f.t.ysptr[p] < |f.kids|
    ensures Good(DetachFamily(f, p, up, k), NIL)
    ensures DetachFamily(f, p, up, k).t.pptr == f.t.pptr[p := up]
  {
    hide Forest, Orphan;
    ForestSizes(f, NIL);
    var pp := f.t.pptr[p];
    var g := DetachFamily(f, p, up, k);
    SpliceKeeps(f.t, f.kids, NIL, p, k, up);
    var t1 := Splice(f.t, p, up);
    FillHole(t1, g.kids, pp);
    DetachHead(f, p, k);
    assert g.t == t1.(cptr := t1.cptr[pp := At(g.kids[pp], 0)]);
  }

  lemma DetachHead(f: Family, p: nat, k: nat)
    requires Good(f, NIL) && p < |f.kids| && HasParent(f.t, p) && 0 <= f.t.pptr[p] < |f.kids|
    requires k < |f.kids[f.t.pptr[p]]| && f.kids[f.t.pptr[p]][k] == p
    requires NIL <= f.t.osptr[p] < |f.kids| && NIL <= f.t.ysptr[p] < |f.kids|
    ensures DetachLinks(f.t, p, NIL).cptr == f.t.cptr[f.t.pptr[p] := At(Without(f.kids[f.t.pptr[p]], k), 0)]
  {
    var pp := f.t.pptr[p];
    HeadInRange(f.t, f.kids, NIL, pp);
    KidFacts(f, NIL, pp, k);
    if k > 0 {
      KidsDiffer(f, NIL, pp, 0, k);
    }
  }

  /** The whole loop: every child of p goes to init, youngest first. */
  ghost function AdoptAll(f: Family, p: nat, init: nat): Family
    requires Good(f, p) && p < |f.kids| && init < |f.kids| && p != init && f.birth[init] < f.birth[p]
    decreases |f.kids[p]|
  {
    if f.kids[p] == [] then f
    else
      AdoptReady(f, p, init);
      AdoptGood(f, p, init);
      AdoptAll(AdoptFamily(f, p, init), p, init)
  }

  lemma {:induction false} AdoptAllGood(f: Family, p: nat, init: nat)
    requires Good(f, p) && p < |f.kids| && init < |f.kids| && p != init && f.birth[init] < f.birth[p]
    ensures var g := AdoptAll(f, p, init);
      && Good(g, p) && g.birth == f.birth && |g.kids| == |f.kids| && g.kids[p] == []
      && (forall r: nat :: r < |f.kids| && r != p && r != init ==> g.kids[r] == f.kids[r])
      && (forall x: nat :: x < |f.kids| ==> g.t.pptr[x] == if x in f.kids[p] then init else f.t.pptr[x])
    decreases |f.kids[p]|
  {
    hide Good;
    ForestSizes(f, p);
    if f.kids[p] != [] {
      AdoptReady(f, p, init);
      AdoptGood(f, p, init);
      AdoptParents(f.t, f.kids[p][0], init);
      var h := AdoptFamily(f, p, init);
      AdoptAllGood(h, p, init);
      ForestSizes(h, p);
      ForestSizes(AdoptAll(h, p, init), p);
      assert f.kids[p] == [f.kids[p][0]] + h.kids[p];
    }
  }

  ghost function ExitFamily(f: Family, p: nat, init: nat): Family
    requires Good(f, p) && p < |f.kids| && init < |f.kids| && p != init && f.birth[init] < f.birth[p]
  {
    AdoptAllGood(f, p, init);
    var g := AdoptAll(f, p, init);
    g.(t := g.t.(cptr := g.t.cptr[p := NIL]))
  }

  lemma ExitGood(f: Family, p: nat, init: nat)
    requires Good(f, NIL) && p < |f.kids| && init < |f.kids| && p != init && f.birth[init] < f.birth[p]
    ensures Good(f, p) && Good(ExitFamily(f, p, init), NIL)
  {
    OpenHole(f.t, f.kids, p);
    AdoptAllGood(f, p, init);
    var g := AdoptAll(f, p, init);
    FillHole(g.t, g.kids, p);
  }

  // ----- The stops that exit clears -----

  ghost function ClearUnder(sig: seq<set<int>>, f: Family, hole: int, top: nat): (r: seq<set<int>>)
    requires Good(f, hole) && top < |f.kids| == |sig|
    ensures |r| == |sig|
    ensures forall x :: 0 <= x < |sig| ==> r[x] == if Under(f, hole, top, x) then sig[x] - STOPS else sig[x]
  {
    seq(|sig|, x requires 0 <= x < |sig| => if Under(f, hole, top, x) then sig[x] - STOPS else sig[x])
  }

  /** exit calls spgrp for each child right after init has adopted it. */
  ghost function ClearAll(sig: seq<set<int>>, f: Family, p: nat, init: nat): (r: seq<set<int>>)
    requires Good(f, p) && p < |f.kids| == |sig| && init < |f.kids| && p != init && f.birth[init] < f.birth[p]
    ensures |r| == |sig|
    decreases |f.kids[p]|
  {
    if f.kids[p] == [] then sig
    else
      AdoptReady(f, p, init);
      AdoptGood(f, p, init);
      var g := AdoptFamily(f, p, init);
      ClearAll(ClearUnder(sig, g, p, f.kids[p][0]), g, p, init)
  }

  /** Moving q does not change who is under q. */
  lemma {:induction false} UnderMoved(f: Family, g: Family, hole: int, q: nat, x: nat)
    requires Good(f, hole) && Good(g, hole) && f.birth == g.birth && q < |f.kids| && x < |f.kids| == |g.kids|
    requires forall y: nat :: y < |f.kids| && y != q ==> g.t.pptr[y] == f.t.pptr[y]
    ensures Under(f, hole, q, x) <==> Under(g, hole, q, x)
    decreases f.birth[x]
  {
    if x != q && HasParent(f.t, x) {
      UnderMoved(f, g, hole, q, f.t.pptr[x]);
    }
  }

  /** Those under p were under q or still are under p once its child q has gone. */
  lemma {:induction false} UnderSplit(f: Family, g: Family, hole: int, p: nat, q: nat, x: nat)
    requires Good(f, hole) && Good(g, hole) && f.birth == g.birth && |f.kids| == |g.kids|
    requires p < |f.kids| && q < |f.kids| && x < |f.kids| && x != p
    requires forall y: nat :: y < |f.kids| && y != q ==> g.t.pptr[y] == f.t.pptr[y]
    requires f.t.pptr[q] == p && q != p && HasParent(g.t, q) && g.birth[g.t.pptr[q]] < g.birth[p]
    ensures Under(f, hole, p, x) <==> Under(f, hole, q, x) || Under(g, hole, p, x)
    decreases f.birth[x]
  {
    if x == q {
      assert Under(f, hole, p, p);
    } else if HasParent(f.t, x) {
      if f.t.pptr[x] == p {
        assert Under(g, hole, p, p) && Under(f, hole, p, p);
      } else {
        UnderSplit(f, g, hole, p, q, f.t.pptr[x]);
      }
    }
  }

  /** Nobody is under a childless process but itself. */
  lemma {:induction false} UnderChildless(f: Family, hole: int, p: nat, x: nat)
    requires Good(f, hole) && p < |f.kids| && x < |f.kids| && f.kids[p] == []
    ensures Under(f, hole, p, x) <==> x == p
    decreases f.birth[x]
  {
    if x != p && HasParent(f.t, x) {
      NotChildless(f, hole, x, p);
      UnderChildless(f, hole, p, f.t.pptr[x]);
    }
  }

  /** exit clears the pending stops of exactly the descendants of the exiting process. */
  lemma {:induction false} ExitClearsDescendants(sig: seq<set<int>>, f: Family, p: nat, init: nat, x: nat)
    requires Good(f, p) && p < |f.kids| == |sig| && init < |f.kids| && p != init && f.birth[init] < f.birth[p]
    requires x < |sig|
    ensures ClearAll(sig, f, p, init)[x] == if x != p && Under(f, p, p, x) then sig[x] - STOPS else sig[x]
    decreases |f.kids[p]|
  {
    hide Good;
    ForestSizes(f, p);
    if f.kids[p] == [] {
      UnderChildless(f, p, p, x);
    } else {
      AdoptReady(f, p, init);
      AdoptGood(f, p, init);
      var q, g := f.kids[p][0], AdoptFamily(f, p, init);
      ForestSizes(g, p);
      AdoptParents(f.t, q, init);
      ExitClearsDescendants(ClearUnder(sig, g, p, q), g, p, init, x);
      UnderMoved(f, g, p, q, x);
      if x != p {
        UnderSplit(f, g, p, p, q, x);
      } else if Under(g, p, q, p) {
        UnderIsOlder(g, p, q, p);
      }
    }
  }

  // ----- The table -----

  datatype Table = Table(f: Family, q: Queues, h: Hash, starting: set<int>, task: seq<bool>, sig: seq<set<int>>,
                         init: nat, kernel: nat)

  function Size(tb: Table): nat {
    |tb.f.kids|
  }

  predicate OnLists(q: Queues, x: int) {
    x in q.all || x in q.zomb || x in q.free
  }

  /** What holds of every slot. */
  ghost predicate SlotOk(tb: Table, x: nat)
    requires x < Size(tb) == |tb.f.t.pptr| == |tb.task| == |tb.f.birth| && |tb.h.buckets| == PIDHSZ
    requires tb.init < Size(tb)
  {
    && (OnLists(tb.q, x) <==> x !in tb.starting)
    && (x in tb.q.free ==> tb.f.t.pptr[x] == NIL && !tb.task[x])
    && (x in tb.q.all || x in tb.starting ==> tb.task[x])
    && (Hashed(tb.h, x) <==> x in tb.q.all || x in tb.starting)
    && (!tb.task[x] ==> tb.f.kids[x] == [])
    && (x !in tb.q.free && x != tb.init && x != tb.kernel ==> tb.f.birth[tb.init] < tb.f.birth[x])
  }

  ghost predicate Valid(tb: Table) {
    && Good(tb.f, NIL) && QueuesOk(tb.q, Size(tb)) && HashOk(tb.h, Size(tb))
    && |tb.task| == |tb.sig| == Size(tb) && tb.init < Size(tb) && tb.init in tb.q.all && tb.kernel in tb.q.all
    && (forall x :: x in tb.starting ==> 0 <= x < Size(tb))
    && (forall x: nat {:trigger tb.task[x]} :: x < Size(tb) ==> SlotOk(tb, x))
  }

  lemma TableSizes(tb: Table)
    requires Valid(tb)
    ensures |tb.f.kids| == |tb.f.birth| == |tb.f.t.pptr| == |tb.f.t.cptr| == Size(tb)
    ensures |tb.f.t.osptr| == |tb.f.t.ysptr| == Size(tb)
    ensures |tb.q.nxt| == |tb.q.prev| == |tb.h.pid| == |tb.h.hash| == |tb.task| == |tb.sig| == Size(tb)
    ensures |tb.h.heads| == |tb.h.buckets| == PIDHSZ && tb.init < Size(tb)
    ensures Good(tb.f, NIL) && QueuesOk(tb.q, Size(tb)) && HashOk(tb.h, Size(tb))
    ensures tb.init in tb.q.all && tb.kernel in tb.q.all
  {
  }

  lemma Slot(tb: Table, x: nat)
    requires Valid(tb) && x < Size(tb)
    ensures Size(tb) == |tb.f.t.pptr| == |tb.task| == |tb.f.birth| && |tb.h.buckets| == PIDHSZ && tb.init < Size(tb)
    ensures SlotOk(tb, x)
  {
    assert tb.task[x] || !tb.task[x];
  }

  /** Members of the lists are slots. */
  lemma Listed(q: Queues, n: nat, x: int)
    requires QueuesOk(q, n) && OnLists(q, x)
    ensures 0 <= x < n
  {
    if x in q.all {
      var i: nat :| i < |q.all| && q.all[i] == x;
      assert DoublyAt(q.nxt, q.prev, AllHead, q.all, i);
    } else if x in q.zomb {
      var i: nat :| i < |q.zomb| && q.zomb[i] == x;
      assert DoublyAt(q.nxt, q.prev, ZombHead, q.zomb, i);
    } else {
      var i: nat :| i < |q.free| && q.free[i] == x;
      assert SinglyAt(q.nxt, q.free, i);
    }
  }

  // ----- fork -----

  lemma ForkReady(tb: Table, parent: nat)
    requires Valid(tb) && parent in tb.q.all && tb.q.free != []
    ensures var c := tb.q.freeHead;
      && parent < Size(tb) && 0 <= c < Size(tb) == |tb.q.nxt| && c != parent && c in tb.q.free && c !in tb.starting
      && tb.f.t.pptr[c] == NIL && tb.f.kids[c] == [] && !Hashed(tb.h, c)
      && NIL <= tb.f.t.cptr[parent] < Size(tb)
  {
    TakeFreeKeeps(tb.q, Size(tb));
    Listed(tb.q, Size(tb), parent);
    Slot(tb, tb.q.freeHead);
    HeadInRange(tb.f.t, tb.f.kids, NIL, parent);
  }

  /** The first half of cloneproc: off freeproc, into the tree, into the hash. */
  ghost function Fork(tb: Table, parent: nat, pid: int): Table
    requires Valid(tb) && parent in tb.q.all && tb.q.free != []
  {
    ForkReady(tb, parent);
    TableSizes(tb);
    var c := tb.q.freeHead;
    tb.(f := ForkFamily(tb.f, c, parent), q := TakeFree(tb.q), h := Enter(tb.h, c, pid),
        starting := tb.starting + {c}, task := tb.task[c := true])
  }

  lemma ForkKeeps(tb: Table, parent: nat, pid: int)
    requires Valid(tb) && parent in tb.q.all && tb.q.free != []
    ensures Valid(Fork(tb, parent, pid))
  {
    hide Good, QueuesOk, HashOk, Hashed, Enter;
    TableSizes(tb);
    ForkReady(tb, parent);
    var c := tb.q.freeHead;
    ForkGood(tb.f, c, parent);
    TakeFreeKeeps(tb.q, Size(tb));
    EnterKeeps(tb.h, Size(tb), c, pid);
    var tb1 := Fork(tb, parent, pid);
    HashSizes(tb1.h, Size(tb));
    Listed(tb.q, Size(tb), tb.init);
    BirthBound(tb.f, NIL, tb.init);
    assert tb.q.free == [c] + tb.q.free[1..];
    forall x: nat | x < Size(tb1)
      ensures SlotOk(tb1, x)
    {
      Slot(tb, x);
    }
    TableMade(tb1);
  }

  lemma HashSizes(h: Hash, n: nat)
    requires HashOk(h, n)
    ensures |h.pid| == |h.hash| == n && |h.heads| == |h.buckets| == PIDHSZ
  {
  }

  lemma BirthBound(f: Family, hole: int, x: nat)
    requires Good(f, hole) && x < |f.birth|
    ensures f.birth[x] <= f.limit
  {
  }

  /** Assembling the invariant. */
  lemma TableMade(tb: Table)
    requires Good(tb.f, NIL) && QueuesOk(tb.q, Size(tb)) && HashOk(tb.h, Size(tb))
    requires |tb.task| == |tb.sig| == Size(tb) && tb.init < Size(tb) && tb.init in tb.q.all && tb.kernel in tb.q.all
    requires forall x :: x in tb.starting ==> 0 <= x < Size(tb)
    requires |tb.f.t.pptr| == |tb.f.birth| == Size(tb) && |tb.h.buckets| == PIDHSZ
    requires forall x: nat {:trigger SlotOk(tb, x)} :: x < Size(tb) ==> SlotOk(tb, x)
    ensures Valid(tb)
  {
  }

  /** The second half of cloneproc: onto allproc. */
  ghost function Launch(tb: Table, c: nat): Table
    requires Valid(tb) && c in tb.starting
  {
    TableSizes(tb);
    tb.(q := OntoAll(tb.q, c), starting := tb.starting - {c})
  }

  lemma LaunchKeeps(tb: Table, c: nat)
    requires Valid(tb) && c in tb.starting
    ensures Valid(Launch(tb, c))
  {
    hide Good, QueuesOk, HashOk, Hashed;
    TableSizes(tb);
    Slot(tb, c);
    OntoAllKeeps(tb.q, Size(tb), c);
    var tb1 := Launch(tb, c);
    forall x: nat | x < Size(tb1)
      ensures SlotOk(tb1, x)
    {
      Slot(tb, x);
    }
    TableMade(tb1);
  }

  // ----- exit -----

  ghost function PlaceAt(s: seq<int>, x: int): (k: nat)
    requires x in s
    ensures k < |s| && s[k] == x
  {
    assert s == s[0..];
    Find(s, x, 0)
  }

  /** exit, first part: from allproc to zombproc, and out of the hash. */
  ghost function Die(tb: Table, p: nat): Table
    requires Valid(tb) && p in tb.q.all && p != tb.init && p != tb.kernel
  {
    TableSizes(tb);
    Listed(tb.q, Size(tb), p);
    Slot(tb, p);
    var q1 := Unqueue(tb.q, p).(all := Without(tb.q.all, PlaceAt(tb.q.all, p)));
    tb.(q := OntoZomb(q1, p), h := Leave(tb.h, p, PlaceAt(tb.h.buckets[Bucket(tb.h.pid[p])], p)))
  }

  lemma DieKeeps(tb: Table, p: nat)
    requires Valid(tb) && p in tb.q.all && p != tb.init && p != tb.kernel
    ensures Valid(Die(tb, p))
  {
    hide Good, QueuesOk, HashOk, Leave, Unqueue, Doubly, Singly;
    TableSizes(tb);
    Listed(tb.q, Size(tb), p);
    Slot(tb, p);
    var k := PlaceAt(tb.q.all, p);
    OffAllKeeps(tb.q, Size(tb), k);
    var q1 := Unqueue(tb.q, p).(all := Without(tb.q.all, k));
    UnqueueLists(tb.q, p);
    AllDistinct(tb.q, Size(tb));
    WithoutDistinct(tb.q.all, k);
    NotElsewhere(tb.q, Size(tb), p);
    OntoZombKeeps(q1, Size(tb), p);
    LeaveKeeps(tb.h, Size(tb), p, PlaceAt(tb.h.buckets[Bucket(tb.h.pid[p])], p));
    var tb1 := Die(tb, p);
    HashSizes(tb1.h, Size(tb));
    forall x: nat | x < Size(tb1)
      ensures SlotOk(tb1, x)
    {
      Slot(tb, x);
    }
    TableMade(tb1);
  }

  lemma UnqueueLists(q: Queues, p: nat)
    requires p < |q.nxt| == |q.prev|
    ensures var r := Unqueue(q, p); r.all == q.all && r.zomb == q.zomb && r.free == q.free
    ensures |Unqueue(q, p).nxt| == |Unqueue(q, p).prev| == |q.nxt|
  {
  }

  lemma AllDistinct(q: Queues, n: nat)
    requires QueuesOk(q, n)
    ensures Distinct(q.all) && Distinct(q.zomb)
  {
  }

  lemma NotElsewhere(q: Queues, n: nat, p: nat)
    requires QueuesOk(q, n)
    ensures p in q.all ==> p !in q.zomb && p !in q.free
    ensures p in q.zomb ==> p !in q.all && p !in q.free
  {
  }

  /** exit, last part: the children go to init, pending stops are cleared, and its Mach task is gone. */
  ghost function Bury(tb: Table, p: nat): Table
    requires Valid(tb) && p in tb.q.zomb && p < Size(tb) == |tb.task| && tb.task[p]
  {
    BuryReady(tb, p);
    ExitGood(tb.f, p, tb.init);
    tb.(f := ExitFamily(tb.f, p, tb.init), sig := ClearAll(tb.sig, tb.f, p, tb.init), task := tb.task[p := false])
  }

  lemma BuryReady(tb: Table, p: nat)
    requires Valid(tb) && p in tb.q.zomb && p < Size(tb)
    ensures p != tb.init && tb.init < Size(tb) && Good(tb.f, NIL) && tb.f.birth[tb.init] < tb.f.birth[p]
    ensures |tb.f.kids| == |tb.f.birth| == |tb.f.t.pptr| == |tb.sig| == |tb.task|
  {
    TableSizes(tb);
    Slot(tb, p);
    NotElsewhere(tb.q, Size(tb), p);
  }

  lemma BuryKeeps(tb: Table, p: nat)
    requires Valid(tb) && p in tb.q.zomb && p < Size(tb) == |tb.task| && tb.task[p]
    ensures Valid(Bury(tb, p))
  {
    hide Good, QueuesOk, HashOk, Hashed, ClearAll, AdoptAll;
    TableSizes(tb);
    BuryReady(tb, p);
    ExitGood(tb.f, p, tb.init);
    AdoptAllGood(tb.f, p, tb.init);
    var tb1 := Bury(tb, p);
    ForestSizes(tb1.f, NIL);
    NotElsewhere(tb.q, Size(tb), p);
    forall x: nat | x < Size(tb1)
      ensures SlotOk(tb1, x)
    {
      Slot(tb, x);
      Slot(tb, tb.init);
      if x in tb.q.free && x in tb.f.kids[p] {
        MemberParent(tb.f.t, tb.f.kids, NIL, p, x) by { ForestOf(tb.f, NIL); }
      }
    }
    TableMade(tb1);
  }

  lemma ForestOf(f: Family, hole: int)
    requires Good(f, hole)
    ensures Forest(f.t, f.kids, hole)
  {
  }

  // ----- wait -----

  lemma ReapReady(tb: Table, parent: nat, p: nat)
    requires Valid(tb) && parent in tb.q.all && parent < Size(tb) && p in tb.f.kids[parent] && p < |tb.task|
    requires !tb.task[p]
    ensures p < Size(tb) && HasParent(tb.f.t, p) && tb.f.t.pptr[p] == parent
    ensures NIL <= tb.f.t.osptr[p] < Size(tb) && NIL <= tb.f.t.ysptr[p] < Size(tb)
    ensures p in tb.q.zomb && p !in tb.q.all && p !in tb.q.free && p !in tb.starting && tb.f.kids[p] == []
    ensures !Hashed(tb.h, p)
  {
    MemberParent(tb.f.t, tb.f.kids, NIL, parent, p);
    Slot(tb, p);
    var k := PlaceOf(tb.f.t, tb.f.kids, NIL, p);
  }

  /** wait1 lays a dead child to rest. */
  ghost function Reap(tb: Table, parent: nat, p: nat): Table
    requires Valid(tb) && parent in tb.q.all && parent < Size(tb) && p in tb.f.kids[parent] && p < |tb.task|
    requires !tb.task[p]
  {
    TableSizes(tb);
    ReapReady(tb, parent, p);
    var q1 := Unqueue(tb.q, p).(zomb := Without(tb.q.zomb, PlaceAt(tb.q.zomb, p)));
    tb.(f := DetachFamily(tb.f, p, NIL, PlaceAt(tb.f.kids[parent], p)), q := OntoFree(q1, p),
        h := tb.h.(pid := tb.h.pid[p := 0]), sig := tb.sig[p := {}])
  }

  lemma ReapKeeps(tb: Table, parent: nat, p: nat)
    requires Valid(tb) && parent in tb.q.all && parent < Size(tb) && p in tb.f.kids[parent] && p < |tb.task|
    requires !tb.task[p]
    ensures Valid(Reap(tb, parent, p))
  {
    hide Good, QueuesOk, HashOk, Unqueue, Doubly, Singly, DetachLinks;
    TableSizes(tb);
    ReapReady(tb, parent, p);
    var k := PlaceAt(tb.q.zomb, p);
    OffZombKeeps(tb.q, Size(tb), k);
    var q1 := Unqueue(tb.q, p).(zomb := Without(tb.q.zomb, k));
    UnqueueLists(tb.q, p);
    AllDistinct(tb.q, Size(tb));
    WithoutDistinct(tb.q.zomb, k);
    NotElsewhere(tb.q, Size(tb), p);
    OntoFreeKeeps(q1, Size(tb), p);
    DetachGood(tb.f, p, NIL, PlaceAt(tb.f.kids[parent], p));
    PidFree(tb.h, Size(tb), p);
    var tb1 := Reap(tb, parent, p);
    HashSizes(tb1.h, Size(tb));
    ForestSizes(tb1.f, NIL);
    forall x: nat | x < Size(tb1)
      ensures SlotOk(tb1, x)
    {
      Slot(tb, x);
      Slot(tb, parent);
    }
    TableMade(tb1);
  }

  /** The pid of a process that is not on any chain does not matter. */
  lemma PidFree(h: Hash, n: nat, p: nat)
    requires HashOk(h, n) && p < n && !Hashed(h, p)
    ensures HashOk(h.(pid := h.pid[p := 0]), n)
    ensures forall x :: Hashed(h.(pid := h.pid[p := 0]), x) <==> Hashed(h, x)
  {
    hide Singly;
    var h1 := h.(pid := h.pid[p := 0]);
    forall b: nat | b < PIDHSZ
      ensures BucketOk(h1, b) && p !in h.buckets[b]
    {
      assert BucketOk(h, b);
    }
  }

  // ----- init_process -----

  ghost function BecomeInit(tb: Table, p: nat): Table
    requires Valid(tb) && p in tb.q.all && p < |tb.f.t.pptr| && tb.f.t.pptr[p] != NIL
  {
    TableSizes(tb);
    if tb.f.t.pptr[p] == p then tb
    else
      var k := PlaceAtParent(tb.f, p);
      tb.(f := DetachFamily(tb.f, p, p, k))
  }

  lemma OnParentList(f: Family, p: nat)
    requires Good(f, NIL) && p < |f.kids| && HasParent(f.t, p)
    ensures 0 <= f.t.pptr[p] < |f.kids| && p in f.kids[f.t.pptr[p]]
    ensures NIL <= f.t.osptr[p] < |f.kids| && NIL <= f.t.ysptr[p] < |f.kids|
  {
    var k := PlaceOf(f.t, f.kids, NIL, p);
  }

  ghost function PlaceAtParent(f: Family, p: nat): (k: nat)
    requires Good(f, NIL) && p < |f.kids| && HasParent(f.t, p)
    ensures 0 <= f.t.pptr[p] < |f.kids| && k < |f.kids[f.t.pptr[p]]| && f.kids[f.t.pptr[p]][k] == p
    ensures NIL <= f.t.osptr[p] < |f.kids| && NIL <= f.t.ysptr[p] < |f.kids|
  {
    OnParentList(f, p);
    PlaceAt(f.kids[f.t.pptr[p]], p)
  }

  lemma BecomeInitKeeps(tb: Table, p: nat)
    requires Valid(tb) && p in tb.q.all && p < |tb.f.t.pptr| && tb.f.t.pptr[p] != NIL
    ensures Valid(BecomeInit(tb, p))
  {
    hide Good, QueuesOk, HashOk, Hashed, DetachLinks;
    TableSizes(tb);
    if tb.f.t.pptr[p] != p {
      var k := PlaceAtParent(tb.f, p);
      DetachGood(tb.f, p, p, k);
      var tb1 := BecomeInit(tb, p);
      ForestSizes(tb1.f, NIL);
      forall x: nat | x < Size(tb1)
        ensures SlotOk(tb1, x)
      {
        Slot(tb, x);
        Slot(tb, tb.f.t.pptr[p]);
      }
      NotElsewhere(tb.q, Size(tb), p);
      TableMade(tb1);
    }
  }

  // ----- Every run -----

  datatype Action =
    | DoFork(parent: nat, pid: int)
    | DoLaunch(child: nat)
    | DoDie(proc: nat)
    | DoBury(proc: nat)
    | DoReap(parent: nat, child: nat)
    | DoBecomeInit(proc: nat)

  ghost predicate Enabled(tb: Table, a: Action) {
    match a
    case DoFork(parent, pid) => parent in tb.q.all && tb.q.free != []
    case DoLaunch(c) => c in tb.starting
    case DoDie(p) => p in tb.q.all && p != tb.init && p != tb.kernel
    case DoBury(p) => p in tb.q.zomb && p < Size(tb) == |tb.task| && tb.task[p]
    case DoReap(parent, p) =>
      parent in tb.q.all && parent < Size(tb) && p in tb.f.kids[parent] && p < |tb.task| && !tb.task[p]
    case DoBecomeInit(p) => p in tb.q.all && p < |tb.f.t.pptr| && tb.f.t.pptr[p] != NIL
  }

  ghost function Step(tb: Table, a: Action): Table
    requires Valid(tb) && Enabled(tb, a)
  {
    match a
    case DoFork(parent, pid) => Fork(tb, parent, pid)
    case DoLaunch(c) => Launch(tb, c)
    case DoDie(p) => Die(tb, p)
    case DoBury(p) => Bury(tb, p)
    case DoReap(parent, p) => Reap(tb, parent, p)
    case DoBecomeInit(p) => BecomeInit(tb, p)
  }

  lemma StepKeeps(tb: Table, a: Action)
    requires Valid(tb) && Enabled(tb, a)
    ensures Valid(Step(tb, a))
  {
    hide Valid, Fork, Launch, Die, Bury, Reap, BecomeInit;
    match a
    case DoFork(parent, pid) => ForkKeeps(tb, parent, pid);
    case DoLaunch(c) => LaunchKeeps(tb, c);
    case DoDie(p) => DieKeeps(tb, p);
    case DoBury(p) => BuryKeeps(tb, p);
    case DoReap(parent, p) => ReapKeeps(tb, parent, p);
    case DoBecomeInit(p) => BecomeInitKeeps(tb, p);
  }

  /** Actions that are not possible where they stand are skipped. */
  ghost function Run(tb: Table, actions: seq<Action>): (r: Table)
    requires Valid(tb)
    ensures Valid(r)
    decreases |actions|
  {
    if actions == [] then tb
    else
      var s, a := Run(tb, actions[..|actions| - 1]), actions[|actions| - 1];
      if Enabled(s, a) then
        StepKeeps(s, a);
        Step(s, a)
      else s
  }

  /**
   * After the kernel has started: process 0, its child init in slot 1, and
   * every other slot free.
   */
  ghost function Boot(n: nat): Table
    requires n >= 2
  {
    var nil := seq(n, _ => NIL);
    Table(
      Family(Links(nil[0 := 0][1 := 0], nil[0 := 1], nil, nil),
             seq(n, x => if x == 0 then [1] else []), seq(n, x => x), n),
      Queues(seq(n, x => if x == 1 then 0 else if x == 0 || x == n - 1 then NIL else x + 1),
             seq(n, x => if x == 0 then NxtOf(1) else AllHead), 1, NIL, if n == 2 then NIL else 2,
             [1, 0], [], seq(n - 2, i => i + 2)),
      Hash(seq(n, x => if x == 1 then 1 else 0), nil, seq(PIDHSZ, b => if b == 0 then 0 else if b == 1 then 1 else NIL),
           seq(PIDHSZ, b => if b == 0 then [0] else if b == 1 then [1] else [])),
      {}, seq(n, x => x < 2), seq(n, _ => {}), 1, 0)
  }

  lemma BootValid(n: nat)
    requires n >= 2
    ensures Valid(Boot(n))
  {
    var tb := Boot(n);
    BootTree(n);
    BootQueues(n);
    BootHash(n);
    forall x: nat | x < n
      ensures SlotOk(tb, x)
    {
      if x >= 2 {
        assert tb.q.free[x - 2] == x;
      }
    }
  }

  lemma BootTree(n: nat)
    requires n >= 2
    ensures Good(Boot(n).f, NIL)
  {
    var f := Boot(n).f;
    assert Placed(f.t, n, 0, f.kids[0], 0);
    forall p: nat | p < n
      ensures Node(f.t, f.kids, NIL, p)
    {
    }
  }

  lemma BootQueues(n: nat)
    requires n >= 2
    ensures QueuesOk(Boot(n).q, n)
  {
    var q := Boot(n).q;
    assert DoublyAt(q.nxt, q.prev, AllHead, q.all, 0) && DoublyAt(q.nxt, q.prev, AllHead, q.all, 1);
    forall i: nat | i < |q.free|
      ensures SinglyAt(q.nxt, q.free, i)
    {
    }
  }

  lemma BootHash(n: nat)
    requires n >= 2
    ensures HashOk(Boot(n).h, n)
  {
    var h := Boot(n).h;
    forall b: nat | b < PIDHSZ
      ensures BucketOk(h, b)
    {
    }
  }

  /**
   * Each child list is exactly the processes with that p_pptr, and it is
   * doubly linked as Forest says; allproc, zombproc and freeproc are
   * disjoint; a process is found by pid exactly while it runs; and no chain
   * of parents is circular.
   */
  ghost predicate WellFormed(tb: Table) {
    && Good(tb.f, NIL) && QueuesOk(tb.q, Size(tb)) && |tb.h.buckets| == PIDHSZ
    && (forall p: nat, x: nat {:trigger tb.f.kids[p], tb.f.t.pptr[x]} :: p < Size(tb) && x < Size(tb) ==>
         (x in tb.f.kids[p] <==> x != p && tb.f.t.pptr[x] == p))
    && (forall x: nat {:trigger Hashed(tb.h, x)} :: x < Size(tb) ==>
         (Hashed(tb.h, x) <==> x in tb.q.all || x in tb.starting))
    && (forall x :: x in tb.q.all ==> x !in tb.q.zomb && x !in tb.q.free)
    && (forall x :: x in tb.q.zomb ==> x !in tb.q.free)
  }

  /** The state reached from start-up by a run. */
  ghost function Reached(n: nat, actions: seq<Action>): (tb: Table)
    requires n >= 2
    ensures Valid(tb)
  {
    BootValid(n);
    Run(Boot(n), actions)
  }

  /** In every reachable state the process table is well formed. */
  lemma EveryRunIsWellFormed(n: nat, actions: seq<Action>)
    requires n >= 2
    ensures WellFormed(Reached(n, actions))
  {
    var tb := Reached(n, actions);
    TableSizes(tb);
    forall p: nat, x: nat | p < Size(tb) && x < Size(tb)
      ensures x in tb.f.kids[p] <==> x != p && tb.f.t.pptr[x] == p
    {
      KidsAreChildren(tb.f.t, tb.f.kids, NIL, p, x);
    }
    forall x: nat | x < Size(tb)
      ensures Hashed(tb.h, x) <==> x in tb.q.all || x in tb.starting
    {
      Slot(tb, x);
    }
  }

  // ----- What each step does, said of parents, lists, pids and signals -----

  /** A list without the first occurrence of x, the others in their order. */
  function Removed(s: seq<int>, x: int): seq<int> {
    if s == [] then [] else if s[0] == x then s[1..] else [s[0]] + Removed(s[1..], x)
  }

  function Backwards(s: seq<int>): seq<int> {
    if s == [] then [] else Backwards(s[1..]) + [s[0]]
  }

  /** Each process of the path is the parent of the one before it. */
  predicate Ancestry(pptr: seq<int>, path: seq<int>) {
    && (forall i :: 0 <= i < |path| ==> 0 <= path[i] < |pptr|)
    && (forall i :: 0 <= i < |path| - 1 ==> pptr[path[i]] == path[i + 1] != path[i])
  }

  ghost predicate Descends(pptr: seq<int>, p: int, x: int) {
    exists path :: |path| > 1 && path[0] == x && path[|path| - 1] == p && Ancestry(pptr, path)
  }

  /** The same set of processes can be found by pid, give or take p. */
  ghost predicate Findable(h: Hash, h1: Hash, p: int, found: bool)
    requires |h.buckets| == |h1.buckets| == PIDHSZ
  {
    && |h1.pid| == |h.pid| && Hashed(h1, p) == found
    && (forall x :: x != p ==> (Hashed(h1, x) <==> Hashed(h, x)))
  }

  /** cloneproc, first half: the first free slot c is a new child of the parent, with the pid given. */
  ghost predicate Forked(tb: Table, tb1: Table, parent: nat, c: nat, pid: int)
    requires |tb.h.buckets| == |tb1.h.buckets| == PIDHSZ
  {
    && c < Size(tb) == |tb.f.t.pptr| == |tb.h.pid| == |tb.task| && parent < Size(tb)
    && tb1.f.t.pptr == tb.f.t.pptr[c := parent]
    && tb1.f.kids == tb.f.kids[parent := [c] + tb.f.kids[parent]]
    && tb.q.free == [c] + tb1.q.free && tb1.q.all == tb.q.all && tb1.q.zomb == tb.q.zomb
    && tb1.h.pid == tb.h.pid[c := pid] && Findable(tb.h, tb1.h, c, true)
    && tb1.starting == tb.starting + {c} && tb1.task == tb.task[c := true] && tb1.sig == tb.sig
    && tb1.init == tb.init && tb1.kernel == tb.kernel
  }

  /** cloneproc, second half: the child goes to the head of allproc. */
  predicate Launched(tb: Table, tb1: Table, c: nat) {
    && tb1.q.all == [c] + tb.q.all && tb1.q.zomb == tb.q.zomb && tb1.q.free == tb.q.free
    && tb1 == tb.(q := tb1.q, starting := tb.starting - {c})
  }

  /** exit, first part: from allproc to the head of zombproc, and no longer found by pid. */
  ghost predicate Died(tb: Table, tb1: Table, p: nat)
    requires |tb.h.buckets| == |tb1.h.buckets| == PIDHSZ
  {
    && tb1.q.all == Removed(tb.q.all, p) && tb1.q.zomb == [p] + tb.q.zomb && tb1.q.free == tb.q.free
    && tb1.h.pid == tb.h.pid && Findable(tb.h, tb1.h, p, false)
    && tb1 == tb.(q := tb1.q, h := tb1.h)
  }

  /**
   * exit, last part: the parent of each child is init, which gets them before
   * its own, oldest first; exactly the descendants lose their pending stops.
   */
  ghost predicate Buried(tb: Table, tb1: Table, p: nat) {
    && p < Size(tb) == Size(tb1) == |tb.f.t.pptr| == |tb1.f.t.pptr| == |tb.sig| == |tb1.sig| == |tb.task|
    && tb.init < Size(tb)
    && (forall x: nat {:trigger tb1.f.t.pptr[x]} :: x < Size(tb) ==>
         tb1.f.t.pptr[x] == if x in tb.f.kids[p] then tb.init else tb.f.t.pptr[x])
    && tb1.f.kids[p] == [] && tb1.f.kids[tb.init] == Backwards(tb.f.kids[p]) + tb.f.kids[tb.init]
    && (forall r: nat {:trigger tb1.f.kids[r]} :: r < Size(tb) && r != p && r != tb.init ==>
         tb1.f.kids[r] == tb.f.kids[r])
    && (forall x: nat {:trigger tb1.sig[x]} :: x < Size(tb) ==>
         tb1.sig[x] == if Descends(tb.f.t.pptr, p, x) then tb.sig[x] - {18, 21, 22} else tb.sig[x])
    && tb1 == tb.(f := tb1.f, sig := tb1.sig, task := tb.task[p := false])
  }

  /** wait1: the dead child leaves its parent and zombproc, and its slot is the first free one. */
  ghost predicate Reaped(tb: Table, tb1: Table, parent: nat, p: nat)
    requires |tb.h.buckets| == |tb1.h.buckets| == PIDHSZ
  {
    && p < Size(tb) == |tb.f.t.pptr| == |tb.h.pid| == |tb.sig| && parent < Size(tb)
    && tb1.f.t.pptr == tb.f.t.pptr[p := NIL] && tb1.f.kids == tb.f.kids[parent := Removed(tb.f.kids[parent], p)]
    && tb1.q.zomb == Removed(tb.q.zomb, p) && tb1.q.free == [p] + tb.q.free && tb1.q.all == tb.q.all
    && tb1.h.pid == tb.h.pid[p := 0] && Findable(tb.h, tb1.h, p, false)
    && tb1 == tb.(f := tb1.f, q := tb1.q, h := tb1.h, sig := tb.sig[p := {}])
  }

  /** init_process: p is its own parent and has left the one it had. */
  predicate Inited(tb: Table, tb1: Table, p: nat) {
    && p < Size(tb) == |tb.f.t.pptr|
    && tb1.f.t.pptr == tb.f.t.pptr[p := p]
    && (forall r: nat {:trigger tb.f.kids[r]} :: r < Size(tb) && Size(tb1) == Size(tb) ==>
         tb1.f.kids[r] == if r == tb.f.t.pptr[p] then Removed(tb.f.kids[r], p) else tb.f.kids[r])
    && Size(tb1) == Size(tb) && tb1 == tb.(f := tb1.f)
  }

  lemma {:induction false} RemovedIs(s: seq<int>, x: int, i: nat)
    requires i < |s| && x in s[i..]
    ensures Without(s, Find(s, x, i)) == s[..i] + Removed(s[i..], x)
    decreases |s| - i
  {
    assert s[i..][1..] == s[i + 1..];
    if s[i] != x {
      assert s[i..] == [s[i]] + s[i + 1..];
      RemovedIs(s, x, i + 1);
      assert s[..i + 1] + Removed(s[i + 1..], x) == s[..i] + ([s[i]] + Removed(s[i + 1..], x));
    }
  }

  lemma PlaceRemoved(s: seq<int>, x: int)
    requires x in s
    ensures Without(s, PlaceAt(s, x)) == Removed(s, x)
  {
    assert s[0..] == s;
    RemovedIs(s, x, 0);
  }

  lemma {:induction false} RemovedOther(s: seq<int>, x: int)
    requires x !in s
    ensures Removed(s, x) == s
  {
    if s != [] {
      RemovedOther(s[1..], x);
    }
  }

  lemma ForkMeans(tb: Table, parent: nat, pid: int)
    requires Valid(tb) && parent in tb.q.all && tb.q.free != []
    ensures |Fork(tb, parent, pid).h.buckets| == |tb.h.buckets| == PIDHSZ && tb.q.freeHead >= 0
    ensures Forked(tb, Fork(tb, parent, pid), parent, tb.q.freeHead, pid)
  {
    hide Good, QueuesOk, HashOk, Hashed, Valid;
    TableSizes(tb);
    ForkReady(tb, parent);
    var c := tb.q.freeHead;
    TakeFreeKeeps(tb.q, Size(tb));
    EnterKeeps(tb.h, Size(tb), c, pid);
    assert tb.q.free == [c] + tb.q.free[1..];
  }

  lemma LaunchMeans(tb: Table, c: nat)
    requires Valid(tb) && c in tb.starting
    ensures Launched(tb, Launch(tb, c), c)
  {
    hide Valid;
  }

  lemma DieMeans(tb: Table, p: nat)
    requires Valid(tb) && p in tb.q.all && p != tb.init && p != tb.kernel
    ensures |Die(tb, p).h.buckets| == |tb.h.buckets| == PIDHSZ && Died(tb, Die(tb, p), p)
  {
    hide Good, QueuesOk, HashOk, Hashed, Valid, Leave, Unqueue;
    TableSizes(tb);
    Listed(tb.q, Size(tb), p);
    Slot(tb, p);
    HashedPlace(tb.h, p);
    LeaveKeeps(tb.h, Size(tb), p, PlaceAt(tb.h.buckets[Bucket(tb.h.pid[p])], p));
    HashSizes(Leave(tb.h, p, PlaceAt(tb.h.buckets[Bucket(tb.h.pid[p])], p)), Size(tb));
    LeavePids(tb.h, p, PlaceAt(tb.h.buckets[Bucket(tb.h.pid[p])], p));
    UnqueueLists(tb.q, p);
    PlaceRemoved(tb.q.all, p);
  }

  lemma HashedPlace(h: Hash, p: nat)
    requires |h.buckets| == PIDHSZ && Hashed(h, p)
    ensures p < |h.pid| && p in h.buckets[Bucket(h.pid[p])]
  {
  }

  lemma LeavePids(h: Hash, p: nat, k: nat)
    requires p < |h.pid| == |h.hash| && |h.heads| == |h.buckets| == PIDHSZ && k < |h.buckets[Bucket(h.pid[p])]|
    ensures Leave(h, p, k).pid == h.pid
  {
  }

  lemma {:induction false} AdoptedBefore(f: Family, p: nat, init: nat)
    requires Good(f, p) && p < |f.kids| && init < |f.kids| && p != init && f.birth[init] < f.birth[p]
    ensures |AdoptAll(f, p, init).kids| == |f.kids|
    ensures AdoptAll(f, p, init).kids[init] == Backwards(f.kids[p]) + f.kids[init]
    decreases |f.kids[p]|
  {
    hide Good, AdoptLinks;
    if f.kids[p] != [] {
      AdoptReady(f, p, init);
      AdoptGood(f, p, init);
      AdoptedBefore(AdoptFamily(f, p, init), p, init);
      var q := f.kids[p][0];
      assert Backwards(f.kids[p][1..]) + ([q] + f.kids[init]) == Backwards(f.kids[p]) + f.kids[init];
    }
  }

  lemma {:induction false} UnderDescends(f: Family, hole: int, p: nat, x: nat)
    requires Good(f, hole) && p < |f.kids| && x < |f.kids| && x != p && Under(f, hole, p, x)
    ensures Descends(f.t.pptr, p, x)
    decreases f.birth[x]
  {
    var up := f.t.pptr[x];
    if up == p {
      assert Ancestry(f.t.pptr, [x, p]);
    } else {
      UnderDescends(f, hole, p, up);
      var path :| |path| > 1 && path[0] == up && path[|path| - 1] == p && Ancestry(f.t.pptr, path);
      LongerPath(f.t.pptr, x, path);
    }
  }

  lemma LongerPath(pptr: seq<int>, x: nat, path: seq<int>)
    requires x < |pptr| && path != [] && Ancestry(pptr, path) && pptr[x] == path[0] != x
    ensures Ancestry(pptr, [x] + path)
  {
    var q := [x] + path;
    forall i | 0 <= i < |q| - 1
      ensures pptr[q[i]] == q[i + 1] != q[i]
    {
      if i > 0 {
        assert q[i] == path[i - 1] && q[i + 1] == path[i];
      }
    }
  }

  lemma {:induction false} DescendsUnder(f: Family, hole: int, path: seq<int>)
    requires Good(f, hole) && |f.t.pptr| == |f.kids| && |path| > 0 && Ancestry(f.t.pptr, path)
    ensures 0 <= path[0] < |f.kids| && 0 <= path[|path| - 1] < |f.kids| && Under(f, hole, path[|path| - 1], path[0])
    ensures |path| > 1 ==> path[0] != path[|path| - 1]
    decreases |path|
  {
    if |path| > 1 {
      var rest := path[1..];
      assert Ancestry(f.t.pptr, rest) by {
        forall i | 0 <= i < |rest| - 1
          ensures f.t.pptr[rest[i]] == rest[i + 1] != rest[i]
        {
          assert f.t.pptr[path[i + 1]] == path[i + 2] != path[i + 1];
        }
      }
      assert f.t.pptr[path[0]] == path[1] != path[0];
      DescendsUnder(f, hole, rest);
      UnderIsOlder(f, hole, path[|path| - 1], path[1]);
    }
  }

  lemma DescendsIffUnder(f: Family, hole: int, p: nat, x: nat)
    requires Good(f, hole) && p < |f.kids| == |f.t.pptr| && x < |f.kids|
    ensures Descends(f.t.pptr, p, x) <==> x != p && Under(f, hole, p, x)
  {
    hide Good, Under;
    if x != p && Under(f, hole, p, x) {
      UnderDescends(f, hole, p, x);
    }
    if Descends(f.t.pptr, p, x) {
      var path :| |path| > 1 && path[0] == x && path[|path| - 1] == p && Ancestry(f.t.pptr, path);
      DescendsUnder(f, hole, path);
    }
  }

  lemma BuryMeans(tb: Table, p: nat)
    requires Valid(tb) && p in tb.q.zomb && p < Size(tb) == |tb.task| && tb.task[p]
    ensures Buried(tb, Bury(tb, p), p)
  {
    hide Good, QueuesOk, HashOk, Hashed, Valid, ClearAll, AdoptAll, Under, Descends;
    TableSizes(tb);
    BuryReady(tb, p);
    ExitGood(tb.f, p, tb.init);
    AdoptAllGood(tb.f, p, tb.init);
    AdoptedBefore(tb.f, p, tb.init);
    var tb1 := Bury(tb, p);
    ForestSizes(AdoptAll(tb.f, p, tb.init), p);
    forall x: nat | x < Size(tb)
      ensures tb1.sig[x] == if Descends(tb.f.t.pptr, p, x) then tb.sig[x] - {18, 21, 22} else tb.sig[x]
    {
      ExitClearsDescendants(tb.sig, tb.f, p, tb.init, x);
      DescendsIffUnder(tb.f, p, p, x);
    }
  }

  lemma ReapMeans(tb: Table, parent: nat, p: nat)
    requires Valid(tb) && parent in tb.q.all && parent < Size(tb) && p in tb.f.kids[parent] && p < |tb.task|
    requires !tb.task[p]
    ensures |Reap(tb, parent, p).h.buckets| == |tb.h.buckets| == PIDHSZ
    ensures Reaped(tb, Reap(tb, parent, p), parent, p)
  {
    hide Good, QueuesOk, HashOk, Hashed, Valid, Unqueue, DetachLinks;
    TableSizes(tb);
    ReapReady(tb, parent, p);
    UnqueueLists(tb.q, p);
    PlaceRemoved(tb.q.zomb, p);
    PlaceRemoved(tb.f.kids[parent], p);
    DetachGood(tb.f, p, NIL, PlaceAt(tb.f.kids[parent], p));
    PidFree(tb.h, Size(tb), p);
  }

  lemma BecomeInitMeans(tb: Table, p: nat)
    requires Valid(tb) && p in tb.q.all && p < |tb.f.t.pptr| && tb.f.t.pptr[p] != NIL
    ensures Inited(tb, BecomeInit(tb, p), p)
  {
    hide Good, QueuesOk, HashOk, Hashed, Valid, DetachLinks;
    TableSizes(tb);
    if tb.f.t.pptr[p] == p {
      NotOwnChild(tb.f, p);
      RemovedOther(tb.f.kids[p], p);
    } else {
      var k := PlaceAtParent(tb.f, p);
      DetachGood(tb.f, p, p, k);
      PlaceRemoved(tb.f.kids[tb.f.t.pptr[p]], p);
    }
  }

  lemma NotOwnChild(f: Family, p: nat)
    requires Good(f, NIL) && p < |f.kids|
    ensures p !in f.kids[p]
  {
    if p in f.kids[p] {
      MemberParent(f.t, f.kids, NIL, p, p);
    }
  }

  /** The effect of a step, in any reachable state. */
  ghost predicate Effect(tb: Table, tb1: Table, a: Action)
    requires Valid(tb) && Valid(tb1)
  {
    TableSizes(tb);
    TableSizes(tb1);
    match a
    case DoFork(parent, pid) => tb.q.free != [] && tb.q.free[0] >= 0 && Forked(tb, tb1, parent, tb.q.free[0], pid)
    case DoLaunch(c) => Launched(tb, tb1, c)
    case DoDie(p) => Died(tb, tb1, p)
    case DoBury(p) => Buried(tb, tb1, p)
    case DoReap(parent, p) => Reaped(tb, tb1, parent, p)
    case DoBecomeInit(p) => Inited(tb, tb1, p)
  }

  lemma EveryStepMeans(n: nat, actions: seq<Action>, a: Action)
    requires n >= 2 && Enabled(Reached(n, actions), a)
    ensures var tb := Reached(n, actions); Valid(Step(tb, a)) && Effect(tb, Step(tb, a), a)
  {
    hide Valid, Fork, Launch, Die, Bury, Reap, BecomeInit, Forked, Launched, Died, Buried, Reaped, Inited, Run, Boot;
    var tb := Reached(n, actions);
    StepKeeps(tb, a);
    match a
    case DoFork(parent, pid) =>
      ForkMeans(tb, parent, pid);
      TableSizes(tb);
      TakeFreeKeeps(tb.q, Size(tb));
    case DoLaunch(c) => LaunchMeans(tb, c);
    case DoDie(p) => DieMeans(tb, p);
    case DoBury(p) => BuryMeans(tb, p);
    case DoReap(parent, p) => ReapMeans(tb, parent, p);
    case DoBecomeInit(p) => BecomeInitMeans(tb, p);
  }

  // ----- The pointer surgery, step by step -----

  /** Make q the youngest child of r. */
  method LinkChild(t: Links, q: nat, r: nat) returns (t1: Links)
    requires |t.pptr| == |t.cptr| == |t.osptr| == |t.ysptr| && q < |t.pptr| && r < |t.pptr|
    requires NIL <= t.cptr[r] < |t.pptr|
    ensures t1 == Push(t, q, r)
  {
    var pptr, cptr, osptr, ysptr := t.pptr, t.cptr, t.osptr, t.ysptr;
    pptr := pptr[q := r];
    osptr := osptr[q := cptr[r]];
    if cptr[r] != NIL {
      ysptr := ysptr[cptr[r] := q];
    }
    ysptr := ysptr[q := NIL];
    cptr := cptr[r := q];
    t1 := Links(pptr, cptr, osptr, ysptr);
  }

  /** Move q, the youngest child of an exiting process, to init; nq is its older sibling. */
  method AdoptOne(t: Links, q: nat, nq: int, init: nat) returns (t1: Links)
    requires |t.pptr| == |t.cptr| == |t.osptr| == |t.ysptr| && q < |t.pptr| && init < |t.pptr| && q != init
    requires nq == t.osptr[q] && NIL <= nq < |t.pptr| && NIL <= t.cptr[init] < |t.pptr|
    ensures t1 == AdoptLinks(t, q, init)
  {
    var pptr, cptr, osptr, ysptr := t.pptr, t.cptr, t.osptr, t.ysptr;
    if nq != NIL {
      ysptr := ysptr[nq := NIL];
    }
    if cptr[init] != NIL {
      ysptr := ysptr[cptr[init] := q];
    }
    osptr := osptr[q := cptr[init]];
    ysptr := ysptr[q := NIL];
    cptr := cptr[init := q];
    pptr := pptr[q := init];
    t1 := Links(pptr, cptr, osptr, ysptr);
  }

  /** Close the gap that p leaves among its siblings. */
  method Detach(t: Links, p: nat, up: int) returns (t1: Links)
    requires |t.pptr| == |t.cptr| == |t.osptr| == |t.ysptr| && p < |t.pptr| && 0 <= t.pptr[p] < |t.pptr|
    requires NIL <= t.osptr[p] < |t.pptr| && NIL <= t.ysptr[p] < |t.pptr| && t.osptr[p] != p && t.ysptr[p] != p
    ensures t1 == DetachLinks(t, p, up)
  {
    var pptr, cptr, osptr, ysptr := t.pptr, t.cptr, t.osptr, t.ysptr;
    if osptr[p] != NIL {
      ysptr := ysptr[osptr[p] := ysptr[p]];
    }
    if ysptr[p] != NIL {
      osptr := osptr[ysptr[p] := osptr[p]];
    }
    if cptr[pptr[p]] == p {
      cptr := cptr[pptr[p] := osptr[p]];
    }
    pptr := pptr[p := up];
    ysptr := ysptr[p := NIL];
    osptr := osptr[p := NIL];
    t1 := Links(pptr, cptr, osptr, ysptr);
  }

  method PidhashEnter(h: Hash, p: nat, newPid: int) returns (h1: Hash)
    requires p < |h.pid| == |h.hash| && |h.heads| == |h.buckets| == PIDHSZ
    ensures h1 == Enter(h, p, newPid)
  {
    h1 := h.(pid := h.pid[p := newPid]);
    var n := Bucket(newPid);
    h1 := h1.(hash := h1.hash[p := h1.heads[n]]);
    h1 := h1.(heads := h1.heads[n := p], buckets := h1.buckets[n := [p] + h1.buckets[n]]);
  }

  /** exit takes the process, the k-th of its chain, out of the hash; it is always found. */
  method ExitHash(h: Hash, p: nat, ghost k: nat, n: nat) returns (h1: Hash)
    requires HashOk(h, n) && p < n
    requires k < |h.buckets[Bucket(h.pid[p])]| && h.buckets[Bucket(h.pid[p])][k] == p
    ensures h1 == Leave(h, p, k)
  {
    var b := Bucket(h.pid[p]);
    ghost var s := h.buckets[b];
    assert BucketOk(h, b);
    var hash1, head1, k1 := Unhash(h.hash, h.heads[b], p, s);
    SameIndex(s, k, k1);
    h1 := Hash(h.pid, hash1, h.heads[b := head1], h.buckets[b := Without(h.buckets[b], k1)]);
  }

  /** Take p off whichever of allproc and zombproc it is on. */
  method OffQueue(q: Queues, p: nat) returns (q1: Queues)
    requires p < |q.nxt| == |q.prev| && NIL <= q.nxt[p] < |q.nxt|
    ensures q1 == Unqueue(q, p)
  {
    var next, back := q.nxt[p], q.prev[p];
    q1 := q;
    match back {
      case AllHead => q1 := q1.(allHead := next);
      case ZombHead => q1 := q1.(zombHead := next);
      case NxtOf(x) =>
        if 0 <= x < |q1.nxt| {
          q1 := q1.(nxt := q1.nxt[x := next]);
        }
    }
    if next != NIL {
      q1 := q1.(prev := q1.prev[next := back]);
    }
  }

  method PushZomb(q: Queues, p: nat) returns (q1: Queues)
    requires p < |q.nxt| == |q.prev| && (q.zombHead == NIL || 0 <= q.zombHead < |q.prev|)
    ensures q1 == OntoZomb(q, p)
  {
    q1 := q.(nxt := q.nxt[p := q.zombHead]);
    if q1.nxt[p] != NIL {
      q1 := q1.(prev := q1.prev[q1.nxt[p] := NxtOf(p)]);
    }
    q1 := q1.(prev := q1.prev[p := ZombHead], zombHead := p, zomb := [p] + q1.zomb);
  }

  /** allproc is never null, so the old head is updated without a test. */
  method PushAll(q: Queues, p: nat) returns (q1: Queues)
    requires p < |q.nxt| == |q.prev| && 0 <= q.allHead < |q.prev|
    ensures q1 == OntoAll(q, p)
  {
    q1 := q.(nxt := q.nxt[p := q.allHead]);
    q1 := q1.(prev := q1.prev[q1.nxt[p] := NxtOf(p)]);
    q1 := q1.(prev := q1.prev[p := AllHead], allHead := p, all := [p] + q1.all);
  }

  // ----- The table in place -----

  /** The process table; the lists inside q and h spell out what their pointers link. */
  class ProcTable {
    const init: nat
    const kernel: nat
    var t: Links
    var q: Queues
    var h: Hash
    var task: seq<bool>
    var sig: seq<set<int>>
    ghost var kids: seq<seq<int>>
    ghost var birth: seq<nat>
    ghost var limit: nat
    ghost var starting: set<int>

    ghost function Tree(): Family
      reads this
    {
      Family(t, kids, birth, limit)
    }

    ghost function View(): Table
      reads this
    {
      Table(Tree(), q, h, starting, task, sig, init, kernel)
    }

    /** The tree, list and hash part of cloneproc, up to the point where it may sleep; null if no slot is free. */
    method CloneBegin(rip: nat, newPid: int) returns (rpp: int)
      requires Valid(View()) && rip in q.all
      modifies this
      ensures Valid(View())
      ensures old(q.free) == [] ==> rpp == NIL && View() == old(View())
      ensures old(q.free) != [] ==> rpp == old(q.free)[0] && View() == Fork(old(View()), rip, newPid)
      ensures |old(h).buckets| == |h.buckets| == PIDHSZ
      ensures old(q.free) != [] ==> rpp >= 0 && Forked(old(View()), View(), rip, rpp, newPid)
    {
      hide Forked;
      hide Valid, Push, Enter, Good, QueuesOk, HashOk, Hashed, Singly, Bucket;
      ghost var tb := View();
      TableSizes(tb);
      FreeHead(tb.q, Size(tb));
      rpp := q.freeHead;
      if rpp == NIL {
        return;
      }
      ForkReady(tb, rip);
      ForkKeeps(tb, rip, newPid);
      ForkMeans(tb, rip, newPid);
      TakeFreeKeeps(tb.q, Size(tb));
      q := q.(freeHead := q.nxt[rpp], free := q.free[1..]);
      t := LinkChild(t, rpp, rip);
      h := PidhashEnter(h, rpp, newPid);
      task := task[rpp := true];
      kids, birth, limit, starting := PushKid(kids, rpp, rip), birth[rpp := limit + 1], limit + 1, starting + {rpp};
    }

    /** The end of cloneproc: onto allproc. */
    method CloneEnd(rpp: nat)
      requires Valid(View()) && rpp in starting
      modifies this
      ensures Valid(View()) && View() == Launch(old(View()), rpp) && Launched(old(View()), View(), rpp)
    {
      hide Valid, QueuesOk, Launched;
      ghost var tb := View();
      TableSizes(tb);
      LaunchKeeps(tb, rpp);
      LaunchMeans(tb, rpp);
      StartingSlot(tb, rpp);
      AllHeadSlot(tb.q, Size(tb));
      q := PushAll(q, rpp);
      starting := starting - {rpp};
    }

    /** exit: from allproc to zombproc and out of the pid hash; the panic for a missing chain entry is unreachable. */
    method ExitBegin(p: nat)
      requires Valid(View()) && p in q.all && p != init && p != kernel
      modifies this
      ensures Valid(View()) && View() == Die(old(View()), p)
      ensures |old(h).buckets| == |h.buckets| == PIDHSZ && Died(old(View()), View(), p)
    {
      hide Died;
      hide Valid, Leave, Unqueue, QueuesOk, HashOk, Good, OntoZomb;
      ghost var tb := View();
      TableSizes(tb);
      Listed(tb.q, Size(tb), p);
      Slot(tb, p);
      DieKeeps(tb, p);
      DieMeans(tb, p);
      NextSlot(tb.q, Size(tb), p);
      UnqueueLists(tb.q, p);
      OffAllKeeps(tb.q, Size(tb), PlaceAt(q.all, p));
      var q1 := OffQueue(q, p);
      q1 := q1.(all := Without(q.all, Find(q.all, p, 0)));
      ZombHeadSlot(q1, Size(tb));
      q := PushZomb(q1, p);
      h := ExitHash(h, p, PlaceAt(h.buckets[Bucket(h.pid[p])], p), |h.pid|);
    }

    /** One turn of the loop in exit: the first child goes to init, and the stops under it are cleared. */
    method GiveToInit(p: nat, child: int) returns (next: int)
      requires Good(Tree(), p) && p < |kids| == |sig| && init < |kids| == |birth| && p != init && birth[init] < birth[p]
      requires child == At(kids[p], 0) != NIL
      modifies this`t, this`kids, this`sig
      ensures Good(Tree(), p) && |sig| == |kids| == |old(kids)| == |t.pptr| && |kids[p]| < |old(kids)[p]|
      ensures next == At(kids[p], 0)
      ensures AdoptAll(Tree(), p, init) == AdoptAll(old(Tree()), p, init)
      ensures ClearAll(sig, Tree(), p, init) == ClearAll(old(sig), old(Tree()), p, init)
    {
      hide Good, AdoptAll, ClearAll, AdoptLinks, ClearUnder, Under, Preorder;
      AdoptStep(Tree(), p, init, sig);
      next := t.osptr[child];
      t := AdoptOne(t, child, next, init);
      kids := kids[p := kids[p][1..]][init := [child] + kids[init]];
      SpgrpReady(Tree(), p, child);
      var n, sig1; ghost var visited;
      n, sig1, visited := Spgrp(t, sig, child, Tree(), p);
      SpgrpClears(sig, sig1, Tree(), p, child, visited);
      sig := sig1;
      ForestSizes(Tree(), p);
    }

    /** exit: give the children to init, clear their stops, and let go of its Mach task. */
    method ExitEnd(p: nat)
      requires Valid(View()) && p in q.zomb && p < |task| && |kids| == |task| && task[p]
      modifies this`t, this`kids, this`sig, this`task
      ensures Valid(View()) && View() == Bury(old(View()), p) && Buried(old(View()), View(), p)
    {
      hide Buried;
      hide Valid, Good, AdoptAll, ClearAll, AdoptLinks, ClearUnder, QueuesOk, HashOk, Hashed, Under, Preorder, SlotOk;
      ghost var tb := View();
      ghost var f0 := Tree();
      BuryKeeps(tb, p);
      BuryMeans(tb, p);
      BuryReady(tb, p);
      ExitGood(f0, p, init);
      HeadOf(f0, p);
      var child := t.cptr[p];
      while child != NIL
        invariant Good(Tree(), p) && |sig| == |kids| == |f0.kids| == |birth| == |t.pptr|
        invariant child == At(kids[p], 0) && task == tb.task
        invariant AdoptAll(Tree(), p, init) == AdoptAll(f0, p, init)
        invariant ClearAll(sig, Tree(), p, init) == ClearAll(tb.sig, f0, p, init)
        decreases |kids[p]|
      {
        child := GiveToInit(p, child);
      }
      NoneLeft(sig, Tree(), p, init);
      t := t.(cptr := t.cptr[p := NIL]);
      task := task[p := false];
    }

    /** The pointer surgery of wait1 on a dead child. */
    method ReapChild(parent: nat, p: nat)
      requires Valid(View()) && parent in q.all && parent < |kids| && p in kids[parent] && p < |task| && !task[p]
      modifies this
      ensures Valid(View()) && View() == Reap(old(View()), parent, p)
      ensures |old(h).buckets| == |h.buckets| == PIDHSZ && Reaped(old(View()), View(), parent, p)
    {
      hide Reaped;
      hide Valid, Good, QueuesOk, HashOk, Hashed, Unqueue, DetachLinks;
      ghost var tb := View();
      TableSizes(tb);
      ReapReady(tb, parent, p);
      ReapKeeps(tb, parent, p);
      ReapMeans(tb, parent, p);
      NextSlot(tb.q, Size(tb), p);
      SiblingSlots(tb.f, p);
      UnqueueLists(tb.q, p);
      h := h.(pid := h.pid[p := 0]);
      var q1 := OffQueue(q, p);
      q1 := q1.(zomb := Without(q.zomb, Find(q.zomb, p, 0)));
      q := q1.(nxt := q1.nxt[p := q1.freeHead], freeHead := p, free := [p] + q1.free);
      t := Detach(t, p, NIL);
      kids := kids[parent := Without(kids[parent], PlaceAt(kids[parent], p))];
      sig := sig[p := {}];
    }

    /**
     * wait1 once through: the youngest dead child that matches is laid to
     * rest; otherwise nothing changes, and the caller gets an error if no
     * child matches and sleeps if one does.
     */
    method Wait1(curproc: nat, want: int) returns (p: int, f: nat)
      requires Valid(View()) && curproc in q.all && curproc < |kids|
      modifies this
      ensures Valid(View())
      ensures p == NIL ==> View() == old(View())
      ensures p == NIL ==>
        forall x :: x in kids[curproc] && 0 <= x < |task| && x < |h.pid| && Wanted(h.pid, want, x) ==> task[x]
      ensures p == NIL ==> (f == 0 <==> forall x :: x in kids[curproc] && 0 <= x < |h.pid| ==> !Wanted(h.pid, want, x))
      ensures p != NIL ==> p in old(kids[curproc]) && 0 <= p < |old(task)| && p < |old(h.pid)|
      ensures p != NIL ==> !old(task)[p] && (want == 0 || old(h.pid)[p] == want)
      ensures p != NIL ==> Youngest(old(kids)[curproc], p, old(h.pid), old(task), want)
      ensures |old(h).buckets| == |h.buckets| == PIDHSZ
      ensures p != NIL ==> Reaped(old(View()), View(), curproc, p)
    {
      hide Valid, Reap, Reaped, Youngest;
      TableSizes(View());
      ChainOf(Tree(), curproc);
      p, f := FindDead(t.osptr, h.pid, task, t.cptr[curproc], want, kids[curproc]);
      if p != NIL {
        ReapChild(curproc, p);
      }
    }

    /** init_process for the current process. */
    method InitProcess(p: nat)
      requires Valid(View()) && p in q.all && p < |t.pptr| && t.pptr[p] != NIL
      modifies this`t, this`kids
      ensures Valid(View()) && View() == BecomeInit(old(View()), p) && Inited(old(View()), View(), p)
    {
      hide Inited;
      hide Valid, Good, QueuesOk, HashOk, DetachLinks;
      ghost var tb := View();
      TableSizes(tb);
      BecomeInitKeeps(tb, p);
      BecomeInitMeans(tb, p);
      if t.pptr[p] != p {
        SiblingSlots(tb.f, p);
        ghost var pp, k := t.pptr[p], PlaceAtParent(tb.f, p);
        t := Detach(t, p, p);
        kids := kids[pp := Without(kids[pp], k)];
      } else {
        RootAlone(tb.f, p);
      }
    }
  }

  lemma FreeHead(q: Queues, n: nat)
    requires QueuesOk(q, n)
    ensures q.freeHead == NIL <==> q.free == []
  {
    SinglyHead(q.nxt, q.freeHead, q.free);
  }

  /** allproc is never null: init is on it. */
  lemma AllHeadSlot(q: Queues, n: nat)
    requires QueuesOk(q, n) && q.all != []
    ensures 0 <= q.allHead < n
  {
    assert DoublyAt(q.nxt, q.prev, AllHead, q.all, 0);
  }

  lemma StartingSlot(tb: Table, c: nat)
    requires Valid(tb) && c in tb.starting
    ensures c < Size(tb)
  {
  }

  lemma NextSlot(q: Queues, n: nat, p: nat)
    requires QueuesOk(q, n) && (p in q.all || p in q.zomb) && p < n
    ensures NIL <= q.nxt[p] < n
  {
    if p in q.all {
      var k := PlaceAt(q.all, p);
      DoublyCut(q.nxt, q.prev, q.allHead, AllHead, q.all, k);
    } else {
      var k := PlaceAt(q.zomb, p);
      DoublyCut(q.nxt, q.prev, q.zombHead, ZombHead, q.zomb, k);
    }
  }

  lemma ZombHeadSlot(q: Queues, n: nat)
    requires QueuesOk(q, n)
    ensures q.zombHead == NIL || 0 <= q.zombHead < n
  {
    if q.zomb != [] {
      assert DoublyAt(q.nxt, q.prev, ZombHead, q.zomb, 0);
    }
  }

  lemma HeadOf(f: Family, p: nat)
    requires Good(f, NIL) && p < |f.kids|
    ensures |f.t.cptr| == |f.kids| && f.t.cptr[p] == At(f.kids[p], 0)
  {
    HeadInRange(f.t, f.kids, NIL, p);
  }

  /** What one turn of the loop needs and does. */
  lemma AdoptStep(f: Family, p: nat, init: nat, sig: seq<set<int>>)
    requires Good(f, p) && p < |f.kids| == |sig| && init < |f.kids| && p != init && f.birth[init] < f.birth[p]
    requires At(f.kids[p], 0) != NIL
    ensures |f.t.pptr| == |f.t.cptr| == |f.t.osptr| == |f.t.ysptr| == |f.kids| && f.kids[p] != []
    ensures var q := f.kids[p][0];
      && 0 <= q < |f.kids| && q != init && NIL <= f.t.osptr[q] < |f.kids| && f.t.osptr[q] == At(f.kids[p], 1)
      && NIL <= f.t.cptr[init] < |f.kids| && Good(AdoptFamily(f, p, init), p)
      && f.birth[p] < f.birth[q]
      && AdoptAll(f, p, init) == AdoptAll(AdoptFamily(f, p, init), p, init)
      && ClearAll(sig, f, p, init)
         == ClearAll(ClearUnder(sig, AdoptFamily(f, p, init), p, q), AdoptFamily(f, p, init), p, init)
  {
    AdoptReady(f, p, init);
    AdoptGood(f, p, init);
  }

  lemma NoneLeft(sig: seq<set<int>>, f: Family, p: nat, init: nat)
    requires Good(f, p) && p < |f.kids| == |sig| && init < |f.kids| && p != init && f.birth[init] < f.birth[p]
    requires At(f.kids[p], 0) == NIL
    ensures |f.t.cptr| == |f.kids| && AdoptAll(f, p, init) == f && ClearAll(sig, f, p, init) == sig
  {
    if f.kids[p] != [] {
      MemberParent(f.t, f.kids, p, p, f.kids[p][0]);
    }
  }

  lemma SpgrpReady(f: Family, p: nat, q: nat)
    requires Good(f, p) && p < |f.kids| && q < |f.kids| && f.birth[p] < f.birth[q]
    ensures !Under(f, p, q, p)
  {
    if Under(f, p, q, p) {
      UnderIsOlder(f, p, q, p);
    }
  }

  /** spgrp clears the stops of top and its descendants and of nobody else. */
  lemma SpgrpClears(sig: seq<set<int>>, sig1: seq<set<int>>, f: Family, hole: int, top: nat, visited: seq<int>)
    requires Good(f, hole) && top < |f.kids| == |sig| == |sig1| && visited == Preorder(f, hole, top)
    requires forall q :: 0 <= q < |sig| ==> sig1[q] == if q in visited then sig[q] - STOPS else sig[q]
    ensures sig1 == ClearUnder(sig, f, hole, top)
  {
    forall x | 0 <= x < |sig|
      ensures sig1[x] == ClearUnder(sig, f, hole, top)[x]
    {
      if x in visited {
        PreorderIsUnder(f, hole, top, x);
      } else if Under(f, hole, top, x) {
        UnderIsPreorder(f, hole, top, x);
      }
    }
  }

  lemma SiblingSlots(f: Family, p: nat)
    requires Good(f, NIL) && p < |f.kids| && HasParent(f.t, p)
    ensures 0 <= f.t.pptr[p] < |f.kids| && NIL <= f.t.osptr[p] < |f.kids| && NIL <= f.t.ysptr[p] < |f.kids|
    ensures f.t.osptr[p] != p && f.t.ysptr[p] != p
  {
    var k := PlaceOf(f.t, f.kids, NIL, p);
  }

  /** A process without a parent has no siblings and is nobody's youngest child, so init_process changes nothing. */
  lemma RootAlone(f: Family, p: nat)
    requires Good(f, NIL) && p < |f.kids| && f.t.pptr[p] == p
    ensures f.t.osptr[p] == NIL && f.t.ysptr[p] == NIL && f.t.cptr[p] != p
  {
    assert Node(f.t, f.kids, NIL, p);
    HeadInRange(f.t, f.kids, NIL, p);
  }

  lemma ChainOf(f: Family, p: nat)
    requires Good(f, NIL) && p < |f.kids|
    ensures |f.t.cptr| == |f.t.osptr| == |f.kids| && Singly(f.t.osptr, f.t.cptr[p], f.kids[p])
  {
    HeadInRange(f.t, f.kids, NIL, p);
    assert Node(f.t, f.kids, NIL, p);
    forall i: nat | i < |f.kids[p]|
      ensures SinglyAt(f.t.osptr, f.kids[p], i)
    {
      KidFacts(f, NIL, p, i);
    }
  }
}
