/**
 * Character queues of the terminal driver: bytes kept in small aligned blocks
 * that are chained together and shared, through one free list, by all queues.
 *
 * A queue is found from two addresses and a count; the block an address lies
 * in, and whether it is the block's end, are read off the address bits. Each
 * operation is proved to be the obvious operation on a sequence of bytes.
 */
module Clist {

  /** Size of a block, of its link, and of its data. */
  const CBLOCK := 64
  const LINK := 4
  const CBSIZE := 60

  const NULL := 0

  newtype Byte = b: int | 0 <= b < 256

  /** c_cc, c_cf, c_cl. */
  datatype Q = Q(cc: int, cf: int, cl: int)

  const EMPTY := Q(0, NULL, NULL)

  /** The blocks: data and link of each, the free list and its byte count. */
  datatype Mem = Mem(info: seq<seq<Byte>>, next: seq<int>, freelist: int, freecount: int)

  /** Address of block b, and of its data. */
  function Base(b: int): int { CBLOCK * (b + 1) }
  function Info(b: int): int { Base(b) + LINK }

  /** Offset within the block (address & CROUND), and the block, of an address. */
  function Round(a: int): int { a % CBLOCK }
  function Block(a: int): int { a / CBLOCK - 1 }

  /** The link that leads to position i of a chain. */
  function Link(bs: seq<nat>, i: nat): int {
    if i < |bs| then Base(bs[i]) else NULL
  }

  ghost predicate InRange(bs: seq<nat>, n: nat) {
    forall i :: 0 <= i < |bs| ==> bs[i] < n
  }

  ghost predicate Distinct(bs: seq<nat>) {
    forall i, j :: 0 <= i < j < |bs| ==> bs[i] != bs[j]
  }

  ghost predicate Apart(a: seq<nat>, b: seq<nat>) {
    forall i, j :: 0 <= i < |a| && 0 <= j < |b| ==> a[i] != b[j]
  }

  /** The blocks bs are chained in this order, the last link being NULL. */
  ghost predicate Chain(next: seq<int>, bs: seq<nat>) {
    && InRange(bs, |next|)
    && Distinct(bs)
    && (forall i {:trigger next[bs[i]]} :: 0 <= i < |bs| ==> next[bs[i]] == Link(bs, i + 1))
  }

  ghost predicate Sized(m: Mem) {
    |m.info| == |m.next| && forall b :: 0 <= b < |m.info| ==> |m.info[b]| == CBSIZE
  }

  /** Offset of the first byte in the first block. */
  function Start(q: Q, bs: seq<nat>): int
    requires bs != []
  {
    q.cf - Info(bs[0])
  }

  /** The addresses and the count of a queue whose blocks are bs. */
  ghost predicate Geometry(q: Q, bs: seq<nat>) {
    if bs == [] then q == EMPTY
    else
      var s := Start(q, bs);
      && 0 <= s < CBSIZE && q.cc > 0
      && (|bs| - 1) * CBSIZE < s + q.cc <= |bs| * CBSIZE
      && q.cl == Info(bs[|bs| - 1]) + s + q.cc - (|bs| - 1) * CBSIZE
  }

  /** q is a queue made of the blocks bs. */
  ghost predicate Held(m: Mem, q: Q, bs: seq<nat>) {
    Sized(m) && Chain(m.next, bs) && Geometry(q, bs)
  }

  /** The free list is made of the blocks free. */
  ghost predicate Free(m: Mem, free: seq<nat>) {
    Chain(m.next, free) && m.freelist == Link(free, 0) && m.freecount == CBSIZE * |free|
  }

  ghost predicate Blocks(info: seq<seq<Byte>>, bs: seq<nat>) {
    InRange(bs, |info|) && forall b :: 0 <= b < |info| ==> |info[b]| == CBSIZE
  }

  /** The p-th byte counted from the start of block bs[0]. */
  function ByteAt(info: seq<seq<Byte>>, bs: seq<nat>, p: int): Byte
    requires Blocks(info, bs) && 0 <= p < |bs| * CBSIZE
  {
    info[bs[p / CBSIZE]][p % CBSIZE]
  }

  /** n bytes of a chain from position s on. */
  function Window(info: seq<seq<Byte>>, bs: seq<nat>, s: int, n: int): (r: seq<Byte>)
    requires Blocks(info, bs) && 0 <= s && 0 <= n && s + n <= |bs| * CBSIZE
    ensures |r| == n
  {
    seq(n, k requires 0 <= k < n => ByteAt(info, bs, s + k))
  }

  /** The bytes of a queue, in order. */
  ghost function Bytes(m: Mem, q: Q, bs: seq<nat>): (r: seq<Byte>)
    requires Held(m, q, bs)
    ensures |r| == q.cc
  {
    if bs == [] then [] else Window(m.info, bs, Start(q, bs), q.cc)
  }

  /** What one operation on a queue may touch: the blocks it owns and the free ones, which it redistributes. */
  ghost predicate Moves(m: Mem, bs: seq<nat>, free: seq<nat>, m': Mem, bs': seq<nat>, free': seq<nat>) {
    && |m'.info| == |m.info| && |m'.next| == |m.next|
    && multiset(bs') + multiset(free') == multiset(bs) + multiset(free)
    && (forall b :: 0 <= b < |m.info| && b !in bs && b !in free ==> m'.info[b] == m.info[b])
    && (forall b :: 0 <= b < |m.next| && b !in bs && b !in free ==> m'.next[b] == m.next[b])
  }

  // ----- taking bytes from the front -----

  /** A block returns to the free list. */
  function Release(m: Mem, b: nat): Mem
    requires b < |m.next|
  {
    m.(next := m.next[b := m.freelist], freelist := Base(b), freecount := m.freecount + CBSIZE)
  }

  lemma ReleaseFirst(m: Mem, bs: seq<nat>, free: seq<nat>)
    requires Chain(m.next, bs) && Free(m, free) && Apart(bs, free) && bs != []
    ensures Chain(Release(m, bs[0]).next, bs[1..])
    ensures Free(Release(m, bs[0]), [bs[0]] + free)
    ensures Apart(bs[1..], [bs[0]] + free)
    ensures multiset(bs[1..]) + multiset([bs[0]] + free) == multiset(bs) + multiset(free)
  {
    var b := bs[0];
    var m' := Release(m, b);
    ReleasedApart(bs, free);
    forall i | 0 <= i < |bs| - 1 ensures m'.next[bs[1..][i]] == Link(bs[1..], i + 1) {
      assert bs[1..][i] == bs[i + 1];
    }
    var f := [b] + free;
    forall i | 0 <= i < |f| ensures m'.next[f[i]] == Link(f, i + 1) {
      if i > 0 { assert f[i] == free[i - 1]; }
    }
  }

  lemma ReleasedApart(bs: seq<nat>, free: seq<nat>)
    requires Distinct(bs) && Distinct(free) && Apart(bs, free) && bs != []
    ensures Distinct(bs[1..]) && Distinct([bs[0]] + free) && Apart(bs[1..], [bs[0]] + free)
    ensures multiset(bs[1..]) + multiset([bs[0]] + free) == multiset(bs) + multiset(free)
  {
    assert bs == [bs[0]] + bs[1..];
  }

  /**
   * The pointer arithmetic shared by getc, q_to_b and ndflush: move c_cf on by
   * n bytes of the first block, and free the block when it or the queue is
   * exhausted.
   */
  function Advance(m: Mem, q: Q, n: int): (Mem, Q)
    requires 0 <= Block(q.cf + n - 1) < |m.next|
  {
    var cf, cc := q.cf + n, q.cc - n;
    if cc <= 0 then (Release(m, Block(cf - 1)), EMPTY)
    else if Round(cf) == 0 then
      var b := Block(cf - CBLOCK);
      if 0 <= b < |m.next| then (Release(m, b), Q(cc, m.next[b] + LINK, q.cl)) else (m, q)
    else (m, Q(cc, cf, q.cl))
  }

  /** Where an advance of n stays in the first block, its address arithmetic names that block. */
  lemma FirstBlock(m: Mem, q: Q, bs: seq<nat>, n: int)
    requires Held(m, q, bs) && bs != [] && 1 <= n <= CBSIZE - Start(q, bs) && n <= q.cc
    ensures Block(q.cf + n - 1) == bs[0]
    ensures n == q.cc ==> |bs| == 1
    ensures Round(q.cf + n) == 0 <==> Start(q, bs) + n == CBSIZE
    ensures Round(q.cf + n) == 0 ==> Block(q.cf + n - CBLOCK) == bs[0]
    ensures Round(q.cf + n) == 0 && n < q.cc ==> |bs| > 1 && m.next[bs[0]] == Base(bs[1])
  {
  }

  /** The blocks of a queue and the free blocks after n bytes have gone from the front. */
  function Kept(q: Q, bs: seq<nat>, n: int): seq<nat>
    requires bs != []
  {
    if n == q.cc || Start(q, bs) + n == CBSIZE then bs[1..] else bs
  }

  function Freed(q: Q, bs: seq<nat>, free: seq<nat>, n: int): seq<nat>
    requires bs != []
  {
    if n == q.cc || Start(q, bs) + n == CBSIZE then [bs[0]] + free else free
  }

  lemma AdvanceMoves(m: Mem, q: Q, bs: seq<nat>, free: seq<nat>, n: int)
    requires Held(m, q, bs) && Free(m, free) && Apart(bs, free)
    requires bs != [] && 1 <= n <= CBSIZE - Start(q, bs) && n <= q.cc
    ensures 0 <= Block(q.cf + n - 1) < |m.next|
    ensures var (m', q') := Advance(m, q, n);
      && Held(m', q', Kept(q, bs, n)) && Free(m', Freed(q, bs, free, n))
      && Apart(Kept(q, bs, n), Freed(q, bs, free, n))
      && Moves(m, bs, free, m', Kept(q, bs, n), Freed(q, bs, free, n))
      && m'.info == m.info
  {
    FirstBlock(m, q, bs, n);
    AdvanceGeometry(m, q, bs, n);
    hide Geometry, Chain, Apart, Advance, Block;
    if n == q.cc || Start(q, bs) + n == CBSIZE {
      ReleaseFirst(m, bs, free);
    }
  }

  lemma AdvanceGeometry(m: Mem, q: Q, bs: seq<nat>, n: int)
    requires Held(m, q, bs) && bs != [] && 1 <= n <= CBSIZE - Start(q, bs) && n <= q.cc
    requires 0 <= Block(q.cf + n - 1) < |m.next|
    ensures Geometry(Advance(m, q, n).1, Kept(q, bs, n))
    ensures Advance(m, q, n).0 == if n == q.cc || Start(q, bs) + n == CBSIZE then Release(m, bs[0]) else m
  {
    FirstBlock(m, q, bs, n);
    hide Chain, Sized;
  }

  lemma AdvanceBytes(m: Mem, q: Q, bs: seq<nat>, free: seq<nat>, n: int)
    requires Held(m, q, bs) && Free(m, free) && Apart(bs, free)
    requires bs != [] && 1 <= n <= CBSIZE - Start(q, bs) && n <= q.cc
    requires 0 <= Block(q.cf + n - 1) < |m.next|
    requires var (m', q') := Advance(m, q, n); Held(m', q', Kept(q, bs, n)) && m'.info == m.info
    ensures var (m', q') := Advance(m, q, n);
      Bytes(m', q', Kept(q, bs, n)) == Bytes(m, q, bs)[n..]
  {
    hide Chain, Sized, Blocks, Window, Advance, Block, Round;
    var (m', q') := Advance(m, q, n);
    AdvanceStart(m, q, bs, n);
    if n < q.cc {
      InBlocks(m, q, bs);
      InBlocks(m', q', Kept(q, bs, n));
      WindowMoves(m.info, bs, Kept(q, bs, n), Start(q, bs), Start(q', Kept(q, bs, n)), n, q.cc);
    }
  }

  lemma InBlocks(m: Mem, q: Q, bs: seq<nat>)
    requires Held(m, q, bs) && bs != []
    ensures Blocks(m.info, bs) && 0 <= Start(q, bs) && Start(q, bs) + q.cc <= |bs| * CBSIZE
  {
  }

  lemma AdvanceStart(m: Mem, q: Q, bs: seq<nat>, n: int)
    requires Held(m, q, bs) && bs != [] && 1 <= n <= CBSIZE - Start(q, bs) && n <= q.cc
    requires 0 <= Block(q.cf + n - 1) < |m.next|
    ensures var q', bs' := Advance(m, q, n).1, Kept(q, bs, n);
      && q'.cc == q.cc - n
      && (n < q.cc ==> bs' != [])
      && (n < q.cc && bs' == bs ==> Start(q', bs') == Start(q, bs) + n)
      && (n < q.cc && bs' != bs ==> bs' == bs[1..] && Start(q', bs') == 0 && Start(q, bs) + n == CBSIZE)
  {
    FirstBlock(m, q, bs, n);
    hide Chain, Sized, Block, Round;
  }

  /** The bytes after the first n, counted from the old and from the new first block. */
  lemma WindowMoves(info: seq<seq<Byte>>, bs: seq<nat>, bs': seq<nat>, s: int, s': int, n: int, cc: int)
    requires Blocks(info, bs) && Blocks(info, bs') && 0 <= s && 0 <= s' && 1 <= n < cc
    requires s + cc <= |bs| * CBSIZE && s' + (cc - n) <= |bs'| * CBSIZE && bs != [] && bs' != []
    requires (bs' == bs && s' == s + n) || (bs' == bs[1..] && s' == 0 && s + n == CBSIZE)
    ensures Window(info, bs, s, cc)[n..] == Window(info, bs', s', cc - n)
  {
    hide Blocks;
    var a, b := Window(info, bs, s, cc)[n..], Window(info, bs', s', cc - n);
    forall k | 0 <= k < cc - n
      ensures a[k] == b[k]
    {
      SameByte(bs, bs', s, s', n, k);
      assert a[k] == ByteAt(info, bs, s + n + k);
      assert b[k] == ByteAt(info, bs', s' + k);
    }
  }

  /** The same byte counted from the old and from the new first block. */
  lemma SameByte(bs: seq<nat>, bs': seq<nat>, s: int, s': int, n: int, k: int)
    requires bs != [] && bs' != [] && 0 <= k
    requires (bs' == bs && s' == s + n) || (bs' == bs[1..] && s' == 0 && s + n == CBSIZE)
    requires 0 <= s + n + k < |bs| * CBSIZE
    ensures var p, p' := s + n + k, s' + k;
      && 0 <= p' / CBSIZE < |bs'|
      && p % CBSIZE == p' % CBSIZE && bs[p / CBSIZE] == bs'[p' / CBSIZE]
  {
  }

  /** A queue and the free list, in good order and with no block in common. */
  ghost predicate Ok(m: Mem, q: Q, bs: seq<nat>, free: seq<nat>) {
    Held(m, q, bs) && Free(m, free) && Apart(bs, free)
  }

  lemma MovesTrans(m: Mem, bs: seq<nat>, free: seq<nat>, m1: Mem, bs1: seq<nat>, free1: seq<nat>, m2: Mem,
                   bs2: seq<nat>, free2: seq<nat>)
    requires Moves(m, bs, free, m1, bs1, free1) && Moves(m1, bs1, free1, m2, bs2, free2)
    ensures Moves(m, bs, free, m2, bs2, free2)
  {
    forall b | b !in bs && b !in free ensures b !in bs1 && b !in free1 {
      assert b !in multiset(bs) + multiset(free);
      assert b !in multiset(bs1) + multiset(free1);
    }
  }

  lemma MovesNothing(m: Mem, bs: seq<nat>, free: seq<nat>)
    ensures Moves(m, bs, free, m, bs, free)
  {
  }

  /** Everything about an advance of n bytes within the first block. */
  lemma AdvanceAll(m: Mem, q: Q, bs: seq<nat>, free: seq<nat>, n: int)
    requires Ok(m, q, bs, free) && bs != [] && 1 <= n <= CBSIZE - Start(q, bs) && n <= q.cc
    ensures 0 <= Block(q.cf + n - 1) < |m.next|
    ensures var (m', q') := Advance(m, q, n); var bs', free' := Kept(q, bs, n), Freed(q, bs, free, n);
      && Ok(m', q', bs', free') && Moves(m, bs, free, m', bs', free')
      && Bytes(m', q', bs') == Bytes(m, q, bs)[n..]
      && (bs' != [] ==> Start(q, bs) + n == CBSIZE * (|bs| - |bs'|) + Start(q', bs'))
  {
    AdvanceMoves(m, q, bs, free, n);
    AdvanceBytes(m, q, bs, free, n);
    FirstBlock(m, q, bs, n);
  }

  /** The bytes that c_cf points at. */
  lemma FrontBytes(m: Mem, q: Q, bs: seq<nat>, n: int)
    requires Held(m, q, bs) && bs != [] && 0 <= n <= CBSIZE - Start(q, bs) && n <= q.cc
    ensures Round(q.cf) == LINK + Start(q, bs) && Block(q.cf) == bs[0]
    ensures bs[0] < |m.info| && |m.info[bs[0]]| == CBSIZE && |m.info| == |m.next|
    ensures m.info[bs[0]][Start(q, bs)..Start(q, bs) + n] == Bytes(m, q, bs)[..n]
  {
    var s := Start(q, bs);
    forall k | 0 <= k < n ensures Bytes(m, q, bs)[k] == m.info[bs[0]][s + k] {
      assert Bytes(m, q, bs)[k] == ByteAt(m.info, bs, s + k);
      assert (s + k) / CBSIZE == 0 && (s + k) % CBSIZE == s + k;
    }
  }

  /** getc: take the first byte, or report -1 on an empty queue. */
  method Getc(m: Mem, p: Q, ghost bs: seq<nat>, ghost free: seq<nat>)
    returns (c: int, m': Mem, p': Q, ghost bs': seq<nat>, ghost free': seq<nat>)
    requires Ok(m, p, bs, free)
    ensures Ok(m', p', bs', free') && Moves(m, bs, free, m', bs', free')
    ensures var s := Bytes(m, p, bs);
      if s == [] then c == -1 && Bytes(m', p', bs') == []
      else c == s[0] as int && Bytes(m', p', bs') == s[1..]
  {
    hide Held, Free, Apart, Moves, Advance, Block, Kept, Freed, Bytes, Window;
    HeldBlocks(m, p, bs);
    m', p', bs', free' := m, p, bs, free;
    if p.cc <= 0 {
      c, p' := -1, EMPTY;
      MovesNothing(m, bs, free);
    } else {
      AdvanceAll(m, p, bs, free, 1);
      FrontBytes(m, p, bs, 1);
      c := m.info[Block(p.cf)][Round(p.cf) - LINK] as int;
      var next := Advance(m, p, 1);
      m', p', bs', free' := next.0, next.1, Kept(p, bs, 1), Freed(p, bs, free, 1);
    }
  }

  function Min(a: int, b: int): int { if a < b then a else b }

  /** q_to_b: copy up to n bytes out of the queue. */
  method QtoB(m: Mem, q: Q, n: int, ghost bs: seq<nat>, ghost free: seq<nat>)
    returns (out: seq<Byte>, m': Mem, q': Q, ghost bs': seq<nat>, ghost free': seq<nat>)
    requires Ok(m, q, bs, free)
    ensures Ok(m', q', bs', free') && Moves(m, bs, free, m', bs', free')
    ensures out + Bytes(m', q', bs') == Bytes(m, q, bs)
    ensures |out| == if n <= 0 then 0 else Min(n, q.cc)
    ensures bs' != [] ==> Start(q, bs) + |out| == CBSIZE * (|bs| - |bs'|) + Start(q', bs')
  {
    hide Held, Free, Apart, Moves, Bytes, Window, Start;
    HeldBlocks(m, q, bs);
    out, m', q', bs', free' := [], m, q, bs, free;
    MovesNothing(m, bs, free);
    if n <= 0 {
      return;
    }
    if q.cc <= 0 {
      q' := EMPTY;
      return;
    }
    var cc := n;
    while cc > 0 && q'.cc > 0
      invariant 0 <= cc == n - |out|
      invariant Ok(m', q', bs', free') && Moves(m, bs, free, m', bs', free')
      invariant out + Bytes(m', q', bs') == Bytes(m, q, bs)
      invariant bs' != [] ==> Start(q, bs) + |out| == CBSIZE * (|bs| - |bs'|) + Start(q', bs')
      decreases cc
    {
      ghost var m1, q1, bs1, free1 := m', q', bs', free';
      var chunk;
      chunk, m', q', bs', free' := CopyOut(m', q', cc, bs', free');
      MovesTrans(m, bs, free, m1, bs1, free1, m', bs', free');
      assert out + (chunk + Bytes(m', q', bs')) == out + chunk + Bytes(m', q', bs');
      out, cc := out + chunk, cc - |chunk|;
    }
  }

  /** One turn of the loop of q_to_b: what is left of the first block, or of the request. */
  method CopyOut(m: Mem, q: Q, n: int, ghost bs: seq<nat>, ghost free: seq<nat>)
    returns (out: seq<Byte>, m': Mem, q': Q, ghost bs': seq<nat>, ghost free': seq<nat>)
    requires Ok(m, q, bs, free) && n > 0 && q.cc > 0
    ensures Ok(m', q', bs', free') && Moves(m, bs, free, m', bs', free')
    ensures out + Bytes(m', q', bs') == Bytes(m, q, bs) && 0 < |out| <= n
    ensures bs != [] && (bs' != [] ==> Start(q, bs) + |out| == CBSIZE * (|bs| - |bs'|) + Start(q', bs'))
  {
    hide Held, Free, Apart, Moves, Advance, Block, Kept, Freed, Bytes, Window;
    HeldBlocks(m, q, bs);
    var nc := Min(CBLOCK - Round(q.cf), Min(n, q.cc));
    FrontBytes(m, q, bs, 0);
    AdvanceAll(m, q, bs, free, nc);
    FrontBytes(m, q, bs, nc);
    var at := Round(q.cf) - LINK;
    out := m.info[Block(q.cf)][at..at + nc];
    var next := Advance(m, q, nc);
    m', q', bs', free' := next.0, next.1, Kept(q, bs, nc), Freed(q, bs, free, nc);
    assert Bytes(m, q, bs) == Bytes(m, q, bs)[..nc] + Bytes(m, q, bs)[nc..];
  }

  /** The count at zero means the empty queue, whatever the addresses say. */
  function Norm(q: Q): Q {
    if q.cc <= 0 then EMPTY else q
  }

  /** The end of the data of the first block, as ndflush computes it, is where an advance stops. */
  lemma FirstBlockEnd(m: Mem, q: Q, bs: seq<nat>, n: int)
    requires Held(m, q, bs) && bs != [] && n > 0
    ensures var b := Block(q.cf);
      var rem := (if b == Block(q.cl - 1) then q.cl else Base(b) + CBLOCK) - q.cf;
      && b == bs[0] < |m.next| && 1 <= rem <= CBSIZE - Start(q, bs) && rem <= q.cc
      && 0 <= Block(q.cf + Min(n, rem) - 1) < |m.next|
      && (n >= rem ==> Advance(m, q, rem) == (Release(m, b), Norm(Q(q.cc - rem, m.next[b] + LINK, q.cl))))
      && (n < rem ==> Advance(m, q, n) == (m, Q(q.cc - n, q.cf + n, q.cl)) && q.cc - n > 0)
  {
    var last := bs[|bs| - 1];
    assert Block(q.cl - 1) == last;
    assert |bs| > 1 ==> last != bs[0];
    assert Block(q.cf) == bs[0];
  }

  /** ndflush: drop n bytes, or all there are. */
  method Ndflush(m: Mem, q: Q, n: int, ghost bs: seq<nat>, ghost free: seq<nat>)
    returns (m': Mem, q': Q, ghost bs': seq<nat>, ghost free': seq<nat>)
    requires Ok(m, q, bs, free)
    ensures Ok(m', q', bs', free') && Moves(m, bs, free, m', bs', free')
    ensures Bytes(m', q', bs') == Bytes(m, q, bs)[if n <= 0 then 0 else Min(n, q.cc)..]
  {
    hide Held, Free, Apart, Moves, Bytes, Window;
    HeldBlocks(m, q, bs);
    m', q', bs', free' := m, q, bs, free;
    MovesNothing(m, bs, free);
    if q.cc <= 0 {
      return;
    }
    var cc := n;
    ghost var gone := 0;
    while cc > 0 && q'.cc > 0
      invariant 0 <= gone <= q.cc && (n >= 0 ==> cc == n - gone >= 0) && (n < 0 ==> gone == 0 && cc == n)
      invariant Ok(m', Norm(q'), bs', free') && Moves(m, bs, free, m', bs', free')
      invariant Bytes(m', Norm(q'), bs') == Bytes(m, q, bs)[gone..]
      decreases cc
    {
      ghost var m1, bs1, free1 := m', bs', free';
      ghost var k;
      cc, m', q', bs', free', k := FlushBlock(m', q', cc, bs', free');
      MovesTrans(m, bs, free, m1, bs1, free1, m', bs', free');
      gone := gone + k;
    }
    q' := Norm(q');
  }

  lemma HeldNonempty(m: Mem, q: Q, bs: seq<nat>)
    requires Held(m, q, bs)
    ensures q.cc > 0 <==> bs != []
  {
  }

  lemma FlushedBlock(m: Mem, q: Q, bs: seq<nat>, free: seq<nat>, n: int)
    requires Ok(m, q, bs, free) && bs != [] && n > 0
    ensures var b := Block(q.cf);
      var rem := (if b == Block(q.cl - 1) then q.cl else Base(b) + CBLOCK) - q.cf; var k := Min(n, rem);
      && 0 <= b < |m.next| && 0 < k <= Min(n, q.cc)
      && (n >= rem ==> var m', q', bs', free' := Release(m, b), Norm(Q(q.cc - rem, m.next[b] + LINK, q.cl)),
                                                 Kept(q, bs, k), Freed(q, bs, free, k);
            Ok(m', q', bs', free') && Moves(m, bs, free, m', bs', free') && Bytes(m', q', bs') == Bytes(m, q, bs)[k..])
      && (n < rem ==> var q', bs', free' := Q(q.cc - n, q.cf + n, q.cl), Kept(q, bs, k), Freed(q, bs, free, k);
            q'.cc > 0 && Ok(m, q', bs', free') && Moves(m, bs, free, m, bs', free')
            && Bytes(m, q', bs') == Bytes(m, q, bs)[k..])
  {
    hide Held, Free, Apart, Moves, Advance, Kept, Freed, Block, Base, Release, Bytes, Window, Start;
    FirstBlockEnd(m, q, bs, n);
    var b := Block(q.cf);
    var rem := (if b == Block(q.cl - 1) then q.cl else Base(b) + CBLOCK) - q.cf;
    AdvanceAll(m, q, bs, free, Min(n, rem));
  }

  /** One turn of ndflush's loop. */
  method FlushBlock(m: Mem, q: Q, n: int, ghost bs: seq<nat>, ghost free: seq<nat>)
    returns (left: int, m': Mem, q': Q, ghost bs': seq<nat>, ghost free': seq<nat>, ghost k: int)
    requires Ok(m, q, bs, free) && n > 0 && q.cc > 0
    ensures Ok(m', Norm(q'), bs', free') && Moves(m, bs, free, m', bs', free')
    ensures 0 < k <= Min(n, q.cc) && left == n - k && (left > 0 ==> q'.cc == q.cc - k)
    ensures Bytes(m', Norm(q'), bs') == Bytes(m, q, bs)[k..]
  {
    hide Held, Free, Apart, Moves, Kept, Freed, Block, Base, Release, Start, Bytes, Window;
    HeldNonempty(m, q, bs);
    FlushedBlock(m, q, bs, free, n);
    var b := Block(q.cf);
    var end := if b == Block(q.cl - 1) then q.cl else Base(b) + CBLOCK;
    var rem := end - q.cf;
    k := Min(n, rem);
    bs', free' := Kept(q, bs, k), Freed(q, bs, free, k);
    if n >= rem {
      left := n - rem;
      q' := Q(q.cc - rem, m.next[b] + LINK, q.cl);
      m' := Release(m, b);
    } else {
      q' := Q(q.cc - n, q.cf + n, q.cl);
      left, m' := 0, m;
    }
  }

  // ----- adding bytes at the end -----

  /** The free list gives up its first block. */
  function Taken(m: Mem, b: nat): Mem
    requires b < |m.next|
  {
    m.(freelist := m.next[b], freecount := m.freecount - CBSIZE, next := m.next[b := NULL])
  }

  /** Bytes stored from address a on, within one block. */
  function Write(m: Mem, a: int, bytes: seq<Byte>): Mem
    requires 0 <= Block(a) < |m.info| && LINK <= Round(a) && Round(a) - LINK + |bytes| <= |m.info[Block(a)]|
  {
    var b, o := Block(a), Round(a) - LINK;
    m.(info := m.info[b := m.info[b][..o] + bytes + m.info[b][o + |bytes|..]])
  }

  lemma TakeFirst(m: Mem, bs: seq<nat>, free: seq<nat>)
    requires Chain(m.next, bs) && Free(m, free) && Apart(bs, free) && free != []
    ensures var b := free[0]; var m1 := Taken(m, b);
      var m' := if bs == [] then m1 else m1.(next := m1.next[bs[|bs| - 1] := Base(b)]);
      && Chain(m'.next, bs + [b]) && Free(m', free[1..]) && Apart(bs + [b], free[1..])
      && multiset(bs + [b]) + multiset(free[1..]) == multiset(bs) + multiset(free)
  {
    hide Chain, Distinct, Apart, Base;
    TakenApart(bs, free) by { ChainDistinct(m.next, bs); ChainDistinct(m.next, free); }
    TakenChains(m.next, bs, free);
    assert free == [free[0]] + free[1..];
  }

  lemma ChainDistinct(next: seq<int>, bs: seq<nat>)
    requires Chain(next, bs)
    ensures Distinct(bs)
  {
  }

  lemma TakenChains(next: seq<int>, bs: seq<nat>, free: seq<nat>)
    requires Chain(next, bs) && Chain(next, free) && Apart(bs, free) && free != []
    ensures free[0] < |next| && (bs != [] ==> bs[|bs| - 1] < |next|) && next[free[0]] == Link(free[1..], 0)
    ensures var n1 := next[free[0] := NULL];
      var n2 := if bs == [] then n1 else n1[bs[|bs| - 1] := Base(free[0])];
      Chain(n2, bs + [free[0]]) && Chain(n2, free[1..])
  {
    hide Distinct, Base;
    var b := free[0];
    assert next[b] == Link(free, 1);
    var n1 := next[b := NULL];
    TakenApart(bs, free);
    TakenRest(next, free);
    if bs == [] {
      assert bs + [b] == [b];
    } else {
      AppendedChain(next, bs, b);
      OtherChain(n1, free[1..], bs[|bs| - 1], Base(b));
    }
  }

  /** The rest of the free list is still a chain when its first block has gone. */
  lemma TakenRest(next: seq<int>, free: seq<nat>)
    requires Chain(next, free) && free != [] && Distinct(free[1..])
    ensures Chain(next[free[0] := NULL], free[1..])
  {
    hide Distinct;
    var f, n1 := free[1..], next[free[0] := NULL];
    forall i | 0 <= i < |f| ensures n1[f[i]] == Link(f, i + 1) {
      NotFirst(free, i + 1);
      assert next[free[i + 1]] == Link(free, i + 2);
    }
  }

  /** A block put at the end of a chain. */
  lemma AppendedChain(next: seq<int>, bs: seq<nat>, b: nat)
    requires Chain(next, bs) && bs != [] && b < |next| && Distinct(bs + [b])
    ensures Chain(next[b := NULL][bs[|bs| - 1] := Base(b)], bs + [b])
  {
    hide Distinct, Base;
    var c, n2 := bs + [b], next[b := NULL][bs[|bs| - 1] := Base(b)];
    forall i | 0 <= i < |c| ensures n2[c[i]] == Link(c, i + 1) {
      LastIs(c, i);
      if i < |bs| {
        LastIs(bs, i);
        assert next[bs[i]] == Link(bs, i + 1);
      } else {
        LastIs(c, |bs| - 1);
      }
    }
  }

  /** A chain does not notice a change in a block that is not on it. */
  lemma OtherChain(next: seq<int>, f: seq<nat>, x: nat, v: int)
    requires Chain(next, f) && x < |next| && (forall i :: 0 <= i < |f| ==> f[i] != x)
    ensures Chain(next[x := v], f)
  {
    forall i | 0 <= i < |f| ensures next[x := v][f[i]] == Link(f, i + 1) {
      assert next[f[i]] == Link(f, i + 1);
    }
  }

  lemma LastIs(bs: seq<nat>, i: nat)
    requires Distinct(bs) && i < |bs|
    ensures bs[i] == bs[|bs| - 1] <==> i == |bs| - 1
  {
  }

  lemma NotFirst(bs: seq<nat>, i: nat)
    requires Distinct(bs) && 0 < i < |bs|
    ensures bs[i] != bs[0]
  {
  }

  lemma TakenApart(bs: seq<nat>, free: seq<nat>)
    requires Distinct(bs) && Distinct(free) && Apart(bs, free) && free != []
    ensures Distinct(bs + [free[0]]) && Apart(bs + [free[0]], free[1..]) && Distinct(free[1..])
  {
  }

  /** What the bits of c_cl say about the last block. */
  lemma EndAddress(m: Mem, q: Q, bs: seq<nat>)
    requires Held(m, q, bs) && bs != []
    ensures var last, used := bs[|bs| - 1], Start(q, bs) + q.cc - (|bs| - 1) * CBSIZE;
      && q.cl != NULL && 0 < used <= CBSIZE
      && (Round(q.cl) == 0 <==> used == CBSIZE)
      && (Round(q.cl) == 0 ==> Block(q.cl - CBLOCK) == last)
      && (Round(q.cl) != 0 ==> Block(q.cl) == last && Round(q.cl) - LINK == used)
      && Block(q.cl - 1) == last && Round(q.cl - 1) - LINK == used - 1
      && m.next[last] == NULL
  {
    assert m.next[bs[|bs| - 1]] == Link(bs, |bs|);
  }

  /** The queue with a new last block b holding `bytes`. */
  function WithBlock(m: Mem, bs: seq<nat>, b: nat, bytes: seq<Byte>): Mem
    requires b < |m.next| && InRange(bs, |m.next|) && Sized(m) && |bytes| <= CBSIZE
  {
    var m1 := Taken(m, b);
    var m2 := if bs == [] then m1 else m1.(next := m1.next[bs[|bs| - 1] := Base(b)]);
    Write(m2, Info(b), bytes)
  }

  lemma WriteAt(m: Mem, b: nat, o: int, bytes: seq<Byte>)
    requires Sized(m) && b < |m.info| && 0 <= o && o + |bytes| <= CBSIZE
    ensures Block(Info(b) + o) == b || o == CBSIZE
    ensures o < CBSIZE ==> Round(Info(b) + o) == LINK + o
    ensures o < CBSIZE ==> var m' := Write(m, Info(b) + o, bytes);
      && Sized(m') && m'.next == m.next && m'.freelist == m.freelist && m'.freecount == m.freecount
      && |m'.info| == |m.info|
      && Stored(m.info, m'.info, b, o)
      && (forall k :: 0 <= k < |bytes| ==> m'.info[b][o + k] == bytes[k])
  {
  }

  /** Two chains agree on positions s to e. */
  ghost predicate Agree(info: seq<seq<Byte>>, bs: seq<nat>, info': seq<seq<Byte>>, bs': seq<nat>, s: int, e: int)
    requires Blocks(info, bs) && Blocks(info', bs') && 0 <= s && e <= |bs| * CBSIZE && e <= |bs'| * CBSIZE
  {
    forall p {:trigger ByteAt(info', bs', p)} :: s <= p < e ==> ByteAt(info', bs', p) == ByteAt(info, bs, p)
  }

  /** A chain holds these bytes from position `at` on. */
  ghost predicate Spells(info: seq<seq<Byte>>, bs: seq<nat>, at: int, bytes: seq<Byte>)
    requires Blocks(info, bs) && 0 <= at && at + |bytes| <= |bs| * CBSIZE
  {
    forall p {:trigger ByteAt(info, bs, p)} :: at <= p < at + |bytes| ==> ByteAt(info, bs, p) == bytes[p - at]
  }

  /** How a window grows at the end. */
  lemma WindowGrows(info: seq<seq<Byte>>, bs: seq<nat>, info': seq<seq<Byte>>, bs': seq<nat>, s: int, cc: int,
                    bytes: seq<Byte>)
    requires Blocks(info, bs) && Blocks(info', bs') && 0 <= s && 0 <= cc
    requires s + cc <= |bs| * CBSIZE && s + cc + |bytes| <= |bs'| * CBSIZE
    requires Agree(info, bs, info', bs', s, s + cc) && Spells(info', bs', s + cc, bytes)
    ensures Window(info', bs', s, cc + |bytes|) == Window(info, bs, s, cc) + bytes
  {
    hide ByteAt, Blocks;
    var a, b := Window(info', bs', s, cc + |bytes|), Window(info, bs, s, cc) + bytes;
    forall k | 0 <= k < |a| ensures a[k] == b[k] {
      assert a[k] == ByteAt(info', bs', s + k);
      if k >= cc { assert b[k] == bytes[s + k - (s + cc)]; }
    }
  }

  lemma InLast(n: nat, o: int)
    requires n > 0 && 0 <= o < CBSIZE
    ensures ((n - 1) * CBSIZE + o) / CBSIZE == n - 1 && ((n - 1) * CBSIZE + o) % CBSIZE == o
  {
  }

  /** A store into the last block from offset `used` on leaves every earlier byte of the chain alone. */
  lemma SameBefore(info: seq<seq<Byte>>, info': seq<seq<Byte>>, bs: seq<nat>, used: int, p: int)
    requires bs != [] && Blocks(info, bs) && Blocks(info', bs) && Distinct(bs) && |info'| == |info|
    requires 0 <= used <= CBSIZE && 0 <= p < (|bs| - 1) * CBSIZE + used
    requires Stored(info, info', bs[|bs| - 1], used)
    ensures ByteAt(info', bs, p) == ByteAt(info, bs, p)
  {
    var i, o := p / CBSIZE, p % CBSIZE;
    assert p == i * CBSIZE + o && 0 <= o < CBSIZE;
    if i == |bs| - 1 {
      assert o < used;
    } else {
      assert bs[i] != bs[|bs| - 1];
    }
  }

  /** Only block b has changed, and only from offset `used` on. */
  ghost predicate Stored(info: seq<seq<Byte>>, info': seq<seq<Byte>>, b: nat, used: int) {
    && |info'| == |info| && b < |info| && |info'[b]| == |info[b]| && 0 <= used <= |info[b]|
    && (forall c :: 0 <= c < |info| && c != b ==> info'[c] == info[c])
    && (forall o :: 0 <= o < used ==> info'[b][o] == info[b][o])
  }

  /** What a store after the data of the last block does to the chain. */
  lemma StoredBytes(info: seq<seq<Byte>>, info': seq<seq<Byte>>, bs: seq<nat>, used: int, bytes: seq<Byte>)
    requires bs != [] && Blocks(info, bs) && Blocks(info', bs) && Distinct(bs)
    requires 0 <= used && used + |bytes| <= CBSIZE && Stored(info, info', bs[|bs| - 1], used)
    requires forall k :: 0 <= k < |bytes| ==> info'[bs[|bs| - 1]][used + k] == bytes[k]
    ensures var e := (|bs| - 1) * CBSIZE + used;
      Agree(info, bs, info', bs, 0, e) && Spells(info', bs, e, bytes)
  {
    var e := (|bs| - 1) * CBSIZE + used;
    forall p | 0 <= p < e ensures ByteAt(info', bs, p) == ByteAt(info, bs, p) {
      SameBefore(info, info', bs, used, p);
    }
    forall p | e <= p < e + |bytes| ensures ByteAt(info', bs, p) == bytes[p - e] {
      InLast(|bs|, p - (|bs| - 1) * CBSIZE);
      assert info'[bs[|bs| - 1]][used + (p - e)] == bytes[p - e];
    }
  }

  /** The addresses after a store into the last block. */
  lemma SameBlockHeld(m: Mem, q: Q, bs: seq<nat>, free: seq<nat>, bytes: seq<Byte>)
    requires Ok(m, q, bs, free) && bs != [] && Round(q.cl) != 0 && 0 < |bytes| <= CBLOCK - Round(q.cl)
    ensures 0 <= Block(q.cl) < |m.info| && LINK <= Round(q.cl) && Round(q.cl) - LINK + |bytes| <= |m.info[Block(q.cl)]|
    ensures var m', q' := Write(m, q.cl, bytes), Q(q.cc + |bytes|, q.cf, q.cl + |bytes|);
      var last, used := bs[|bs| - 1], Start(q, bs) + q.cc - (|bs| - 1) * CBSIZE;
      && Ok(m', q', bs, free) && Moves(m, bs, free, m', bs, free)
      && 0 <= used && used + |bytes| <= CBSIZE && Stored(m.info, m'.info, last, used)
      && (forall k :: 0 <= k < |bytes| ==> m'.info[last][used + k] == bytes[k])
  {
    hide Write, Apart, Chain, Link;
    EndAddress(m, q, bs);
    HeldBlocks(m, q, bs);
    WriteAt(m, bs[|bs| - 1], Start(q, bs) + q.cc - (|bs| - 1) * CBSIZE, bytes);
  }

  /** Appending within the last block. */
  lemma AppendSame(m: Mem, q: Q, bs: seq<nat>, free: seq<nat>, bytes: seq<Byte>)
    requires Ok(m, q, bs, free) && bs != [] && Round(q.cl) != 0 && 0 < |bytes| <= CBLOCK - Round(q.cl)
    ensures 0 <= Block(q.cl) < |m.info| && LINK <= Round(q.cl) && Round(q.cl) - LINK + |bytes| <= |m.info[Block(q.cl)]|
    ensures var m', q' := Write(m, q.cl, bytes), Q(q.cc + |bytes|, q.cf, q.cl + |bytes|);
      Ok(m', q', bs, free) && Moves(m, bs, free, m', bs, free) && Bytes(m', q', bs) == Bytes(m, q, bs) + bytes
  {
    hide Write, Chain, Geometry, Moves, Round, Block, Sized, Free, Apart, Stored, Agree, Spells, Blocks, Window;
    SameBlockHeld(m, q, bs, free, bytes);
    HeldBlocks(m, q, bs);
    var m', q' := Write(m, q.cl, bytes), Q(q.cc + |bytes|, q.cf, q.cl + |bytes|);
    HeldBlocks(m', q', bs);
    var s := Start(q, bs);
    StoredBytes(m.info, m'.info, bs, s + q.cc - (|bs| - 1) * CBSIZE, bytes);
    AgreeFrom(m.info, bs, m'.info, bs, s, s + q.cc);
    WindowGrows(m.info, bs, m'.info, bs, s, q.cc, bytes);
  }

  lemma AgreeFrom(info: seq<seq<Byte>>, bs: seq<nat>, info': seq<seq<Byte>>, bs': seq<nat>, s: int, e: int)
    requires Blocks(info, bs) && Blocks(info', bs') && 0 <= s && e <= |bs| * CBSIZE && e <= |bs'| * CBSIZE
    requires Agree(info, bs, info', bs', 0, e)
    ensures Agree(info, bs, info', bs', s, e)
  {
  }

  /** The links and addresses after a block has been taken and filled. */
  lemma NewBlockHeld(m: Mem, q: Q, bs: seq<nat>, free: seq<nat>, bytes: seq<Byte>)
    requires Ok(m, q, bs, free) && free != [] && 0 < |bytes| <= CBSIZE
    requires bs != [] ==> Round(q.cl) == 0
    ensures free[0] < |m.next|
    ensures var b := free[0];
      var m', q' := WithBlock(m, bs, b, bytes),
                    Q(q.cc + |bytes|, if bs == [] then Info(b) else q.cf, Info(b) + |bytes|);
      && Ok(m', q', bs + [b], free[1..]) && Moves(m, bs, free, m', bs + [b], free[1..])
      && Blocks(m.info, bs + [b]) && Stored(m.info, m'.info, b, 0)
      && (forall k :: 0 <= k < |bytes| ==> m'.info[b][0 + k] == bytes[k])
      && Start(q', bs + [b]) + q.cc == |bs| * CBSIZE
      && (bs == [] ==> q.cc == 0) && (bs != [] ==> Start(q', bs + [b]) == Start(q, bs))
  {
    hide Write, Apart, Block, Round, Link, Stored;
    var b := free[0];
    if bs != [] { EndAddress(m, q, bs); }
    TakeFirst(m, bs, free);
    var m1 := Taken(m, b);
    var m2 := if bs == [] then m1 else m1.(next := m1.next[bs[|bs| - 1] := Base(b)]);
    WriteAt(m2, b, 0, bytes);
    var m' := Write(m2, Info(b), bytes);
  }

  /** Appending in a block just taken from the free list. */
  lemma AppendNew(m: Mem, q: Q, bs: seq<nat>, free: seq<nat>, bytes: seq<Byte>)
    requires Ok(m, q, bs, free) && free != [] && 0 < |bytes| <= CBSIZE
    requires bs != [] ==> Round(q.cl) == 0
    ensures free[0] < |m.next|
    ensures var b := free[0];
      var m', q' := WithBlock(m, bs, b, bytes),
                    Q(q.cc + |bytes|, if bs == [] then Info(b) else q.cf, Info(b) + |bytes|);
      Ok(m', q', bs + [b], free[1..]) && Moves(m, bs, free, m', bs + [b], free[1..])
      && Bytes(m', q', bs + [b]) == Bytes(m, q, bs) + bytes
  {
    hide WithBlock, Chain, Geometry, Moves, Round, Sized, Free, Apart, Stored, Agree, Spells, Blocks, Window;
    NewBlockHeld(m, q, bs, free, bytes);
    HeldBlocks(m, q, bs);
    var b, c := free[0], bs + [free[0]];
    var m', q' := WithBlock(m, bs, b, bytes),
                    Q(q.cc + |bytes|, if bs == [] then Info(b) else q.cf, Info(b) + |bytes|);
    HeldBlocks(m', q', c);
    assert c[|c| - 1] == b;
    StoredBytes(m.info, m'.info, c, 0, bytes);
    PrefixAgrees(m.info, m'.info, bs, b, Start(q', c));
    WindowGrows(m.info, bs, m'.info, c, Start(q', c), q.cc, bytes);
  }

  lemma HeldBlocks(m: Mem, q: Q, bs: seq<nat>)
    requires Held(m, q, bs)
    ensures Blocks(m.info, bs) && Distinct(bs) && q.cc >= 0 && InRange(bs, |m.next|) && Sized(m)
    ensures bs == [] <==> q.cc == 0
    ensures bs == [] ==> q == EMPTY
    ensures bs != [] ==> 0 <= Start(q, bs) < CBSIZE && Start(q, bs) + q.cc <= |bs| * CBSIZE
  {
  }

  lemma PrefixAgrees(info: seq<seq<Byte>>, info': seq<seq<Byte>>, bs: seq<nat>, b: nat, s: int)
    requires Blocks(info, bs) && Blocks(info, bs + [b]) && Blocks(info', bs + [b]) && 0 <= s
    requires Agree(info, bs + [b], info', bs + [b], 0, |bs| * CBSIZE)
    ensures Agree(info, bs, info', bs + [b], s, |bs| * CBSIZE)
  {
    forall p | s <= p < |bs| * CBSIZE ensures ByteAt(info', bs + [b], p) == ByteAt(info, bs, p) {
      Prefix(info, bs, b, p);
    }
  }

  lemma Prefix(info: seq<seq<Byte>>, bs: seq<nat>, b: nat, p: int)
    requires Blocks(info, bs + [b]) && 0 <= p < |bs| * CBSIZE
    ensures Blocks(info, bs) && ByteAt(info, bs + [b], p) == ByteAt(info, bs, p)
  {
    assert forall i :: 0 <= i < |bs| ==> bs[i] == (bs + [b])[i];
  }

  /** Bytes that one store can add: what is left of the last block, or a whole new block. */
  function Room(q: Q): int {
    if q.cl == NULL || Round(q.cl) == 0 then CBSIZE else CBLOCK - Round(q.cl)
  }

  /** Bytes that can be added before the free list runs out. */
  function Capacity(q: Q, bs: seq<nat>, free: seq<nat>): int {
    CBSIZE * |free| + (if bs == [] then 0 else |bs| * CBSIZE - Start(q, bs) - q.cc)
  }

  lemma FreeHead(m: Mem, free: seq<nat>)
    requires Free(m, free)
    ensures m.freelist == NULL <==> free == []
    ensures free != [] ==> Block(m.freelist) == free[0] < |m.next|
  {
  }

  lemma InfoAddress(m: Mem, b: nat)
    requires Sized(m) && b < |m.next|
    ensures Block(Info(b)) == b && Round(Info(b)) == LINK && |m.info[b]| == CBSIZE
  {
  }

  /** What the head of putc and b_to_q finds out from c_cl, and what is then appended. */
  lemma Appended(m: Mem, q: Q, bs: seq<nat>, free: seq<nat>, bytes: seq<Byte>)
    requires Ok(m, q, bs, free) && 0 < |bytes| <= Room(q)
    ensures q.cl == NULL <==> bs == []
    ensures bs != [] && Round(q.cl) == 0 ==>
      0 <= Block(q.cl - CBLOCK) == bs[|bs| - 1] < |m.next| && m.next[bs[|bs| - 1]] == NULL
    ensures (q.cl == NULL || Round(q.cl) == 0) && free == [] ==> Capacity(q, bs, free) == 0
    ensures q.cl != NULL && Round(q.cl) != 0 ==>
      var q' := Q(q.cc + |bytes|, q.cf, q.cl + |bytes|); Capacity(q', bs, free) == Capacity(q, bs, free) - |bytes|
    ensures (q.cl == NULL || Round(q.cl) == 0) && free != [] ==>
      var b := free[0]; var q' := Q(q.cc + |bytes|, if bs == [] then Info(b) else q.cf, Info(b) + |bytes|);
      Capacity(q', bs + [b], free[1..]) == Capacity(q, bs, free) - |bytes|
  {
    hide Chain, Free, Apart, Block, Link, Sized;
    HeldBlocks(m, q, bs);
    if bs != [] {
      EndAddress(m, q, bs);
    }
  }

  /** putc and one turn of b_to_q: find room, taking a block from the free list if needed, and store. */
  method AppendChunk(m: Mem, q: Q, bytes: seq<Byte>, ghost bs: seq<nat>, ghost free: seq<nat>)
    returns (ok: bool, m': Mem, q': Q, ghost bs': seq<nat>, ghost free': seq<nat>)
    requires Ok(m, q, bs, free) && 0 < |bytes| <= Room(q)
    ensures Ok(m', q', bs', free') && Moves(m, bs, free, m', bs', free')
    ensures ok ==>
      Bytes(m', q', bs') == Bytes(m, q, bs) + bytes && Capacity(q', bs', free') == Capacity(q, bs, free) - |bytes|
    ensures !ok ==> (m', q', bs', free') == (m, q, bs, free) && Capacity(q, bs, free) == 0
  {
    hide Held, Free, Apart, Moves, Chain, Start, Bytes, Capacity, Block, Base, Round, Info;
    MovesNothing(m, bs, free);
    FreeHead(m, free);
    HeldBlocks(m, q, bs);
    Appended(m, q, bs, free, bytes);
    ok, m', q', bs', free' := false, m, q, bs, free;
    if q.cl == NULL {
      if m.freelist == NULL {
        return;
      }
      AppendNew(m, q, bs, free, bytes);
      InfoAddress(m, free[0]);
      var b := Block(m.freelist);
      m' := Write(Taken(m, b), Info(b), bytes);
      q' := Q(q.cc + |bytes|, Info(b), Info(b) + |bytes|);
      bs', free' := bs + [free[0]], free[1..];
    } else if Round(q.cl) == 0 {
      var last := Block(q.cl - CBLOCK);
      m' := m.(next := m.next[last := m.freelist]);
      if m.freelist == NULL {
        assert m' == m;
        return;
      }
      AppendNew(m, q, bs, free, bytes);
      InfoAddress(m, free[0]);
      var b := Block(m.freelist);
      var taken := Taken(m, b);
      m' := Write(taken.(next := taken.next[last := Base(b)]), Info(b), bytes);
      q' := Q(q.cc + |bytes|, q.cf, Info(b) + |bytes|);
      bs', free' := bs + [free[0]], free[1..];
    } else {
      AppendSame(m, q, bs, free, bytes);
      m' := Write(m, q.cl, bytes);
      q' := Q(q.cc + |bytes|, q.cf, q.cl + |bytes|);
    }
    ok := true;
  }

  /** putc: append one byte, or fail when a block is needed and none is free. */
  method Putc(c: int, m: Mem, p: Q, ghost bs: seq<nat>, ghost free: seq<nat>)
    returns (ok: bool, m': Mem, p': Q, ghost bs': seq<nat>, ghost free': seq<nat>)
    requires Ok(m, p, bs, free)
    ensures Ok(m', p', bs', free') && Moves(m, bs, free, m', bs', free')
    ensures ok <==> Capacity(p, bs, free) > 0
    ensures Bytes(m', p', bs') == if ok then Bytes(m, p, bs) + [(c % 256) as Byte] else Bytes(m, p, bs)
  {
    hide Held, Free, Apart, Moves, Start, Bytes, Capacity;
    RoomPositive(m, p, bs, free);
    ok, m', p', bs', free' := AppendChunk(m, p, [(c % 256) as Byte], bs, free);
    CapacityBound(m', p', bs', free');
  }

  lemma RoomPositive(m: Mem, q: Q, bs: seq<nat>, free: seq<nat>)
    requires Ok(m, q, bs, free)
    ensures 0 < Room(q) <= CBSIZE
  {
    if bs != [] { EndAddress(m, q, bs); }
  }

  lemma CapacityBound(m: Mem, q: Q, bs: seq<nat>, free: seq<nat>)
    requires Ok(m, q, bs, free)
    ensures Capacity(q, bs, free) >= 0
  {
  }

  /** b_to_q: append as many of the bytes as fit and return how many did not. */
  method BtoQ(bytes: seq<Byte>, m: Mem, q: Q, ghost bs: seq<nat>, ghost free: seq<nat>)
    returns (left: int, m': Mem, q': Q, ghost bs': seq<nat>, ghost free': seq<nat>)
    requires Ok(m, q, bs, free)
    ensures Ok(m', q', bs', free') && Moves(m, bs, free, m', bs', free')
    ensures var k := Min(|bytes|, Capacity(q, bs, free));
      0 <= k && left == |bytes| - k && Bytes(m', q', bs') == Bytes(m, q, bs) + bytes[..k]
  {
    hide Held, Free, Apart, Moves, Start, Bytes, Capacity, Room;
    MovesNothing(m, bs, free);
    CapacityBound(m, q, bs, free);
    m', q', bs', free' := m, q, bs, free;
    var done := 0;
    var ok := true;
    assert Bytes(m, q, bs) + bytes[..0] == Bytes(m, q, bs);
    while done < |bytes| && ok
      invariant 0 <= done <= |bytes|
      invariant Ok(m', q', bs', free') && Moves(m, bs, free, m', bs', free')
      invariant Bytes(m', q', bs') == Bytes(m, q, bs) + bytes[..done]
      invariant Capacity(q', bs', free') == Capacity(q, bs, free) - done
      invariant !ok ==> Capacity(q', bs', free') == 0
      decreases |bytes| - done, ok
    {
      ghost var m1, bs1, free1 := m', bs', free';
      RoomPositive(m', q', bs', free');
      var nc := Min(|bytes| - done, Room(q'));
      ok, m', q', bs', free' := AppendChunk(m', q', bytes[done..done + nc], bs', free');
      MovesTrans(m, bs, free, m1, bs1, free1, m', bs', free');
      if ok {
        assert bytes[..done] + bytes[done..done + nc] == bytes[..done + nc];
        done := done + nc;
      }
    }
    CapacityBound(m', q', bs', free');
    left := |bytes| - done;
  }

  // ----- taking the last byte back -----

  /** The value of a byte loaded through a (signed) char pointer. */
  function Signed(b: Byte): int {
    if b < 128 then b as int else b as int - 256
  }

  lemma WindowShrinks(info: seq<seq<Byte>>, bs: seq<nat>, bs': seq<nat>, s: int, cc: int)
    requires Blocks(info, bs) && Blocks(info, bs') && bs' <= bs && 0 <= s && 0 < cc && s + cc <= |bs| * CBSIZE
    requires s + cc - 1 <= |bs'| * CBSIZE
    ensures Window(info, bs', s, cc - 1) == Window(info, bs, s, cc)[..cc - 1]
    ensures Window(info, bs, s, cc)[cc - 1] == ByteAt(info, bs, s + cc - 1)
  {
    var a, b := Window(info, bs', s, cc - 1), Window(info, bs, s, cc);
    forall k | 0 <= k < cc - 1 ensures a[k] == b[k] {
      assert a[k] == ByteAt(info, bs', s + k) && b[k] == ByteAt(info, bs, s + k);
      assert (s + k) / CBSIZE < |bs'|;
    }
  }

  /** The last block returns to the free list and the one before it becomes the last. */
  function ReleaseTail(m: Mem, prev: nat, last: nat): Mem
    requires prev < |m.next| && last < |m.next|
  {
    var m1 := Release(m, last);
    m1.(next := m1.next[prev := NULL])
  }

  lemma ReleaseLast(m: Mem, bs: seq<nat>, free: seq<nat>)
    requires Chain(m.next, bs) && Free(m, free) && Apart(bs, free) && |bs| > 1
    ensures var n := |bs| - 1; var m' := ReleaseTail(m, bs[n - 1], bs[n]);
      && Chain(m'.next, bs[..n]) && Free(m', [bs[n]] + free) && Apart(bs[..n], [bs[n]] + free)
      && multiset(bs[..n]) + multiset([bs[n]] + free) == multiset(bs) + multiset(free)
  {
    var n := |bs| - 1;
    var b, f := bs[n], [bs[n]] + free;
    var m' := ReleaseTail(m, bs[n - 1], b);
    TailApart(bs, free);
    forall i | 0 <= i < n ensures m'.next[bs[..n][i]] == Link(bs[..n], i + 1) {
      assert bs[i] != b;
    }
    forall i | 0 <= i < |f| ensures f[i] < |m'.next| && m'.next[f[i]] == Link(f, i + 1) {
      if i > 0 { assert f[i] == free[i - 1] && bs[n - 1] != free[i - 1]; }
    }
  }

  lemma TailApart(bs: seq<nat>, free: seq<nat>)
    requires Distinct(bs) && Distinct(free) && Apart(bs, free) && bs != []
    ensures var n := |bs| - 1;
      && Distinct(bs[..n]) && Distinct([bs[n]] + free) && Apart(bs[..n], [bs[n]] + free)
      && multiset(bs[..n]) + multiset([bs[n]] + free) == multiset(bs) + multiset(free)
  {
    assert bs == bs[..|bs| - 1] + [bs[|bs| - 1]];
  }

  /** The address arithmetic of unputc. */
  lemma LastByte(m: Mem, q: Q, bs: seq<nat>)
    requires Held(m, q, bs) && bs != []
    ensures var n, s := |bs| - 1, Start(q, bs); var a := q.cl - 1;
      && Block(a) == bs[n] < |m.next| && LINK <= Round(a) < CBLOCK && 0 <= s
      && |m.info[Block(a)]| == CBSIZE && m.info[Block(a)][Round(a) - LINK] == ByteAt(m.info, bs, s + q.cc - 1)
      && (q.cc == 1 ==> n == 0)
      && (q.cc > 1 && Round(a) == LINK ==>
           n > 0 && a - LINK == Base(bs[n]) && Geometry(Q(q.cc - 1, q.cf, Base(bs[n - 1]) + CBLOCK), bs[..n]))
      && (q.cc > 1 && Round(a) != LINK ==> Geometry(Q(q.cc - 1, q.cf, a), bs))
  {
    hide Chain;
    EndAddress(m, q, bs);
    HeldBlocks(m, q, bs);
    InLast(|bs|, Start(q, bs) + q.cc - 1 - (|bs| - 1) * CBSIZE);
  }

  /** It is the last byte of the queue. */
  lemma FinalByte(m: Mem, q: Q, bs: seq<nat>)
    requires Held(m, q, bs) && bs != [] && q.cc > 0
    ensures var a := q.cl - 1;
      && 0 <= Block(a) < |m.info| && LINK <= Round(a) && Round(a) - LINK < |m.info[Block(a)]|
      && |Bytes(m, q, bs)| == q.cc && Bytes(m, q, bs)[q.cc - 1] == m.info[Block(a)][Round(a) - LINK]
  {
    hide Geometry, Link, Round, Block;
    HeldBlocks(m, q, bs);
    LastByte(m, q, bs);
    assert Bytes(m, q, bs)[q.cc - 1] == ByteAt(m.info, bs, Start(q, bs) + q.cc - 1);
  }

  /** The walk of unputc from the first block to the one whose link is `last`. */
  method FindPrev(next: seq<int>, first: nat, last: int, ghost bs: seq<nat>) returns (b: nat)
    requires Chain(next, bs) && |bs| > 1 && first == bs[0] && last == Base(bs[|bs| - 1])
    ensures b == bs[|bs| - 2]
  {
    b := first;
    ghost var i := 0;
    while next[b] != last
      invariant 0 <= i < |bs| - 1 && b == bs[i]
      decreases |bs| - i
    {
      assert next[bs[i]] == Base(bs[i + 1]);
      assert i + 1 < |bs| - 1;
      b := Block(next[b]);
      i := i + 1;
    }
    assert next[bs[i]] == Base(bs[i + 1]);
  }

  /** unputc: take the last byte; it comes back as a signed char. */
  method Unputc(m: Mem, p: Q, ghost bs: seq<nat>, ghost free: seq<nat>)
    returns (c: int, m': Mem, p': Q, ghost bs': seq<nat>, ghost free': seq<nat>)
    requires Ok(m, p, bs, free)
    ensures Ok(m', p', bs', free') && Moves(m, bs, free, m', bs', free')
    ensures var s := Bytes(m, p, bs);
      if s == [] then c == -1 && Bytes(m', p', bs') == []
      else c == Signed(s[|s| - 1]) && Bytes(m', p', bs') == s[..|s| - 1]
  {
    hide Chain, Geometry, Moves, Sized, Free, Apart, Blocks, Window, Block, Round, Base, Info, ReleaseTail,
         Release, ByteAt;
    HeldBlocks(m, p, bs);
    m', p', bs', free' := m, p, bs, free;
    if p.cc <= 0 {
      c := -1;
      MovesNothing(m, bs, free);
      return;
    }
    LastByte(m, p, bs);
    var a := p.cl - 1;
    c := Signed(m.info[Block(a)][Round(a) - LINK]);
    if p.cc - 1 <= 0 {
      DropOnly(m, p, bs, free);
      m', p' := Release(m, Block(a)), EMPTY;
      bs', free' := [], bs + free;
    } else if Round(a) == LINK {
      DropTail(m, p, bs, free);
      FinalByte(m, p, bs);
      FrontBytes(m, p, bs, 0);
      var prev := FindPrev(m.next, Block(p.cf), a - LINK, bs);
      m' := ReleaseTail(m, prev, Block(a));
      p' := Q(p.cc - 1, p.cf, Base(prev) + CBLOCK);
      bs', free' := bs[..|bs| - 1], [bs[|bs| - 1]] + free;
    } else {
      DropSame(m, p, bs, free);
      p' := Q(p.cc - 1, p.cf, a);
    }
  }

  lemma DropOnly(m: Mem, q: Q, bs: seq<nat>, free: seq<nat>)
    requires Ok(m, q, bs, free) && q.cc == 1
    ensures |bs| == 1 && bs[0] < |m.next|
    ensures Ok(Release(m, bs[0]), EMPTY, [], bs + free) && Moves(m, bs, free, Release(m, bs[0]), [], bs + free)
    ensures Bytes(m, q, bs) == [ByteAt(m.info, bs, Start(q, bs))]
  {
    HeldBlocks(m, q, bs);
    ReleaseFirst(m, bs, free);
    assert bs == [bs[0]];
  }

  /** The queue loses exactly its last byte, and only its own blocks and the free ones are touched. */
  ghost predicate LosesLast(m: Mem, q: Q, bs: seq<nat>, free: seq<nat>, m': Mem, q': Q, bs': seq<nat>, free': seq<nat>)
    requires Held(m, q, bs) && q.cc > 0
  {
    && Ok(m', q', bs', free') && Moves(m, bs, free, m', bs', free')
    && Bytes(m', q', bs') == Bytes(m, q, bs)[..q.cc - 1]
  }

  lemma DropTail(m: Mem, q: Q, bs: seq<nat>, free: seq<nat>)
    requires Ok(m, q, bs, free) && q.cc > 1 && Round(q.cl - 1) == LINK
    ensures |bs| > 1 && InRange(bs, |m.next|)
    ensures var n := |bs| - 1;
      var m', q' := ReleaseTail(m, bs[n - 1], bs[n]), Q(q.cc - 1, q.cf, Base(bs[n - 1]) + CBLOCK);
      LosesLast(m, q, bs, free, m', q', bs[..n], [bs[n]] + free)
  {
    hide Geometry, Link, Window, Round, Block;
    HeldBlocks(m, q, bs);
    LastByte(m, q, bs);
    ReleaseLast(m, bs, free);
    var n := |bs| - 1;
    var m', q' := ReleaseTail(m, bs[n - 1], bs[n]), Q(q.cc - 1, q.cf, Base(bs[n - 1]) + CBLOCK);
    assert Held(m', q', bs[..n]);
    HeldBlocks(m', q', bs[..n]);
    WindowShrinks(m.info, bs, bs[..n], Start(q, bs), q.cc);
  }

  lemma DropSame(m: Mem, q: Q, bs: seq<nat>, free: seq<nat>)
    requires Ok(m, q, bs, free) && q.cc > 1 && Round(q.cl - 1) != LINK
    ensures var q' := Q(q.cc - 1, q.cf, q.cl - 1);
      && Ok(m, q', bs, free) && Moves(m, bs, free, m, bs, free) && bs != []
      && Bytes(m, q', bs) == Bytes(m, q, bs)[..q.cc - 1]
      && Bytes(m, q, bs)[q.cc - 1] == ByteAt(m.info, bs, Start(q, bs) + q.cc - 1)
  {
    hide Geometry, Link, Window, Round, Block, Moves;
    HeldBlocks(m, q, bs);
    LastByte(m, q, bs);
    MovesNothing(m, bs, free);
    WindowShrinks(m.info, bs, bs, Start(q, bs), q.cc);
  }

  // ----- walking a queue -----

  /** The address of the k-th byte of a queue. */
  function AddressOf(q: Q, bs: seq<nat>, k: int): int
    requires bs != [] && 0 <= Start(q, bs) && 0 <= k && Start(q, bs) + k < |bs| * CBSIZE
  {
    var p := Start(q, bs) + k;
    Info(bs[p / CBSIZE]) + p % CBSIZE
  }

  /** nextc: the address after cp in the queue, or NULL. */
  function Nextc(m: Mem, q: Q, cp: int): int
    requires Round(cp + 1) == 0 && cp + 1 != q.cl ==> 0 <= Block(cp + 1 - CBLOCK) < |m.next|
  {
    if q.cc != 0 && cp + 1 != q.cl then
      if Round(cp + 1) == 0 then m.next[Block(cp + 1 - CBLOCK)] + LINK else cp + 1
    else NULL
  }

  /** An address within the data of block b, and the one after it. */
  lemma AddressParts(b: nat, o: int)
    requires 0 <= o < CBSIZE
    ensures Block(Info(b) + o) == b && Round(Info(b) + o) == LINK + o && Info(b) + o > 0
    ensures Round(Info(b) + o + 1) == 0 <==> o + 1 == CBSIZE
    ensures o + 1 == CBSIZE ==> Block(Info(b) + o + 1 - CBLOCK) == b
  {
  }

  /** Where byte k of a queue lies: its block, its offset, its address and its value. */
  lemma ByteAtAddress(m: Mem, q: Q, bs: seq<nat>, k: int)
    requires Held(m, q, bs) && 0 <= k < q.cc
    ensures bs != [] && 0 <= Start(q, bs) && Start(q, bs) + k < |bs| * CBSIZE && Blocks(m.info, bs)
    ensures var p := Start(q, bs) + k; var i, o := p / CBSIZE, p % CBSIZE;
      && 0 <= i < |bs| && 0 <= o < CBSIZE && bs[i] < |m.next| == |m.info| && |m.info[bs[i]]| == CBSIZE
      && AddressOf(q, bs, k) == Info(bs[i]) + o && m.info[bs[i]][o] == Bytes(m, q, bs)[k]
  {
    hide Chain;
    HeldBlocks(m, q, bs);
    assert Bytes(m, q, bs)[k] == ByteAt(m.info, bs, Start(q, bs) + k);
  }

  /** The address after the last byte is c_cl. */
  lemma LastAddress(m: Mem, q: Q, bs: seq<nat>)
    requires Held(m, q, bs) && bs != [] && q.cc > 0
    ensures var p := Start(q, bs) + q.cc - 1; var i, o := p / CBSIZE, p % CBSIZE;
      i == |bs| - 1 && Info(bs[i]) + o + 1 == q.cl
  {
    hide Chain;
    InLast(|bs|, Start(q, bs) + q.cc - 1 - (|bs| - 1) * CBSIZE);
  }

  lemma FirstAddress(m: Mem, q: Q, bs: seq<nat>)
    requires Held(m, q, bs) && bs != []
    ensures 0 <= Start(q, bs) < |bs| * CBSIZE && AddressOf(q, bs, 0) == q.cf
  {
    hide Chain;
  }

  /** nextc enumerates the bytes in order, starting from c_cf, and stops after the last. */
  lemma NextcIsNext(m: Mem, q: Q, bs: seq<nat>, k: int)
    requires Held(m, q, bs) && 0 <= k < q.cc
    ensures bs != [] && 0 <= Start(q, bs) && AddressOf(q, bs, 0) == q.cf
    ensures var cp := AddressOf(q, bs, k);
      && 0 <= Block(cp) < |m.next| && |m.info[Block(cp)]| == CBSIZE && LINK <= Round(cp)
      && m.info[Block(cp)][Round(cp) - LINK] == Bytes(m, q, bs)[k]
      && (Round(cp + 1) == 0 && cp + 1 != q.cl ==> 0 <= Block(cp + 1 - CBLOCK) < |m.next|)
      && (k + 1 < q.cc ==> Nextc(m, q, cp) == AddressOf(q, bs, k + 1))
      && (k + 1 == q.cc ==> Nextc(m, q, cp) == NULL)
  {
    hide Held, Bytes, Block, Round, Info, Base, Blocks, AddressOf, Start;
    ByteAtAddress(m, q, bs, k);
    FirstAddress(m, q, bs);
    var p := Start(q, bs) + k;
    AddressParts(bs[p / CBSIZE], p % CBSIZE);
    if k + 1 < q.cc {
      NotYetEnd(m, q, bs, k);
      ByteAtAddress(m, q, bs, k + 1);
      InfoAfterBase(bs[(p + 1) / CBSIZE]);
    } else {
      LastAddress(m, q, bs);
    }
  }

  lemma InfoAfterBase(b: nat)
    ensures Info(b) == Base(b) + LINK
  {
  }

  lemma NotYetEnd(m: Mem, q: Q, bs: seq<nat>, k: int)
    requires Held(m, q, bs) && bs != [] && 0 <= k && k + 1 < q.cc
    ensures var p := Start(q, bs) + k; var i, o := p / CBSIZE, p % CBSIZE;
      && 0 <= i < |bs| && Info(bs[i]) + o + 1 != q.cl
      && (o + 1 < CBSIZE ==> (p + 1) / CBSIZE == i && (p + 1) % CBSIZE == o + 1)
      && (o + 1 == CBSIZE ==>
           (p + 1) / CBSIZE == i + 1 && (p + 1) % CBSIZE == 0 && i + 1 < |bs| && m.next[bs[i]] == Base(bs[i + 1]))
  {
    var p := Start(q, bs) + k;
    var i, o := p / CBSIZE, p % CBSIZE;
    assert p == i * CBSIZE + o;
    if i < |bs| - 1 {
      assert bs[i] != bs[|bs| - 1];
      assert m.next[bs[i]] == Link(bs, i + 1);
    }
  }

  // ----- moving a whole queue -----

  /** The blocks that taking c bytes from a queue sets free suffice for appending them to another. */
  lemma FreedSuffices(q: Q, bs: seq<nat>, q': Q, bs': seq<nat>, c: int, free: nat, free': nat)
    requires Geometry(q, bs) && Geometry(q', bs') && bs != [] && c == Min(4 * CBSIZE, q.cc) && q'.cc == q.cc - c
    requires bs' != [] ==> Start(q, bs) + c == CBSIZE * (|bs| - |bs'|) + Start(q', bs')
    requires free' + |bs'| == free + |bs|
    ensures CBSIZE * free' >= c
  {
  }

  // ----- all queues of the system -----

  /** Every queue is in order, and every block is in exactly one queue or on the free list. */
  ghost predicate System(m: Mem, qs: seq<Q>, cs: seq<seq<nat>>, free: seq<nat>) {
    && |cs| == |qs| && Free(m, free)
    && (forall k :: 0 <= k < |qs| ==> Held(m, qs[k], cs[k]) && Apart(cs[k], free))
    && (forall j, k :: 0 <= j < k < |qs| ==> Apart(cs[j], cs[k]))
    && Covers(cs, free, |m.next|)
  }

  ghost predicate Covers(cs: seq<seq<nat>>, free: seq<nat>, n: nat) {
    forall b :: 0 <= b < n ==> b in free || exists k :: 0 <= k < |cs| && b in cs[k]
  }

  lemma SystemOk(m: Mem, qs: seq<Q>, cs: seq<seq<nat>>, free: seq<nat>, k: nat)
    requires System(m, qs, cs, free) && k < |qs|
    ensures Ok(m, qs[k], cs[k], free)
  {
  }

  /** A block outside a queue and the free list stays outside. */
  lemma StaysApart(m: Mem, bs: seq<nat>, free: seq<nat>, m': Mem, bs': seq<nat>, free': seq<nat>, other: seq<nat>)
    requires Moves(m, bs, free, m', bs', free') && Apart(other, bs) && Apart(other, free)
    ensures Apart(other, bs') && Apart(other, free')
  {
    forall i | 0 <= i < |other| ensures other[i] !in bs' && other[i] !in free' {
      assert other[i] !in bs && other[i] !in free;
      assert other[i] !in multiset(bs) + multiset(free);
      assert other[i] !in multiset(bs') + multiset(free');
    }
  }

  /** An operation on one queue leaves the bytes of every other queue alone. */
  lemma OthersKept(m: Mem, bs: seq<nat>, free: seq<nat>, m': Mem, bs': seq<nat>, free': seq<nat>, q: Q, other: seq<nat>)
    requires Moves(m, bs, free, m', bs', free') && Apart(other, bs) && Apart(other, free)
    requires Held(m, q, other) && Sized(m')
    ensures Held(m', q, other) && Bytes(m', q, other) == Bytes(m, q, other)
  {
    forall i | 0 <= i < |other| ensures m'.next[other[i]] == m.next[other[i]] && m'.info[other[i]] == m.info[other[i]] {
      assert other[i] !in bs && other[i] !in free;
    }
    assert Held(m', q, other);
    SameWindow(m.info, m'.info, other, if other == [] then 0 else Start(q, other), q.cc);
  }

  lemma SameWindow(info: seq<seq<Byte>>, info': seq<seq<Byte>>, bs: seq<nat>, s: int, n: int)
    requires Blocks(info, bs) && Blocks(info', bs) && 0 <= s && 0 <= n && s + n <= |bs| * CBSIZE
    requires forall i :: 0 <= i < |bs| ==> info'[bs[i]] == info[bs[i]]
    ensures Window(info', bs, s, n) == Window(info, bs, s, n)
  {
    var a, b := Window(info, bs, s, n), Window(info', bs, s, n);
    forall k | 0 <= k < n ensures a[k] == b[k] {
      assert a[k] == ByteAt(info, bs, s + k) && b[k] == ByteAt(info', bs, s + k);
    }
  }

  lemma ApartSym(a: seq<nat>, b: seq<nat>)
    requires Apart(a, b)
    ensures Apart(b, a)
  {
  }

  lemma SystemApart(m: Mem, qs: seq<Q>, cs: seq<seq<nat>>, free: seq<nat>, j: nat, k: nat)
    requires System(m, qs, cs, free) && j < |qs| && k < |qs| && j != k
    ensures Apart(cs[j], cs[k]) && Apart(cs[j], free) && Held(m, qs[j], cs[j])
  {
    if k < j { ApartSym(cs[k], cs[j]); }
  }

  /** An operation on queue k keeps the whole system in order and touches no other queue. */
  lemma SystemStep(m: Mem, qs: seq<Q>, cs: seq<seq<nat>>, free: seq<nat>, k: nat, m': Mem, q': Q,
                   bs': seq<nat>, free': seq<nat>)
    requires System(m, qs, cs, free) && k < |qs|
    requires Ok(m', q', bs', free') && Moves(m, cs[k], free, m', bs', free')
    ensures System(m', qs[k := q'], cs[k := bs'], free')
    ensures forall j :: 0 <= j < |qs| && j != k ==>
      Held(m, qs[j], cs[j]) && Held(m', qs[j], cs[j]) && Bytes(m', qs[j], cs[j]) == Bytes(m, qs[j], cs[j])
  {
    hide Held, Free, Apart, Moves, Bytes;
    OkSized(m', q', bs', free');
    var qs', cs' := qs[k := q'], cs[k := bs'];
    forall j | 0 <= j < |qs| && j != k
      ensures Apart(cs[j], bs') && Apart(cs[j], free')
      ensures Held(m, qs[j], cs[j]) && Held(m', qs[j], cs[j]) && Bytes(m', qs[j], cs[j]) == Bytes(m, qs[j], cs[j])
    {
      SystemApart(m, qs, cs, free, j, k);
      StaysApart(m, cs[k], free, m', bs', free', cs[j]);
      OthersKept(m, cs[k], free, m', bs', free', qs[j], cs[j]);
    }
    forall i, j | 0 <= i < j < |qs'| ensures Apart(cs'[i], cs'[j]) {
      if i == k { ApartSym(cs[j], bs'); }
    }
    SystemCovers(m, cs, free, k, m', bs', free');
  }

  lemma OkSized(m: Mem, q: Q, bs: seq<nat>, free: seq<nat>)
    requires Ok(m, q, bs, free)
    ensures Sized(m)
  {
  }

  lemma SystemCovers(m: Mem, cs: seq<seq<nat>>, free: seq<nat>, k: nat, m': Mem, bs': seq<nat>, free': seq<nat>)
    requires k < |cs| && Moves(m, cs[k], free, m', bs', free')
    requires Covers(cs, free, |m.next|)
    ensures Covers(cs[k := bs'], free', |m'.next|)
  {
    var cs' := cs[k := bs'];
    forall b | 0 <= b < |m'.next| ensures b in free' || exists j :: 0 <= j < |cs'| && b in cs'[j] {
      if b in free || b in cs[k] {
        assert b in multiset(cs[k]) + multiset(free);
        assert b in multiset(bs') + multiset(free');
        if b in bs' { assert b in cs'[k]; }
      } else {
        var j :| 0 <= j < |cs| && b in cs[j];
        assert b in cs'[j];
      }
    }
  }

  lemma SystemSize(m: Mem, qs: seq<Q>, cs: seq<seq<nat>>, free: seq<nat>)
    requires System(m, qs, cs, free)
    ensures |cs| == |qs|
  {
  }

  /** Handing all the blocks of one queue to an empty one. */
  /** The blocks of different queues stay apart when one queue takes over those of another. */
  lemma MoveApart(m: Mem, qs: seq<Q>, cs: seq<seq<nat>>, free: seq<nat>, f: nat, t: nat, i: nat, j: nat)
    requires System(m, qs, cs, free) && f < |qs| && t < |qs| && f != t && i < j < |qs|
    ensures var cs' := cs[t := cs[f]][f := []]; Apart(cs'[i], cs'[j])
  {
    hide System, Apart;
    SystemSize(m, qs, cs, free);
    if i == f || j == f {
      NoneApart(cs[t := cs[f]][f := []][if i == f then j else i]);
    } else {
      SystemApart(m, qs, cs, free, if i == t then f else i, if j == t then f else j);
    }
  }

  lemma NoneApart(a: seq<nat>)
    ensures Apart([], a) && Apart(a, [])
  {
  }

  lemma MoveCovers(cs: seq<seq<nat>>, free: seq<nat>, n: nat, f: nat, t: nat)
    requires Covers(cs, free, n) && f < |cs| && t < |cs| && f != t && cs[t] == []
    ensures Covers(cs[t := cs[f]][f := []], free, n)
  {
    var cs' := cs[t := cs[f]][f := []];
    forall b | 0 <= b < n && b !in free ensures exists k :: 0 <= k < |cs'| && b in cs'[k] {
      var k :| 0 <= k < |cs| && b in cs[k];
      assert b in cs'[if k == f then t else k];
    }
  }

  lemma EmptyHeld(m: Mem)
    requires Sized(m)
    ensures Held(m, EMPTY, [])
  {
  }

  lemma SystemMove(m: Mem, qs: seq<Q>, cs: seq<seq<nat>>, free: seq<nat>, f: nat, t: nat)
    requires System(m, qs, cs, free) && f < |qs| && t < |qs| && f != t && qs[t].cc == 0
    ensures |cs| == |qs| && cs[t] == []
    ensures System(m, qs[t := qs[f]][f := EMPTY], cs[t := cs[f]][f := []], free)
  {
    hide Held, Free, Apart, Covers, Sized;
    HeldBlocks(m, qs[t], cs[t]);
    var qs', cs' := qs[t := qs[f]][f := EMPTY], cs[t := cs[f]][f := []];
    EmptyHeld(m);
    NoneApart(free);
    forall i: nat, j: nat | i < j < |qs| ensures Apart(cs'[i], cs'[j]) {
      MoveApart(m, qs, cs, free, f, t, i, j);
    }
    MoveCovers(cs, free, |m.next|, f, t);
  }

  /** After a take of a full transfer buffer, the free blocks can hold what was taken. */
  lemma TakenFits(m: Mem, q: Q, bs: seq<nat>, free: seq<nat>, m': Mem, q': Q, bs': seq<nat>, free': seq<nat>, c: int)
    requires Ok(m, q, bs, free) && Ok(m', q', bs', free') && Moves(m, bs, free, m', bs', free')
    requires c == Min(4 * CBSIZE, q.cc) && q'.cc == q.cc - c
    requires bs' != [] ==> bs != [] && Start(q, bs) + c == CBSIZE * (|bs| - |bs'|) + Start(q', bs')
    ensures CBSIZE * |free'| >= c
  {
    assert |multiset(bs) + multiset(free)| == |multiset(bs') + multiset(free')|;
    if bs != [] {
      FreedSuffices(q, bs, q', bs', c, |free|, |free'|);
    }
  }

  /** The queues of the terminal driver and the blocks they share. */
  class Clists {
    var mem: Mem
    var queues: seq<Q>
    ghost var chains: seq<seq<nat>>
    ghost var free: seq<nat>

    ghost predicate Valid()
      reads this
    {
      System(mem, queues, chains, free)
    }

    ghost predicate Usable(k: nat)
      reads this
    {
      Valid() && k < |queues|
    }

    /** The bytes of queue k. */
    ghost function Contents(k: nat): (s: seq<Byte>)
      requires Usable(k)
      reads this
    {
      SystemOk(mem, queues, chains, free, k);
      Bytes(mem, queues[k], chains[k])
    }

    /** Bytes that queue k can still take. */
    ghost function Spare(k: nat): int
      requires Usable(k)
      reads this
    {
      SystemSize(mem, queues, chains, free);
      Capacity(queues[k], chains[k], free)
    }

    /** Makes the outcome of an operation on queue k the new state. */
    method Commit(k: nat, m: Mem, q: Q, ghost bs: seq<nat>, ghost fr: seq<nat>)
      requires Usable(k) && |chains| == |queues|
      requires Ok(m, q, bs, fr) && Moves(mem, chains[k], free, m, bs, fr)
      modifies this
      ensures Valid() && |queues| == |old(queues)|
      ensures Contents(k) == Bytes(m, q, bs)
      ensures free == fr && queues == old(queues)[k := q]
      ensures forall j :: 0 <= j < |queues| && j != k ==> Contents(j) == old(Contents(j))
    {
      hide System, Held, Free, Apart, Moves, Bytes;
      SystemStep(mem, queues, chains, free, k, m, q, bs, fr);
      mem, queues, chains, free := m, queues[k := q], chains[k := bs], fr;
    }

    method Get(k: nat) returns (c: int)
      requires Usable(k)
      modifies this
      ensures Valid() && |queues| == |old(queues)|
      ensures var s := old(Contents(k));
        if s == [] then c == -1 && Contents(k) == [] else c == s[0] as int && Contents(k) == s[1..]
      ensures forall j :: 0 <= j < |queues| && j != k ==> Contents(j) == old(Contents(j))
    {
      hide System, Ok, Held, Free, Apart, Moves, Bytes;
      SystemOk(mem, queues, chains, free, k);
      SystemSize(mem, queues, chains, free);
      var m, q;
      ghost var bs, fr;
      c, m, q, bs, fr := Getc(mem, queues[k], chains[k], free);
      Commit(k, m, q, bs, fr);
    }

    method Take(k: nat, n: int) returns (out: seq<Byte>)
      requires Usable(k)
      modifies this
      ensures Valid() && |queues| == |old(queues)|
      ensures out + Contents(k) == old(Contents(k)) && |out| == if n <= 0 then 0 else Min(n, |old(Contents(k))|)
      ensures n == 4 * CBSIZE ==> CBSIZE * |free| >= |out|
      ensures queues[k].cc == |Contents(k)|
      ensures forall j :: 0 <= j < |queues| && j != k ==> Contents(j) == old(Contents(j)) && queues[j] == old(queues)[j]
    {
      hide System, Held, Free, Apart, Moves, Bytes, Start;
      SystemOk(mem, queues, chains, free, k);
      SystemSize(mem, queues, chains, free);
      var m, q;
      ghost var bs, fr;
      HeldBlocks(mem, queues[k], chains[k]);
      out, m, q, bs, fr := QtoB(mem, queues[k], n, chains[k], free);
      HeldBlocks(m, q, bs);
      if n == 4 * CBSIZE {
        TakenFits(mem, queues[k], chains[k], free, m, q, bs, fr, |out|);
      }
      Commit(k, m, q, bs, fr);
    }

    method Flush(k: nat, n: int)
      requires Usable(k)
      modifies this
      ensures Valid() && |queues| == |old(queues)|
      ensures Contents(k) == old(Contents(k))[if n <= 0 then 0 else Min(n, |old(Contents(k))|)..]
      ensures forall j :: 0 <= j < |queues| && j != k ==> Contents(j) == old(Contents(j))
    {
      hide System, Ok, Held, Free, Apart, Moves, Bytes;
      SystemOk(mem, queues, chains, free, k);
      SystemSize(mem, queues, chains, free);
      var m, q;
      ghost var bs, fr;
      m, q, bs, fr := Ndflush(mem, queues[k], n, chains[k], free);
      Commit(k, m, q, bs, fr);
    }

    method Put(c: int, k: nat) returns (ok: bool)
      requires Usable(k)
      modifies this
      ensures Valid() && |queues| == |old(queues)|
      ensures ok <==> old(Spare(k)) > 0
      ensures Contents(k) == if ok then old(Contents(k)) + [(c % 256) as Byte] else old(Contents(k))
      ensures forall j :: 0 <= j < |queues| && j != k ==> Contents(j) == old(Contents(j))
    {
      hide System, Ok, Held, Free, Apart, Moves, Bytes, Capacity;
      SystemOk(mem, queues, chains, free, k);
      SystemSize(mem, queues, chains, free);
      var m, q;
      ghost var bs, fr;
      ok, m, q, bs, fr := Putc(c, mem, queues[k], chains[k], free);
      Commit(k, m, q, bs, fr);
    }

    method PutAll(bytes: seq<Byte>, k: nat) returns (left: int)
      requires Usable(k)
      modifies this
      ensures Valid() && |queues| == |old(queues)|
      ensures var n := Min(|bytes|, old(Spare(k)));
        0 <= n && left == |bytes| - n && Contents(k) == old(Contents(k)) + bytes[..n]
      ensures forall j :: 0 <= j < |queues| && j != k ==> Contents(j) == old(Contents(j)) && queues[j] == old(queues)[j]
    {
      hide System, Ok, Held, Free, Apart, Moves, Bytes, Capacity;
      SystemOk(mem, queues, chains, free, k);
      SystemSize(mem, queues, chains, free);
      var m, q;
      ghost var bs, fr;
      left, m, q, bs, fr := BtoQ(bytes, mem, queues[k], chains[k], free);
      Commit(k, m, q, bs, fr);
    }

    method Unput(k: nat) returns (c: int)
      requires Usable(k)
      modifies this
      ensures Valid() && |queues| == |old(queues)|
      ensures var s := old(Contents(k));
        if s == [] then c == -1 && Contents(k) == [] else c == Signed(s[|s| - 1]) && Contents(k) == s[..|s| - 1]
      ensures forall j :: 0 <= j < |queues| && j != k ==> Contents(j) == old(Contents(j))
    {
      hide System, Ok, Held, Free, Apart, Moves, Bytes;
      SystemOk(mem, queues, chains, free, k);
      SystemSize(mem, queues, chains, free);
      var m, q;
      ghost var bs, fr;
      c, m, q, bs, fr := Unputc(mem, queues[k], chains[k], free);
      Commit(k, m, q, bs, fr);
    }

    lemma SpareBound(k: nat)
      requires Usable(k)
      ensures Spare(k) >= CBSIZE * |free| && queues[k].cc == |Contents(k)|
    {
      SystemOk(mem, queues, chains, free, k);
    }

    /**
     * catq: append all of one queue to another through a small buffer. No byte
     * is lost, although nothing checks that the buffer went in and the free
     * list may be empty.
     */
    method Cat(from: nat, to: nat)
      requires Usable(from) && to < |queues| && from != to
      modifies this
      ensures Valid() && |queues| == |old(queues)|
      ensures Contents(from) == [] && Contents(to) == old(Contents(to)) + old(Contents(from))
      ensures forall j :: 0 <= j < |queues| && j != from && j != to ==> Contents(j) == old(Contents(j))
    {
      hide System, Ok, Held, Free, Apart, Moves, Bytes, Capacity;
      SpareBound(to);
      if queues[to].cc == 0 {
        MoveAll(from, to);
        return;
      }
      SpareBound(from);
      while queues[from].cc > 0
        invariant Valid() && |queues| == |old(queues)|
        invariant queues[from].cc == |Contents(from)|
        invariant Contents(to) + Contents(from) == old(Contents(to)) + old(Contents(from))
        invariant forall j :: 0 <= j < |queues| && j != from && j != to ==> Contents(j) == old(Contents(j))
        decreases queues[from].cc
      {
        ghost var t, f := Contents(to), Contents(from);
        var buf := Take(from, 4 * CBSIZE);
        SpareBound(to);
        ghost var rest := Contents(from);
        var left := PutAll(buf, to);
        assert buf[..|buf|] == buf;
        assert t + (buf + rest) == (t + buf) + rest;
        SpareBound(from);
      }
    }

    /** The structure copy of catq for an empty destination. */
    method MoveAll(from: nat, to: nat)
      requires Usable(from) && to < |queues| && from != to && queues[to].cc == 0
      modifies this
      ensures Valid() && |queues| == |old(queues)|
      ensures Contents(from) == [] && Contents(to) == old(Contents(to)) + old(Contents(from))
      ensures forall j :: 0 <= j < |queues| && j != from && j != to ==> Contents(j) == old(Contents(j))
    {
      hide System, Ok, Held, Free, Apart, Moves, Bytes;
      SystemMove(mem, queues, chains, free, from, to);
      SpareBound(to);
      assert old(Contents(to)) == [];
      queues := queues[to := queues[from]][from := EMPTY];
      chains := chains[to := chains[from]][from := []];
      SpareBound(from);
    }
  }
}
