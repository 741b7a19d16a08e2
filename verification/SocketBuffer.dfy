/**
 * Socket buffers: chains of chains of mbufs, with byte and memory counts.
 *
 * Appending compresses mbufs together and throws empty ones away; dropping
 * works across record boundaries and trims in place. The buffer is proved to
 * be a plain list of byte records under every sequence of operations, with
 * exact counters, and flushing it always ends empty.
 */
module SocketBuffer {

  /** Offset where the data of an ordinary mbuf ends; larger offsets are clusters. */
  const MMAXOFF := 124
  const MSIZE := 128
  const MCLBYTES := 1024

  /** A byte with the type (data, rights, name, ...) of the mbuf that holds it. */
  datatype Typed = Typed(kind: int, byte: int)

  /** An mbuf: its data offset, its type, and its data (m_len is the length). */
  datatype Mbuf = Mbuf(off: int, kind: int, data: seq<int>)

  type Chain = seq<Mbuf>

  /** sb_mb as a list of records, sb_cc and sb_mbcnt. */
  datatype Sockbuf = Sockbuf(records: seq<Chain>, cc: int, mbcnt: int)

  const EMPTY := Sockbuf([], 0, 0)

  // ----- measures -----

  function Tag(kind: int, data: seq<int>): seq<Typed> {
    seq(|data|, i requires 0 <= i < |data| => Typed(kind, data[i]))
  }

  /** The bytes of a chain, each with its mbuf's type. */
  function Flat(c: Chain): seq<Typed> {
    if c == [] then [] else Tag(c[0].kind, c[0].data) + Flat(c[1..])
  }

  function Length(c: Chain): nat {
    if c == [] then 0 else |c[0].data| + Length(c[1..])
  }

  /** Memory charged for one mbuf, and for a chain. */
  function Charge(m: Mbuf): int {
    if m.off > MMAXOFF then MSIZE + MCLBYTES else MSIZE
  }

  function Memory(c: Chain): nat {
    if c == [] then 0 else Charge(c[0]) + Memory(c[1..])
  }

  /** The abstract buffer: a list of records of bytes. */
  function Records(rs: seq<Chain>): seq<seq<Typed>> {
    if rs == [] then [] else [Flat(rs[0])] + Records(rs[1..])
  }

  function TotalLength(rs: seq<Chain>): nat {
    if rs == [] then 0 else Length(rs[0]) + TotalLength(rs[1..])
  }

  function TotalMemory(rs: seq<Chain>): nat {
    if rs == [] then 0 else Memory(rs[0]) + TotalMemory(rs[1..])
  }

  /** The data of an ordinary mbuf lies within the mbuf. */
  ghost predicate Fit(c: Chain) {
    forall i :: 0 <= i < |c| && c[i].off <= MMAXOFF ==> c[i].off + |c[i].data| <= MMAXOFF
  }

  /** Records are chains of at least one mbuf, all of them well formed. */
  ghost predicate Shaped(rs: seq<Chain>) {
    forall i :: 0 <= i < |rs| ==> rs[i] != [] && Fit(rs[i])
  }

  /** Counters agree with the contents. */
  ghost predicate Valid(sb: Sockbuf) {
    sb.cc == TotalLength(sb.records) && sb.mbcnt == TotalMemory(sb.records) && Shaped(sb.records)
  }

  // ----- compression -----

  /** The next mbuf may be copied into the last one. */
  predicate Mergeable(n: Mbuf, m: Mbuf) {
    n.off <= MMAXOFF && m.off <= MMAXOFF && n.off + |n.data| + |m.data| <= MMAXOFF && n.kind == m.kind
  }

  /** One turn of sbcompress: chain r, whose last mbuf is n, takes mbuf m. */
  function Absorb(r: Chain, m: Mbuf): Chain {
    if m.data == [] then r
    else if r != [] && Mergeable(r[|r| - 1], m) then
      var n := r[|r| - 1];
      r[..|r| - 1] + [Mbuf(n.off, n.kind, n.data + m.data)]
    else r + [m]
  }

  /** sbcompress: the chain m from position i on is appended to r. */
  function Compress(r: Chain, m: Chain, i: nat): Chain
    requires i <= |m|
    decreases |m| - i
  {
    if i == |m| then r else Compress(Absorb(r, m[i]), m, i + 1)
  }

  lemma {:induction false} FlatConcat(a: Chain, b: Chain)
    ensures Flat(a + b) == Flat(a) + Flat(b)
    ensures Length(a + b) == Length(a) + Length(b)
    ensures Memory(a + b) == Memory(a) + Memory(b)
  {
    if a == [] {
      assert a + b == b;
    } else {
      assert (a + b)[1..] == a[1..] + b;
      FlatConcat(a[1..], b);
    }
  }

  lemma FlatOne(m: Mbuf)
    ensures Flat([m]) == Tag(m.kind, m.data) && Length([m]) == |m.data| && Memory([m]) == Charge(m)
  {
    assert Tag(m.kind, m.data) + [] == Tag(m.kind, m.data);
  }

  lemma TagConcat(k: int, a: seq<int>, b: seq<int>)
    ensures Tag(k, a + b) == Tag(k, a) + Tag(k, b)
  {
  }

  lemma TagNone(k: int)
    ensures Tag(k, []) == []
  {
  }

  lemma MergeAdds(front: Chain, n: Mbuf, m: Mbuf)
    requires Mergeable(n, m)
    ensures var n' := Mbuf(n.off, n.kind, n.data + m.data);
      && Flat(front + [n']) == Flat(front + [n]) + Tag(m.kind, m.data)
      && Length(front + [n']) == Length(front + [n]) + |m.data|
  {
    hide Flat, Length, Memory, Tag;
    var n' := Mbuf(n.off, n.kind, n.data + m.data);
    FlatConcat(front, [n]);
    FlatConcat(front, [n']);
    FlatOne(n);
    FlatOne(n');
    TagConcat(n.kind, n.data, m.data);
    assert Flat(front) + (Tag(n.kind, n.data) + Tag(m.kind, m.data))
      == (Flat(front) + Tag(n.kind, n.data)) + Tag(m.kind, m.data);
  }

  /** Absorbing an mbuf adds exactly its bytes, with their type, and its length. */
  lemma AbsorbAdds(r: Chain, m: Mbuf)
    ensures Flat(Absorb(r, m)) == Flat(r) + Tag(m.kind, m.data)
    ensures Length(Absorb(r, m)) == Length(r) + |m.data|
  {
    hide Flat, Length, Memory, Tag, Mergeable;
    if m.data == [] {
      TagNone(m.kind);
    } else if r != [] && Mergeable(r[|r| - 1], m) {
      MergeAdds(r[..|r| - 1], r[|r| - 1], m);
      assert r == r[..|r| - 1] + [r[|r| - 1]];
    } else {
      FlatConcat(r, [m]);
      FlatOne(m);
    }
  }

  lemma {:induction false} CompressAdds(r: Chain, m: Chain, i: nat)
    requires i <= |m|
    ensures Flat(Compress(r, m, i)) == Flat(r) + Flat(m[i..])
    ensures Length(Compress(r, m, i)) == Length(r) + Length(m[i..])
    ensures r != [] ==> Compress(r, m, i) != []
    ensures r == [] ==> (Compress(r, m, i) == [] <==> Length(m[i..]) == 0)
    decreases |m| - i
  {
    hide Flat, Length, Absorb;
    FlatFrom(m, i);
    assert Flat(r) + [] == Flat(r);
    if i < |m| {
      AbsorbAdds(r, m[i]);
      AbsorbEmpty(r, m[i]);
      CompressAdds(Absorb(r, m[i]), m, i + 1);
      assert Flat(r) + Tag(m[i].kind, m[i].data) + Flat(m[i + 1..])
          == Flat(r) + (Tag(m[i].kind, m[i].data) + Flat(m[i + 1..]));
    }
  }

  lemma FlatFrom(m: Chain, i: nat)
    requires i <= |m|
    ensures i == |m| ==> Flat(m[i..]) == [] && Length(m[i..]) == 0
    ensures i < |m| ==> Flat(m[i..]) == Tag(m[i].kind, m[i].data) + Flat(m[i + 1..])
    ensures i < |m| ==> Length(m[i..]) == |m[i].data| + Length(m[i + 1..])
  {
    if i < |m| {
      assert m[i..][1..] == m[i + 1..];
    }
  }

  lemma AbsorbEmpty(r: Chain, m: Mbuf)
    ensures Absorb(r, m) == [] <==> r == [] && m.data == []
  {
  }

  // ----- the operations as functions of the buffer -----

  /** The buffer with its last record replaced, and the counters brought up to date. */
  function Recount(rs: seq<Chain>): Sockbuf {
    Sockbuf(rs, TotalLength(rs), TotalMemory(rs))
  }

  /** sbappend. */
  function Append(sb: Sockbuf, m: Chain): Sockbuf {
    var n := |sb.records|;
    if n == 0 then
      var r := Compress([], m, 0);
      if r == [] then sb else Recount([r])
    else Recount(sb.records[n - 1 := Compress(sb.records[n - 1], m, 0)])
  }

  /** sbappendrecord. */
  function AppendRecord(sb: Sockbuf, m: Chain): Sockbuf {
    if m == [] then sb else Recount(sb.records + [Compress([m[0]], m, 1)])
  }

  function Trim(m: Mbuf, len: nat): Mbuf
    requires len <= |m.data|
  {
    Mbuf(m.off + len, m.kind, m.data[len..])
  }

  /** The loop at the end of sbdrop: empty mbufs at the front of a chain go. */
  function Strip(c: Chain): Chain {
    if c != [] && c[0].data == [] then Strip(c[1..]) else c
  }

  /** What sbdrop leaves of the current chain and the records after it. */
  function Drop(cur: Chain, rest: seq<Chain>, len: nat): seq<Chain>
    decreases |rest|, |cur|
  {
    if len == 0 then
      var c := Strip(cur);
      if c == [] then rest else [c] + rest
    else if cur == [] then
      if rest == [] then [] else Drop(rest[0], rest[1..], len)
    else if |cur[0].data| > len then [[Trim(cur[0], len)] + cur[1..]] + rest
    else Drop(cur[1..], rest, len - |cur[0].data|)
  }

  function DropFrom(rs: seq<Chain>, len: nat): seq<Chain> {
    if rs == [] then [] else Drop(rs[0], rs[1..], len)
  }

  /** Dropping bytes from a list of byte records: a record that is used up goes, and only then the next is touched. */
  function DropBytes(rs: seq<seq<Typed>>, len: nat): seq<seq<Typed>> {
    if rs == [] then []
    else if |rs[0]| > len then [rs[0][len..]] + rs[1..]
    else if |rs[0]| == len then rs[1..]
    else DropBytes(rs[1..], len - |rs[0]|)
  }

  lemma {:induction false} FlatLength(c: Chain)
    ensures |Flat(c)| == Length(c)
  {
    if c != [] { FlatLength(c[1..]); }
  }

  lemma {:induction false} StripKeeps(c: Chain)
    ensures Flat(Strip(c)) == Flat(c) && (Strip(c) == [] <==> Length(c) == 0)
    ensures Length(Strip(c)) == Length(c)
  {
    if c != [] && c[0].data == [] {
      StripKeeps(c[1..]);
      assert Tag(c[0].kind, c[0].data) + Flat(c[1..]) == Flat(c[1..]);
    }
  }

  /** sbdrop is DropBytes on the records. */
  lemma {:induction false} DropIsDropBytes(cur: Chain, rest: seq<Chain>, len: nat)
    ensures Records(Drop(cur, rest, len)) == DropBytes([Flat(cur)] + Records(rest), len)
    decreases |rest|, |cur|
  {
    var rs := [Flat(cur)] + Records(rest);
    assert rs[1..] == Records(rest);
    FlatLength(cur);
    if len == 0 {
      StripKeeps(cur);
      var c := Strip(cur);
      if c != [] {
        assert ([c] + rest)[1..] == rest;
        assert Flat(cur)[0..] == Flat(cur);
      }
    } else if cur == [] {
      if rest != [] {
        DropIsDropBytes(rest[0], rest[1..], len);
      }
    } else if |cur[0].data| > len {
      var c := [Trim(cur[0], len)] + cur[1..];
      TrimFlat(cur, len);
      assert ([c] + rest)[1..] == rest;
    } else {
      DropIsDropBytes(cur[1..], rest, len - |cur[0].data|);
      var a, b := Tag(cur[0].kind, cur[0].data), Flat(cur[1..]);
      ShortenFirst(a, b, Records(rest), len);
    }
  }

  lemma ShortenFirst(a: seq<Typed>, b: seq<Typed>, rest: seq<seq<Typed>>, len: nat)
    requires |a| <= len
    ensures DropBytes([a + b] + rest, len) == DropBytes([b] + rest, len - |a|)
  {
    var u, v := [a + b] + rest, [b] + rest;
    assert u[1..] == rest == v[1..];
    if |a + b| > len { assert (a + b)[len..] == b[len - |a|..]; }
  }

  lemma {:induction false} TrimFlat(cur: Chain, len: nat)
    requires cur != [] && len < |cur[0].data|
    ensures var c := [Trim(cur[0], len)] + cur[1..];
      Flat(c) == Flat(cur)[len..] && Length(c) == Length(cur) - len
  {
    var c := [Trim(cur[0], len)] + cur[1..];
    assert c[1..] == cur[1..];
    assert Tag(cur[0].kind, cur[0].data[len..]) == Tag(cur[0].kind, cur[0].data)[len..];
  }

  // ----- lists of records under change of one record -----

  lemma {:induction false} SetLast(rs: seq<Chain>, c: Chain)
    requires rs != []
    ensures var n := |rs| - 1; var t := rs[n := c];
      && TotalLength(t) == TotalLength(rs) - Length(rs[n]) + Length(c)
      && TotalMemory(t) == TotalMemory(rs) - Memory(rs[n]) + Memory(c)
      && |Records(rs)| == n + 1 && Records(rs)[n] == Flat(rs[n]) && Records(t) == Records(rs)[n := Flat(c)]
  {
    hide Flat, Length, Memory;
    var n := |rs| - 1;
    var t := rs[n := c];
    if n > 0 {
      SetLast(rs[1..], c);
      assert t[1..] == rs[1..][n - 1 := c];
    } else {
      assert t[1..] == [] && rs[1..] == [];
    }
  }

  lemma {:induction false} AddLast(rs: seq<Chain>, c: Chain)
    ensures TotalLength(rs + [c]) == TotalLength(rs) + Length(c)
    ensures TotalMemory(rs + [c]) == TotalMemory(rs) + Memory(c)
    ensures Records(rs + [c]) == Records(rs) + [Flat(c)]
  {
    if rs == [] {
      assert rs + [c] == [c];
    } else {
      AddLast(rs[1..], c);
      assert (rs + [c])[1..] == rs[1..] + [c];
    }
  }

  // ----- the code -----

  /** sbcompress: bytes and memory to be added to the counters come out with the new chain. */
  method SbCompress(r: Chain, m: Chain, from: nat) returns (c: Chain, addCc: int, addMem: int)
    requires from <= |m| && Fit(r) && Fit(m)
    ensures c == Compress(r, m, from) && Fit(c)
    ensures addCc == Length(c) - Length(r) && addMem == Memory(c) - Memory(r)
  {
    hide Flat, Length, Memory, Fit, Mergeable;
    c, addCc, addMem := r, 0, 0;
    var i := from;
    while i < |m|
      invariant from <= i <= |m| && Fit(c)
      invariant Compress(c, m, i) == Compress(r, m, from)
      invariant addCc == Length(c) - Length(r) && addMem == Memory(c) - Memory(r)
    {
      AbsorbAdds(c, m[i]);
      AbsorbMemory(c, m[i]);
      AbsorbFits(c, m, i);
      if m[i].data != [] {
        if c != [] && Mergeable(c[|c| - 1], m[i]) {
          var n := c[|c| - 1];
          c := c[..|c| - 1] + [Mbuf(n.off, n.kind, n.data + m[i].data)];
          addCc := addCc + |m[i].data|;
        } else {
          addCc, addMem := addCc + |m[i].data|, addMem + Charge(m[i]);
          c := c + [m[i]];
        }
      }
      i := i + 1;
    }
  }

  /** Only an mbuf that is linked in is charged for. */
  lemma AbsorbMemory(r: Chain, m: Mbuf)
    ensures Memory(Absorb(r, m))
      == Memory(r) + (if m.data == [] || (r != [] && Mergeable(r[|r| - 1], m)) then 0 else Charge(m))
  {
    hide Memory, Flat, Length, Mergeable;
    if m.data == [] {
    } else if r != [] && Mergeable(r[|r| - 1], m) {
      var n, front := r[|r| - 1], r[..|r| - 1];
      var n' := Mbuf(n.off, n.kind, n.data + m.data);
      assert r == front + [n];
      FlatConcat(front, [n]);
      FlatConcat(front, [n']);
      FlatOne(n);
      FlatOne(n');
    } else {
      FlatConcat(r, [m]);
      FlatOne(m);
    }
  }

  /** The counters stand for a partly consumed record and the records after it. */
  ghost predicate Counts(cur: Chain, rest: seq<Chain>, cc: int, mbcnt: int) {
    Fit(cur) && Shaped(rest) && cc == Length(cur) + TotalLength(rest) && mbcnt == Memory(cur) + TotalMemory(rest)
  }

  /** The first loop of sbdrop. The buffer holds enough bytes, so its panic is not reached. */
  method DropLoop(cur0: Chain, rest0: seq<Chain>, drop: nat, cc0: int, mbcnt0: int)
    returns (cur: Chain, rest: seq<Chain>, cc: int, mbcnt: int)
    requires Counts(cur0, rest0, cc0, mbcnt0) && drop <= cc0
    ensures Counts(cur, rest, cc, mbcnt) && cc == cc0 - drop && mbcnt <= mbcnt0
    ensures Drop(cur0, rest0, drop) == Drop(cur, rest, 0)
    ensures 0 < drop == cc0 ==> mbcnt < mbcnt0
    ensures drop == 0 ==> cur == cur0 && rest == rest0
  {
    hide Shaped, Fit;
    cur, rest, cc, mbcnt := cur0, rest0, cc0, mbcnt0;
    var len: nat := drop;
    while len > 0
      invariant Drop(cur, rest, len) == Drop(cur0, rest0, drop)
      invariant Counts(cur, rest, cc, mbcnt) && cc - len == cc0 - drop && mbcnt <= mbcnt0
      invariant drop == cc0 && cc < cc0 ==> mbcnt < mbcnt0
      invariant drop == 0 ==> cur == cur0 && rest == rest0
      decreases |rest|, |cur|, len
    {
      CountsStep(cur, rest, cc, mbcnt, len);
      if cur == [] {
        cur, rest := rest[0], rest[1..];
      } else if |cur[0].data| > len {
        cur := [Trim(cur[0], len)] + cur[1..];
        cc := cc - len;
        len := 0;
      } else {
        len := len - |cur[0].data|;
        cc, mbcnt := cc - |cur[0].data|, mbcnt - Charge(cur[0]);
        cur := cur[1..];
      }
    }
  }

  lemma CountsStep(cur: Chain, rest: seq<Chain>, cc: int, mbcnt: int, len: nat)
    requires Counts(cur, rest, cc, mbcnt) && 0 < len <= cc
    ensures cur == [] ==> rest != [] && Counts(rest[0], rest[1..], cc, mbcnt)
    ensures cur != [] ==> Counts(cur[1..], rest, cc - |cur[0].data|, mbcnt - Charge(cur[0])) && Charge(cur[0]) > 0
    ensures cur != [] ==> |cur[0].data| <= cc
    ensures cur != [] && |cur[0].data| > len ==>
      var c := [Trim(cur[0], len)] + cur[1..]; Counts(c, rest, cc - len, mbcnt) && Drop(c, rest, 0) == [c] + rest
  {
    if cur != [] {
      assert forall i :: 0 <= i < |cur| - 1 ==> cur[1..][i] == cur[i + 1];
      if |cur[0].data| > len {
        TrimFlat(cur, len);
        var c := [Trim(cur[0], len)] + cur[1..];
        assert c[1..] == cur[1..];
      }
    }
  }

  /** The second loop of sbdrop: empty mbufs at the front go. */
  method StripLoop(cur0: Chain, mbcnt0: int) returns (cur: Chain, mbcnt: int)
    requires Fit(cur0)
    ensures cur == Strip(cur0) && Fit(cur) && mbcnt == mbcnt0 - Memory(cur0) + Memory(cur) <= mbcnt0
    ensures cur0 != [] && Length(cur0) == 0 ==> mbcnt < mbcnt0
  {
    cur, mbcnt := cur0, mbcnt0;
    while cur != [] && cur[0].data == []
      invariant Strip(cur) == Strip(cur0) && Fit(cur) && Length(cur) == Length(cur0)
      invariant mbcnt == mbcnt0 - Memory(cur0) + Memory(cur) && (mbcnt < mbcnt0 || (mbcnt == mbcnt0 && cur == cur0))
      decreases |cur|
    {
      mbcnt := mbcnt - Charge(cur[0]);
      cur := cur[1..];
    }
  }

  /** sbdrop of no more bytes than there are. */
  method SbDrop(sb: Sockbuf, drop: nat) returns (sb': Sockbuf)
    requires Valid(sb) && drop <= sb.cc
    ensures Valid(sb') && sb'.cc == sb.cc - drop && sb'.records == DropFrom(sb.records, drop)
    ensures Records(sb'.records) == DropBytes(Records(sb.records), drop)
    ensures sb.records != [] && drop == sb.cc ==> sb'.mbcnt < sb.mbcnt
  {
    hide DropBytes, Flat, Length, Memory;
    var cur, rest := [], [];
    if sb.records != [] {
      cur, rest := sb.records[0], sb.records[1..];
    }
    ghost var cur0, rest0 := cur, rest;
    StartDrop(sb);
    var cc, mbcnt;
    cur, rest, cc, mbcnt := DropLoop(cur, rest, drop, sb.cc, sb.mbcnt);
    ghost var c := cur;
    cur, mbcnt := StripLoop(cur, mbcnt);
    EndDrop(c, cur, rest);
    DropIsDropBytes(cur0, rest0, drop);
    var rs := if cur != [] then [cur] + rest else rest;
    sb' := Sockbuf(rs, cc, mbcnt);
  }

  lemma StartDrop(sb: Sockbuf)
    requires Valid(sb)
    ensures sb.records == [] ==> Counts([], [], sb.cc, sb.mbcnt) && sb.cc == 0
    ensures sb.records == [] ==> DropBytes([Flat([])] + Records([]), 0) == DropBytes(Records(sb.records), 0)
    ensures sb.records != [] ==> Counts(sb.records[0], sb.records[1..], sb.cc, sb.mbcnt)
    ensures sb.records != [] ==> Records(sb.records) == [Flat(sb.records[0])] + Records(sb.records[1..])
    ensures sb.records != [] && sb.cc == 0 ==> Length(sb.records[0]) == 0
  {
  }

  lemma EndDrop(cur: Chain, c: Chain, rest: seq<Chain>)
    requires c == Strip(cur) && Fit(c) && Shaped(rest)
    ensures Length(c) == Length(cur)
    ensures var rs := if c != [] then [c] + rest else rest;
      && rs == Drop(cur, rest, 0) && Shaped(rs)
      && TotalLength(rs) == Length(cur) + TotalLength(rest) && TotalMemory(rs) == Memory(c) + TotalMemory(rest)
  {
    StripKeeps(cur);
    if c != [] {
      assert ([c] + rest)[1..] == rest;
    }
  }

  // ----- every sequence of operations -----

  datatype Action = Extend(m: Chain) | NewRecord(m: Chain) | DropN(len: nat) | DropRecord | Flush

  /** What the operations do to the buffer. */
  function Step(sb: Sockbuf, a: Action): Sockbuf {
    match a
    case Extend(m) => Append(sb, m)
    case NewRecord(m) => AppendRecord(sb, m)
    case DropN(len) => Recount(DropFrom(sb.records, len))
    case DropRecord => if sb.records == [] then sb else Recount(sb.records[1..])
    case Flush => EMPTY
  }

  /** What they do to a list of byte records. */
  function PlainStep(rs: seq<seq<Typed>>, a: Action): seq<seq<Typed>> {
    var n := |rs|;
    match a
    case Extend(m) =>
      if n > 0 then rs[n - 1 := rs[n - 1] + Flat(m)] else if Flat(m) == [] then [] else [Flat(m)]
    case NewRecord(m) => if m == [] then rs else rs + [Flat(m)]
    case DropN(len) => DropBytes(rs, len)
    case DropRecord => if n == 0 then rs else rs[1..]
    case Flush => []
  }

  /** The chains handed over are well formed, and no more is dropped than there is. */
  ghost predicate Proper(sb: Sockbuf, a: Action) {
    match a
    case Extend(m) => Fit(m)
    case NewRecord(m) => Fit(m)
    case DropN(len) => len <= sb.cc
    case _ => true
  }

  lemma AbsorbFits(r: Chain, m: Chain, i: nat)
    requires i < |m| && Fit(r) && Fit(m)
    ensures Fit(Absorb(r, m[i]))
  {
  }

  lemma {:induction false} CompressFits(r: Chain, m: Chain, i: nat)
    requires i <= |m| && Fit(r) && Fit(m)
    ensures Fit(Compress(r, m, i))
    decreases |m| - i
  {
    hide Fit, Absorb;
    if i < |m| {
      AbsorbFits(r, m, i);
      CompressFits(Absorb(r, m[i]), m, i + 1);
    }
  }

  lemma ExtendRefines(sb: Sockbuf, m: Chain)
    requires Valid(sb) && Fit(m)
    ensures Valid(Append(sb, m))
    ensures Records(Append(sb, m).records) == PlainStep(Records(sb.records), Extend(m))
  {
    hide Length, Memory, Compress, Flat, Fit, Records, TotalLength, TotalMemory;
    assert m[0..] == m;
    FitEmpty();
    var n := |sb.records|;
    if n == 0 {
      CompressAdds([], m, 0);
      CompressFits([], m, 0);
      FlatLength(m);
      FirstRecord(sb, m, Compress([], m, 0));
    } else {
      CompressAdds(sb.records[n - 1], m, 0);
      CompressFits(sb.records[n - 1], m, 0);
      SetLast(sb.records, Compress(sb.records[n - 1], m, 0));
    }
  }

  lemma FirstRecord(sb: Sockbuf, m: Chain, c: Chain)
    requires sb.records == [] && Flat(c) == Flat([]) + Flat(m) && (c == [] <==> Flat(m) == [])
    ensures Records(if c == [] then [] else [c]) == PlainStep(Records(sb.records), Extend(m))
  {
    hide Flat;
    FitEmpty();
    assert Flat([]) + Flat(m) == Flat(m);
    if c != [] {
      assert [c][1..] == [];
    }
  }

  lemma FitEmpty()
    ensures Fit([]) && Flat([]) == [] && Length([]) == 0
  {
  }

  lemma NewRecordRefines(sb: Sockbuf, m: Chain)
    requires Valid(sb) && Fit(m)
    ensures Valid(AppendRecord(sb, m))
    ensures Records(AppendRecord(sb, m).records) == PlainStep(Records(sb.records), NewRecord(m))
  {
    if m != [] {
      CompressAdds([m[0]], m, 1);
      CompressFits([m[0]], m, 1);
      FlatOne(m[0]);
      AddLast(sb.records, Compress([m[0]], m, 1));
    }
  }

  lemma {:induction false} DropShaped(cur: Chain, rest: seq<Chain>, len: nat)
    requires Fit(cur) && Shaped(rest)
    ensures Shaped(Drop(cur, rest, len))
    decreases |rest|, |cur|
  {
    if len == 0 {
      StripFits(cur);
    } else if cur == [] {
      if rest != [] { DropShaped(rest[0], rest[1..], len); }
    } else if |cur[0].data| <= len {
      assert forall i :: 0 <= i < |cur| - 1 ==> cur[1..][i] == cur[i + 1];
      DropShaped(cur[1..], rest, len - |cur[0].data|);
    } else {
      var c := [Trim(cur[0], len)] + cur[1..];
      assert Fit(c) by { assert forall i :: 1 <= i < |c| ==> c[i] == cur[i]; }
    }
  }

  lemma {:induction false} StripFits(c: Chain)
    requires Fit(c)
    ensures Fit(Strip(c))
  {
    if c != [] && c[0].data == [] {
      assert forall i :: 0 <= i < |c| - 1 ==> c[1..][i] == c[i + 1];
      StripFits(c[1..]);
    }
  }

  lemma DropRefines(sb: Sockbuf, len: nat)
    requires Valid(sb)
    ensures Valid(Step(sb, DropN(len)))
    ensures Records(Step(sb, DropN(len)).records) == DropBytes(Records(sb.records), len)
  {
    if sb.records != [] {
      DropShaped(sb.records[0], sb.records[1..], len);
      DropIsDropBytes(sb.records[0], sb.records[1..], len);
    }
  }

  lemma StepRefines(sb: Sockbuf, a: Action)
    requires Valid(sb) && Proper(sb, a)
    ensures Valid(Step(sb, a))
    ensures Records(Step(sb, a).records) == PlainStep(Records(sb.records), a)
  {
    hide Compress, Drop, DropBytes, Flat, Fit;
    match a
    case Extend(m) => ExtendRefines(sb, m);
    case NewRecord(m) => NewRecordRefines(sb, m);
    case DropN(len) => DropRefines(sb, len);
    case DropRecord =>
    case Flush =>
  }

  /** A run in which improper actions (more dropped than there is) do not happen. */
  ghost function Run(actions: seq<Action>): (sb: Sockbuf)
    ensures Valid(sb)
  {
    if actions == [] then EMPTY
    else
      var sb, a := Run(actions[..|actions| - 1]), actions[|actions| - 1];
      if Proper(sb, a) then StepRefines(sb, a); Step(sb, a) else sb
  }

  ghost function PlainRun(actions: seq<Action>): seq<seq<Typed>> {
    if actions == [] then []
    else
      var before, a := actions[..|actions| - 1], actions[|actions| - 1];
      if Proper(Run(before), a) then PlainStep(PlainRun(before), a) else PlainRun(before)
  }

  /**
   * Every run of appends, drops and flushes is the same run on a list of byte records, and sb_cc is
   * its total length.
   */
  lemma {:induction false} RunRefines(actions: seq<Action>)
    ensures Records(Run(actions).records) == PlainRun(actions)
    ensures Run(actions).cc == SumLengths(PlainRun(actions))
  {
    if actions != [] {
      var before, a := actions[..|actions| - 1], actions[|actions| - 1];
      RunRefines(before);
      if Proper(Run(before), a) { StepRefines(Run(before), a); }
    }
    RecordsLength(Run(actions).records);
  }

  function SumLengths(rs: seq<seq<Typed>>): nat {
    if rs == [] then 0 else |rs[0]| + SumLengths(rs[1..])
  }

  lemma {:induction false} RecordsLength(rs: seq<Chain>)
    ensures SumLengths(Records(rs)) == TotalLength(rs)
  {
    if rs != [] {
      FlatLength(rs[0]);
      RecordsLength(rs[1..]);
      assert Records(rs)[1..] == Records(rs[1..]);
    }
  }

  /** Dropping removes exactly the first bytes: the concatenation of the records loses its prefix. */
  lemma {:induction false} DropBytesIsPrefix(rs: seq<seq<Typed>>, len: nat)
    requires len <= SumLengths(rs)
    ensures |Concat(rs)| == SumLengths(rs) && Concat(DropBytes(rs, len)) == Concat(rs)[len..]
  {
    ConcatLength(rs);
    if rs != [] {
      if |rs[0]| > len {
        assert ([rs[0][len..]] + rs[1..])[1..] == rs[1..];
      } else if |rs[0]| < len {
        DropBytesIsPrefix(rs[1..], len - |rs[0]|);
      }
    }
  }

  /** The records that are left are the last ones, of which the first may have lost a prefix. */
  lemma {:induction false} DropBytesKeepsRecords(rs: seq<seq<Typed>>, len: nat) returns (j: nat, k: nat)
    ensures j <= |rs| && (j < |rs| ==> k < |rs[j]| || k == 0)
    ensures DropBytes(rs, len) == if j == |rs| then [] else [rs[j][k..]] + rs[j + 1..]
  {
    j, k := 0, 0;
    if rs != [] {
      if |rs[0]| > len {
        k := len;
      } else if |rs[0]| == len {
        j := 1;
        if |rs| > 1 {
          assert rs[1..] == [rs[1][0..]] + rs[2..];
        }
      } else {
        j, k := DropBytesKeepsRecords(rs[1..], len - |rs[0]|);
        j := j + 1;
        assert j < |rs| ==> rs[1..][j..] == rs[j + 1..];
      }
    }
  }

  lemma LastGrows(rs: seq<seq<Typed>>, bytes: seq<Typed>)
    ensures var n := |rs|; n > 0 ==> rs[n - 1 := rs[n - 1] + bytes] == rs[..n - 1] + [rs[n - 1] + bytes]
  {
  }

  function Concat(rs: seq<seq<Typed>>): seq<Typed> {
    if rs == [] then [] else rs[0] + Concat(rs[1..])
  }

  lemma {:induction false} ConcatLength(rs: seq<seq<Typed>>)
    ensures |Concat(rs)| == SumLengths(rs)
  {
    if rs != [] { ConcatLength(rs[1..]); }
  }

  /** What is appended, to the last record or as a new one, comes after all the bytes there were. */
  lemma PlainAppends(rs: seq<seq<Typed>>, a: Action)
    requires a.Extend? || a.NewRecord?
    ensures Concat(PlainStep(rs, a)) == Concat(rs) + Flat(a.m)
  {
    hide Flat, Concat;
    FitEmpty();
    var n := |rs| - 1;
    NoBytes();
    ConcatOne(Flat(a.m));
    if n < 0 {
      assert rs == [] && rs + [Flat(a.m)] == [Flat(a.m)];
      assert [] + Flat(a.m) == Flat(a.m);
    } else if a.Extend? {
      assert rs == rs[..n] + [rs[n]];
      assert rs[n := rs[n] + Flat(a.m)] == rs[..n] + [rs[n] + Flat(a.m)];
      ConcatLast(rs[..n], rs[n]);
      ConcatLast(rs[..n], rs[n] + Flat(a.m));
    } else {
      ConcatLast(rs, Flat(a.m));
    }
  }

  lemma {:induction false} ConcatLast(rs: seq<seq<Typed>>, r: seq<Typed>)
    ensures Concat(rs + [r]) == Concat(rs) + r
  {
    if rs == [] {
      ConcatOne(r);
      assert rs + [r] == [r];
    } else {
      ConcatLast(rs[1..], r);
      assert (rs + [r])[1..] == rs[1..] + [r];
    }
  }

  lemma NoBytes()
    ensures Concat([]) == []
  {
  }

  lemma ConcatOne(r: seq<Typed>)
    ensures Concat([r]) == r
  {
  }

  /** soreceive takes n bytes of the first mbuf: the whole mbuf if that is all it holds, otherwise it trims it. */
  function TakeHead(sb: Sockbuf, n: nat): Sockbuf
    requires sb.records != [] && sb.records[0] != [] && n <= |sb.records[0][0].data|
  {
    var m, c, rest := sb.records[0][0], sb.records[0][1..], sb.records[1..];
    if n == |m.data| then Sockbuf(if c == [] then rest else [c] + rest, sb.cc - n, sb.mbcnt - Charge(m))
    else Sockbuf([[Trim(m, n)] + c] + rest, sb.cc - n, sb.mbcnt)
  }

  /** Exactly the first n bytes go, and the counters stay right. */
  lemma TakeHeadDrops(sb: Sockbuf, n: nat)
    requires Valid(sb) && sb.records != [] && sb.records[0] != [] && n <= |sb.records[0][0].data|
    ensures Valid(TakeHead(sb, n)) && TakeHead(sb, n).mbcnt <= sb.mbcnt
    ensures n <= |Concat(Records(sb.records))|
    ensures Concat(Records(TakeHead(sb, n).records)) == Concat(Records(sb.records))[n..]
  {
    var r, rest := sb.records[0], sb.records[1..];
    var m, c := r[0], r[1..];
    if n == |m.data| {
      TakeWhole(r, rest);
    } else {
      TakePart(r, rest, n);
    }
  }

  lemma FirstBytes(r: Chain, rest: seq<Chain>)
    ensures Concat(Records([r] + rest)) == Flat(r) + Concat(Records(rest))
    ensures TotalLength([r] + rest) == Length(r) + TotalLength(rest)
    ensures TotalMemory([r] + rest) == Memory(r) + TotalMemory(rest)
  {
    assert ([r] + rest)[1..] == rest;
    assert Records([r] + rest)[1..] == Records(rest);
  }

  lemma TakeWhole(r: Chain, rest: seq<Chain>)
    requires r != [] && Shaped([r] + rest)
    ensures var rs := if r[1..] == [] then rest else [r[1..]] + rest;
      && Shaped(rs) && TotalLength(rs) == TotalLength([r] + rest) - |r[0].data|
      && TotalMemory(rs) == TotalMemory([r] + rest) - Charge(r[0])
      && |r[0].data| <= |Concat(Records([r] + rest))|
      && Concat(Records(rs)) == Concat(Records([r] + rest))[|r[0].data|..]
  {
    hide Records, Concat, TotalLength, TotalMemory;
    FirstBytes(r, rest);
    FirstBytes(r[1..], rest);
    assert ([r] + rest)[0] == r;
    assert forall i :: 0 <= i < |rest| ==> rest[i] == ([r] + rest)[i + 1];
    if r[1..] == [] {
      assert Flat(r[1..]) + Concat(Records(rest)) == Concat(Records(rest));
    }
  }

  lemma TakePart(r: Chain, rest: seq<Chain>, n: nat)
    requires r != [] && Shaped([r] + rest) && n < |r[0].data|
    ensures var rs := [[Trim(r[0], n)] + r[1..]] + rest;
      && Shaped(rs) && TotalLength(rs) == TotalLength([r] + rest) - n && TotalMemory(rs) == TotalMemory([r] + rest)
      && n <= |Concat(Records([r] + rest))| && Concat(Records(rs)) == Concat(Records([r] + rest))[n..]
  {
    hide Records, Concat, TotalLength, TotalMemory, Flat, Length, Memory, Fit;
    var t := [Trim(r[0], n)] + r[1..];
    FirstBytes(r, rest);
    FirstBytes(t, rest);
    assert ([r] + rest)[0] == r;
    assert forall i :: 0 <= i < |rest| ==> rest[i] == ([r] + rest)[i + 1];
    TrimFlat(r, n);
    TrimFits(r, n);
    FlatLength(r);
  }

  lemma TrimFits(r: Chain, n: nat)
    requires r != [] && Fit(r) && n < |r[0].data|
    ensures var t := [Trim(r[0], n)] + r[1..]; Fit(t) && Memory(t) == Memory(r)
  {
    var t := [Trim(r[0], n)] + r[1..];
    assert t[1..] == r[1..];
    assert forall i :: 1 <= i < |t| ==> t[i] == r[i];
  }

  /** A socket buffer changed in place. */
  class Buffer {
    var sb: Sockbuf

    method SbAppend(m: Chain)
      requires Valid(sb) && Fit(m)
      modifies this
      ensures sb == Step(old(sb), Extend(m)) && Valid(sb)
      ensures var rs, n := Records(old(sb).records), |Records(old(sb).records)|;
        Records(sb.records)
        == if n > 0 then rs[..n - 1] + [rs[n - 1] + Flat(m)] else if Flat(m) == [] then [] else [Flat(m)]
    {
      LastGrows(Records(sb.records), Flat(m));
      hide Flat, Length, Memory, Fit, Compress;
      FitEmpty();
      ExtendRefines(sb, m);
      var n := |sb.records|;
      var c, dcc, dmem;
      if n == 0 {
        c, dcc, dmem := SbCompress([], m, 0);
        AddLast([], c);
        MemoryEmpty();
        sb := Sockbuf(if c == [] then [] else [c], sb.cc + dcc, sb.mbcnt + dmem);
      } else {
        c, dcc, dmem := SbCompress(sb.records[n - 1], m, 0);
        SetLast(sb.records, c);
        sb := Sockbuf(sb.records[n - 1 := c], sb.cc + dcc, sb.mbcnt + dmem);
      }
    }

    method SbAppendRecord(m: Chain)
      requires Valid(sb) && Fit(m)
      modifies this
      ensures sb == Step(old(sb), NewRecord(m)) && Valid(sb)
      ensures Records(sb.records) == Records(old(sb).records) + (if m == [] then [] else [Flat(m)])
    {
      hide Flat, Length, Memory, Compress;
      NewRecordRefines(sb, m);
      if m == [] {
        return;
      }
      FlatOne(m[0]);
      var c, dcc, dmem := SbCompress([m[0]], m, 1);
      AddLast(sb.records, c);
      sb := Sockbuf(sb.records + [c], sb.cc + |m[0].data| + dcc, sb.mbcnt + Charge(m[0]) + dmem);
    }

    method SbDropBytes(len: nat)
      requires Valid(sb) && len <= sb.cc
      modifies this
      ensures sb == Step(old(sb), DropN(len)) && Valid(sb) && sb.cc == old(sb.cc) - len
      ensures len <= |Concat(Records(old(sb).records))|
      ensures Concat(Records(sb.records)) == Concat(Records(old(sb).records))[len..]
    {
      hide DropBytes, Concat;
      RecordsLength(sb.records);
      DropBytesIsPrefix(Records(sb.records), len);
      sb := SbDrop(sb, len);
    }

    /** One turn of the copying loop of soreceive: the bytes copied out, and the first mbuf freed or trimmed. */
    method SoTake(n: nat) returns (piece: seq<int>)
      requires Valid(sb) && sb.records != [] && sb.records[0] != [] && n <= |sb.records[0][0].data|
      modifies this
      ensures sb == TakeHead(old(sb), n) && Valid(sb) && piece == old(sb).records[0][0].data[..n]
      ensures n <= |Concat(Records(old(sb).records))|
      ensures Concat(Records(sb.records)) == Concat(Records(old(sb).records))[n..]
    {
      TakeHeadDrops(sb, n);
      var m, c, rest := sb.records[0][0], sb.records[0][1..], sb.records[1..];
      piece := m.data[..n];
      if n == |m.data| {
        sb := Sockbuf(if c == [] then rest else [c] + rest, sb.cc - n, sb.mbcnt - Charge(m));
      } else {
        sb := Sockbuf([[Trim(m, n)] + c] + rest, sb.cc - n, sb.mbcnt);
      }
    }

    method SbDropRecord()
      requires Valid(sb)
      modifies this
      ensures sb == Step(old(sb), DropRecord) && Valid(sb)
      ensures Records(old(sb).records)
        == (if old(sb).records == [] then [] else [Flat(old(sb).records[0])]) + Records(sb.records)
    {
      if sb.records != [] {
        ghost var before := sb;
        var m := sb.records[0];
        sb := sb.(records := sb.records[1..]);
        while m != []
          invariant sb.records == before.records[1..] && Fit(m) && Shaped(sb.records)
          invariant sb.cc == Length(m) + TotalLength(sb.records) && sb.mbcnt == Memory(m) + TotalMemory(sb.records)
          decreases |m|
        {
          sb := sb.(cc := sb.cc - |m[0].data|, mbcnt := sb.mbcnt - Charge(m[0]));
          assert forall i :: 0 <= i < |m| - 1 ==> m[1..][i] == m[i + 1];
          m := m[1..];
        }
      }
    }

    /** sbflush: drop everything until no memory is charged. Its panic is not reached. */
    method SbFlush()
      requires Valid(sb)
      modifies this
      ensures sb == EMPTY
    {
      while sb.mbcnt != 0
        invariant Valid(sb)
        decreases sb.mbcnt
      {
        sb := SbDrop(sb, sb.cc);
        MemoryPositive(sb.records);
      }
      MemoryPositive(sb.records);
    }
  }

  lemma MemoryEmpty()
    ensures Memory([]) == 0 && Length([]) == 0
  {
  }

  lemma {:induction false} MemoryPositive(rs: seq<Chain>)
    requires Shaped(rs)
    ensures TotalMemory(rs) >= 0 && (TotalMemory(rs) == 0 <==> rs == [])
  {
    if rs != [] {
      MemoryPositive(rs[1..]);
      assert Memory(rs[0]) >= MSIZE;
    }
  }
}
