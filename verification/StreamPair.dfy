/**
 * Back-pressure between the two ends of a connected Unix-domain stream.
 *
 * Data goes straight into the peer's receive buffer; the sender's limits are
 * lowered by what the peer holds and raised again as the peer reads. A send
 * measures the space, may then sleep while it copies, and only later delivers;
 * a receive removes data in pieces and reports once at the end. Over every
 * interleaving the limits and the peer's copy of its counts balance, at most
 * one pipe-full of bytes is queued, and what is queued arrives in order. A
 * message with rights can be dropped although its send succeeds: exactly when
 * is stated here, with the runs that show it.
 */
module StreamPair {
  import SB = SocketBuffer

  const PIPSIZ := 4096
  const MBMAX := 8192

  const MT_DATA := 1
  const MT_RIGHTS := 12
  const MMINOFF := 12
  const MLEN := 112

  /** Offset of the data of a cluster: any value above MMAXOFF. */
  const CLUSTER := SB.MSIZE

  datatype Option<T> = None | Some(value: T)

  /** Values of a sixteen-bit unsigned field. */
  function U16(x: int): (r: int)
    ensures 0 <= r < 0x1_0000
  {
    x % 0x1_0000
  }

  /** Sixteen-bit sums may be reduced as they go. */
  lemma WrapAdd(a: int, b: int)
    ensures U16(U16(a) + b) == U16(a + b)
  {
    var q := a / 0x1_0000;
    assert U16(a) + b == a + b - q * 0x1_0000;
    WrapMany(a + b, q);
  }

  lemma WrapMany(x: int, q: int)
    ensures U16(x - q * 0x1_0000) == U16(x)
  {
    var k, m := x / 0x1_0000, x % 0x1_0000;
    assert x - q * 0x1_0000 == (k - q) * 0x1_0000 + m;
  }

  lemma Small(x: int)
    ensures 0 <= x < 0x1_0000 ==> U16(x) == x
  {
  }

  function Min(a: int, b: int): int {
    if a < b then a else b
  }

  // ----- The mbufs of a message -----

  /** One mbuf of user data: does the space loop take a cluster for it, and how many bytes go in? */
  predicate TakesCluster(room: int, resid: nat, cluster: bool) {
    resid >= SB.MCLBYTES / 2 && room >= SB.MCLBYTES && cluster
  }

  function ChunkLength(room: int, resid: nat, cluster: bool): (len: nat)
    requires room > 0
    ensures len <= resid && len <= room && (resid > 0 ==> len > 0)
  {
    if TakesCluster(room, resid, cluster) then Min(SB.MCLBYTES, resid) else Min(Min(MLEN, resid), room)
  }

  function Chunk(room: int, user: seq<int>, cluster: bool): SB.Mbuf
    requires room > 0
  {
    SB.Mbuf(if TakesCluster(room, |user|, cluster) then CLUSTER else MMINOFF, MT_DATA,
            user[..ChunkLength(room, |user|, cluster)])
  }

  /** Whether a cluster can be had for the i-th mbuf. */
  predicate Available(clusters: seq<bool>, i: nat) {
    i < |clusters| && clusters[i]
  }

  /** The chain that sosend builds from the user's data in the room it has, from its i-th mbuf on. */
  function Fill(room: int, user: seq<int>, clusters: seq<bool>, i: nat): SB.Chain
    decreases |user|
  {
    if room <= 0 then []
    else
      var cluster := Available(clusters, i);
      var len := ChunkLength(room, |user|, cluster);
      var m := Chunk(room, user, cluster);
      if len == |user| then [m]
      else [m] + Fill(room - (if TakesCluster(room, |user|, cluster) then SB.MCLBYTES else len),
                      user[len..], clusters, i + 1)
  }

  /** However the clusters fall out, the chain carries exactly as much as both the user and the room allow. */
  lemma {:induction false} FillCarries(room: int, user: seq<int>, clusters: seq<bool>, i: nat)
    requires room > 0
    ensures var c, k := Fill(room, user, clusters, i), Min(|user|, room);
      SB.Length(c) == k && SB.Flat(c) == SB.Tag(MT_DATA, user[..k])
    decreases |user|
  {
    hide SB.Flat, SB.Length, SB.Memory, SB.Tag, Fill;
    FillUnfold(room, user, clusters, i);
    var cluster := Available(clusters, i);
    var len, m := ChunkLength(room, |user|, cluster), Chunk(room, user, cluster);
    SB.FlatOne(m);
    if len == |user| {
      assert user[..len] == user;
    } else {
      var room1, rest := room - (if TakesCluster(room, |user|, cluster) then SB.MCLBYTES else len), user[len..];
      SB.FlatConcat([m], Fill(room1, rest, clusters, i + 1));
      if room1 > 0 {
        FillCarries(room1, rest, clusters, i + 1);
        SB.TagConcat(MT_DATA, user[..len], rest[..Min(|rest|, room1)]);
        assert user[..len] + rest[..Min(|rest|, room1)] == user[..Min(|user|, room)];
      } else {
        FillNone(room1, rest, clusters, i + 1);
        SB.FitEmpty();
        assert SB.Tag(MT_DATA, user[..len]) + [] == SB.Tag(MT_DATA, user[..len]);
      }
    }
  }

  lemma {:induction false} FillFits(room: int, user: seq<int>, clusters: seq<bool>, i: nat)
    ensures SB.Fit(Fill(room, user, clusters, i))
    decreases |user|
  {
    if room > 0 {
      var cluster := Available(clusters, i);
      var len := ChunkLength(room, |user|, cluster);
      if len < |user| {
        FillFits(room - (if TakesCluster(room, |user|, cluster) then SB.MCLBYTES else len),
                 user[len..], clusters, i + 1);
      }
    }
  }

  /** Only an empty write makes an empty mbuf. */
  lemma {:induction false} FillNotEmpty(room: int, user: seq<int>, clusters: seq<bool>, i: nat, j: nat)
    requires room > 0 && user != [] && j < |Fill(room, user, clusters, i)|
    ensures Fill(room, user, clusters, i)[j].data != []
    decreases |user|
  {
    var cluster := Available(clusters, i);
    var len := ChunkLength(room, |user|, cluster);
    if len < |user| && j > 0 {
      var room1 := room - (if TakesCluster(room, |user|, cluster) then SB.MCLBYTES else len);
      if room1 > 0 {
        FillNotEmpty(room1, user[len..], clusters, i + 1, j - 1);
      }
    }
  }

  /** One turn of the space loop: the mbuf it fills, and the room and data left over. */
  method FillOne(room: int, user: seq<int>, cluster: bool) returns (m: SB.Mbuf, room1: int, left: seq<int>)
    requires room > 0
    ensures m == Chunk(room, user, cluster) && left == user[|m.data|..]
    ensures room1 == room - (if TakesCluster(room, |user|, cluster) then SB.MCLBYTES else |m.data|)
    ensures |m.data| == ChunkLength(room, |user|, cluster)
    ensures left != [] ==> room1 == room - |m.data| >= 0
  {
    if |user| >= SB.MCLBYTES / 2 && room >= SB.MCLBYTES && cluster {
      var len := Min(SB.MCLBYTES, |user|);
      m, room1, left := SB.Mbuf(CLUSTER, MT_DATA, user[..len]), room - SB.MCLBYTES, user[len..];
    } else {
      var len := Min(Min(MLEN, |user|), room);
      m, room1, left := SB.Mbuf(MMINOFF, MT_DATA, user[..len]), room - len, user[len..];
    }
  }

  /** The space loop of sosend; `rest` is what the user still has to send. */
  method FillChain(space: int, user: seq<int>, clusters: seq<bool>) returns (chain: SB.Chain, rest: seq<int>)
    requires space > 0
    ensures chain == Fill(space, user, clusters, 0) && rest == user[Min(|user|, space)..]
    ensures SB.Flat(chain) == SB.Tag(MT_DATA, user[..Min(|user|, space)])
  {
    hide SB.Flat, SB.Tag, Chunk, ChunkLength, TakesCluster, Fill;
    FillCarries(space, user, clusters, 0);
    chain, rest := [], user;
    var room := space;
    ghost var whole := Fill(space, user, clusters, 0);
    assert chain + whole == whole;
    while room > 0
      invariant 0 <= room <= space && space - room <= |user| && rest == user[space - room..]
      invariant chain + Fill(room, rest, clusters, |chain|) == whole
      invariant rest == [] ==> chain == []
      decreases room
    {
      FillUnfold(room, rest, clusters, |chain|);
      ghost var before, tail := chain, Fill(room, rest, clusters, |chain|);
      var m, room1, left := FillOne(room, rest, |chain| < |clusters| && clusters[|chain|]);
      chain := chain + [m];
      if left == [] {
        rest := [];
        return;
      }
      assert before + tail == chain + Fill(room1, left, clusters, |chain|);
      assert left == user[space - room1..];
      rest, room := left, room1;
    }
    FillNone(room, rest, clusters, |chain|);
  }

  lemma FillUnfold(room: int, user: seq<int>, clusters: seq<bool>, i: nat)
    requires room > 0
    ensures var cluster := Available(clusters, i);
      var m, len := Chunk(room, user, cluster), ChunkLength(room, |user|, cluster);
      var room1 := room - (if TakesCluster(room, |user|, cluster) then SB.MCLBYTES else len);
      Fill(room, user, clusters, i)
      == if len == |user| then [m] else [m] + Fill(room1, user[len..], clusters, i + 1)
  {
  }

  lemma FillNone(room: int, user: seq<int>, clusters: seq<bool>, i: nat)
    requires room <= 0
    ensures Fill(room, user, clusters, i) == []
  {
  }

  // ----- The pair as a machine -----

  /** A send in progress: the space it measured and the rights mbuf it carries, if any. */
  datatype Sender = NoSender | Sending(space: int, rights: Option<seq<int>>)

  /** Why sbappendrights can fail: its result is not looked at, so the message is dropped. */
  datatype Cause = OverLimit | EmptyRights | NoMbuf

  /**
   * One direction of the pair: the sender's sb_hiwat and sb_mbmax, the
   * receiver's buffer, the receiver's unp_cc and unp_mbcnt, who is sending or
   * receiving, and the history of the stream: what sends that succeeded were
   * given, what of it reached the buffer, what has been received, and why
   * anything was dropped.
   */
  datatype State = State(hiwat: int, mbmax: int, rcv: SB.Sockbuf, unpCc: int, unpMb: int,
                         sender: Sender, receiving: bool,
                         offered: seq<SB.Typed>, sent: seq<SB.Typed>, received: seq<SB.Typed>,
                         lost: set<Cause>, overcharged: bool)

  const CONNECTED := State(PIPSIZ, MBMAX, SB.EMPTY, 0, 0, NoSender, false, [], [], [], {}, false)

  datatype Action =
    | Measure(rights: Option<seq<int>>)                             // sosend: lock the buffer and find space
    | Deliver(user: seq<int>, clusters: seq<bool>, copied: bool)    // fill the chain and PRU_SEND
    | GiveUp                                                        // the user's data or the rights are bad
    | Take(n: nat)                                                  // soreceive: n bytes of the first mbuf
    | Report                                                        // PRU_RCVD at the end of soreceive

  /** The bytes waiting in the receiver's buffer, with their types. */
  function Queue(s: State): seq<SB.Typed> {
    SB.Concat(SB.Records(s.rcv.records))
  }

  function Rlen(rights: Option<seq<int>>): nat {
    if rights.Some? then |rights.value| else 0
  }

  /** sbspace of the sender's buffer, which itself stays empty. */
  function SendSpace(s: State): int {
    Min(s.hiwat, s.mbmax)
  }

  /** sbspace of the receiver's buffer, whose own limits do not move. */
  function ReceiveSpace(s: State): int {
    Min(PIPSIZ - s.rcv.cc, MBMAX - s.rcv.mbcnt)
  }

  predicate Enabled(s: State, a: Action) {
    match a
    case Measure(rights) => s.sender.NoSender? && Rlen(rights) <= MLEN && SendSpace(s) > Rlen(rights)
    case Deliver(user, clusters, copied) => s.sender.Sending?
    case GiveUp => s.sender.Sending?
    case Take(n) => s.rcv.records != [] && s.rcv.records[0] != [] && n <= |s.rcv.records[0][0].data|
    case Report => true
  }

  /** The data chain of a delivery. */
  function Data(s: State, user: seq<int>, clusters: seq<bool>): SB.Chain
    requires s.sender.Sending?
  {
    Fill(s.sender.space - Rlen(s.sender.rights), user, clusters, 0)
  }

  /** The mbuf chain of the whole message: the copy of the rights, if there are any, and the data. */
  function Message(s: State, user: seq<int>, clusters: seq<bool>): SB.Chain
    requires s.sender.Sending?
  {
    var data := Data(s, user, clusters);
    if s.sender.rights.Some? then [SB.Mbuf(MMINOFF, MT_RIGHTS, s.sender.rights.value)] + data else data
  }

  /**
   * sbappendrights fails: the message does not fit, the rights mbuf is empty
   * so that copying it yields nothing, or there is no mbuf for the copy.
   */
  predicate Refused(s: State, user: seq<int>, clusters: seq<bool>, copied: bool)
    requires s.sender.Sending?
  {
    && s.sender.rights.Some?
    && (SB.Length(Message(s, user, clusters)) > ReceiveSpace(s) || s.sender.rights.value == [] || !copied)
  }

  function CauseOf(s: State, user: seq<int>, clusters: seq<bool>): Cause
    requires s.sender.Sending? && s.sender.rights.Some?
  {
    if SB.Length(Message(s, user, clusters)) > ReceiveSpace(s) then OverLimit
    else if s.sender.rights.value == [] then EmptyRights
    else NoMbuf
  }

  /** sbappend, or the new record of sbappendrights. */
  function Appended(s: State, user: seq<int>, clusters: seq<bool>): SB.Sockbuf
    requires s.sender.Sending?
  {
    var m := Message(s, user, clusters);
    if s.sender.rights.Some? then SB.AppendRecord(s.rcv, m) else SB.Append(s.rcv, m)
  }

  function Delivered(s: State, user: seq<int>, clusters: seq<bool>, copied: bool): State
    requires s.sender.Sending?
  {
    var bytes := SB.Flat(Message(s, user, clusters));
    var t := s.(offered := s.offered + bytes);
    if Refused(s, user, clusters, copied) then t.(lost := s.lost + {CauseOf(s, user, clusters)})
    else t.(rcv := Appended(s, user, clusters), sent := s.sent + bytes)
  }

  /** The adjustment after a send: the limits go down by what the peer's buffer has gained since last time. */
  function Lower(s: State): State {
    s.(mbmax := U16(s.mbmax - (s.rcv.mbcnt - s.unpMb)), unpMb := s.rcv.mbcnt,
       hiwat := U16(s.hiwat - (s.rcv.cc - s.unpCc)), unpCc := s.rcv.cc)
  }

  /** The adjustment after a receive. */
  function Raise(s: State): State {
    s.(mbmax := U16(s.mbmax + (s.unpMb - s.rcv.mbcnt)), unpMb := s.rcv.mbcnt,
       hiwat := U16(s.hiwat + (s.unpCc - s.rcv.cc)), unpCc := s.rcv.cc)
  }

  function Step(s: State, a: Action): State
    requires Enabled(s, a)
  {
    match a
    case Measure(rights) =>
      s.(sender := Sending(SendSpace(s), rights), overcharged := s.overcharged || s.unpMb > MBMAX)
    case Deliver(user, clusters, copied) => Lower(Delivered(s, user, clusters, copied)).(sender := NoSender)
    case GiveUp => s.(sender := NoSender)
    case Take(n) =>
      var m := s.rcv.records[0][0];
      s.(rcv := SB.TakeHead(s.rcv, n), receiving := true, received := s.received + SB.Tag(m.kind, m.data[..n]))
    case Report => Raise(s).(receiving := false)
  }

  function Run(actions: seq<Action>): State {
    if actions == [] then CONNECTED
    else
      var s, a := Run(actions[..|actions| - 1]), actions[|actions| - 1];
      if Enabled(s, a) then Step(s, a) else s
  }

  /** The limits balance the peer's counts, and a send in progress still fits. */
  ghost predicate Balanced(s: State) {
    && SB.Valid(s.rcv)
    && s.hiwat + s.unpCc == PIPSIZ && s.hiwat >= 0
    && s.rcv.cc <= s.unpCc && s.rcv.mbcnt <= s.unpMb
    && s.mbmax == U16(MBMAX - s.unpMb)
    && (!s.receiving ==> s.rcv.cc == s.unpCc && s.rcv.mbcnt == s.unpMb)
    && (s.sender.Sending? ==> Rlen(s.sender.rights) <= MLEN)
    && (s.sender.Sending? ==> Rlen(s.sender.rights) < s.sender.space && s.sender.space + s.unpCc <= PIPSIZ)
  }

  /**
   * What reached the buffer is what was received followed by what is queued;
   * it is all that was offered unless something was dropped; and the memory
   * limit drops something only after an overcharge.
   */
  ghost predicate InOrder(s: State) {
    && s.sent == s.received + Queue(s)
    && (s.lost == {} ==> s.sent == s.offered)
    && (OverLimit in s.lost ==> s.overcharged)
    && (s.sender.Sending? && !s.overcharged ==> s.sender.space + s.unpMb <= MBMAX)
  }

  /** The message carries the rights and as much of the user's data as still fits the space measured. */
  lemma MessageCarries(s: State, user: seq<int>, clusters: seq<bool>)
    requires Balanced(s) && s.sender.Sending?
    ensures var m, rlen := Message(s, user, clusters), Rlen(s.sender.rights);
      && SB.Fit(m) && SB.Length(m) == rlen + Min(|user|, s.sender.space - rlen)
      && (s.sender.rights.Some? ==> m != [])
  {
    hide SB.Flat, SB.Length, SB.Memory, Fill, SB.Valid, U16;
    var room, data := s.sender.space - Rlen(s.sender.rights), Data(s, user, clusters);
    FillCarries(room, user, clusters, 0);
    FillFits(room, user, clusters, 0);
    if s.sender.rights.Some? {
      var r := SB.Mbuf(MMINOFF, MT_RIGHTS, s.sender.rights.value);
      SB.FlatOne(r);
      SB.FlatConcat([r], data);
    }
  }

  lemma AppendedIs(s: State, user: seq<int>, clusters: seq<bool>)
    requires Balanced(s) && s.sender.Sending?
    ensures var m, b := Message(s, user, clusters), Appended(s, user, clusters);
      && SB.Valid(b) && b.cc == s.rcv.cc + SB.Length(m) && b.mbcnt >= 0
      && SB.Concat(SB.Records(b.records)) == Queue(s) + SB.Flat(m)
  {
    hide SB.Flat, SB.Length, SB.Memory, SB.Append, SB.AppendRecord, SB.Fit, SB.Records, SB.Concat,
         SB.PlainStep, Message;
    var m, b := Message(s, user, clusters), Appended(s, user, clusters);
    MessageCarries(s, user, clusters);
    var a := if s.sender.rights.Some? then SB.NewRecord(m) else SB.Extend(m);
    SB.StepRefines(s.rcv, a);
    SB.PlainAppends(SB.Records(s.rcv.records), a);
    BytesCount(s.rcv);
    BytesCount(b);
    SB.FlatLength(m);
  }

  lemma BytesCount(b: SB.Sockbuf)
    requires SB.Valid(b)
    ensures |SB.Concat(SB.Records(b.records))| == b.cc && b.mbcnt >= 0
  {
    SB.RecordsLength(b.records);
    SB.ConcatLength(SB.Records(b.records));
  }

  lemma DeliverKeepsBalance(s: State, user: seq<int>, clusters: seq<bool>, copied: bool)
    requires Balanced(s) && s.sender.Sending?
    ensures Balanced(Step(s, Deliver(user, clusters, copied)))
  {
    hide U16, SB.Valid, Message, Appended, SB.Length, SB.Flat, Refused, CauseOf, Lower, Balanced;
    DeliveredIs(s, user, clusters, copied);
    LowerBalances(s, Delivered(s, user, clusters, copied));
  }

  /** A delivery changes no limit, and the bytes queued stay within what was measured. */
  lemma DeliveredIs(s: State, user: seq<int>, clusters: seq<bool>, copied: bool)
    requires Balanced(s) && s.sender.Sending?
    ensures var t := Delivered(s, user, clusters, copied);
      && SB.Valid(t.rcv) && s.rcv.cc <= t.rcv.cc <= s.rcv.cc + s.sender.space
      && t.hiwat == s.hiwat && t.mbmax == s.mbmax && t.unpCc == s.unpCc && t.unpMb == s.unpMb
  {
    hide U16, SB.Valid, Message, Appended, SB.Length, SB.Flat, Refused, CauseOf;
    MessageCarries(s, user, clusters);
    AppendedIs(s, user, clusters);
  }

  lemma LowerBalances(s: State, t: State)
    requires Balanced(s) && s.sender.Sending? && SB.Valid(t.rcv) && t.rcv.cc <= s.rcv.cc + s.sender.space
    requires t.hiwat == s.hiwat && t.mbmax == s.mbmax && t.unpCc == s.unpCc && t.unpMb == s.unpMb
    ensures Balanced(Lower(t).(sender := NoSender))
  {
    hide U16, SB.Valid;
    BytesCount(t.rcv);
    WrapAdd(MBMAX - s.unpMb, s.unpMb - t.rcv.mbcnt);
    Small(s.hiwat - (t.rcv.cc - s.unpCc));
  }

  lemma StepKeepsBalance(s: State, a: Action)
    requires Balanced(s) && Enabled(s, a)
    ensures Balanced(Step(s, a))
  {
    hide U16, SB.Valid, Message, Appended, SB.Flat, SB.TakeHead;
    match a
    case Measure(rights) =>
    case Deliver(user, clusters, copied) => DeliverKeepsBalance(s, user, clusters, copied);
    case GiveUp =>
    case Take(n) => TakenIs(s, n);
    case Report =>
      BytesCount(s.rcv);
      WrapAdd(MBMAX - s.unpMb, s.unpMb - s.rcv.mbcnt);
      Small(s.hiwat + (s.unpCc - s.rcv.cc));
  }

  /** What a piece taken leaves: the bytes go from the front of the queue. */
  lemma TakenIs(s: State, n: nat)
    requires SB.Valid(s.rcv) && Enabled(s, Take(n))
    ensures var b, m := SB.TakeHead(s.rcv, n), s.rcv.records[0][0];
      && SB.Valid(b) && b.cc == s.rcv.cc - n && b.mbcnt <= s.rcv.mbcnt
      && Queue(s) == SB.Tag(m.kind, m.data[..n]) + SB.Concat(SB.Records(b.records))
  {
    hide SB.Valid;
    SB.TakeHeadDrops(s.rcv, n);
    FrontOf(s.rcv, n);
  }

  lemma FrontOf(b: SB.Sockbuf, n: nat)
    requires b.records != [] && b.records[0] != [] && n <= |b.records[0][0].data|
    ensures var m, q := b.records[0][0], SB.Concat(SB.Records(b.records));
      n <= |q| && q[..n] == SB.Tag(m.kind, m.data[..n])
  {
    var m := b.records[0][0];
    assert SB.Records(b.records)[0] == SB.Flat(b.records[0]);
    assert SB.Tag(m.kind, m.data)[..n] == SB.Tag(m.kind, m.data[..n]);
  }

  /** With no overcharge the message fits: the peer's memory has room for all that was measured. */
  lemma FitsUnlessOvercharged(s: State, user: seq<int>, clusters: seq<bool>)
    requires Balanced(s) && InOrder(s) && s.sender.Sending? && !s.overcharged
    ensures SB.Length(Message(s, user, clusters)) <= ReceiveSpace(s)
  {
    hide SB.Valid, U16, Message;
    MessageCarries(s, user, clusters);
  }

  lemma DeliverKeepsOrder(s: State, user: seq<int>, clusters: seq<bool>, copied: bool)
    requires Balanced(s) && InOrder(s) && s.sender.Sending?
    ensures InOrder(Step(s, Deliver(user, clusters, copied)))
  {
    hide U16, SB.Valid, Message, Appended, SB.Length, SB.Flat, ReceiveSpace, SB.Records, SB.Concat;
    AppendedIs(s, user, clusters);
    var bytes := SB.Flat(Message(s, user, clusters));
    assert s.received + (Queue(s) + bytes) == s.sent + bytes;
    if !s.overcharged {
      FitsUnlessOvercharged(s, user, clusters);
    }
  }

  lemma StepKeepsOrder(s: State, a: Action)
    requires Balanced(s) && InOrder(s) && Enabled(s, a)
    ensures InOrder(Step(s, a))
  {
    hide U16, SB.Valid, Message, Appended, SB.Flat, SB.TakeHead, SB.Records, SB.Concat, SB.Tag;
    match a
    case Measure(rights) => Small(MBMAX - s.unpMb);
    case Deliver(user, clusters, copied) => DeliverKeepsOrder(s, user, clusters, copied);
    case GiveUp =>
    case Take(n) =>
      TakenIs(s, n);
      var m := s.rcv.records[0][0];
      assert s.received + SB.Tag(m.kind, m.data[..n]) + Queue(Step(s, a)) == s.received + Queue(s);
    case Report =>
  }

  /**
   * Over every run: sb_hiwat plus unp_cc is 4096 and sb_mbmax plus unp_mbcnt
   * is 8192 in sixteen bits, at most 4096 bytes are queued, unp_cc is the
   * number of bytes queued whenever no receive is under way, the bytes
   * received are a prefix of those that reached the buffer, and if nothing was
   * dropped these are all that the sends were given.
   */
  lemma {:induction false} EveryRunBalances(actions: seq<Action>)
    ensures var s := Run(actions);
      && Balanced(s) && InOrder(s)
      && s.hiwat + s.unpCc == PIPSIZ && |Queue(s)| == s.rcv.cc <= PIPSIZ
      && s.received <= s.sent && (s.lost == {} ==> s.offered == s.received + Queue(s))
  {
    hide Balanced, InOrder, Step, Enabled;
    if actions == [] {
      StartsBalanced();
    } else {
      var s, a := Run(actions[..|actions| - 1]), actions[|actions| - 1];
      EveryRunBalances(actions[..|actions| - 1]);
      if Enabled(s, a) {
        StepKeepsBalance(s, a);
        StepKeepsOrder(s, a);
      }
    }
    BalancedMeans(Run(actions));
  }

  lemma StartsBalanced()
    ensures Balanced(CONNECTED) && InOrder(CONNECTED)
  {
  }

  lemma BalancedMeans(s: State)
    requires Balanced(s) && InOrder(s)
    ensures s.hiwat + s.unpCc == PIPSIZ && |Queue(s)| == s.rcv.cc <= PIPSIZ
    ensures s.received <= s.sent && (s.lost == {} ==> s.offered == s.received + Queue(s))
  {
    BytesCount(s.rcv);
  }

  /** After every completed send or receive the receiver's copy is exact, and the sender's limit mirrors the queue. */
  lemma CompletedIsExact(actions: seq<Action>, a: Action)
    requires Enabled(Run(actions), a) && (a.Deliver? || a.Report?)
    ensures var t := Step(Run(actions), a);
      t.unpCc == t.rcv.cc == |Queue(t)| && t.unpMb == t.rcv.mbcnt && t.hiwat == PIPSIZ - t.rcv.cc
  {
    hide Run;
    EveryRunBalances(actions);
    StepKeepsBalance(Run(actions), a);
    BytesCount(Step(Run(actions), a).rcv);
  }

  /**
   * A message is silently dropped exactly when it comes with a rights mbuf and
   * that mbuf is empty, or no mbuf can be had for its copy, or the receiver's
   * memory (its bytes never) is short. The last takes a measurement made while
   * the receiver was charged more than its limit.
   */
  lemma RefusedIff(actions: seq<Action>, user: seq<int>, clusters: seq<bool>, copied: bool)
    requires Enabled(Run(actions), Deliver(user, clusters, copied))
    ensures var s := Run(actions);
      var n := SB.Length(Message(s, user, clusters));
      && (Refused(s, user, clusters, copied) <==>
           s.sender.rights.Some? && (s.sender.rights.value == [] || !copied || s.rcv.mbcnt + n > MBMAX))
      && (s.rcv.mbcnt + n > MBMAX ==> s.overcharged)
  {
    hide Run, Message, SB.Valid, U16;
    var s := Run(actions);
    EveryRunBalances(actions);
    MessageCarries(s, user, clusters);
    if !s.overcharged {
      FitsUnlessOvercharged(s, user, clusters);
    }
  }

  /** So rights that are not empty, sent when mbufs can be had and the receiver was never overcharged, always arrive. */
  lemma RightsArrive(actions: seq<Action>, user: seq<int>, clusters: seq<bool>)
    requires Enabled(Run(actions), Deliver(user, clusters, true)) && !Run(actions).overcharged
    requires Run(actions).sender.rights != Some([])
    ensures var s := Run(actions);
      Queue(Step(s, Deliver(user, clusters, true))) == Queue(s) + SB.Flat(Message(s, user, clusters))
  {
    hide Run, Message, SB.Valid, U16, Refused, Appended, SB.Flat;
    EveryRunBalances(actions);
    RefusedIff(actions, user, clusters, true);
    AppendedIs(Run(actions), user, clusters);
  }

  /** The space a send measures: what is left of 4096 bytes, or of 8192 bytes of memory in sixteen bits. */
  lemma MeasureMeans(actions: seq<Action>, rights: Option<seq<int>>)
    requires Enabled(Run(actions), Measure(rights))
    ensures var s := Run(actions);
      var t := Step(s, Measure(rights));
      && t.sender == Sending(Min(4096 - s.unpCc, (8192 - s.unpMb) % 0x1_0000), rights)
      && t.rcv == s.rcv && t.hiwat == s.hiwat && t.mbmax == s.mbmax
  {
    hide Run;
    EveryRunBalances(actions);
  }

  /** The bytes of a message: the rights first, and then what fits of the user's data. */
  lemma MessageIs(s: State, user: seq<int>, clusters: seq<bool>)
    requires Balanced(s) && s.sender.Sending?
    ensures var k := Min(|user|, s.sender.space - Rlen(s.sender.rights));
      && 0 <= k <= |user|
      && SB.Flat(Message(s, user, clusters))
         == (if s.sender.rights.Some? then SB.Tag(12, s.sender.rights.value) else []) + SB.Tag(1, user[..k])
  {
    hide SB.Flat, SB.Length, SB.Memory, Fill, SB.Valid, U16, SB.Tag;
    FillCarries(s.sender.space - Rlen(s.sender.rights), user, clusters, 0);
    var data := Data(s, user, clusters);
    if s.sender.rights.Some? {
      var r := SB.Mbuf(MMINOFF, MT_RIGHTS, s.sender.rights.value);
      SB.FlatOne(r);
      SB.FlatConcat([r], data);
    }
  }

  /**
   * What a delivery leaves in the buffer, record by record. Rights begin a new
   * record, with the data in it; plain data goes to the end of the last one.
   */
  lemma DeliverMeans(actions: seq<Action>, user: seq<int>, clusters: seq<bool>, copied: bool)
    requires Enabled(Run(actions), Deliver(user, clusters, copied))
    ensures var s := Run(actions); 0 <= Min(|user|, s.sender.space - Rlen(s.sender.rights))
    ensures var s := Run(actions);
      var t := Step(s, Deliver(user, clusters, copied));
      var k, rs := Min(|user|, s.sender.space - Rlen(s.sender.rights)), SB.Records(s.rcv.records);
      var n, data := |rs|, SB.Tag(1, user[..k]);
      && t.sender == NoSender
      && (s.sender.rights.Some? && !Refused(s, user, clusters, copied) ==>
           SB.Records(t.rcv.records) == rs + [SB.Tag(12, s.sender.rights.value) + data])
      && (s.sender.rights.Some? && Refused(s, user, clusters, copied) ==> t.rcv == s.rcv)
      && (s.sender.rights.None? && n > 0 ==> SB.Records(t.rcv.records) == rs[..n - 1] + [rs[n - 1] + data])
      && (s.sender.rights.None? && n == 0 ==> SB.Records(t.rcv.records) == if k == 0 then [] else [data])
  {
    hide Run, SB.Flat, SB.Tag, SB.Valid, SB.Append, SB.AppendRecord, Message, Refused, CauseOf, SB.Records, U16;
    var s := Run(actions);
    EveryRunBalances(actions);
    MessageCarries(s, user, clusters);
    MessageIs(s, user, clusters);
    var m := Message(s, user, clusters);
    SB.StepRefines(s.rcv, if s.sender.rights.Some? then SB.NewRecord(m) else SB.Extend(m));
    SB.LastGrows(SB.Records(s.rcv.records), SB.Flat(m));
    NoneBefore(user, Min(|user|, s.sender.space - Rlen(s.sender.rights)));
    OnlyRightsRefused(s, user, clusters, copied);
  }

  lemma OnlyRightsRefused(s: State, user: seq<int>, clusters: seq<bool>, copied: bool)
    requires s.sender.Sending?
    ensures s.sender.rights.None? ==> !Refused(s, user, clusters, copied)
  {
  }

  lemma NoneBefore(user: seq<int>, k: int)
    requires 0 <= k <= |user|
    ensures [] + SB.Tag(1, user[..k]) == SB.Tag(1, user[..k]) && (SB.Tag(1, user[..k]) == [] <==> k == 0)
  {
    assert |SB.Tag(1, user[..k])| == k;
  }

  // ----- Runs that lose a message -----

  /** One more action of a run. */
  lemma RunOne(actions: seq<Action>, a: Action)
    requires Enabled(Run(actions), a)
    ensures Run(actions + [a]) == Step(Run(actions), a)
  {
    assert (actions + [a])[..|actions|] == actions;
  }

  lemma RunNone()
    ensures Run([]) == CONNECTED
  {
  }

  /** Whatever is sent along with an empty rights mbuf vanishes, and nothing reaches the receiver. */
  lemma EmptyRightsLoseAll(actions: seq<Action>, user: seq<int>, clusters: seq<bool>, copied: bool)
    requires Enabled(Run(actions), Deliver(user, clusters, copied)) && Run(actions).sender.rights == Some([])
    ensures var s := Run(actions);
      var t := Step(s, Deliver(user, clusters, copied));
      && t.rcv == s.rcv && t.lost != {} && s.sender.space >= 0
      && t.offered == s.offered + SB.Tag(MT_DATA, user[..Min(|user|, s.sender.space)])
  {
    hide Run, Fill, SB.Flat, SB.Tag, U16, SB.Valid;
    var s := Run(actions);
    EveryRunBalances(actions);
    FillCarries(s.sender.space, user, clusters, 0);
    EmptyFirst(Data(s, user, clusters));
  }

  lemma EmptyFirst(data: SB.Chain)
    ensures SB.Flat([SB.Mbuf(MMINOFF, MT_RIGHTS, [])] + data) == SB.Flat(data)
  {
    var r := SB.Mbuf(MMINOFF, MT_RIGHTS, []);
    SB.FlatOne(r);
    SB.FlatConcat([r], data);
    assert SB.Tag(MT_RIGHTS, []) + SB.Flat(data) == SB.Flat(data);
  }

  /** On a fresh pair: one byte sent with an empty rights mbuf is gone, with mbufs to be had and nothing overcharged. */
  lemma OneByteIsLost()
    ensures var s := Run([] + [Measure(Some([]))] + [Deliver([7], [], true)]);
      && s.offered == [SB.Typed(MT_DATA, 7)] && s.rcv == SB.EMPTY && s.sent == []
      && s.lost == {EmptyRights} && !s.overcharged
  {
    hide Run, Fill;
    RunNone();
    RunOne([], Measure(Some([])));
    var a := [] + [Measure(Some([]))];
    RunOne(a, Deliver([7], [], true));
    EmptyRightsLoseAll(a, [7], [], true);
    MessageCarries(Run(a), [7], []) by { EveryRunBalances(a); }
    assert [7][..1] == [7] && SB.Tag(MT_DATA, [7]) == [SB.Typed(MT_DATA, 7)];
  }

  function Zeros(n: nat): (r: seq<int>)
    ensures |r| == n
  {
    seq(n, _ => 0)
  }

  /** The mbuf that carries 512 bytes when a cluster can be had: it is charged 1152. */
  const BIG := SB.Mbuf(CLUSTER, MT_DATA, Zeros(512))

  /** k writes of 512 bytes, each of which is given a cluster. */
  function Clusters(k: nat): seq<Action> {
    if k == 0 then [] else Clusters(k - 1) + [Measure(None)] + [Deliver(Zeros(512), [true], true)]
  }

  function BigChain(k: nat): SB.Chain {
    if k == 0 then [] else BigChain(k - 1) + [BIG]
  }

  lemma {:induction false} BigMeasures(k: nat)
    ensures SB.Length(BigChain(k)) == 512 * k && SB.Memory(BigChain(k)) == 1152 * k && |BigChain(k)| == k
    ensures k > 0 ==> BigChain(k)[k - 1] == BIG
  {
    if k > 0 {
      BigMeasures(k - 1);
      SB.FlatConcat(BigChain(k - 1), [BIG]);
      SB.FlatOne(BIG);
    }
  }

  /** A buffer of one record. */
  lemma OneRecord(b: SB.Sockbuf, c: SB.Chain)
    requires SB.Valid(b) && b.records == [c]
    ensures b.cc == SB.Length(c) && b.mbcnt == SB.Memory(c)
  {
    assert b.records[0] == c && b.records[1..] == [];
    assert SB.TotalLength([]) == 0 && SB.TotalMemory([]) == 0;
  }

  /** The idle state whose buffer holds one record of k clusters. */
  ghost predicate Holds(s: State, c: SB.Chain) {
    && s.sender.NoSender? && !s.receiving
    && s.rcv.records == (if c == [] then [] else [c])
    && s.rcv.cc == s.unpCc == SB.Length(c) && s.rcv.mbcnt == s.unpMb == SB.Memory(c)
  }

  /** A completed write of `user` to an idle pair: the buffer's one record takes in the chain of the space loop. */
  lemma WriteRound(actions: seq<Action>, c: SB.Chain, user: seq<int>, clusters: seq<bool>)
    requires Holds(Run(actions), c) && SendSpace(Run(actions)) > 0 && user != []
    ensures var s := Run(actions);
      Holds(Run(actions + [Measure(None)] + [Deliver(user, clusters, true)]),
            SB.Compress(c, Fill(SendSpace(s), user, clusters, 0), 0))
  {
    hide Run, U16, Fill, SB.Compress, SB.Length, SB.Memory, SB.Flat;
    var s := Run(actions);
    EveryRunBalances(actions);
    var m := Fill(SendSpace(s), user, clusters, 0);
    RunOne(actions, Measure(None));
    var a := actions + [Measure(None)];
    EveryRunBalances(a);
    RunOne(a, Deliver(user, clusters, true));
    EveryRunBalances(a + [Deliver(user, clusters, true)]);
    FillCarries(SendSpace(s), user, clusters, 0);
    var c1 := SB.Compress(c, m, 0);
    SB.CompressAdds(c, m, 0);
    assert m[0..] == m;
    OneRecord(Run(a + [Deliver(user, clusters, true)]).rcv, c1);
  }

  lemma {:induction false} ClustersHold(k: nat)
    requires k <= 7
    ensures Holds(Run(Clusters(k)), BigChain(k))
    ensures var s := Run(Clusters(k)); s.hiwat == PIPSIZ - 512 * k && s.mbmax == MBMAX - 1152 * k
  {
    hide Run, SB.Compress, Fill, Holds, BigChain, BIG, Zeros;
    if k == 0 {
      NothingHeld();
    } else {
      ClustersHold(k - 1);
      WriteRound(Clusters(k - 1), BigChain(k - 1), Zeros(512), [true]);
      BigFill(SendSpace(Run(Clusters(k - 1))));
      BigAppends(k - 1);
    }
    ClusterLimits(k);
  }

  lemma NothingHeld()
    ensures Holds(Run(Clusters(0)), BigChain(0))
  {
    RunNone();
  }

  lemma ClusterLimits(k: nat)
    requires k <= 7 && Holds(Run(Clusters(k)), BigChain(k))
    ensures var s := Run(Clusters(k)); s.hiwat == PIPSIZ - 512 * k && s.mbmax == MBMAX - 1152 * k
  {
    hide Run, Clusters, SB.Length, SB.Memory;
    EveryRunBalances(Clusters(k));
    BigMeasures(k);
    Small(MBMAX - 1152 * k);
  }

  /** With room for a cluster, 512 bytes go into one. */
  lemma BigFill(room: int)
    requires room >= SB.MCLBYTES
    ensures Fill(room, Zeros(512), [true], 0) == [BIG]
  {
    assert Zeros(512)[..512] == Zeros(512);
  }

  /** A cluster is never merged with what is before it. */
  lemma BigAppends(k: nat)
    ensures SB.Compress(BigChain(k), [BIG], 0) == BigChain(k + 1)
  {
    BigMeasures(k);
  }

  /** 128 bytes in 128 bytes of room take two mbufs, charged 256. */
  const LITTLE := [SB.Mbuf(MMINOFF, MT_DATA, Zeros(112)), SB.Mbuf(MMINOFF, MT_DATA, Zeros(16))]

  lemma LittleFill()
    ensures Fill(128, Zeros(128), [], 0) == LITTLE
  {
    var rest := Zeros(128)[112..];
    assert Zeros(128)[..112] == Zeros(112);
    assert rest[..16] == Zeros(16);
    FillUnfold(128, Zeros(128), [], 0);
    FillUnfold(16, rest, [], 1);
  }

  lemma LittleAppends()
    ensures SB.Compress(BigChain(7), LITTLE, 0) == BigChain(7) + LITTLE
    ensures SB.Length(BigChain(7) + LITTLE) == 3712 && SB.Memory(BigChain(7) + LITTLE) == 8320
  {
    BigMeasures(7);
    var c1 := BigChain(7) + [LITTLE[0]];
    assert SB.Absorb(BigChain(7), LITTLE[0]) == c1;
    assert c1[|c1| - 1] == LITTLE[0];
    assert SB.Absorb(c1, LITTLE[1]) == BigChain(7) + LITTLE;
    assert SB.Compress(c1, LITTLE, 1) == SB.Compress(BigChain(7) + LITTLE, LITTLE, 2);
    assert SB.Compress(BigChain(7), LITTLE, 0) == SB.Compress(c1, LITTLE, 1);
    SB.FlatConcat(BigChain(7), LITTLE);
    assert LITTLE == [LITTLE[0]] + [LITTLE[1]];
    SB.FlatConcat([LITTLE[0]], [LITTLE[1]]);
    SB.FlatOne(LITTLE[0]);
    SB.FlatOne(LITTLE[1]);
  }

  /** Seven writes of a cluster each and one of 128 bytes, and then four bytes of rights. */
  const CHARGING := Clusters(7) + [Measure(None)] + [Deliver(Zeros(128), [], true)]
  const OVERCHARGING := CHARGING + [Measure(Some([0, 0, 0, 0]))] + [Deliver([], [], true)]

  lemma ChargingHolds()
    ensures Holds(Run(CHARGING), BigChain(7) + LITTLE)
    ensures var s := Run(CHARGING);
      s.hiwat == 384 && s.mbmax == 0x1_0000 - 128 && s.rcv.cc == 3712 && s.rcv.mbcnt == 8320
  {
    hide Run, SB.Length, SB.Memory, SB.Compress, Fill, Clusters;
    ClustersHold(7);
    WriteRound(Clusters(7), BigChain(7), Zeros(128), []);
    LittleFill();
    LittleAppends();
    EveryRunBalances(CHARGING);
  }

  /**
   * Such a measurement happens: seven clusters and two mbufs charge 8320 of
   * 8192, the sixteen-bit sb_mbmax wraps to look wide open, and the rights
   * sent next disappear although the send succeeds and mbufs can be had.
   */
  lemma RightsCanBeLost()
    ensures Run(OVERCHARGING).lost == {OverLimit} && Run(OVERCHARGING).rcv == Run(CHARGING).rcv
  {
    hide Run, SB.Length, SB.Memory, SB.Compress, Fill, U16;
    var r := [0, 0, 0, 0];
    ChargingHolds();
    RunOne(CHARGING, Measure(Some(r)));
    var a := CHARGING + [Measure(Some(r))];
    EveryRunBalances(a);
    MessageCarries(Run(a), [], []);
    RunOne(a, Deliver([], [], true));
    NothingLostYet();
  }

  lemma NothingLostYet()
    ensures Run(CHARGING).lost == {}
  {
    hide Run, Step, Enabled;
    ClustersLoseNothing(7);
    LosesNothing(Clusters(7), Zeros(128), []);
  }

  /** Messages without rights are never dropped. */
  lemma LosesNothing(actions: seq<Action>, user: seq<int>, clusters: seq<bool>)
    requires Enabled(Run(actions), Measure(None))
    ensures Run(actions + [Measure(None)] + [Deliver(user, clusters, true)]).lost == Run(actions).lost
  {
    hide Run, Appended, Message, SB.Flat;
    RunOne(actions, Measure(None));
    RunOne(actions + [Measure(None)], Deliver(user, clusters, true));
  }

  lemma {:induction false} ClustersLoseNothing(k: nat)
    requires k <= 7
    ensures Run(Clusters(k)).lost == {} && Enabled(Run(Clusters(k)), Measure(None))
  {
    hide Run, SB.Length, SB.Memory;
    ClustersHold(k);
    if k == 0 {
      RunNone();
    } else {
      ClustersLoseNothing(k - 1);
      LosesNothing(Clusters(k - 1), Zeros(512), [true]);
    }
  }

  // ----- The code in place -----

  /** One direction of the pair as the kernel keeps it, with its history as ghosts. */
  class Pair {
    var hiwat: int
    var mbmax: int
    const rcv: SB.Buffer
    var unpCc: int
    var unpMb: int
    ghost var sender: Sender
    ghost var receiving: bool
    ghost var offered: seq<SB.Typed>
    ghost var sent: seq<SB.Typed>
    ghost var received: seq<SB.Typed>
    ghost var lost: set<Cause>
    ghost var overcharged: bool

    /** Two ends just connected. */
    constructor (rcv: SB.Buffer)
      requires rcv.sb == SB.EMPTY
      ensures this.rcv == rcv && View() == CONNECTED && Good()
    {
      this.rcv := rcv;
      hiwat, mbmax, unpCc, unpMb := PIPSIZ, MBMAX, 0, 0;
      sender, receiving, offered, sent, received, lost, overcharged := NoSender, false, [], [], [], {}, false;
    }

    ghost function View(): State
      reads this, rcv
    {
      State(hiwat, mbmax, rcv.sb, unpCc, unpMb, sender, receiving, offered, sent, received, lost, overcharged)
    }

    ghost predicate Good()
      reads this, rcv
    {
      Balanced(View()) && InOrder(View())
    }

    /** The moment sosend has the buffer locked and finds room. */
    method MeasureSpace(rights: Option<seq<int>>) returns (space: int)
      requires Good() && Enabled(View(), Measure(rights))
      modifies this
      ensures Good() && View() == Step(old(View()), Measure(rights)) && sender == Sending(space, rights)
    {
      hide Balanced, InOrder, U16;
      StepKeepsBalance(View(), Measure(rights));
      StepKeepsOrder(View(), Measure(rights));
      space := Min(hiwat, mbmax);
      sender := Sending(space, rights);
      overcharged := overcharged || unpMb > MBMAX;
    }

    /**
     * sbappendrights: nothing happens if the message is too long or the rights
     * cannot be copied, which nobody is told.
     */
    method AppendRights(m: SB.Chain, rights: seq<int>, copied: bool) returns (ok: bool)
      requires SB.Valid(rcv.sb) && SB.Fit(m) && m != [] && m[0].data == rights
      modifies rcv
      ensures SB.Valid(rcv.sb)
      ensures ok <==> SB.Length(m) <= Min(PIPSIZ - old(rcv.sb).cc, MBMAX - old(rcv.sb).mbcnt) && rights != [] && copied
      ensures rcv.sb == if ok then SB.AppendRecord(old(rcv.sb), m) else old(rcv.sb)
    {
      hide SB.Valid, SB.AppendRecord, SB.Length;
      var space := SB.Length(m);
      if space > Min(PIPSIZ - rcv.sb.cc, MBMAX - rcv.sb.mbcnt) {
        return false;
      }
      if rights == [] || !copied {
        return false;
      }
      rcv.SbAppendRecord(m);
      ok := true;
    }

    /** PRU_SEND: append to the peer, with rights all or nothing, then lower the limits. */
    method PruSend(user: seq<int>, rights: Option<seq<int>>, space: int, clusters: seq<bool>, copied: bool)
      returns (rest: seq<int>)
      requires Good() && sender == Sending(space, rights)
      modifies this, rcv
      ensures Good() && View() == Step(old(View()), Deliver(user, clusters, copied))
      ensures 0 <= Min(|user|, space - Rlen(rights)) && rest == user[Min(|user|, space - Rlen(rights))..]
    {
      hide Balanced, InOrder, Delivered, Lower, Fill, SB.Flat, SB.Fit, SB.Valid;
      ghost var s := View();
      StepKeepsBalance(s, Deliver(user, clusters, copied));
      StepKeepsOrder(s, Deliver(user, clusters, copied));
      SendReady(s, user, clusters);
      var data;
      data, rest := FillChain(space - Rlen(rights), user, clusters);
      Enqueue(user, rights, data, clusters, copied);
      LowerLimits();
    }

    /** The peer's buffer takes the message, or does not; the history is kept. */
    method Enqueue(ghost user: seq<int>, rights: Option<seq<int>>, data: SB.Chain, ghost clusters: seq<bool>,
                   copied: bool)
      requires sender.Sending? && sender.rights == rights && data == Data(View(), user, clusters)
      requires SB.Valid(rcv.sb) && SB.Fit(Message(View(), user, clusters))
      modifies this, rcv
      ensures View() == Delivered(old(View()), user, clusters, copied)
    {
      hide SB.Valid, SB.Append, SB.AppendRecord, SB.Flat, SB.Length, SB.Fit, Fill;
      ghost var s := View();
      ghost var bytes := SB.Flat(Message(s, user, clusters));
      if rights.Some? {
        var ok := AppendRights([SB.Mbuf(MMINOFF, MT_RIGHTS, rights.value)] + data, rights.value, copied);
        lost := if ok then lost else lost + {CauseOf(s, user, clusters)};
        sent := if ok then sent + bytes else sent;
      } else {
        rcv.SbAppend(data);
        sent := sent + bytes;
      }
      offered := offered + bytes;
    }

    method LowerLimits()
      modifies this`mbmax, this`unpMb, this`hiwat, this`unpCc, this`sender
      ensures View() == Lower(old(View())).(sender := NoSender)
    {
      mbmax := U16(mbmax - (rcv.sb.mbcnt - unpMb));
      unpMb := rcv.sb.mbcnt;
      hiwat := U16(hiwat - (rcv.sb.cc - unpCc));
      unpCc := rcv.sb.cc;
      sender := NoSender;
    }

    /** One turn of the copying loop of soreceive. */
    method TakePiece(n: nat) returns (piece: seq<int>)
      requires Good() && Enabled(View(), Take(n))
      modifies this, rcv
      ensures Good() && View() == Step(old(View()), Take(n))
      ensures var m := old(rcv.sb).records[0][0];
        piece == m.data[..n] && old(Queue(View())) == SB.Tag(m.kind, piece) + Queue(View())
    {
      hide InOrder, U16, SB.Valid, SB.TakeHead, SB.Records, SB.Concat;
      ghost var s := View();
      StepKeepsBalance(s, Take(n));
      StepKeepsOrder(s, Take(n));
      TakenIs(s, n);
      ghost var m := rcv.sb.records[0][0];
      piece := rcv.SoTake(n);
      receiving, received := true, received + SB.Tag(m.kind, piece);
    }

    /** PRU_RCVD: give back to the sender what the reader has taken. */
    method PruRcvd()
      requires Good()
      modifies this
      ensures Good() && View() == Step(old(View()), Report)
    {
      hide Balanced, InOrder, U16;
      StepKeepsBalance(View(), Report);
      StepKeepsOrder(View(), Report);
      mbmax := U16(mbmax + (unpMb - rcv.sb.mbcnt));
      unpMb := rcv.sb.mbcnt;
      hiwat := U16(hiwat + (unpCc - rcv.sb.cc));
      unpCc := rcv.sb.cc;
      receiving := false;
    }
  }

  /** What a delivery may rely on. */
  lemma SendReady(s: State, user: seq<int>, clusters: seq<bool>)
    requires Balanced(s) && s.sender.Sending?
    ensures SB.Valid(s.rcv) && s.sender.space > Rlen(s.sender.rights) && SB.Fit(Message(s, user, clusters))
  {
    MessageCarries(s, user, clusters);
  }
}
