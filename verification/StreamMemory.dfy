/**
 * The memory that a Unix-domain stream can be charged for.
 *
 * sb_cc and sb_mbcnt are sixteen-bit fields. The byte count is bounded by the
 * limit that senders respect; the memory count is not, since sb_mbmax itself
 * wraps. That it still always fits comes from the shape of what is queued:
 * sbcompress leaves no two neighbours that could be merged, clusters are only
 * taken for half a cluster of data, and a record of rights is only begun while
 * the memory is below its limit.
 */
module StreamMemory {
  import SB = SocketBuffer
  import SP = StreamPair

  /** An mbuf as the space loop fills it, and as sbcompress may have grown it. */
  predicate Sound(m: SB.Mbuf) {
    m.kind == SP.MT_DATA && (m.off == SP.MMINOFF || (m.off > SB.MMAXOFF && |m.data| >= SB.MCLBYTES / 2))
  }

  /** Data mbufs none of which could have been merged with the one before it. */
  ghost predicate Packed(c: SB.Chain) {
    && (forall i :: 0 <= i < |c| ==> Sound(c[i]))
    && (forall i :: 0 < i < |c| ==> !SB.Mergeable(c[i - 1], c[i]))
  }

  /** A record from its second mbuf on; the first may be rights, or partly read. */
  ghost predicate Tail(c: SB.Chain) {
    c == [] || Packed(c[1..])
  }

  /** Only the first record can begin with a cluster: the others begin with rights. */
  ghost predicate Ordinary(c: SB.Chain) {
    Tail(c) && (c != [] ==> c[0].off <= SB.MMAXOFF)
  }

  const MOST_RECORDS := SP.MBMAX / SB.MSIZE

  ghost predicate Thrifty(rs: seq<SB.Chain>) {
    && |rs| <= MOST_RECORDS && (rs != [] ==> Tail(rs[0]))
    && (forall i :: 0 < i < |rs| ==> Ordinary(rs[i]))
  }

  // ----- What is packed is cheap -----

  lemma PackedRest(c: SB.Chain, n: nat)
    requires Packed(c) && n <= |c|
    ensures Packed(c[n..])
  {
    hide SB.Mergeable, Sound;
    var d := c[n..];
    forall i | 0 < i < |d|
      ensures !SB.Mergeable(d[i - 1], d[i])
    {
      assert !SB.Mergeable(c[n + i - 1], c[n + i]);
    }
  }

  /** A cluster, with or without an ordinary mbuf before it, or two ordinary neighbours pay for themselves. */
  lemma {:induction false} PackedIsCheap(c: SB.Chain)
    requires Packed(c)
    ensures 2 * SB.Memory(c) <= 5 * SB.Length(c) + 2 * SB.MSIZE
    decreases |c|
  {
    hide Packed;
    if |c| >= 1 {
      PackedParts(c);
      PackedRest(c, 1);
      PackedIsCheap(c[1..]);
    }
    if |c| >= 2 {
      assert c[1..][1..] == c[2..];
      PackedRest(c, 2);
      PackedIsCheap(c[2..]);
    }
  }

  lemma PackedParts(c: SB.Chain)
    requires Packed(c)
    ensures c != [] ==> Sound(c[0])
    ensures |c| > 1 ==> Sound(c[1]) && !SB.Mergeable(c[0], c[1])
  {
  }

  lemma TailIsCheap(c: SB.Chain)
    requires c != [] && Tail(c)
    ensures 2 * SB.Memory(c) <= 2 * SB.Charge(c[0]) + 5 * SB.Length(c) + 2 * SB.MSIZE
  {
    PackedIsCheap(c[1..]);
  }

  lemma {:induction false} OrdinaryIsCheap(rs: seq<SB.Chain>)
    requires forall i :: 0 <= i < |rs| ==> rs[i] != [] && Ordinary(rs[i])
    ensures 2 * SB.TotalMemory(rs) <= 4 * SB.MSIZE * |rs| + 5 * SB.TotalLength(rs)
  {
    hide Tail, SB.Memory, SB.Length;
    if rs != [] {
      assert Ordinary(rs[0]);
      TailIsCheap(rs[0]);
      OrdinaryIsCheap(rs[1..]);
    }
  }

  /** The most memory that bytes up to the limit, however they are cut up, are charged. */
  const MOST_MEMORY := SB.MCLBYTES + 5 * SP.PIPSIZ / 2 + 2 * SB.MSIZE * MOST_RECORDS

  lemma ThriftyIsCheap(b: SB.Sockbuf)
    requires SB.Valid(b) && Thrifty(b.records) && b.cc <= SP.PIPSIZ
    ensures b.mbcnt <= MOST_MEMORY
  {
    hide Tail, Ordinary, SB.Memory, SB.Length;
    if b.records != [] {
      TailIsCheap(b.records[0]);
      OrdinaryIsCheap(b.records[1..]);
    }
  }

  // ----- Every operation keeps it so -----

  lemma AbsorbKeeps(r: SB.Chain, m: SB.Mbuf)
    requires Tail(r) && Sound(m)
    ensures Tail(SB.Absorb(r, m))
    ensures r != [] ==> SB.Absorb(r, m) != [] && SB.Absorb(r, m)[0].off == r[0].off
  {
    var a, n := SB.Absorb(r, m), |r| - 1;
    if n > 0 && a != r {
      forall i | 0 <= i < |a[1..]|
        ensures Sound(a[1..][i])
      {
        if i < n { assert Sound(r[1..][i]); }
      }
      forall i | 0 < i < |a[1..]|
        ensures !SB.Mergeable(a[1..][i - 1], a[1..][i])
      {
        if i < n { assert !SB.Mergeable(r[1..][i - 1], r[1..][i]); }
      }
    }
  }

  lemma {:induction false} CompressKeeps(r: SB.Chain, m: SB.Chain, i: nat)
    requires i <= |m| && Tail(r) && (forall j :: i <= j < |m| ==> Sound(m[j]))
    ensures Tail(SB.Compress(r, m, i))
    ensures r != [] ==> SB.Compress(r, m, i) != [] && SB.Compress(r, m, i)[0].off == r[0].off
    decreases |m| - i
  {
    hide Tail, Sound, SB.Absorb;
    if i < |m| {
      AbsorbKeeps(r, m[i]);
      CompressKeeps(SB.Absorb(r, m[i]), m, i + 1);
    }
  }

  lemma {:induction false} FillIsSound(room: int, user: seq<int>, clusters: seq<bool>, i: nat, j: nat)
    requires j < |SP.Fill(room, user, clusters, i)|
    ensures Sound(SP.Fill(room, user, clusters, i)[j])
    decreases |user|
  {
    if room > 0 {
      var cluster := SP.Available(clusters, i);
      var len := SP.ChunkLength(room, |user|, cluster);
      if len < |user| && j > 0 {
        FillIsSound(room - (if SP.TakesCluster(room, |user|, cluster) then SB.MCLBYTES else len),
                    user[len..], clusters, i + 1, j - 1);
      }
    }
  }

  lemma MessageIsSound(s: SP.State, user: seq<int>, clusters: seq<bool>, j: nat)
    requires s.sender.Sending? && j < |SP.Message(s, user, clusters)| && (s.sender.rights.Some? ==> j > 0)
    ensures Sound(SP.Message(s, user, clusters)[j])
  {
    hide SP.Fill, Sound;
    var k := if s.sender.rights.Some? then j - 1 else j;
    FillIsSound(s.sender.space - SP.Rlen(s.sender.rights), user, clusters, 0, k);
  }

  lemma AppendKeeps(b: SB.Sockbuf, m: SB.Chain)
    requires SB.Shaped(b.records) && Thrifty(b.records) && (forall j :: 0 <= j < |m| ==> Sound(m[j]))
    ensures Thrifty(SB.Append(b, m).records)
  {
    hide Tail, Sound, SB.Compress, SB.Fit;
    var n := |b.records|;
    if n == 0 {
      NoTail();
      CompressKeeps([], m, 0);
    } else {
      LastTail(b.records);
      CompressKeeps(b.records[n - 1], m, 0);
    }
  }

  lemma NoTail()
    ensures Tail([])
  {
  }

  lemma LastTail(rs: seq<SB.Chain>)
    requires Thrifty(rs) && rs != []
    ensures Tail(rs[|rs| - 1])
  {
  }

  /** A record of rights is begun only where there is memory for it, so only while there are few. */
  lemma AppendRecordKeeps(b: SB.Sockbuf, m: SB.Chain)
    requires SB.Valid(b) && Thrifty(b.records) && b.mbcnt < SP.MBMAX && m != [] && m[0].off <= SB.MMAXOFF
    requires forall j :: 1 <= j < |m| ==> Sound(m[j])
    ensures Thrifty(SB.AppendRecord(b, m).records)
  {
    hide Tail, Sound, SB.Compress;
    RecordsCost(b.records);
    assert Tail([m[0]]) by { OneTail(m[0]); }
    CompressKeeps([m[0]], m, 1);
  }

  lemma OneTail(m: SB.Mbuf)
    ensures Tail([m])
  {
  }

  lemma {:induction false} RecordsCost(rs: seq<SB.Chain>)
    requires SB.Shaped(rs)
    ensures SB.MSIZE * |rs| <= SB.TotalMemory(rs)
  {
    hide SB.Fit;
    if rs != [] {
      RecordsCost(rs[1..]);
      assert SB.Memory(rs[0]) >= SB.MSIZE;
    }
  }

  lemma TakeKeeps(b: SB.Sockbuf, n: nat)
    requires Thrifty(b.records) && b.records != [] && b.records[0] != [] && n <= |b.records[0][0].data|
    ensures Thrifty(SB.TakeHead(b, n).records)
  {
    hide Packed;
    var c := b.records[0][1..];
    if c != [] {
      PackedRest(c, 1);
    }
    assert ([SB.Trim(b.records[0][0], n)] + c)[1..] == c;
  }

  lemma DeliverKeeps(s: SP.State, user: seq<int>, clusters: seq<bool>, copied: bool)
    requires SP.Balanced(s) && Thrifty(s.rcv.records) && s.sender.Sending?
    ensures Thrifty(SP.Step(s, SP.Deliver(user, clusters, copied)).rcv.records)
  {
    hide Thrifty, Sound, SP.Message, SB.Append, SB.AppendRecord;
    var m := SP.Message(s, user, clusters);
    forall j | 0 <= j < |m| && (s.sender.rights.Some? ==> j > 0)
      ensures Sound(m[j])
    {
      MessageIsSound(s, user, clusters, j);
    }
    if s.sender.rights.None? {
      AppendKeeps(s.rcv, m);
    } else if !SP.Refused(s, user, clusters, copied) {
      SP.MessageCarries(s, user, clusters);
      RightsFirst(s, user, clusters);
      AppendRecordKeeps(s.rcv, m);
    }
  }

  lemma RightsFirst(s: SP.State, user: seq<int>, clusters: seq<bool>)
    requires s.sender.Sending? && s.sender.rights.Some?
    ensures var m := SP.Message(s, user, clusters); m != [] && m[0].off <= SB.MMAXOFF
  {
    hide SP.Fill;
  }

  lemma StepKeeps(s: SP.State, a: SP.Action)
    requires SP.Balanced(s) && Thrifty(s.rcv.records) && SP.Enabled(s, a)
    ensures Thrifty(SP.Step(s, a).rcv.records)
  {
    hide SP.Balanced, Thrifty, SP.Delivered, SB.TakeHead;
    match a
    case Deliver(user, clusters, copied) => DeliverKeeps(s, user, clusters, copied);
    case Take(n) => TakeKeeps(s.rcv, n);
    case _ =>
  }

  lemma {:induction false} EveryRunIsThrifty(actions: seq<SP.Action>)
    ensures Thrifty(SP.Run(actions).rcv.records)
  {
    hide SP.Enabled, SP.Step;
    if actions != [] {
      var before, a := actions[..|actions| - 1], actions[|actions| - 1];
      EveryRunIsThrifty(before);
      SP.EveryRunBalances(before);
      if SP.Enabled(SP.Run(before), a) {
        StepKeeps(SP.Run(before), a);
      }
    }
  }

  /**
   * Over every run the receiver's sb_cc and sb_mbcnt stay below 65536, so that
   * the sixteen-bit fields hold exactly the counts of the model.
   */
  lemma CountsFitTheirFields(actions: seq<SP.Action>)
    ensures var b := SP.Run(actions).rcv;
      && b.cc <= SP.PIPSIZ && b.mbcnt <= MOST_MEMORY && MOST_MEMORY < 0x1_0000
      && SP.U16(b.cc) == b.cc && SP.U16(b.mbcnt) == b.mbcnt
  {
    hide SP.Run, Thrifty;
    EveryRunIsThrifty(actions);
    SP.EveryRunBalances(actions);
    ThriftyIsCheap(SP.Run(actions).rcv);
    SP.BytesCount(SP.Run(actions).rcv);
    SP.Small(SP.Run(actions).rcv.cc);
    SP.Small(SP.Run(actions).rcv.mbcnt);
  }
}
