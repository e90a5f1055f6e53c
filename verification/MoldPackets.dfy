/** Packets as a sender builds them, and what the receiver makes of them. */
module MoldPackets {
  import opened Words
  import opened Bytes
  import opened Mold

  ghost predicate Sendable(ms: seq<Block>) {
    |ms| < HEARTBEAT && forall i :: 0 <= i < |ms| ==> |ms[i]| < 0x1_0000
  }

  /** The length of a block in two big-endian bytes. */
  ghost function LengthPrefix(n: u16): (bs: seq<u8>)
    ensures |bs| == 2 && FromBE(bs) == n
  {
    Powers();
    FromToBE(n, 2);
    ToBE(n, 2)
  }

  ghost function WriteBlocks(ms: seq<Block>): seq<u8>
    requires forall i :: 0 <= i < |ms| ==> |ms[i]| < 0x1_0000
  {
    if ms == [] then [] else LengthPrefix(|ms[0]|) + ms[0] + WriteBlocks(ms[1..])
  }

  ghost function WritePacket(session: seq<u8>, seqno: nat, ms: seq<Block>): seq<u8>
    requires |session| == 10 && Sendable(ms)
  {
    session + ToBE(seqno, 8) + ToBE(|ms|, 2) + WriteBlocks(ms)
  }

  lemma HeaderReadsBack(session: seq<u8>, seqno: u64, count: u16, tail: seq<u8>)
    requires |session| == 10
    ensures var raw := session + ToBE(seqno, 8) + ToBE(count, 2) + tail;
            |raw| >= HEADER_LEN && SeqOf(raw) == seqno && CountOf(raw) == count
  {
    var raw := session + ToBE(seqno, 8) + ToBE(count, 2) + tail;
    assert raw[10..10 + 8] == ToBE(seqno, 8);
    assert raw[18..18 + 2] == ToBE(count, 2);
    Powers();
    FromToBE(seqno, 8);
    FromToBE(count, 2);
  }

  /** How many leading blocks fit completely into `room` bytes. */
  function WholeBlocks(ms: seq<Block>, room: nat): (n: nat)
    ensures n <= |ms|
  {
    if ms == [] || 2 + |ms[0]| > room then 0 else 1 + WholeBlocks(ms[1..], room - 2 - |ms[0]|)
  }

  /** Block extraction from the bytes that are left, without an offset. */
  function Peel(bs: seq<u8>, left: nat): seq<Block>
    decreases left
  {
    if left == 0 || 2 > |bs| then []
    else
      var len := ReadBE16(bs, 0);
      if 2 + len > |bs| then [] else [bs[2..2 + len]] + Peel(bs[2 + len..], left - 1)
  }

  lemma HeadOfSlice(raw: seq<u8>, offset: nat)
    requires offset + 2 <= |raw|
    ensures ReadBE16(raw[offset..], 0) == ReadBE16(raw, offset)
  {
  }

  lemma TailOfSlice(raw: seq<u8>, offset: nat, len: nat)
    requires offset + 2 + len <= |raw|
    ensures raw[offset..][2..2 + len] == raw[offset + 2..offset + 2 + len]
    ensures raw[offset..][2 + len..] == raw[offset + 2 + len..]
  {
  }

  /** One block further on, the bytes that are left are again a tail. */
  lemma PeelStep(bs: seq<u8>, rest: seq<u8>, len: nat, left: nat)
    requires left > 0 && 2 + len <= |bs| && len == ReadBE16(bs, 0) && rest == bs[2 + len..]
    ensures Peel(bs, left) == [bs[2..2 + len]] + Peel(rest, left - 1)
  {
  }

  lemma {:induction false} PeelIsBlocks(raw: seq<u8>, offset: nat, left: nat, bs: seq<u8>)
    requires offset <= |raw| && bs == raw[offset..]
    ensures Blocks(raw, offset, left) == Peel(bs, left)
    decreases left
  {
    if left > 0 && |bs| >= 2 {
      HeadOfSlice(raw, offset);
      var len := ReadBE16(bs, 0);
      if 2 + len <= |bs| {
        var rest := raw[offset + 2 + len..];
        TailOfSlice(raw, offset, len);
        PeelIsBlocks(raw, offset + 2 + len, left - 1, rest);
        PeelStep(bs, rest, len, left);
      }
    }
  }

  lemma LengthReads(len: seq<u8>, tail: seq<u8>)
    requires |len| == 2
    ensures ReadBE16(len + tail, 0) == FromBE(len)
  {
    ReadBE16IsBE(len, 0);
    assert len[0..0 + 2] == len;
  }

  /** A complete block is peeled off. */
  lemma PeelWhole(bs: seq<u8>, len: seq<u8>, m: Block, tail: seq<u8>, left: nat)
    requires |len| == 2 && FromBE(len) == |m| && left > 0 && bs == len + m + tail
    ensures Peel(bs, left) == [m] + Peel(tail, left - 1)
  {
    assert bs == len + (m + tail);
    LengthReads(len, m + tail);
    assert bs[2..2 + |m|] == m && bs[2 + |m|..] == tail;
  }

  /** A block that is cut off anywhere ends the extraction. */
  lemma PeelCut(bs: seq<u8>, len: seq<u8>, m: Block, left: nat)
    requires |len| == 2 && FromBE(len) == |m| && |bs| < 2 + |m| && bs == (len + m)[..|bs|]
    ensures Peel(bs, left) == []
  {
    if |bs| >= 2 {
      assert bs == len + bs[2..];
      LengthReads(len, bs[2..]);
    }
  }

  lemma CutInside(first: seq<u8>, w: seq<u8>, room: nat)
    requires room <= |first| + |w|
    ensures (first + w)[..room] == if room < |first| then first[..room] else first + w[..room - |first|]
  {
  }

  /** The cut falls inside the first block, or behind it. */
  lemma CutStep(bs: seq<u8>, len: seq<u8>, m: Block, w: seq<u8>, room: nat, left: nat)
    requires |len| == 2 && FromBE(len) == |m| && left > 0
    requires room <= 2 + |m| + |w| && bs == (len + m + w)[..room]
    ensures Peel(bs, left) == if room < 2 + |m| then [] else [m] + Peel(w[..room - 2 - |m|], left - 1)
  {
    CutInside(len + m, w, room);
    if room < 2 + |m| {
      PeelCut(bs, len, m, left);
    } else {
      PeelWhole(bs, len, m, w[..room - 2 - |m|], left);
    }
  }

  /**
   A datagram cut anywhere in its blocks yields exactly the blocks that are complete: cut at or
   past the end, all of them.
   */
  lemma {:induction false} CutBlocks(ms: seq<Block>, w: seq<u8>, room: nat)
    requires forall i :: 0 <= i < |ms| ==> |ms[i]| < 0x1_0000
    requires w == WriteBlocks(ms) && room <= |w|
    ensures Peel(w[..room], |ms|) == ms[..WholeBlocks(ms, room)]
    decreases |ms|
  {
    if ms != [] {
      var m, w' := ms[0], WriteBlocks(ms[1..]);
      CutStep(w[..room], LengthPrefix(|m|), m, w', room, |ms|);
      if room >= 2 + |m| {
        CutBlocks(ms[1..], w', room - 2 - |m|);
        Prefixes(ms, WholeBlocks(ms[1..], room - 2 - |m|));
      }
    }
  }

  lemma Prefixes(ms: seq<Block>, n: nat)
    requires n < |ms|
    ensures ms[..n + 1] == [ms[0]] + ms[1..][..n]
  {
  }

  lemma {:induction false} AllBlocksFit(ms: seq<Block>)
    requires forall i :: 0 <= i < |ms| ==> |ms[i]| < 0x1_0000
    ensures WholeBlocks(ms, |WriteBlocks(ms)|) == |ms|
  {
    if ms != [] {
      AllBlocksFit(ms[1..]);
    }
  }

  /** A packet that fits the receive buffer is received whole; a longer one loses its last blocks. */
  lemma PacketReceived(session: seq<u8>, seqno: u64, ms: seq<Block>)
    requires |session| == 10 && Sendable(ms)
    ensures var packet := WritePacket(session, seqno, ms);
            var raw := Raw(packet);
            && |raw| >= 20 && SeqOf(raw) == seqno && CountOf(raw) == |ms|
            && Blocks(raw, 20, |ms|) == ms[..if |packet| <= 2048 then |ms| else WholeBlocks(ms, 2028)]
  {
    var packet := WritePacket(session, seqno, ms);
    var head := session + ToBE(seqno, 8) + ToBE(|ms|, 2);
    var room := if |packet| <= RECV_BUF then |WriteBlocks(ms)| else RECV_BUF - HEADER_LEN;
    assert Raw(packet) == head + WriteBlocks(ms)[..room];
    HeaderReadsBack(session, seqno, |ms|, WriteBlocks(ms)[..room]);
    assert Raw(packet)[HEADER_LEN..] == WriteBlocks(ms)[..room];
    PeelIsBlocks(Raw(packet), HEADER_LEN, |ms|, WriteBlocks(ms)[..room]);
    CutBlocks(ms, WriteBlocks(ms), room);
    AllBlocksFit(ms);
  }

  // ----- a stream without loss -----

  /** Some messages that fit one receive buffer. */
  ghost predicate FitsPacket(g: seq<Block>) {
    g != [] && Sendable(g) && |WriteBlocks(g)| <= RECV_BUF - HEADER_LEN
  }

  ghost predicate GroupsFit(groups: seq<seq<Block>>) {
    forall i :: 0 <= i < |groups| ==> FitsPacket(groups[i])
  }

  function Concat(groups: seq<seq<Block>>): seq<Block> {
    if groups == [] then [] else Concat(groups[..|groups| - 1]) + groups[|groups| - 1]
  }

  /** Sequence number of the first message of group `i`. */
  function FirstNumber(groups: seq<seq<Block>>, i: nat): nat
    requires i <= |groups|
  {
    |Concat(groups[..i])| + 1
  }

  /** One packet per group, numbered consecutively from 1. */
  ghost function Packets(session: seq<u8>, groups: seq<seq<Block>>): seq<Event>
    requires |session| == 10 && GroupsFit(groups)
  {
    seq(|groups|, i requires 0 <= i < |groups| =>
      Datagram(WritePacket(session, FirstNumber(groups, i), groups[i])))
  }

  lemma ConcatStep(groups: seq<seq<Block>>, i: nat)
    requires i < |groups|
    ensures Concat(groups[..i + 1]) == Concat(groups[..i]) + groups[i]
  {
    assert groups[..i + 1][..i] == groups[..i];
  }

  lemma {:induction false} ConcatGrows(groups: seq<seq<Block>>, i: nat)
    requires i <= |groups|
    ensures |Concat(groups[..i])| <= |Concat(groups)|
    decreases |groups| - i
  {
    if i == |groups| {
      assert groups[..i] == groups;
    } else {
      ConcatGrows(groups, i + 1);
      ConcatStep(groups, i);
    }
  }

  /** The receiver reads exactly the messages `g` from the packet, numbered from `seqno`. */
  ghost predicate Carries(e: Event, seqno: nat, g: seq<Block>) {
    && !Idle(e) && SeqOf(Raw(e.bytes)) == seqno && CountOf(Raw(e.bytes)) == |g|
    && Blocks(Raw(e.bytes), HEADER_LEN, |g|) == g
  }

  lemma PacketCarries(session: seq<u8>, seqno: u64, g: seq<Block>)
    requires |session| == 10 && FitsPacket(g)
    ensures Carries(Datagram(WritePacket(session, seqno, g)), seqno, g)
  {
    PacketReceived(session, seqno, g);
    assert g[..|g|] == g;
  }

  /** One packet per group, each carrying its group under the next numbers. */
  ghost predicate Sends(es: seq<Event>, groups: seq<seq<Block>>) {
    |es| == |groups| && forall i :: 0 <= i < |es| ==> SendsAt(es, groups, i)
  }

  ghost predicate SendsAt(es: seq<Event>, groups: seq<seq<Block>>, i: nat)
    requires i < |es| == |groups|
  {
    Carries(es[i], FirstNumber(groups, i), groups[i])
  }

  lemma PacketsSend(session: seq<u8>, groups: seq<seq<Block>>)
    requires |session| == 10 && GroupsFit(groups) && |Concat(groups)| < TWO64 - 1
    ensures Sends(Packets(session, groups), groups)
  {
    var es := Packets(session, groups);
    forall i | 0 <= i < |groups| ensures SendsAt(es, groups, i) {
      ConcatGrows(groups, i);
      PacketCarries(session, FirstNumber(groups, i), groups[i]);
    }
  }

  /** The packet next in line adds its messages to the log and nothing else. */
  lemma NextInLine(t: Tracker, e: Event, g: seq<Block>)
    requires Carries(e, t.expected, g) && t.expected + |g| < TWO64
    ensures Receive(t, e) == Tracker(t.expected + |g|, t.gaps, t.dropped, t.log + QueuedAll(g))
  {
    assert Settled(t.expected, Raw(e.bytes)) == QueuedAll(g);
  }

  lemma LogMore(log: seq<Fate>, g: seq<Block>)
    ensures Queue(log + QueuedAll(g)) == Queue(log) + g && Count(log + QueuedAll(g)).cut == Count(log).cut
  {
    QueueJoin(log, QueuedAll(g));
    QueueQueued(g);
    CountJoin(log, QueuedAll(g));
    CountQueued(g);
  }

  /** Everything sent so far has been queued, in order, and nothing was counted lost. */
  ghost predicate CaughtUp(t: Tracker, sent: seq<Block>) {
    && Queue(t.log) == sent
    && t.expected == |sent| + 1 && t.gaps == 0 && t.dropped == 0 && Count(t.log).cut == 0
  }

  /** The packet that comes next in line is queued whole. */
  lemma LosslessStep(before: seq<Event>, e: Event, sent: seq<Block>, g: seq<Block>)
    requires CaughtUp(Feed(before), sent)
    requires Carries(e, |sent| + 1, g) && |sent| + |g| < TWO64 - 1
    ensures CaughtUp(Feed(before + [e]), sent + g)
  {
    NextInLine(Feed(before), e, g);
    LogMore(Feed(before).log, g);
    FeedSnoc(before, e);
  }

  lemma {:induction false} InOrderPrefix(es: seq<Event>, groups: seq<seq<Block>>, i: nat)
    requires Sends(es, groups) && |Concat(groups)| < TWO64 - 1 && i <= |groups|
    ensures CaughtUp(Feed(es[..i]), Concat(groups[..i]))
  {
    if i == 0 {
      assert es[..i] == [] && groups[..i] == [];
    } else {
      InOrderPrefix(es, groups, i - 1);
      ConcatStep(groups, i - 1);
      ConcatGrows(groups, i);
      assert SendsAt(es, groups, i - 1);
      LosslessStep(es[..i - 1], es[i - 1], Concat(groups[..i - 1]), groups[i - 1]);
      assert es[..i - 1] + [es[i - 1]] == es[..i];
    }
  }

  /** Packets in order and without loss: every message is queued once, in order, nothing is counted lost. */
  lemma InOrderFeed(es: seq<Event>, groups: seq<seq<Block>>)
    requires Sends(es, groups) && |Concat(groups)| < TWO64 - 1
    ensures CaughtUp(Feed(es), Concat(groups))
  {
    InOrderPrefix(es, groups, |groups|);
    assert es[..|groups|] == es && groups[..|groups|] == groups;
  }

  /** Likewise for the packets a sender builds. */
  lemma LosslessStream(session: seq<u8>, groups: seq<seq<Block>>)
    requires |session| == 10 && GroupsFit(groups) && |Concat(groups)| < TWO64 - 1
    ensures CaughtUp(Feed(Packets(session, groups)), Concat(groups))
  {
    PacketsSend(session, groups);
    InOrderFeed(Packets(session, groups), groups);
  }

  lemma CarriedWraps(e: Event, seqno: u64, g: seq<Block>)
    requires Carries(e, seqno, g) && seqno >= 1 && seqno + |g| >= TWO64
    ensures Feed([e]).expected == seqno + |g| - TWO64 && !NoWrap([e])
  {
    FeedSnoc([], e);
    assert [] + [e] == [e];
    assert [e][..0] == [];
    assert WrapsAt([e], 0);
  }

  /** A packet that carries the last 64-bit sequence number starts the expected one over. */
  lemma LastNumberWraps(session: seq<u8>, seqno: u64, ms: seq<Block>)
    requires |session| == 10 && FitsPacket(ms) && seqno + |ms| >= TWO64
    ensures var es := [Datagram(WritePacket(session, seqno, ms))];
            Feed(es).expected == seqno + |ms| - TWO64 && !NoWrap(es)
  {
    PacketCarries(session, seqno, ms);
    CarriedWraps(Datagram(WritePacket(session, seqno, ms)), seqno, ms);
  }
}
