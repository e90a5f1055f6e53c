/** MoldUDP64 reception: sequence tracking, gap counting and block extraction, packet by packet. */
module Mold {
  import opened Words
  import opened Bytes

  const HEADER_LEN: nat := 20
  const RECV_BUF: nat := 2048
  const HEARTBEAT: nat := 0xFFFF

  type Block = seq<u8>

  /** What one receive call can bring: a datagram, or a transient socket error. */
  datatype Event = Datagram(bytes: seq<u8>) | RecvError

  /** The receive buffer keeps the first 2048 bytes of a datagram. */
  function Raw(bytes: seq<u8>): seq<u8> {
    if |bytes| <= RECV_BUF then bytes else bytes[..RECV_BUF]
  }

  /** The sequence number in the header: eight big-endian bytes. */
  function SeqOf(raw: seq<u8>): u64
    requires |raw| >= HEADER_LEN
  {
    FromBEBound(raw[10..10 + 8]);
    Powers();
    FromBE(raw[10..10 + 8])
  }

  /** The message count in the header: two big-endian bytes. */
  function CountOf(raw: seq<u8>): u16
    requires |raw| >= HEADER_LEN
  {
    FromBEBound(raw[18..18 + 2]);
    Powers();
    FromBE(raw[18..18 + 2])
  }

  /** The complete message blocks from `offset` on, at most `left` of them. */
  function Blocks(raw: seq<u8>, offset: nat, left: nat): (r: seq<Block>)
    ensures |r| <= left
    decreases left
  {
    if left == 0 || offset + 2 > |raw| then []
    else
      var len := ReadBE16(raw, offset);
      if offset + 2 + len > |raw| then []
      else [raw[offset + 2..offset + 2 + len]] + Blocks(raw, offset + 2 + len, left - 1)
  }

  // ----- the reader as a fold over events -----

  /** What became of one sequence number. */
  datatype Fate = Queued(block: Block) | Gap | Cut

  /** `log[i]` is the fate of sequence number i + 1. */
  datatype Tracker = Tracker(expected: u64, gaps: u64, dropped: u64, log: seq<Fate>)

  const START: Tracker := Tracker(1, 0, 0, [])

  /** Too short, no messages, heartbeat or error: nothing happens. */
  predicate Idle(e: Event) {
    e.RecvError? || |e.bytes| < HEADER_LEN || CountOf(Raw(e.bytes)) == HEARTBEAT || CountOf(Raw(e.bytes)) == 0
  }

  predicate Stale(expected: u64, e: Event) {
    !Idle(e) && SeqOf(Raw(e.bytes)) < expected
  }

  predicate Accepted(expected: u64, e: Event) {
    !Idle(e) && SeqOf(Raw(e.bytes)) >= expected
  }

  function QueuedAll(bs: seq<Block>): seq<Fate> {
    seq(|bs|, i requires 0 <= i < |bs| => Queued(bs[i]))
  }

  function Repeat(f: Fate, n: nat): seq<Fate> {
    seq(n, _ => f)
  }

  /** The fates an accepted packet settles: the gap before it, its blocks, and the blocks cut off. */
  function Settled(expected: u64, raw: seq<u8>): seq<Fate>
    requires |raw| >= HEADER_LEN && SeqOf(raw) >= expected
  {
    var bs := Blocks(raw, HEADER_LEN, CountOf(raw));
    Repeat(Gap, SeqOf(raw) - expected) + QueuedAll(bs) + Repeat(Cut, CountOf(raw) - |bs|)
  }

  function Receive(t: Tracker, e: Event): Tracker {
    if Idle(e) then t
    else
      var raw := Raw(e.bytes);
      if SeqOf(raw) < t.expected then t.(dropped := (t.dropped + 1) % TWO64)
      else
        Tracker((SeqOf(raw) + CountOf(raw)) % TWO64,
                (t.gaps + (SeqOf(raw) - t.expected)) % TWO64,
                t.dropped,
                t.log + Settled(t.expected, raw))
  }

  function Feed(es: seq<Event>): Tracker {
    if es == [] then START else Receive(Feed(es[..|es| - 1]), es[|es| - 1])
  }

  lemma FeedSnoc(es: seq<Event>, e: Event)
    ensures Feed(es + [e]) == Receive(Feed(es), e)
  {
  }

  // ----- accounting -----

  datatype Census = Census(queued: nat, gaps: nat, cut: nat)

  function Count(log: seq<Fate>): Census {
    if log == [] then Census(0, 0, 0)
    else
      var c := Count(log[..|log| - 1]);
      match log[|log| - 1]
      case Queued(_) => c.(queued := c.queued + 1)
      case Gap => c.(gaps := c.gaps + 1)
      case Cut => c.(cut := c.cut + 1)
  }

  function Plus(c: Census, d: Census): Census {
    Census(c.queued + d.queued, c.gaps + d.gaps, c.cut + d.cut)
  }

  function One(f: Fate): Census {
    match f
    case Queued(_) => Census(1, 0, 0)
    case Gap => Census(0, 1, 0)
    case Cut => Census(0, 0, 1)
  }

  lemma CountSnoc(x: seq<Fate>, f: Fate)
    ensures Count(x + [f]) == Plus(Count(x), One(f))
  {
    assert (x + [f])[..|x|] == x;
  }

  lemma {:induction false} CountJoin(x: seq<Fate>, y: seq<Fate>)
    ensures Count(x + y) == Plus(Count(x), Count(y))
  {
    if y == [] {
      assert x + y == x;
    } else {
      var init, f := y[..|y| - 1], y[|y| - 1];
      CountJoin(x, init);
      CountSnoc(init, f);
      CountSnoc(x + init, f);
      assert y == init + [f] && x + y == x + init + [f];
    }
  }

  lemma {:induction false} CountRepeat(f: Fate, n: nat)
    requires !f.Queued?
    ensures Count(Repeat(f, n)) == if f.Gap? then Census(0, n, 0) else Census(0, 0, n)
  {
    if n > 0 {
      CountRepeat(f, n - 1);
      assert Repeat(f, n)[..n - 1] == Repeat(f, n - 1);
    }
  }

  lemma {:induction false} CountQueued(bs: seq<Block>)
    ensures Count(QueuedAll(bs)) == Census(|bs|, 0, 0)
  {
    if bs != [] {
      var n := |bs| - 1;
      CountQueued(bs[..n]);
      assert QueuedAll(bs)[..n] == QueuedAll(bs[..n]);
    }
  }

  lemma {:induction false} CountTotal(log: seq<Fate>)
    ensures var c := Count(log); c.queued + c.gaps + c.cut == |log|
  {
    if log != [] {
      CountTotal(log[..|log| - 1]);
    }
  }

  lemma CountJoin3(x: seq<Fate>, y: seq<Fate>, z: seq<Fate>)
    ensures Count(x + y + z) == Plus(Plus(Count(x), Count(y)), Count(z))
  {
    CountJoin(x + y, z);
    CountJoin(x, y);
  }

  lemma PacketCensus(gap: nat, bs: seq<Block>, cut: nat)
    ensures Count(Repeat(Gap, gap) + QueuedAll(bs) + Repeat(Cut, cut)) == Census(|bs|, gap, cut)
  {
    var g, q, c := Repeat(Gap, gap), QueuedAll(bs), Repeat(Cut, cut);
    assert Count(g) == Census(0, gap, 0) by { CountRepeat(Gap, gap); }
    assert Count(c) == Census(0, 0, cut) by { CountRepeat(Cut, cut); }
    assert Count(q) == Census(|bs|, 0, 0) by { CountQueued(bs); }
    CountJoin3(g, q, c);
  }

  lemma SettledCensus(expected: u64, raw: seq<u8>)
    requires |raw| >= HEADER_LEN && SeqOf(raw) >= expected
    ensures var bs := Blocks(raw, HEADER_LEN, CountOf(raw));
            Count(Settled(expected, raw)) == Census(|bs|, SeqOf(raw) - expected, CountOf(raw) - |bs|)
  {
    var bs := Blocks(raw, HEADER_LEN, CountOf(raw));
    PacketCensus(SeqOf(raw) - expected, bs, CountOf(raw) - |bs|);
  }

  lemma AddModulo(a: nat, x: nat, b: int)
    requires a % TWO64 == x
    ensures (a + b) % TWO64 == (x + b) % TWO64
  {
  }

  ghost predicate Accounted(t: Tracker) {
    (|t.log| + 1) % TWO64 == t.expected && Count(t.log).gaps % TWO64 == t.gaps
  }

  lemma ReceiveAccounted(t: Tracker, e: Event)
    requires Accounted(t) && Accepted(t.expected, e)
    ensures Accounted(Receive(t, e))
  {
    var raw := Raw(e.bytes);
    var gap := SeqOf(raw) - t.expected;
    ReceiveLength(t, e);
    AddModulo(|t.log| + 1, t.expected, gap + CountOf(raw));
    assert Count(Receive(t, e).log).gaps == Count(t.log).gaps + gap by {
      SettledCensus(t.expected, raw);
      CountJoin(t.log, Settled(t.expected, raw));
    }
    AddModulo(Count(t.log).gaps, t.gaps, gap);
  }

  lemma ReceiveLength(t: Tracker, e: Event)
    ensures |Receive(t, e).log| == if Accepted(t.expected, e)
                                   then |t.log| + (SeqOf(Raw(e.bytes)) - t.expected) + CountOf(Raw(e.bytes))
                                   else |t.log|
  {
  }

  /** Every trace, 64-bit wrap included: the counters account for every number, modulo 2^64. */
  lemma {:induction false} AccountingModulo(es: seq<Event>)
    ensures Accounted(Feed(es))
  {
    if es != [] {
      var init, e := es[..|es| - 1], es[|es| - 1];
      AccountingModulo(init);
      if Accepted(Feed(init).expected, e) {
        ReceiveAccounted(Feed(init), e);
      }
    }
  }

  /** Packet `i` of the trace is accepted and its last sequence number does not fit 64 bits. */
  predicate WrapsAt(es: seq<Event>, i: nat)
    requires i < |es|
  {
    var t := Feed(es[..i]);
    Accepted(t.expected, es[i]) && SeqOf(Raw(es[i].bytes)) + CountOf(Raw(es[i].bytes)) >= TWO64
  }

  ghost predicate NoWrap(es: seq<Event>) {
    forall i :: 0 <= i < |es| ==> !WrapsAt(es, i)
  }

  lemma NoWrapSnoc(es: seq<Event>)
    requires es != []
    ensures NoWrap(es) <==> NoWrap(es[..|es| - 1]) && !WrapsAt(es, |es| - 1)
  {
    var n := |es| - 1;
    forall i | 0 <= i < n ensures WrapsAt(es[..n], i) == WrapsAt(es, i) {
      assert es[..n][..i] == es[..i];
    }
    if NoWrap(es[..n]) && !WrapsAt(es, n) {
      forall i | 0 <= i < |es| ensures !WrapsAt(es, i) {
        assert i < n ==> !WrapsAt(es[..n], i);
      }
    }
  }

  /**
   Every sequence number below the expected one has exactly one fate - delivered or pending, gap,
   or cut - if and only if no accepted packet wraps the 64-bit sequence space.
   */
  lemma {:induction false} AccountingExact(es: seq<Event>)
    ensures |Feed(es).log| + 1 == Feed(es).expected <==> NoWrap(es)
    ensures !NoWrap(es) ==> |Feed(es).log| + 1 >= TWO64
  {
    if es != [] {
      var n := |es| - 1;
      AccountingExact(es[..n]);
      NoWrapSnoc(es);
      ReceiveLength(Feed(es[..n]), es[n]);
    }
  }

  /** The payloads of the queued messages, in order. */
  function Queue(log: seq<Fate>): seq<Block> {
    if log == [] then []
    else
      var n := |log| - 1;
      Queue(log[..n]) + if log[n].Queued? then [log[n].block] else []
  }

  lemma {:induction false} QueueCounts(log: seq<Fate>)
    ensures |Queue(log)| == Count(log).queued
  {
    if log != [] {
      QueueCounts(log[..|log| - 1]);
    }
  }

  lemma ExactIdentity(t: Tracker)
    requires Accounted(t) && |t.log| + 1 == t.expected
    ensures var c := Count(t.log); t.gaps == c.gaps && t.expected - 1 == t.gaps + |Queue(t.log)| + c.cut
  {
    CountTotal(t.log);
    QueueCounts(t.log);
  }

  /** Without wrap: expected - 1 = gaps + queued + cut, and the gap counter has not overflowed. */
  lemma AccountingIdentity(es: seq<Event>)
    requires NoWrap(es)
    ensures var t := Feed(es);
            var c := Count(t.log);
            && t.gaps == c.gaps
            && t.expected - 1 == t.gaps + |Queue(t.log)| + c.cut
  {
    AccountingExact(es);
    AccountingModulo(es);
    ExactIdentity(Feed(es));
  }

  // ----- order -----

  lemma SettledAt(expected: u64, raw: seq<u8>, j: nat)
    requires |raw| >= HEADER_LEN && SeqOf(raw) >= expected
    requires j < |Blocks(raw, HEADER_LEN, CountOf(raw))|
    ensures var gap := SeqOf(raw) - expected;
            && gap + j < |Settled(expected, raw)|
            && Settled(expected, raw)[gap + j] == Queued(Blocks(raw, HEADER_LEN, CountOf(raw))[j])
  {
  }

  /** Block `j` of an accepted packet is logged under its own sequence number. */
  lemma BlockHasItsNumber(es: seq<Event>, e: Event, j: nat)
    requires NoWrap(es) && Accepted(Feed(es).expected, e)
    requires var raw := Raw(e.bytes); j < |Blocks(raw, HEADER_LEN, CountOf(raw))|
    ensures var raw := Raw(e.bytes);
            var log := Feed(es + [e]).log;
            && 1 <= SeqOf(raw) && SeqOf(raw) - 1 + j < |log|
            && log[SeqOf(raw) - 1 + j] == Queued(Blocks(raw, HEADER_LEN, CountOf(raw))[j])
  {
    var t, raw := Feed(es), Raw(e.bytes);
    assert Feed(es + [e]).log == t.log + Settled(t.expected, raw) by { FeedSnoc(es, e); }
    assert |t.log| + 1 == t.expected by { AccountingExact(es); }
    SettledAt(t.expected, raw, j);
  }

  // ----- the counters, counted from the packets -----

  /** In bytes: an error, a header that is cut short, or a message count of 0xFFFF or zero. */
  lemma IdleInBytes(e: Event)
    ensures Idle(e) <==>
            || e.RecvError? || |e.bytes| < 20
            || (e.bytes[18] == 0xFF && e.bytes[19] == 0xFF) || (e.bytes[18] == 0 && e.bytes[19] == 0)
  {
    if e.Datagram? && |e.bytes| >= 20 {
      ReadBE16IsBE(Raw(e.bytes), 18);
    }
  }

  /** Packet `i` carries messages but starts behind the number expected where it stands. */
  ghost predicate BehindAt(es: seq<Event>, i: nat)
    requires i < |es|
  {
    !Idle(es[i]) && SeqOf(Raw(es[i].bytes)) < Feed(es[..i]).expected
  }

  /** Packet `i` carries messages and starts at the expected number or later. */
  ghost predicate NewAt(es: seq<Event>, i: nat)
    requires i < |es|
  {
    !Idle(es[i]) && SeqOf(Raw(es[i].bytes)) >= Feed(es[..i]).expected
  }

  ghost function Behind(es: seq<Event>): set<int> {
    set i | 0 <= i < |es| && BehindAt(es, i)
  }

  lemma BehindSnoc(es: seq<Event>, n: nat)
    requires n + 1 == |es|
    ensures |Behind(es)| == |Behind(es[..n])| + if Stale(Feed(es[..n]).expected, es[n]) then 1 else 0
  {
    forall i | 0 <= i < n ensures BehindAt(es[..n], i) == BehindAt(es, i) {
      assert es[..n][..i] == es[..i];
    }
    assert Behind(es) == Behind(es[..n]) + if BehindAt(es, n) then {n} else {};
  }

  /** For every trace the drop counter is the number of packets behind the expected number, modulo 2^64. */
  lemma {:induction false} DroppedCounts(es: seq<Event>)
    ensures Feed(es).dropped == |Behind(es)| % TWO64
  {
    if es == [] {
      assert Behind(es) == {};
    } else {
      var n := |es| - 1;
      DroppedCounts(es[..n]);
      BehindSnoc(es, n);
      DroppedStep(Feed(es[..n]), es[n], |Behind(es[..n])|);
    }
  }

  lemma DroppedStep(t: Tracker, e: Event, k: nat)
    requires t.dropped == k % TWO64
    ensures Receive(t, e).dropped == (if Stale(t.expected, e) then k + 1 else k) % TWO64
  {
    AddModulo(k, t.dropped, 1);
  }

  /** No packet after the first `k` is new. */
  ghost predicate NoneNewFrom(es: seq<Event>, k: nat) {
    forall i :: k <= i < |es| ==> !NewAt(es, i)
  }

  lemma NoneNewPrefix(es: seq<Event>, k: nat)
    requires NoneNewFrom(es, k) && k < |es|
    ensures NoneNewFrom(es[..|es| - 1], k) && !NewAt(es, |es| - 1)
  {
    var n := |es| - 1;
    forall i | k <= i < n ensures !NewAt(es[..n], i) {
      assert es[..n][..i] == es[..i];
      assert !NewAt(es, i);
    }
  }

  lemma ExpectedStep(es: seq<Event>, n: nat)
    requires n + 1 == |es|
    ensures Feed(es).expected == if NewAt(es, n) then NumberAfter(es[n]) else Feed(es[..n]).expected
  {
  }

  /** The expected number is 1 until a packet is new. */
  lemma {:induction false} ExpectedAtStart(es: seq<Event>)
    requires NoneNewFrom(es, 0)
    ensures Feed(es).expected == 1
  {
    if es != [] {
      NoneNewPrefix(es, 0);
      ExpectedAtStart(es[..|es| - 1]);
      ExpectedStep(es, |es| - 1);
    }
  }

  lemma NewAtPrefix(es: seq<Event>, n: nat, i: nat)
    requires i < n <= |es|
    ensures NewAt(es[..n], i) == NewAt(es, i)
  {
    assert es[..n][..i] == es[..i];
  }

  /** The number after all the messages that a header announces. */
  function NumberAfter(e: Event): u64
    requires !Idle(e)
  {
    (SeqOf(Raw(e.bytes)) + CountOf(Raw(e.bytes))) % TWO64
  }

  /** And after the last new packet, the number after all the messages its header announces. */
  lemma {:induction false} ExpectedFollowsLast(es: seq<Event>, i: nat)
    requires i < |es| && NewAt(es, i) && NoneNewFrom(es, i + 1)
    ensures Feed(es).expected == NumberAfter(es[i])
  {
    var n := |es| - 1;
    ExpectedStep(es, n);
    if i < n {
      NoneNewPrefix(es, i + 1);
      NewAtPrefix(es, n, i);
      ExpectedFollowsLast(es[..n], i);
    }
  }

  // ----- packets that change nothing -----

  ghost predicate SameButDropped(t: Tracker, u: Tracker) {
    t.expected == u.expected && t.gaps == u.gaps && t.log == u.log
  }

  /** The same, except that `t` has dropped `d` more packets. */
  ghost predicate Shifted(t: Tracker, u: Tracker, d: nat) {
    SameButDropped(t, u) && t.dropped == (u.dropped + d) % TWO64
  }

  lemma ReceiveShifted(t: Tracker, u: Tracker, e: Event, d: nat)
    requires Shifted(t, u, d)
    ensures Shifted(Receive(t, e), Receive(u, e), d)
  {
    AddModulo(u.dropped + d, t.dropped, 1);
    AddModulo(u.dropped + 1, (u.dropped + 1) % TWO64, d);
  }

  lemma {:induction false} FeedShifted(x: seq<Event>, y: seq<Event>, post: seq<Event>, d: nat)
    requires Shifted(Feed(x), Feed(y), d)
    ensures Shifted(Feed(x + post), Feed(y + post), d)
  {
    if post == [] {
      assert x + post == x && y + post == y;
    } else {
      var n := |post| - 1;
      FeedShifted(x, y, post[..n], d);
      ReceiveShifted(Feed(x + post[..n]), Feed(y + post[..n]), post[n], d);
      assert x + post == x + post[..n] + [post[n]] && y + post == y + post[..n] + [post[n]];
      FeedSnoc(x + post[..n], post[n]);
      FeedSnoc(y + post[..n], post[n]);
    }
  }

  /**
   Inserting a short, empty, heartbeat, failed or stale packet anywhere changes nothing delivered
   and no gap count; only a stale one is counted, once, as dropped.
   */
  lemma HarmlessInsertion(pre: seq<Event>, e: Event, post: seq<Event>)
    requires !Accepted(Feed(pre).expected, e)
    ensures Shifted(Feed(pre + [e] + post), Feed(pre + post), if Stale(Feed(pre).expected, e) then 1 else 0)
  {
    FeedSnoc(pre, e);
    FeedShifted(pre + [e], pre, post, if Stale(Feed(pre).expected, e) then 1 else 0);
  }

  // ----- the reader object -----

  lemma {:induction false} QueueJoin(x: seq<Fate>, y: seq<Fate>)
    ensures Queue(x + y) == Queue(x) + Queue(y)
  {
    if y == [] {
      assert x + y == x;
    } else {
      var n := |y| - 1;
      QueueJoin(x, y[..n]);
      assert (x + y)[..|x + y| - 1] == x + y[..n];
    }
  }

  lemma {:induction false} QueueRepeat(f: Fate, n: nat)
    requires !f.Queued?
    ensures Queue(Repeat(f, n)) == []
  {
    if n > 0 {
      QueueRepeat(f, n - 1);
      assert Repeat(f, n)[..n - 1] == Repeat(f, n - 1);
    }
  }

  lemma {:induction false} QueueQueued(bs: seq<Block>)
    ensures Queue(QueuedAll(bs)) == bs
  {
    if bs != [] {
      var n := |bs| - 1;
      QueueQueued(bs[..n]);
      assert QueuedAll(bs)[..n] == QueuedAll(bs[..n]);
    }
  }

  lemma PacketQueue(gap: nat, bs: seq<Block>, cut: nat)
    ensures Queue(Repeat(Gap, gap) + QueuedAll(bs) + Repeat(Cut, cut)) == bs
  {
    QueueJoin(Repeat(Gap, gap) + QueuedAll(bs), Repeat(Cut, cut));
    QueueJoin(Repeat(Gap, gap), QueuedAll(bs));
    QueueRepeat(Gap, gap);
    QueueRepeat(Cut, cut);
    QueueQueued(bs);
  }

  /** What a receive adds to the queue. */
  lemma ReceiveQueue(t: Tracker, e: Event)
    ensures Queue(Receive(t, e).log)
            == Queue(t.log) + if Accepted(t.expected, e)
                              then Blocks(Raw(e.bytes), HEADER_LEN, CountOf(Raw(e.bytes))) else []
  {
    if Accepted(t.expected, e) {
      var raw := Raw(e.bytes);
      var bs := Blocks(raw, HEADER_LEN, CountOf(raw));
      QueueJoin(t.log, Settled(t.expected, raw));
      PacketQueue(SeqOf(raw) - t.expected, bs, CountOf(raw) - |bs|);
    }
  }

  /** Sums of reduced terms agree modulo 2^64. */
  lemma ReducedSum(x: nat, y: nat, z: nat)
    ensures (x % TWO64 + y % TWO64 + z) % TWO64 == (x + y + z) % TWO64
  {
    AddModulo(x, x % TWO64, y + z);
    AddModulo(y, y % TWO64, x % TWO64 + z);
  }

  /** What a reader that has handed out `handed` messages and holds `waiting` more accounts for. */
  ghost function Total(t: Tracker, handed: nat, waiting: nat): nat {
    t.gaps + handed % TWO64 + waiting + Count(t.log).cut
  }

  lemma TotalBalance(t: Tracker, handed: nat, waiting: nat)
    requires Accounted(t) && handed + waiting == |Queue(t.log)|
    ensures (Total(t, handed, waiting) + 1) % TWO64 == t.expected
    ensures |t.log| + 1 == t.expected ==> Total(t, handed, waiting) + 1 == t.expected
  {
    var c := Count(t.log);
    CountTotal(t.log);
    QueueCounts(t.log);
    ReducedSum(c.gaps, handed, waiting + c.cut + 1);
  }

  class UDPFeedReader {
    /** Everything the socket will yield before it is closed. */
    const inbox: seq<Event>
    var seen: nat
    var expected: u64
    var gaps: u64
    var dropped: u64
    var received: u64
    var pending: seq<Block>
    var pendingIdx: nat
    ghost var delivered: seq<Block>

    ghost predicate Tracks()
      reads this
    {
      && seen <= |inbox|
      && var t := Feed(inbox[..seen]);
        expected == t.expected && gaps == t.gaps && dropped == t.dropped
    }

    ghost predicate Valid()
      reads this
    {
      && Tracks()
      && pendingIdx <= |pending|
      && delivered + pending[pendingIdx..] == Queue(Feed(inbox[..seen]).log)
      && received == |delivered| % TWO64
    }

    /**
     The reader's own counters, at any time: gaps, messages handed out, messages pending and blocks
     cut off account for every number below the expected one; exactly so without wrap. The drop counter
     counts the packets behind the expected number.
     */
    lemma CountersBalance()
      requires Valid()
      ensures var sum := gaps + received + (|pending| - pendingIdx) + Count(Feed(inbox[..seen]).log).cut;
              && (sum + 1) % TWO64 == expected
              && (NoWrap(inbox[..seen]) ==> sum + 1 == expected)
      ensures dropped == |Behind(inbox[..seen])| % TWO64
    {
      DroppedCounts(inbox[..seen]);
      var es, waiting := inbox[..seen], |pending| - pendingIdx;
      assert |delivered| + waiting == |Queue(Feed(es).log)|;
      AccountingModulo(es);
      TotalBalance(Feed(es), |delivered|, waiting);
      if NoWrap(es) {
        AccountingExact(es);
      }
    }

    constructor (inbox: seq<Event>)
      ensures Valid() && this.inbox == inbox && seen == 0 && delivered == []
    {
      this.inbox := inbox;
      seen, expected, gaps, dropped, received := 0, 1, 0, 0, 0;
      pending, pendingIdx, delivered := [], 0, [];
    }

    /** Sequence number and message count, behind the ten session bytes. */
    method ReadHeader(raw: seq<u8>) returns (seqno: u64, count: u16)
      requires |raw| >= HEADER_LEN
      ensures seqno == SeqOf(raw) && count == CountOf(raw)
    {
      ReadBE64IsBE(raw, 10);
      ReadBE16IsBE(raw, 18);
      seqno, count := ReadBE64(raw, 10), ReadBE16(raw, 18);
    }

    /** Extract the complete blocks of an accepted packet. */
    method ReadBlocks(raw: seq<u8>, count: u16) returns (bs: seq<Block>)
      ensures bs == Blocks(raw, HEADER_LEN, count)
    {
      bs := [];
      var offset: nat := HEADER_LEN;
      for i := 0 to count
        invariant bs + Blocks(raw, offset, count - i) == Blocks(raw, HEADER_LEN, count)
      {
        if offset + 2 > |raw| {
          break;
        }
        var len := ReadBE16(raw, offset);
        if offset + 2 + len > |raw| {
          break;
        }
        bs := bs + [raw[offset + 2..offset + 2 + len]];
        offset := offset + 2 + len;
      }
    }

    /** Header checks, gap accounting and block extraction for one receive. */
    method Absorb(e: Event, ghost t: Tracker)
      requires expected == t.expected && gaps == t.gaps && dropped == t.dropped
      modifies this`expected, this`gaps, this`dropped, this`pending
      ensures var u := Receive(t, e); expected == u.expected && gaps == u.gaps && dropped == u.dropped
      ensures pending == if Accepted(t.expected, e)
                         then Blocks(Raw(e.bytes), HEADER_LEN, CountOf(Raw(e.bytes))) else []
    {
      pending := [];
      if e.RecvError? || |e.bytes| < HEADER_LEN {
        return;
      }
      var raw := Raw(e.bytes);
      var seqno, count := ReadHeader(raw);
      if count == HEARTBEAT || count == 0 {
        return;
      }
      if seqno > expected {
        gaps := (gaps + (seqno - expected)) % TWO64;
      } else if seqno < expected {
        dropped := (dropped + 1) % TWO64;
        return;
      }
      expected := (seqno + count) % TWO64;
      pending := ReadBlocks(raw, count);
    }

    /** Receive one packet; false when the socket is closed. */
    method Refill() returns (open: bool)
      requires Valid() && pendingIdx == |pending|
      modifies this
      ensures Valid() && delivered == old(delivered)
      ensures open == (old(seen) < |inbox|)
      ensures seen == if open then old(seen) + 1 else old(seen)
      ensures !open ==> pending == []
    {
      ghost var t := Feed(inbox[..seen]);
      assert delivered == Queue(t.log);
      pending, pendingIdx := [], 0;
      open := seen < |inbox|;
      if open {
        var e := inbox[seen];
        Absorb(e, t);
        assert inbox[..seen + 1] == inbox[..seen] + [e];
        FeedSnoc(inbox[..seen], e);
        ReceiveQueue(t, e);
        seen := seen + 1;
      }
    }

    method TakePending() returns (b: Block)
      requires Valid() && pendingIdx < |pending|
      modifies this`pendingIdx, this`received, this`delivered
      ensures Valid() && delivered == old(delivered) + [b] && pendingIdx == old(pendingIdx) + 1
    {
      b := pending[pendingIdx];
      assert delivered + pending[pendingIdx..] == delivered + [b] + pending[pendingIdx + 1..];
      AddModulo(|delivered|, received, 1);
      pendingIdx := pendingIdx + 1;
      received := (received + 1) % TWO64;
      delivered := delivered + [b];
    }

    /** The next queued message; none once the socket is closed and everything has been delivered. */
    method NextMessage() returns (r: Option<Block>)
      requires Valid()
      modifies this
      ensures Valid()
      ensures r.Some? ==> delivered == old(delivered) + [r.value]
      ensures r.Some? ==> seen > old(seen) || (seen == old(seen) && |pending| - pendingIdx < old(|pending| - pendingIdx))
      ensures r.None? ==> delivered == old(delivered) == Queue(Feed(inbox).log)
      ensures r.None? ==> seen >= old(seen) && pendingIdx == |pending|
    {
      while true
        invariant Valid() && delivered == old(delivered)
        invariant seen > old(seen) || (seen == old(seen) && pending == old(pending) && pendingIdx == old(pendingIdx))
        decreases |inbox| - seen
      {
        if pendingIdx < |pending| {
          var b := TakePending();
          return Some(b);
        }
        var open := Refill();
        if !open {
          assert inbox[..seen] == inbox;
          return None;
        }
      }
    }
  }

  /** For every packet trace, the messages handed out are exactly the queued ones, in order. */
  method DeliverAll(inbox: seq<Event>) returns (out: seq<Block>)
    ensures out == Queue(Feed(inbox).log)
  {
    var reader := new UDPFeedReader(inbox);
    out := [];
    var next := reader.NextMessage();
    while next.Some?
      invariant reader.Valid() && reader.inbox == inbox && fresh(reader)
      invariant reader.delivered == out + if next.Some? then [next.value] else []
      invariant next.None? ==> reader.delivered == Queue(Feed(inbox).log)
      decreases |inbox| - reader.seen, |reader.pending| - reader.pendingIdx, next.Some?
    {
      out := out + [next.value];
      next := reader.NextMessage();
    }
  }
}
