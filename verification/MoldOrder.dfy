/** The order in which messages are delivered, in terms of the sequence numbers on the wire. */
module MoldOrder {
  import opened Words
  import opened Mold
  import opened MoldPackets

  datatype Numbered = Numbered(number: nat, block: Block)

  ghost predicate Increasing(ds: seq<Numbered>) {
    forall i, j :: 0 <= i < j < |ds| ==> ds[i].number < ds[j].number
  }

  function BlocksOf(e: Event): seq<Block>
    requires !Idle(e)
  {
    Blocks(Raw(e.bytes), HEADER_LEN, CountOf(Raw(e.bytes)))
  }

  /** Blocks under consecutive 64-bit numbers from `first` on. */
  function WireNumbers(bs: seq<Block>, first: nat): seq<Numbered> {
    seq(|bs|, j requires 0 <= j < |bs| => Numbered((first + j) % TWO64, bs[j]))
  }

  /** What a packet delivers when `expected` is expected: its complete blocks, numbered from its header. */
  function Carried(expected: u64, e: Event): seq<Numbered> {
    if Accepted(expected, e) then WireNumbers(BlocksOf(e), SeqOf(Raw(e.bytes))) else []
  }

  /** The deliveries of a packet trace, with the numbers they carry on the wire. */
  function Deliveries(es: seq<Event>): seq<Numbered> {
    if es == [] then []
    else
      var n := |es| - 1;
      Deliveries(es[..n]) + Carried(Feed(es[..n]).expected, es[n])
  }

  // ----- deliveries are the blocks of accepted packets, and what the reader hands out -----

  /** Packet `i` is accepted where it stands in the trace, and `d` is its block `j` under its own number. */
  ghost predicate SentAs(es: seq<Event>, i: nat, j: nat, d: Numbered) {
    && i < |es| && Accepted(Feed(es[..i]).expected, es[i])
    && j < |BlocksOf(es[i])|
    && d == WireNumbers(BlocksOf(es[i]), SeqOf(Raw(es[i].bytes)))[j]
  }

  lemma SentAsPrefix(es: seq<Event>, n: nat, i: nat, j: nat, d: Numbered)
    requires i < n <= |es|
    ensures SentAs(es[..n], i, j, d) == SentAs(es, i, j, d)
  {
    assert es[..n][..i] == es[..i];
  }

  /** Every delivery is a complete block of an accepted packet, under the number it was sent with. */
  lemma {:induction false} DeliveredWasSent(es: seq<Event>, d: Numbered) returns (i: nat, j: nat)
    requires d in Deliveries(es)
    ensures SentAs(es, i, j, d)
  {
    var n := |es| - 1;
    if d in Deliveries(es[..n]) {
      i, j := DeliveredWasSent(es[..n], d);
      SentAsPrefix(es, n, i, j, d);
    } else {
      var last := Carried(Feed(es[..n]).expected, es[n]);
      i := n;
      j :| 0 <= j < |last| && last[j] == d;
    }
  }

  lemma LastIsDelivered(es: seq<Event>, j: nat, d: Numbered)
    requires es != [] && SentAs(es, |es| - 1, j, d)
    ensures d in Deliveries(es)
  {
    assert d in Carried(Feed(es[..|es| - 1]).expected, es[|es| - 1]);
  }

  /** And every complete block of an accepted packet is delivered. */
  lemma {:induction false} SentIsDelivered(es: seq<Event>, i: nat, j: nat, d: Numbered)
    requires SentAs(es, i, j, d)
    ensures d in Deliveries(es)
  {
    var n := |es| - 1;
    if i == n {
      LastIsDelivered(es, j, d);
    } else {
      SentAsPrefix(es, n, i, j, d);
      SentIsDelivered(es[..n], i, j, d);
      assert Deliveries(es[..n]) <= Deliveries(es);
    }
  }

  function BlocksIn(ds: seq<Numbered>): seq<Block> {
    seq(|ds|, i requires 0 <= i < |ds| => ds[i].block)
  }

  lemma BlocksInJoin(x: seq<Numbered>, y: seq<Numbered>)
    ensures BlocksIn(x + y) == BlocksIn(x) + BlocksIn(y)
  {
  }

  lemma BlocksInWire(bs: seq<Block>, first: nat)
    ensures BlocksIn(WireNumbers(bs, first)) == bs
  {
  }

  /** The reader hands out the deliveries, in that order. */
  lemma {:induction false} QueueIsDeliveries(es: seq<Event>)
    ensures Queue(Feed(es).log) == BlocksIn(Deliveries(es))
  {
    if es != [] {
      var n := |es| - 1;
      var t, e := Feed(es[..n]), es[n];
      QueueIsDeliveries(es[..n]);
      ReceiveQueue(t, e);
      BlocksInJoin(Deliveries(es[..n]), Carried(t.expected, e));
      if Accepted(t.expected, e) {
        BlocksInWire(BlocksOf(e), SeqOf(Raw(e.bytes)));
      }
    }
  }

  // ----- wire numbers are log positions modulo 2^64 -----

  /** The queued entries of a log whose first entry has number `first`. */
  function Positions(log: seq<Fate>, first: nat): seq<Numbered> {
    if log == [] then []
    else
      var n := |log| - 1;
      Positions(log[..n], first) + if log[n].Queued? then [Numbered(first + n, log[n].block)] else []
  }

  lemma {:induction false} PositionsJoin(x: seq<Fate>, y: seq<Fate>, first: nat)
    ensures Positions(x + y, first) == Positions(x, first) + Positions(y, first + |x|)
  {
    if y == [] {
      assert x + y == x;
    } else {
      var n := |y| - 1;
      PositionsJoin(x, y[..n], first);
      assert (x + y)[..|x + y| - 1] == x + y[..n];
    }
  }

  lemma {:induction false} PositionsRepeat(f: Fate, n: nat, first: nat)
    requires !f.Queued?
    ensures Positions(Repeat(f, n), first) == []
  {
    if n > 0 {
      PositionsRepeat(f, n - 1, first);
      assert Repeat(f, n)[..n - 1] == Repeat(f, n - 1);
    }
  }

  function NumberFrom(bs: seq<Block>, first: nat): seq<Numbered> {
    seq(|bs|, j requires 0 <= j < |bs| => Numbered(first + j, bs[j]))
  }

  lemma {:induction false} PositionsQueued(bs: seq<Block>, first: nat)
    ensures Positions(QueuedAll(bs), first) == NumberFrom(bs, first)
  {
    if bs != [] {
      var n := |bs| - 1;
      PositionsQueued(bs[..n], first);
      assert QueuedAll(bs)[..n] == QueuedAll(bs[..n]);
    }
  }

  lemma PositionsPacket(gap: nat, bs: seq<Block>, cut: nat, first: nat)
    ensures Positions(Repeat(Gap, gap) + QueuedAll(bs) + Repeat(Cut, cut), first) == NumberFrom(bs, first + gap)
  {
    PositionsJoin(Repeat(Gap, gap) + QueuedAll(bs), Repeat(Cut, cut), first);
    PositionsJoin(Repeat(Gap, gap), QueuedAll(bs), first);
    PositionsRepeat(Gap, gap, first);
    PositionsRepeat(Cut, cut, first + gap + |bs|);
    PositionsQueued(bs, first + gap);
  }

  /** The same blocks, numbers reduced to 64 bits. */
  function Folded(ds: seq<Numbered>): seq<Numbered> {
    seq(|ds|, i requires 0 <= i < |ds| => Numbered(ds[i].number % TWO64, ds[i].block))
  }

  lemma FoldedJoin(x: seq<Numbered>, y: seq<Numbered>)
    ensures Folded(x + y) == Folded(x) + Folded(y)
  {
  }

  lemma FoldedNumbers(bs: seq<Block>, first: nat, seqno: nat)
    requires first % TWO64 == seqno % TWO64
    ensures Folded(NumberFrom(bs, first)) == WireNumbers(bs, seqno)
  {
    forall j | 0 <= j < |bs| ensures Folded(NumberFrom(bs, first))[j] == WireNumbers(bs, seqno)[j] {
      AddModulo(first, first % TWO64, j);
      AddModulo(seqno, seqno % TWO64, j);
    }
  }

  /** A packet with sequence number `seqno`, received after `seen` numbers have been settled. */
  lemma PacketPositions(seen: nat, expected: nat, seqno: nat, bs: seq<Block>, cut: nat)
    requires (seen + 1) % TWO64 == expected <= seqno
    ensures Folded(Positions(Repeat(Gap, seqno - expected) + QueuedAll(bs) + Repeat(Cut, cut), seen + 1))
            == WireNumbers(bs, seqno)
  {
    var gap := seqno - expected;
    PositionsPacket(gap, bs, cut, seen + 1);
    AddModulo(seen + 1, expected, gap);
    FoldedNumbers(bs, seen + 1 + gap, seqno);
  }

  lemma CarriedPositions(t: Tracker, e: Event)
    requires Accounted(t) && Accepted(t.expected, e)
    ensures Carried(t.expected, e) == Folded(Positions(Settled(t.expected, Raw(e.bytes)), |t.log| + 1))
  {
    var raw, bs := Raw(e.bytes), BlocksOf(e);
    PacketPositions(|t.log|, t.expected, SeqOf(raw), bs, CountOf(raw) - |bs|);
  }

  /** For every trace, the number on the wire is the position in the log modulo 2^64. */
  lemma {:induction false} WireNumbersArePositions(es: seq<Event>)
    ensures Deliveries(es) == Folded(Positions(Feed(es).log, 1))
  {
    if es != [] {
      var n := |es| - 1;
      var t, e := Feed(es[..n]), es[n];
      WireNumbersArePositions(es[..n]);
      AccountingModulo(es[..n]);
      if Accepted(t.expected, e) {
        var more := Settled(t.expected, Raw(e.bytes));
        CarriedPositions(t, e);
        PositionsJoin(t.log, more, 1);
        FoldedJoin(Positions(t.log, 1), Positions(more, |t.log| + 1));
      }
    }
  }

  ghost predicate Logged(log: seq<Fate>, d: Numbered) {
    1 <= d.number <= |log| && log[d.number - 1] == Queued(d.block)
  }

  lemma {:induction false} PositionsIncrease(log: seq<Fate>)
    ensures forall d :: d in Positions(log, 1) ==> Logged(log, d)
    ensures Increasing(Positions(log, 1))
  {
    if log != [] {
      var n := |log| - 1;
      var init, last := Positions(log[..n], 1), if log[n].Queued? then [Numbered(n + 1, log[n].block)] else [];
      PositionsIncrease(log[..n]);
      forall d | d in init ensures Logged(log, d) && d.number <= n {
        assert Logged(log[..n], d);
      }
      assert forall i :: 0 <= i < |init| ==> init[i] in init;
      assert Positions(log, 1) == init + last;
    }
  }

  lemma {:induction false} QueuedHasPosition(log: seq<Fate>, k: nat)
    requires k < |log| && log[k].Queued?
    ensures Numbered(k + 1, log[k].block) in Positions(log, 1)
  {
    if k < |log| - 1 {
      QueuedHasPosition(log[..|log| - 1], k);
    }
  }

  // ----- order -----

  lemma FoldedSmall(ds: seq<Numbered>)
    requires forall d :: d in ds ==> d.number < TWO64
    ensures Folded(ds) == ds
  {
    forall i | 0 <= i < |ds| ensures Folded(ds)[i] == ds[i] {
      assert ds[i] in ds;
    }
  }

  lemma ShortLogUnfolded(log: seq<Fate>)
    requires |log| < TWO64
    ensures Folded(Positions(log, 1)) == Positions(log, 1)
  {
    var ds := Positions(log, 1);
    assert forall d :: d in ds ==> Logged(log, d) by { PositionsIncrease(log); }
    FoldedSmall(ds);
  }

  /** While the log is shorter than 2^64 the wire numbers are the positions, hence strictly increasing. */
  lemma ShortLogInOrder(es: seq<Event>)
    requires |Feed(es).log| < TWO64
    ensures Deliveries(es) == Positions(Feed(es).log, 1) && Increasing(Deliveries(es))
  {
    WireNumbersArePositions(es);
    ShortLogUnfolded(Feed(es).log);
    PositionsIncrease(Feed(es).log);
  }

  /** Without wrap a delivered block carries exactly the header's number plus its place in the packet. */
  lemma PlainNumber(es: seq<Event>, i: nat, j: nat, d: Numbered)
    requires NoWrap(es) && SentAs(es, i, j, d)
    ensures SeqOf(Raw(es[i].bytes)) + j < TWO64
    ensures d == Numbered(SeqOf(Raw(es[i].bytes)) + j, BlocksOf(es[i])[j])
  {
    assert !WrapsAt(es, i);
  }

  /**
   For every trace of lost, duplicated, reordered and overlapping packets without wrap: deliveries
   carry strictly increasing numbers, so none is delivered twice, and each is a complete block of
   an accepted packet under the number the packet's header gives it.
   */
  lemma DeliveriesInOrder(es: seq<Event>)
    requires NoWrap(es)
    ensures Increasing(Deliveries(es))
    ensures forall d :: d in Deliveries(es) ==> exists i: nat, j: nat ::
              SentAs(es, i, j, d) && d == Numbered(SeqOf(Raw(es[i].bytes)) + j, BlocksOf(es[i])[j])
  {
    AccountingExact(es);
    ShortLogInOrder(es);
    forall d | d in Deliveries(es)
      ensures exists i: nat, j: nat ::
                SentAs(es, i, j, d) && d == Numbered(SeqOf(Raw(es[i].bytes)) + j, BlocksOf(es[i])[j])
    {
      var i, j := DeliveredWasSent(es, d);
      PlainNumber(es, i, j, d);
    }
  }

  /** No accepted packet reaches beyond the last 64-bit number, and none is accepted after one that reaches it. */
  ghost predicate Within(es: seq<Event>) {
    if es == [] then true
    else
      var n := |es| - 1;
      && Within(es[..n])
      && (Accepted(Feed(es[..n]).expected, es[n]) ==>
            NoWrap(es[..n]) && SeqOf(Raw(es[n].bytes)) + CountOf(Raw(es[n].bytes)) <= TWO64)
  }

  lemma {:induction false} WithinIsShortLog(es: seq<Event>)
    ensures Within(es) <==> |Feed(es).log| < TWO64
  {
    if es != [] {
      var n := |es| - 1;
      WithinIsShortLog(es[..n]);
      AccountingExact(es[..n]);
      ReceiveLength(Feed(es[..n]), es[n]);
    }
  }

  /** The last 64-bit number can never be counted as a gap. */
  lemma {:induction false} LastNumberIsNoGap(es: seq<Event>)
    requires |Feed(es).log| >= TWO64 - 1
    ensures !Feed(es).log[TWO64 - 2].Gap?
  {
    if es != [] {
      var n := |es| - 1;
      var t, e := Feed(es[..n]), es[n];
      if |t.log| >= TWO64 - 1 {
        LastNumberIsNoGap(es[..n]);
      } else {
        AccountingExact(es[..n]);
        SettledAfterGap(t.expected, Raw(e.bytes), TWO64 - 2 - |t.log|);
      }
    }
  }

  lemma SettledAfterGap(expected: u64, raw: seq<u8>, k: nat)
    requires |raw| >= HEADER_LEN && SeqOf(raw) >= expected
    requires SeqOf(raw) - expected <= k < |Settled(expected, raw)|
    ensures !Settled(expected, raw)[k].Gap?
  {
  }

  /** Where nothing was cut off, a log ends with a queued message. */
  lemma {:induction false} UncutEndsQueued(es: seq<Event>)
    requires Count(Feed(es).log).cut == 0 && Feed(es).log != []
    ensures var log := Feed(es).log; log[|log| - 1].Queued?
  {
    var n := |es| - 1;
    var t, e := Feed(es[..n]), es[n];
    if Accepted(t.expected, e) {
      SettledCensus(t.expected, Raw(e.bytes));
      CountJoin(t.log, Settled(t.expected, Raw(e.bytes)));
      assert |BlocksOf(e)| == CountOf(Raw(e.bytes));
    } else {
      UncutEndsQueued(es[..n]);
    }
  }

  /** Once the last number and a later one are delivered, the later one is not larger on the wire. */
  lemma LongLogFoldsBack(log: seq<Fate>)
    requires |log| >= TWO64 && log[TWO64 - 2].Queued? && log[|log| - 1].Queued?
    ensures !Increasing(Folded(Positions(log, 1)))
  {
    var ds, top, end := Positions(log, 1), TWO64 - 2, |log| - 1;
    QueuedHasPosition(log, top);
    QueuedHasPosition(log, end);
    var i :| 0 <= i < |ds| && ds[i] == Numbered(top + 1, log[top].block);
    var j :| 0 <= j < |ds| && ds[j] == Numbered(end + 1, log[end].block);
    PositionsIncrease(log);
    assert i < j;
    assert Folded(ds)[i].number >= Folded(ds)[j].number;
  }

  /** Without cuts, a long log queues both the last 64-bit number and its own last entry. */
  lemma LongLogEnds(es: seq<Event>, log: seq<Fate>)
    requires log == Feed(es).log && |log| >= TWO64 && Count(log).cut == 0
    ensures log[TWO64 - 2].Queued? && log[|log| - 1].Queued?
  {
    LastNumberIsNoGap(es);
    NoCutAt(log, TWO64 - 2);
    UncutEndsQueued(es);
  }

  lemma LongLogOutOfOrder(es: seq<Event>, log: seq<Fate>)
    requires log == Feed(es).log && |log| >= TWO64 && Count(log).cut == 0
    ensures !Increasing(Deliveries(es))
  {
    LongLogEnds(es, log);
    LongLogFoldsBack(log);
    WireNumbersArePositions(es);
  }

  lemma {:induction false} NoCutAt(log: seq<Fate>, k: nat)
    requires Count(log).cut == 0 && k < |log|
    ensures !log[k].Cut?
  {
    if k < |log| - 1 {
      NoCutAt(log[..|log| - 1], k);
    }
  }

  /**
   Deliveries are in strictly increasing order while nothing goes past the last number, and where no
   block is cut off exactly then.
   */
  lemma InOrderIffWithin(es: seq<Event>)
    ensures Within(es) ==> Increasing(Deliveries(es))
    ensures Count(Feed(es).log).cut == 0 ==> (Increasing(Deliveries(es)) <==> Within(es))
  {
    WithinIsShortLog(es);
    if Within(es) {
      ShortLogInOrder(es);
    } else if Count(Feed(es).log).cut == 0 {
      LongLogOutOfOrder(es, Feed(es).log);
    }
  }

  lemma CarriedAll(expected: u64, e: Event, seqno: nat, g: seq<Block>)
    requires Carries(e, seqno, g) && expected <= seqno
    ensures Carried(expected, e) == WireNumbers(g, seqno)
  {
  }

  ghost predicate Reached(es: seq<Event>, expected: u64, ds: seq<Numbered>) {
    Feed(es).expected == expected && Deliveries(es) == ds
  }

  lemma ReceiveCarried(t: Tracker, e: Event, seqno: nat, g: seq<Block>)
    requires Carries(e, seqno, g) && t.expected <= seqno
    ensures Receive(t, e).expected == (seqno + |g|) % TWO64
  {
  }

  lemma DeliveriesSnoc(es: seq<Event>, e: Event)
    ensures Deliveries(es + [e]) == Deliveries(es) + Carried(Feed(es).expected, e)
  {
    assert (es + [e])[..|es|] == es;
  }

  /** The packet `e` yields `more` when at most `seqno` is expected, and `next` is expected after it. */
  ghost predicate Yields(e: Event, seqno: nat, next: u64, more: seq<Numbered>) {
    && (forall expected: u64 :: expected <= seqno ==> Carried(expected, e) == more)
    && (forall t: Tracker :: t.expected <= seqno ==> Receive(t, e).expected == next)
  }

  lemma CarriedYields(e: Event, seqno: u64, g: seq<Block>)
    requires Carries(e, seqno, g)
    ensures var end := seqno + |g|;
            Yields(e, seqno, if end < TWO64 then end else end - TWO64, WireNumbers(g, seqno))
  {
    var end := seqno + |g|;
    forall t: Tracker | t.expected <= seqno
      ensures Receive(t, e).expected == if end < TWO64 then end else end - TWO64
    {
      ReceiveCarried(t, e, seqno, g);
    }
    forall expected: u64 | expected <= seqno ensures Carried(expected, e) == WireNumbers(g, seqno) {
      CarriedAll(expected, e, seqno, g);
    }
  }

  lemma DeliverMore(es: seq<Event>, expected: u64, ds: seq<Numbered>, e: Event, seqno: nat, next: u64, more: seq<Numbered>)
    requires Reached(es, expected, ds) && Yields(e, seqno, next, more) && expected <= seqno
    ensures Reached(es + [e], next, ds + more)
  {
    FeedSnoc(es, e);
    DeliveriesSnoc(es, e);
  }

  lemma DeliverAgain(p: Event, q: Event, a: nat, b: nat, next: u64, last: u64, u: seq<Numbered>, v: seq<Numbered>)
    requires Yields(p, a, next, u) && Yields(q, b, last, v) && 1 <= a && next <= b && last <= a
    ensures Deliveries([] + [p] + [q] + [p]) == [] + u + v + u
  {
    assert Reached([], 1, []);
    DeliverMore([], 1, [], p, a, next, u);
    DeliverMore([] + [p], next, [] + u, q, b, last, v);
    DeliverMore([] + [p] + [q], last, [] + u + v, p, a, next, u);
  }

  lemma Chain<T>(x: T, y: T)
    ensures [] + [x] + [y] + [x] == [x, y, x]
  {
  }

  /**
   After a packet that reaches the end of the number space, the sequence starts over: an earlier
   packet is accepted and delivered again under the same numbers.
   */
  lemma WrapDeliversTwice(session: seq<u8>, a: u64, x: seq<Block>, b: u64, y: seq<Block>)
    requires |session| == 10 && FitsPacket(x) && FitsPacket(y)
    requires 1 <= a && a + |x| <= b && TWO64 <= b + |y| <= TWO64 + a
    ensures var p, q := Datagram(WritePacket(session, a, x)), Datagram(WritePacket(session, b, y));
            Deliveries([p, q, p]) == WireNumbers(x, a) + WireNumbers(y, b) + WireNumbers(x, a)
  {
    var p, q := Datagram(WritePacket(session, a, x)), Datagram(WritePacket(session, b, y));
    PacketCarries(session, a, x);
    PacketCarries(session, b, y);
    CarriedYields(p, a, x);
    CarriedYields(q, b, y);
    Chain(p, q);
    var u, v := WireNumbers(x, a), WireNumbers(y, b);
    DeliverAgain(p, q, a, b, a + |x|, b + |y| - TWO64, u, v);
    assert [] + u == u;
  }
}
