/** What holds over whole runs of the engine. */
module Runs {
  import opened Words
  import opened Levels
  import opened Messages
  import opened Engine
  import opened Sums
  import opened Ledger

  // ----- references that are not reused while live -----

  /** Message `i` files its record under a reference that is not live at that point. */
  predicate FreshAt(a: Arith, s: State, ms: seq<Message>, i: nat)
    requires i < |ms|
  {
    Overwritten(Run(a, s, ms[..i]), ms[i]) == []
  }

  ghost predicate FreshRun(a: Arith, s: State, ms: seq<Message>) {
    forall i :: 0 <= i < |ms| ==> FreshAt(a, s, ms, i)
  }

  lemma FreshAtPrefix(a: Arith, s: State, ms: seq<Message>, n: nat, i: nat)
    requires i < n <= |ms|
    ensures FreshAt(a, s, ms[..n], i) == FreshAt(a, s, ms, i)
  {
    assert ms[..n][..i] == ms[..i];
  }

  lemma FreshRunSnoc(a: Arith, s: State, ms: seq<Message>)
    requires ms != []
    ensures FreshRun(a, s, ms) <==> FreshRun(a, s, ms[..|ms| - 1]) && FreshAt(a, s, ms, |ms| - 1)
  {
    var n := |ms| - 1;
    forall i | 0 <= i < n ensures FreshAt(a, s, ms[..n], i) == FreshAt(a, s, ms, i) {
      FreshAtPrefix(a, s, ms, n, i);
    }
    if FreshRun(a, s, ms[..n]) && FreshAt(a, s, ms, n) {
      forall i | 0 <= i < |ms| ensures FreshAt(a, s, ms, i) {
        assert i < n ==> FreshAt(a, s, ms[..n], i);
      }
    }
  }

  lemma {:induction false} FreshRunHasNoOrphans(a: Arith, s: State, ms: seq<Message>)
    ensures FreshRun(a, s, ms) <==> Orphans(a, s, ms) == []
  {
    if ms != [] {
      FreshRunHasNoOrphans(a, s, ms[..|ms| - 1]);
      FreshRunSnoc(a, s, ms);
    }
  }

  /** Levels count live orders only. */
  ghost predicate LiveOnly(s: State) {
    forall k :: KeyOk(s, [], k)
  }

  /** The aggregates equal the sums over live orders exactly when no live reference was reused. */
  lemma LiveOnlyIffFresh(instruments: map<u16, Instrument>, ms: seq<Message>)
    ensures var s := Boot(instruments);
            LiveOnly(Run(Exact, s, ms)) <==> FreshRun(Exact, s, ms)
  {
    var s0 := Boot(instruments);
    var s, ledger := Run(Exact, s0, ms), Orphans(Exact, s0, ms);
    RunConsistent(instruments, ms);
    FreshRunHasNoOrphans(Exact, s0, ms);
    if ledger != [] {
      var k := KeyOf(ledger[|ledger| - 1]);
      assert SumSeq(ledger, OrdersAt(k)) > 0;
      assert KeyOk(s, ledger, k);
      assert !KeyOk(s, [], k);
    }
  }

  /** Two Adds under one reference: the level keeps both orders, the index only the second. */
  lemma ReuseBreaksLiveOnly()
    ensures var bid := AddOrder(0, 0, 0, 7, 0x42, 1, [], 1);
            !LiveOnly(Run(Exact, Boot(map[]), [bid, bid]))
  {
    var bid := AddOrder(0, 0, 0, 7, 0x42, 1, [], 1);
    var ms := [bid, bid];
    RunSnoc(Exact, Boot(map[]), [], bid);
    assert ms[..1] == [] + [bid];
    assert 7 in Run(Exact, Boot(map[]), ms[..1]).orders;
    assert !FreshAt(Exact, Boot(map[]), ms, 1);
    LiveOnlyIffFresh(map[], ms);
  }

  /** What a run that never reuses a live reference shows at each key and each top. */
  lemma FreshRunBooks(instruments: map<u16, Instrument>, ms: seq<Message>, k: Key)
    requires FreshRun(Exact, Boot(instruments), ms)
    ensures var s := Run(Exact, Boot(instruments), ms);
            var ls := LevelsAt(s, k.locate, k.side);
            && (k.price in ls <==> exists r :: r in s.orders && KeyOf(s.orders[r]) == k)
            && (k.price in ls ==>
                  ls[k.price] == Level(k.price, Sum(s.orders, SharesAt(k)), Sum(s.orders, OrdersAt(k))))
            && (k.locate in s.books ==>
                  var top := s.books[k.locate].Top(k.side);
                  && (top.None? <==> ls == map[])
                  && (top.Some? ==> IsBest(k.side, ls, top.value)))
  {
    var s := Run(Exact, Boot(instruments), ms);
    RunConsistent(instruments, ms);
    FreshRunHasNoOrphans(Exact, Boot(instruments), ms);
    assert KeyOk(s, [], k);
    SumOccupied(s.orders, k);
    assert k.locate in s.books ==> BookOk(s, k.locate);
  }

  // ----- removals never miss, clamp or underflow -----

  ghost predicate Housed(s: State, rec: OrderRecord) {
    var ls := LevelsAt(s, rec.locate, SideOf(rec.side));
    && rec.locate in s.books
    && rec.locate in s.instruments
    && rec.price in ls
    && ls[rec.price].orders >= 1
    && ls[rec.price].shares >= rec.shares
  }

  lemma ConsistentHouses(s: State, ledger: seq<OrderRecord>, ref: u64)
    requires Consistent(s, ledger) && ref in s.orders
    ensures Housed(s, s.orders[ref])
  {
    var k := KeyOf(s.orders[ref]);
    assert KeyOk(s, ledger, k);
    SumRemove(s.orders, ref, SharesAt(k));
    SumRemove(s.orders, ref, OrdersAt(k));
    assert BookOk(s, k.locate);
  }

  /** In every run, every live order finds its book, its instrument and a level that covers it. */
  lemma RunHouses(instruments: map<u16, Instrument>, ms: seq<Message>, ref: u64)
    requires ref in Run(Exact, Boot(instruments), ms).orders
    ensures var s := Run(Exact, Boot(instruments), ms);
            Housed(s, s.orders[ref])
  {
    RunConsistent(instruments, ms);
    ConsistentHouses(Run(Exact, Boot(instruments), ms), Orphans(Exact, Boot(instruments), ms), ref);
  }

  // ----- conservation of shares, and the counters -----

  /** Does the message refer to an existing order? */
  predicate Refers(m: Message) {
    m.Executed? || m.ExecutedPrice? || m.Cancel? || m.Delete? || m.Replace?
  }

  predicate Skips(s: State, m: Message) {
    Refers(m) && m.ref !in s.orders
  }

  predicate Oversized(s: State, m: Message) {
    (m.Executed? || m.ExecutedPrice? || m.Cancel?) && m.ref in s.orders && Asked(m) > s.orders[m.ref].shares
  }

  /** Shares the message brings into the book. */
  function Brought(s: State, m: Message): nat {
    if m.AddOrder? || m.AddOrderMpid? then m.shares
    else if m.Replace? && m.ref in s.orders then m.shares
    else 0
  }

  /** Shares the message takes out of the book, after clamping. */
  function Taken(s: State, m: Message): nat {
    if !Refers(m) || m.ref !in s.orders then 0
    else if m.Delete? || m.Replace? then s.orders[m.ref].shares
    else if Asked(m) > s.orders[m.ref].shares then s.orders[m.ref].shares
    else Asked(m)
  }

  datatype Tally = Tally(brought: nat, taken: nat, skips: nat, oversized: nat)

  /** The message history read one message at a time, without looking at books or counters. */
  function History(a: Arith, s: State, ms: seq<Message>): Tally {
    if ms == [] then Tally(0, 0, 0, 0)
    else
      var init, m := ms[..|ms| - 1], ms[|ms| - 1];
      var h, t := History(a, s, init), Run(a, s, init);
      Tally(h.brought + Brought(t, m), h.taken + Taken(t, m),
            h.skips + (if Skips(t, m) then 1 else 0),
            h.oversized + (if Oversized(t, m) then 1 else 0))
  }

  lemma ReplaceBalance(s: State, ledger: seq<OrderRecord>, m: Message, w: Measure)
    requires m.Replace? && m.ref in s.orders
    ensures var was := s.orders[m.ref];
            var rec := Successor(was, m.shares, m.price);
            Resting(Handle(Exact, s, m), ledger + Overwritten(s, m), w)
            == Resting(s, ledger, w) - Weigh(w, was) + Weigh(w, rec)
  {
    var was := s.orders[m.ref];
    var rec := Successor(was, m.shares, m.price);
    var mid := DeleteImpl(Exact, s, m.ref, m.timestamp);
    DeleteIsReduce(Exact, s, m.ref, m.timestamp);
    RestingAfterReduce(s, ledger, m.ref, was.shares, m.timestamp, w);
    ReplaceIsDeleteThenRest(Exact, s, m.ref, m.newRef, m.shares, m.price, m.timestamp);
    RestingAfterRest(mid, ledger, m.newRef, rec, m.timestamp, w);
  }

  lemma ReduceBalance(s: State, ledger: seq<OrderRecord>, ref: u64, n: u32, ts: u64)
    requires ref in s.orders
    ensures var rec := s.orders[ref];
            Resting(Reduce(Exact, s, ref, n, ts), ledger, AllShares) + (rec.shares - Left(rec, n))
            == Resting(s, ledger, AllShares)
  {
    RestingAfterReduce(s, ledger, ref, n, ts, AllShares);
  }

  lemma TakeBalance(s: State, ledger: seq<OrderRecord>, m: Message)
    requires Refers(m) && !m.Replace? && m.ref in s.orders
    ensures Resting(Handle(Exact, s, m), ledger, AllShares) + Taken(s, m) == Resting(s, ledger, AllShares)
  {
    if m.Delete? {
      DeleteIsReduce(Exact, s, m.ref, m.timestamp);
      ReduceBalance(s, ledger, m.ref, s.orders[m.ref].shares, m.timestamp);
    } else {
      ReduceBalance(s, ledger, m.ref, Asked(m), m.timestamp);
    }
  }

  lemma HandleBalance(s: State, ledger: seq<OrderRecord>, m: Message)
    ensures Resting(Handle(Exact, s, m), ledger + Overwritten(s, m), AllShares) + Taken(s, m)
            == Resting(s, ledger, AllShares) + Brought(s, m)
  {
    assert ledger + [] == ledger;
    if m.AddOrder? || m.AddOrderMpid? {
      RestingAfterRest(s, ledger, m.ref, NewRecord(m), m.timestamp, AllShares);
    } else if Refers(m) && m.ref in s.orders {
      if m.Replace? {
        ReplaceBalance(s, ledger, m, AllShares);
      } else {
        TakeBalance(s, ledger, m);
      }
    }
  }

  lemma StepBalance(s: State, ledger: seq<OrderRecord>, m: Message)
    ensures Resting(Apply(Exact, s, m), ledger + Overwritten(s, m), AllShares) + Taken(s, m)
            == Resting(s, ledger, AllShares) + Brought(s, m)
  {
    HandleBalance(s, ledger, m);
    assert Apply(Exact, s, m).orders == Handle(Exact, s, m).orders;
  }

  /** Shares brought in equal shares live, plus shares taken, plus shares of overwritten records. */
  lemma {:induction false} SharesConserved(instruments: map<u16, Instrument>, ms: seq<Message>)
    ensures var s := Boot(instruments);
            var h := History(Exact, s, ms);
            h.brought == Sum(Run(Exact, s, ms).orders, AllShares) + h.taken
                         + SumSeq(Orphans(Exact, s, ms), AllShares)
  {
    if ms != [] {
      var s, init := Boot(instruments), ms[..|ms| - 1];
      SharesConserved(instruments, init);
      StepBalance(Run(Exact, s, init), Orphans(Exact, s, init), ms[|ms| - 1]);
    }
  }

  lemma StepCounters(s: State, m: Message)
    ensures var t := Apply(Exact, s, m);
            && t.processed == s.processed + 1
            && t.skipped == s.skipped + (if Skips(s, m) then 1 else 0)
            && t.corrupt == s.corrupt + (if Oversized(s, m) then 1 else 0)
  {
  }

  /** `skipped` counts the messages on dead references and `corrupt` the oversized takes. */
  lemma {:induction false} CountersExact(instruments: map<u16, Instrument>, ms: seq<Message>)
    ensures var s := Boot(instruments);
            var t, h := Run(Exact, s, ms), History(Exact, s, ms);
            t.processed == |ms| && t.skipped == h.skips && t.corrupt == h.oversized
  {
    if ms != [] {
      var init := ms[..|ms| - 1];
      CountersExact(instruments, init);
      StepCounters(Run(Exact, Boot(instruments), init), ms[|ms| - 1]);
    }
  }

  // ----- Replace is Delete then Add -----

  predicate Blank(c: u8) {
    c == 0x20 || c == 0
  }

  /** What is shown is the part up to the last byte that is neither a space nor a NUL. */
  lemma {:induction false} ShownMpid(s: Text)
    ensures TrimMpid(s) <= s
    ensures TrimMpid(s) == [] || !Blank(TrimMpid(s)[|TrimMpid(s)| - 1])
    ensures forall i :: |TrimMpid(s)| <= i < |s| ==> Blank(s[i])
  {
    if s != [] && Blank(s[|s| - 1]) {
      ShownMpid(s[..|s| - 1]);
    }
  }

  /** A participant id of at most four bytes that does not end in a blank reads back. */
  lemma StoredMpidReadsBack(s: Text)
    requires |s| <= 4 && (s == [] || !Blank(s[|s| - 1]))
    ensures TrimMpid(StoreMpid(s)) == s
    ensures s <= StoreMpid(s) && forall i :: |s| <= i < 4 ==> StoreMpid(s)[i] == if s == [] then 0 else 0x20
  {
    if s != [] {
      TrimSpaces(s, StoreMpid(s));
    } else {
      assert TrimMpid([0]) == [] by { assert [0][..0] == []; }
      assert TrimMpid([0, 0]) == [] by { assert [0, 0][..1] == [0]; }
      assert TrimMpid([0, 0, 0]) == [] by { assert [0, 0, 0][..2] == [0, 0]; }
      assert [0, 0, 0, 0][..3] == [0, 0, 0];
    }
  }

  lemma {:induction false} TrimSpaces(s: Text, padded: Text)
    requires s <= padded && TrimMpid(s) == s
    requires forall i :: |s| <= i < |padded| ==> padded[i] == SPACE
    ensures TrimMpid(padded) == s
    decreases |padded|
  {
    if |padded| == |s| {
      assert padded == s;
    } else {
      TrimSpaces(s, padded[..|padded| - 1]);
    }
  }

  predicate SameOrder(x: OrderRecord, y: OrderRecord) {
    x.(mpid := [0, 0, 0, 0]) == y.(mpid := [0, 0, 0, 0]) && TrimMpid(x.mpid) == TrimMpid(y.mpid)
  }

  /**
   A Replace of a live order does what a Delete of it followed by an attributed Add on its
   side and locate would do: same books, tops, stamps and instruments, same index keys, and
   records equal up to the padding of the participant id.
   */
  lemma ReplaceIsDeleteThenAdd(a: Arith, s: State, m: Message, t1: u16, t2: u16, stock: Text)
    requires m.Replace? && m.ref in s.orders
    ensures var was := s.orders[m.ref];
            var del := Delete(was.locate, t1, m.timestamp, m.ref);
            var add := AddOrderMpid(was.locate, t2, m.timestamp, m.newRef, was.side,
                                    m.shares, stock, m.price, TrimMpid(was.mpid));
            var x, y := Handle(a, s, m), Handle(a, Handle(a, s, del), add);
            && x.books == y.books && x.instruments == y.instruments
            && x.orders.Keys == y.orders.Keys
            && (forall r :: r in x.orders ==> SameOrder(x.orders[r], y.orders[r]))
  {
    var was := s.orders[m.ref];
    ReplaceIsDeleteThenRest(a, s, m.ref, m.newRef, m.shares, m.price, m.timestamp);
    ShownMpid(was.mpid);
    StoredMpidReadsBack(TrimMpid(was.mpid));
  }
}
