/** The machine's wrapping arithmetic agrees with exact arithmetic while counts fit their words. */
module NoWrap {
  import opened Words
  import opened Levels
  import opened Messages
  import opened Engine
  import opened Sums
  import opened Ledger
  import opened Runs

  ghost predicate FitsAt(s: State, k: Key) {
    var ls := LevelsAt(s, k.locate, k.side);
    k.price in ls ==> 0 <= ls[k.price].shares < TWO64 && 0 <= ls[k.price].orders < TWO32
  }

  ghost predicate Fits(s: State) {
    && 0 <= s.processed < TWO64 && 0 <= s.skipped < TWO64 && 0 <= s.corrupt < TWO64
    && forall k :: FitsAt(s, k)
  }

  lemma RestAgrees(s: State, ref: u64, rec: OrderRecord, ts: u64)
    requires FitsAt(RestOrder(Exact, s, ref, rec, ts), KeyOf(rec))
    ensures RestOrder(Machine, s, ref, rec, ts) == RestOrder(Exact, s, ref, rec, ts)
  {
  }

  lemma ReduceAgrees(s: State, ref: u64, n: u32, ts: u64)
    requires ref in s.orders && Housed(s, s.orders[ref]) && FitsAt(s, KeyOf(s.orders[ref]))
    requires 0 <= s.corrupt < TWO64 - 1
    ensures Reduce(Machine, s, ref, n, ts) == Reduce(Exact, s, ref, n, ts)
  {
  }

  lemma ReplaceAgrees(s: State, m: Message)
    requires m.Replace? && m.ref in s.orders && Housed(s, s.orders[m.ref])
    requires FitsAt(s, KeyOf(s.orders[m.ref])) && 0 <= s.corrupt < TWO64 - 1
    requires Fits(Handle(Exact, s, m))
    ensures Handle(Machine, s, m) == Handle(Exact, s, m)
  {
    var was := s.orders[m.ref];
    var rec := Successor(was, m.shares, m.price);
    ReplaceIsDeleteThenRest(Exact, s, m.ref, m.newRef, m.shares, m.price, m.timestamp);
    ReplaceIsDeleteThenRest(Machine, s, m.ref, m.newRef, m.shares, m.price, m.timestamp);
    DeleteIsReduce(Exact, s, m.ref, m.timestamp);
    DeleteIsReduce(Machine, s, m.ref, m.timestamp);
    ReduceAgrees(s, m.ref, was.shares, m.timestamp);
    var mid := DeleteImpl(Exact, s, m.ref, m.timestamp);
    assert FitsAt(Handle(Exact, s, m), KeyOf(rec));
    RestAgrees(mid, m.newRef, rec, m.timestamp);
  }

  lemma HandleAgrees(s: State, ledger: seq<OrderRecord>, m: Message)
    requires Consistent(s, ledger) && Fits(s) && Fits(Handle(Exact, s, m))
    requires s.skipped < TWO64 - 1 && s.corrupt < TWO64 - 1
    ensures Handle(Machine, s, m) == Handle(Exact, s, m)
  {
    if m.AddOrder? || m.AddOrderMpid? {
      assert FitsAt(Handle(Exact, s, m), KeyOf(NewRecord(m)));
      RestAgrees(s, m.ref, NewRecord(m), m.timestamp);
    } else if Refers(m) && m.ref in s.orders {
      ConsistentHouses(s, ledger, m.ref);
      if m.Replace? {
        ReplaceAgrees(s, m);
      } else if m.Delete? {
        DeleteIsReduce(Exact, s, m.ref, m.timestamp);
        DeleteIsReduce(Machine, s, m.ref, m.timestamp);
        ReduceAgrees(s, m.ref, s.orders[m.ref].shares, m.timestamp);
      } else {
        ReduceAgrees(s, m.ref, Asked(m), m.timestamp);
      }
    }
  }

  lemma HandleFits(s: State, m: Message)
    requires Fits(Apply(Exact, s, m)) && 0 <= s.processed
    ensures Fits(Handle(Exact, s, m))
  {
    var t, u := Handle(Exact, s, m), Apply(Exact, s, m);
    assert t.processed == s.processed;
    forall k ensures FitsAt(t, k) {
      assert FitsAt(u, k);
    }
  }

  ghost predicate FitsThroughout(s: State, ms: seq<Message>) {
    forall i :: 0 <= i <= |ms| ==> Fits(Run(Exact, s, ms[..i]))
  }

  ghost predicate AgreesThroughout(s: State, ms: seq<Message>) {
    forall i :: 0 <= i <= |ms| ==> Run(Machine, s, ms[..i]) == Run(Exact, s, ms[..i])
  }

  lemma PrefixFits(s: State, ms: seq<Message>, n: nat)
    requires n <= |ms| && FitsThroughout(s, ms)
    ensures FitsThroughout(s, ms[..n])
  {
    forall i | 0 <= i <= n ensures Fits(Run(Exact, s, ms[..n][..i])) {
      assert ms[..n][..i] == ms[..i];
    }
  }

  lemma {:induction false} MachineFollows(instruments: map<u16, Instrument>, ms: seq<Message>)
    requires FitsThroughout(Boot(instruments), ms)
    ensures Run(Machine, Boot(instruments), ms) == Run(Exact, Boot(instruments), ms)
  {
    if ms != [] {
      var s0, n := Boot(instruments), |ms| - 1;
      PrefixFits(s0, ms, n);
      MachineFollows(instruments, ms[..n]);
      assert ms[..|ms|] == ms;
      assert Fits(Run(Exact, s0, ms[..n])) && Fits(Run(Exact, s0, ms[..|ms|]));
      LastStepAgrees(instruments, ms[..n], ms[n]);
    }
  }

  lemma ApplyAgrees(s: State, ledger: seq<OrderRecord>, m: Message)
    requires Consistent(s, ledger) && Fits(s) && Fits(Handle(Exact, s, m))
    requires s.processed < TWO64 - 1 && s.skipped < TWO64 - 1 && s.corrupt < TWO64 - 1
    ensures Apply(Machine, s, m) == Apply(Exact, s, m)
  {
    HandleAgrees(s, ledger, m);
    StepCounters(s, m);
  }

  lemma LastStepAgrees(instruments: map<u16, Instrument>, init: seq<Message>, m: Message)
    requires Fits(Run(Exact, Boot(instruments), init))
    requires Fits(Apply(Exact, Run(Exact, Boot(instruments), init), m))
    ensures var s := Run(Exact, Boot(instruments), init);
            Apply(Machine, s, m) == Apply(Exact, s, m)
  {
    var s0 := Boot(instruments);
    var s, ledger := Run(Exact, s0, init), Orphans(Exact, s0, init);
    assert Consistent(s, ledger) by { RunConsistent(instruments, init); }
    assert s.processed < TWO64 - 1 && s.skipped < TWO64 - 1 && s.corrupt < TWO64 - 1 by {
      CountersExact(instruments, init);
      HistoryBounded(s0, init);
      StepCounters(s, m);
    }
    assert Fits(Handle(Exact, s, m)) by { HandleFits(s, m); }
    ApplyAgrees(s, ledger, m);
  }

  lemma {:induction false} HistoryBounded(s: State, ms: seq<Message>)
    ensures var h := History(Exact, s, ms); h.skips <= |ms| && h.oversized <= |ms|
  {
    if ms != [] {
      HistoryBounded(s, ms[..|ms| - 1]);
    }
  }

  // ----- counts are bounded by the number of messages -----

  lemma StepGrowth(s: State, ledger: seq<OrderRecord>, m: Message)
    ensures Resting(Apply(Exact, s, m), ledger + Overwritten(s, m), AllOrders)
            <= Resting(s, ledger, AllOrders) + 1
  {
    assert ledger + [] == ledger;
    if m.AddOrder? || m.AddOrderMpid? {
      RestingAfterRest(s, ledger, m.ref, NewRecord(m), m.timestamp, AllOrders);
    } else if Refers(m) && m.ref in s.orders {
      if m.Replace? {
        ReplaceBalance(s, ledger, m, AllOrders);
      } else if m.Delete? {
        DeleteIsReduce(Exact, s, m.ref, m.timestamp);
        RestingAfterReduce(s, ledger, m.ref, s.orders[m.ref].shares, m.timestamp, AllOrders);
      } else {
        RestingAfterReduce(s, ledger, m.ref, Asked(m), m.timestamp, AllOrders);
      }
    }
  }

  lemma {:induction false} RunGrowth(instruments: map<u16, Instrument>, ms: seq<Message>)
    ensures var s := Boot(instruments);
            Resting(Run(Exact, s, ms), Orphans(Exact, s, ms), AllOrders) <= |ms|
  {
    if ms != [] {
      var s, init := Boot(instruments), ms[..|ms| - 1];
      RunGrowth(instruments, init);
      StepGrowth(Run(Exact, s, init), Orphans(Exact, s, init), ms[|ms| - 1]);
    }
  }

  /** No level counts more orders than there were messages, nor more shares than those could carry. */
  lemma LevelsBounded(instruments: map<u16, Instrument>, ms: seq<Message>, k: Key)
    ensures var ls := LevelsAt(Run(Exact, Boot(instruments), ms), k.locate, k.side);
            k.price in ls ==>
              && 1 <= ls[k.price].orders <= |ms|
              && 0 <= ls[k.price].shares <= ls[k.price].orders * (TWO32 - 1)
  {
    var s0 := Boot(instruments);
    var s, ledger := Run(Exact, s0, ms), Orphans(Exact, s0, ms);
    RunConsistent(instruments, ms);
    RunGrowth(instruments, ms);
    assert KeyOk(s, ledger, k);
    SumBounds(s.orders, k);
    SumSeqBounds(ledger, k);
  }

  lemma ShortRunFits(instruments: map<u16, Instrument>, ms: seq<Message>)
    requires |ms| < TWO32
    ensures Fits(Run(Exact, Boot(instruments), ms))
  {
    var s0 := Boot(instruments);
    var s := Run(Exact, s0, ms);
    CountersExact(instruments, ms);
    HistoryBounded(s0, ms);
    forall k ensures FitsAt(s, k) {
      LevelsBounded(instruments, ms, k);
    }
  }

  lemma ShortRunsFit(instruments: map<u16, Instrument>, ms: seq<Message>)
    requires |ms| < TWO32
    ensures FitsThroughout(Boot(instruments), ms)
  {
    forall i | 0 <= i <= |ms| ensures Fits(Run(Exact, Boot(instruments), ms[..i])) {
      ShortRunFits(instruments, ms[..i]);
    }
  }

  /** Fewer than 2^32 messages: the machine run is the exact run. */
  lemma MachineRunIsExact(instruments: map<u16, Instrument>, ms: seq<Message>)
    requires |ms| < TWO32
    ensures Run(Machine, Boot(instruments), ms) == Run(Exact, Boot(instruments), ms)
  {
    ShortRunsFit(instruments, ms);
    MachineFollows(instruments, ms);
  }

  /** References are reused in the machine run exactly where they are in the exact one. */
  lemma MachineFreshness(instruments: map<u16, Instrument>, ms: seq<Message>)
    requires FitsThroughout(Boot(instruments), ms)
    ensures FreshRun(Machine, Boot(instruments), ms) <==> FreshRun(Exact, Boot(instruments), ms)
  {
    forall i | 0 <= i < |ms|
      ensures FreshAt(Machine, Boot(instruments), ms, i) == FreshAt(Exact, Boot(instruments), ms, i)
    {
      PrefixFits(Boot(instruments), ms, i);
      MachineFollows(instruments, ms[..i]);
    }
  }

  /**
   The engine as compiled, while values fit their words: every live order finds a level that covers
   it, and without reuse of live references every level is the sum of its live orders.
   */
  lemma MachineBooks(instruments: map<u16, Instrument>, ms: seq<Message>)
    requires FitsThroughout(Boot(instruments), ms)
    ensures var s := Run(Machine, Boot(instruments), ms);
            && Consistent(s, Orphans(Exact, Boot(instruments), ms))
            && (forall ref :: ref in s.orders ==> Housed(s, s.orders[ref]))
            && (LiveOnly(s) <==> FreshRun(Machine, Boot(instruments), ms))
  {
    var s := Run(Machine, Boot(instruments), ms);
    MachineFollows(instruments, ms);
    MachineFreshness(instruments, ms);
    LiveOnlyIffFresh(instruments, ms);
    RunConsistent(instruments, ms);
    forall ref | ref in s.orders ensures Housed(s, s.orders[ref]) {
      RunHouses(instruments, ms, ref);
    }
  }

  // ----- and exactly then -----

  lemma MachineRestFits(s: State, ref: u64, rec: OrderRecord, ts: u64, k: Key)
    requires FitsAt(s, k)
    ensures FitsAt(RestOrder(Machine, s, ref, rec, ts), k)
  {
    LevelsAfterRest(Machine, s, ref, rec, ts, k.locate, k.side);
  }

  lemma MachineReduceFits(s: State, ref: u64, n: u32, ts: u64, k: Key)
    requires FitsAt(s, k) && ref in s.orders
    ensures FitsAt(Reduce(Machine, s, ref, n, ts), k)
  {
    LevelsAfterReduce(Machine, s, ref, n, ts, k.locate, k.side);
  }

  lemma MachineHandleFits(s: State, m: Message, k: Key)
    requires FitsAt(s, k)
    ensures FitsAt(Handle(Machine, s, m), k)
  {
    if m.AddOrder? || m.AddOrderMpid? {
      MachineRestFits(s, m.ref, NewRecord(m), m.timestamp, k);
    } else if Refers(m) && m.ref in s.orders {
      var was := s.orders[m.ref];
      if m.Replace? || m.Delete? {
        DeleteIsReduce(Machine, s, m.ref, m.timestamp);
        MachineReduceFits(s, m.ref, was.shares, m.timestamp, k);
      } else {
        MachineReduceFits(s, m.ref, Asked(m), m.timestamp, k);
      }
      if m.Replace? {
        var rec := Successor(was, m.shares, m.price);
        ReplaceIsDeleteThenRest(Machine, s, m.ref, m.newRef, m.shares, m.price, m.timestamp);
        MachineRestFits(DeleteImpl(Machine, s, m.ref, m.timestamp), m.newRef, rec, m.timestamp, k);
      }
    }
  }

  lemma MachineStepFits(s: State, m: Message)
    requires Fits(s)
    ensures Fits(Apply(Machine, s, m))
  {
    forall k ensures FitsAt(Apply(Machine, s, m), k) {
      MachineHandleFits(s, m, k);
    }
  }

  lemma {:induction false} MachineFits(instruments: map<u16, Instrument>, ms: seq<Message>)
    ensures Fits(Run(Machine, Boot(instruments), ms))
  {
    if ms != [] {
      MachineFits(instruments, ms[..|ms| - 1]);
      MachineStepFits(Run(Machine, Boot(instruments), ms[..|ms| - 1]), ms[|ms| - 1]);
    }
  }

  /** The machine agrees with exact arithmetic all along a run exactly when every exact value fits its word. */
  lemma MachineAgreesIffFits(instruments: map<u16, Instrument>, ms: seq<Message>)
    ensures AgreesThroughout(Boot(instruments), ms) <==> FitsThroughout(Boot(instruments), ms)
  {
    var s0 := Boot(instruments);
    if FitsThroughout(s0, ms) {
      forall i | 0 <= i <= |ms| ensures Run(Machine, s0, ms[..i]) == Run(Exact, s0, ms[..i]) {
        PrefixFits(s0, ms, i);
        MachineFollows(instruments, ms[..i]);
      }
    }
    if AgreesThroughout(s0, ms) {
      forall i | 0 <= i <= |ms| ensures Fits(Run(Exact, s0, ms[..i])) {
        MachineFits(instruments, ms[..i]);
        assert Run(Machine, s0, ms[..i]) == Run(Exact, s0, ms[..i]);
      }
    }
  }

  function OneShareBid(ref: u64): Message {
    AddOrder(0, 0, 0, ref, 0x42, 1, [], 1)
  }

  function Pile(n: nat): SideMap {
    if n == 0 then map[] else map[1 := Level(1, n, n)]
  }

  lemma OneMoreBid(s: State, n: nat)
    requires n < TWO32 && LevelsAt(s, 0, Bid) == Pile(n)
    ensures LevelsAt(Apply(Exact, s, OneShareBid(n)), 0, Bid) == Pile(n + 1)
  {
  }

  /** A run of `n` one-share bids at the same price. */
  lemma {:induction false} PileUp(n: nat) returns (ms: seq<Message>)
    requires n <= TWO32
    ensures |ms| == n
    ensures LevelsAt(Run(Exact, Boot(map[]), ms), 0, Bid) == Pile(n)
  {
    ms := [];
    if n > 0 {
      var init := PileUp(n - 1);
      OneMoreBid(Run(Exact, Boot(map[]), init), n - 1);
      RunSnoc(Exact, Boot(map[]), init, OneShareBid(n - 1));
      ms := init + [OneShareBid(n - 1)];
    }
  }

  /** 2^32 live orders at one price wrap the level's 32-bit order count. */
  lemma OrderCountCanWrap()
    ensures exists ms: seq<Message> :: |ms| == TWO32 && !AgreesThroughout(Boot(map[]), ms)
  {
    var ms := PileUp(TWO32);
    assert ms[..|ms|] == ms;
    assert !FitsAt(Run(Exact, Boot(map[]), ms), Key(0, Bid, 1));
    assert !Fits(Run(Exact, Boot(map[]), ms[..|ms|]));
    MachineAgreesIffFits(map[], ms);
  }
}
