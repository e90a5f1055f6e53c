/** What the entries of a snapshot hold, field by field, traced back to the messages of the run. */
module ShownBooks {
  import opened Words
  import opened Levels
  import opened Messages
  import opened Engine
  import opened Ledger
  import opened Projection
  import opened History
  import opened Snapshots

  /** The entry holds the instrument's own fields, and the stamp and sides of its book, if it has one. */
  ghost predicate ShowsFields(s: State, l: u16, v: BookView)
    requires l in s.instruments
  {
    var info := s.instruments[l];
    && v.symbol == info.symbol && v.locate == info.locate && v.tradingState == info.tradingState
    && v.roundLotSize == info.roundLotSize && v.marketCategory == info.marketCategory
    && if l in s.books then
         && v.stamp == s.books[l].stamp
         && v.bids == BestFirst(Bid, s.books[l].bids) && v.asks == BestFirst(Ask, s.books[l].asks)
       else v.stamp == 0 && v.bids == [] && v.asks == []
  }

  lemma ViewShowsFields(s: State, l: u16)
    requires l in s.instruments
    ensures ShowsFields(s, l, if l in s.books then ViewOf(s.instruments[l], s.books[l]) else EmptyView(s.instruments[l]))
  {
  }

  /** Every entry of a faithful snapshot shows some instrument with its symbol, field by field. */
  lemma EntryShowsInstrument(snap: Snapshot, s: State, complete: bool, sym: Text)
    requires Faithful(snap, s, complete) && sym in snap.books
    ensures exists l :: l in s.instruments && s.instruments[l].symbol == sym && ShowsFields(s, l, snap.books[sym])
  {
    var v := snap.books[sym];
    if ShowsBook(s, sym, v) {
      var l :| Names(s.instruments, l, sym) && l in s.books && v == ViewOf(s.instruments[l], s.books[l]);
      ViewShowsFields(s, l);
    } else {
      assert ShowsNothing(s, sym, v);
      var l :| Names(s.instruments, l, sym) && v == EmptyView(s.instruments[l]);
      ViewShowsFields(s, l);
    }
  }

  /** With distinct symbols, every instrument is shown, field by field. */
  lemma InstrumentShown(snap: Snapshot, s: State, complete: bool, l: u16)
    requires Faithful(snap, s, complete) && DistinctSymbols(s.instruments) && l in s.instruments
    ensures s.instruments[l].symbol in snap.books
    ensures ShowsFields(s, l, snap.books[s.instruments[l].symbol])
  {
    DistinctSymbolsShown(snap, s, complete, l);
  }

  /**
   After every run with distinct symbols, an instrument's entry carries the timestamp of the last
   message that touched its book (0 if none did), lists every bid by falling and every ask by rising price.
   */
  lemma ShownAfterRun(a: Arith, instruments: map<u16, Instrument>, ms: seq<Message>, snap: Snapshot, complete: bool, l: u16)
    requires var s := Run(a, Boot(instruments), ms);
             Faithful(snap, s, complete) && DistinctSymbols(s.instruments) && l in s.instruments
    ensures var s, mine := Run(a, Boot(instruments), ms), Project(a, Boot(instruments), ms, l);
            && s.instruments[l].symbol in snap.books
            && var v := snap.books[s.instruments[l].symbol];
              && v.stamp == (if mine == [] then 0 else mine[|mine| - 1].timestamp)
              && PricesFall(v.bids) && PricesRise(v.asks)
              && (forall p :: HasPrice(v.bids, p) <==> l in s.books && p in s.books[l].bids)
              && (forall p :: HasPrice(v.asks, p) <==> l in s.books && p in s.books[l].asks)
  {
    var s := Run(a, Boot(instruments), ms);
    InstrumentShown(snap, s, complete, l);
    StampIsLastTouch(a, instruments, ms, l);
    if l in s.books {
      RunViewsBestFirst(a, instruments, ms, l);
    }
  }

  // ----- instruments -----

  predicate Introduces(m: Message, l: u16) {
    m.StockDirectory? && m.locate == l
  }

  predicate Acts(m: Message, l: u16) {
    m.TradingAction? && m.locate == l
  }

  /** Trading state of `l` after its directory message `i`: that of the latest action since, or 'T'. */
  function StateSince(ms: seq<Message>, i: nat, l: u16): u8 {
    if |ms| <= i + 1 then 0x54
    else if Acts(ms[|ms| - 1], l) then ms[|ms| - 1].tradingState
    else StateSince(ms[..|ms| - 1], i, l)
  }

  ghost predicate Untouched(s: State, t: State, l: u16) {
    l in s.instruments ==> l in t.instruments && t.instruments[l] == s.instruments[l]
  }

  lemma RestLeavesInstruments(a: Arith, s: State, ref: u64, rec: OrderRecord, ts: u64, l: u16)
    ensures Untouched(s, RestOrder(a, s, ref, rec, ts), l)
  {
  }

  lemma ReduceLeavesInstruments(a: Arith, s: State, ref: u64, n: u32, ts: u64, l: u16)
    ensures Untouched(s, Reduce(a, s, ref, n, ts), l)
  {
  }

  lemma OrdersLeaveInstruments(a: Arith, s: State, m: Message, l: u16)
    requires !Introduces(m, l) && !Acts(m, l)
    ensures Untouched(s, Handle(a, s, m), l)
  {
    if m.AddOrder? || m.AddOrderMpid? {
      RestLeavesInstruments(a, s, m.ref, NewRecord(m), m.timestamp, l);
    } else if m.Executed? || m.ExecutedPrice? || m.Cancel? {
      ReduceLeavesInstruments(a, s, m.ref, Asked(m), m.timestamp, l);
    } else if (m.Delete? || m.Replace?) && m.ref in s.orders {
      var was := s.orders[m.ref];
      DeleteIsReduce(a, s, m.ref, m.timestamp);
      ReduceLeavesInstruments(a, s, m.ref, was.shares, m.timestamp, l);
      if m.Replace? {
        var mid := DeleteImpl(a, s, m.ref, m.timestamp);
        ReplaceIsDeleteThenRest(a, s, m.ref, m.newRef, m.shares, m.price, m.timestamp);
        RestLeavesInstruments(a, mid, m.newRef, Successor(was, m.shares, m.price), m.timestamp, l);
      }
    }
  }

  /** The instrument is as the directory message `d` described it, in trading state `state`. */
  ghost predicate DescribedBy(s: State, l: u16, d: Message, state: u8) {
    && d.StockDirectory? && l in s.instruments
    && s.instruments[l] == Instrument(l, d.stock, state, d.roundLotSize, d.marketCategory, d.financialStatus)
  }

  lemma StepDescribes(a: Arith, s: State, m: Message, l: u16, d: Message, state: u8)
    requires DescribedBy(s, l, d, state) && !Introduces(m, l)
    ensures DescribedBy(Apply(a, s, m), l, d, if Acts(m, l) then m.tradingState else state)
  {
    if !Acts(m, l) {
      OrdersLeaveInstruments(a, s, m, l);
    }
  }

  /** After every run a listed instrument is as its latest directory message says, in the latest trading state since. */
  lemma {:induction false} ListedInstrument(a: Arith, instruments: map<u16, Instrument>, ms: seq<Message>, l: u16, i: nat)
    requires i < |ms| && Introduces(ms[i], l) && forall j :: i < j < |ms| ==> !Introduces(ms[j], l)
    ensures DescribedBy(Run(a, Boot(instruments), ms), l, ms[i], StateSince(ms, i, l))
  {
    var n := |ms| - 1;
    if i < n {
      ListedInstrument(a, instruments, ms[..n], l, i);
      StepDescribes(a, Run(a, Boot(instruments), ms[..n]), ms[n], l, ms[i], StateSince(ms[..n], i, l));
    }
  }
}
