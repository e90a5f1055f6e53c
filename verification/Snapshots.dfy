/** Point-in-time snapshots: how they are built, what they show, and how they are looked up. */
module Snapshots {
  import opened Words
  import opened Levels
  import opened Messages
  import opened Engine
  import opened Ledger

  datatype BookView = BookView(
    symbol: Text, tradingState: u8, bids: seq<Level>, asks: seq<Level>,
    stamp: u64, locate: u16, roundLotSize: u32, marketCategory: u8)

  datatype Snapshot = Snapshot(
    books: map<Text, BookView>, symbolIndex: map<Text, Text>, processed: int, complete: bool)

  function View(info: Instrument, bids: seq<Level>, asks: seq<Level>, stamp: u64): BookView {
    BookView(info.symbol, info.tradingState, bids, asks, stamp,
             info.locate, info.roundLotSize, info.marketCategory)
  }

  /** A book shown best-first on both sides. */
  ghost function ViewOf(info: Instrument, b: Book): BookView {
    View(info, BestFirst(Bid, b.bids), BestFirst(Ask, b.asks), b.stamp)
  }

  /** An instrument without book activity. */
  function EmptyView(info: Instrument): BookView {
    View(info, [], [], 0)
  }

  function LowerByte(c: u8): u8 {
    if 0x41 <= c <= 0x5A then c + 0x20 else c
  }

  function Lower(s: Text): Text {
    seq(|s|, i requires 0 <= i < |s| => LowerByte(s[i]))
  }

  /** The same letter in upper and lower case: 0x41 to 0x5A and 0x61 to 0x7A. */
  predicate CaseTwins(c: u8, d: u8) {
    0x41 <= c <= 0x5A && 0x61 <= d <= 0x7A && d - c == 0x20
  }

  /** Equal up to the case of letters. */
  predicate SameText(x: Text, y: Text) {
    |x| == |y| && forall i :: 0 <= i < |x| ==> x[i] == y[i] || CaseTwins(x[i], y[i]) || CaseTwins(y[i], x[i])
  }

  lemma LowerComparesText(x: Text, y: Text)
    ensures Lower(x) == Lower(y) <==> SameText(x, y)
  {
    if Lower(x) == Lower(y) {
      forall i | 0 <= i < |x| ensures x[i] == y[i] || CaseTwins(x[i], y[i]) || CaseTwins(y[i], x[i]) {
        assert Lower(x)[i] == Lower(y)[i];
      }
    }
  }

  // ----- what a snapshot must show -----

  /** Some instrument has this symbol. */
  ghost predicate Names(instruments: map<u16, Instrument>, l: u16, sym: Text) {
    l in instruments && instruments[l].symbol == sym
  }

  /** Entry `v` shows the book of some instrument with its symbol. */
  ghost predicate ShowsBook(s: State, sym: Text, v: BookView) {
    exists l :: Names(s.instruments, l, sym) && l in s.books && v == ViewOf(s.instruments[l], s.books[l])
  }

  /** Entry `v` is empty, and no instrument with its symbol has a book. */
  ghost predicate ShowsNothing(s: State, sym: Text, v: BookView) {
    && (forall l :: Names(s.instruments, l, sym) ==> l !in s.books)
    && (exists l :: Names(s.instruments, l, sym) && v == EmptyView(s.instruments[l]))
  }

  ghost predicate BooksFaithful(s: State, views: map<Text, BookView>) {
    && (forall sym :: sym in views ==> ShowsBook(s, sym, views[sym]) || ShowsNothing(s, sym, views[sym]))
    && (forall l :: l in s.instruments ==> s.instruments[l].symbol in views)
  }

  ghost predicate IndexFaithful(views: map<Text, BookView>, index: map<Text, Text>) {
    && (forall lo :: lo in index ==> index[lo] in views && Lower(index[lo]) == lo)
    && (forall sym :: sym in views ==> Lower(sym) in index)
  }

  ghost predicate Faithful(snap: Snapshot, s: State, complete: bool) {
    && snap.processed == s.processed && snap.complete == complete
    && BooksFaithful(s, snap.books)
    && IndexFaithful(snap.books, snap.symbolIndex)
  }

  // ----- building -----

  /** Books first, in whatever order the hash map yields them. */
  method ShowBooks(s: State) returns (views: map<Text, BookView>)
    ensures forall sym :: sym in views ==> ShowsBook(s, sym, views[sym])
    ensures forall l :: l in s.books && l in s.instruments ==> s.instruments[l].symbol in views
  {
    views := map[];
    var todo := s.books.Keys;
    while todo != {}
      invariant todo <= s.books.Keys
      invariant forall sym :: sym in views ==> ShowsBook(s, sym, views[sym])
      invariant forall l :: l in s.books && l !in todo && l in s.instruments ==> s.instruments[l].symbol in views
      decreases |todo|
    {
      var l :| l in todo;
      todo := todo - {l};
      if l in s.instruments {
        var info, b := s.instruments[l], s.books[l];
        var bids := ListSide(Bid, b.bids);
        var asks := ListSide(Ask, b.asks);
        assert Names(s.instruments, l, info.symbol);
        views := views[info.symbol := View(info, bids, asks, b.stamp)];
      }
    }
  }

  /** Then the instruments whose symbol has no entry yet. */
  method ShowIdle(s: State, shown: map<Text, BookView>) returns (views: map<Text, BookView>)
    requires forall sym :: sym in shown ==> ShowsBook(s, sym, shown[sym])
    requires forall l :: l in s.books && l in s.instruments ==> s.instruments[l].symbol in shown
    ensures BooksFaithful(s, views)
  {
    views := shown;
    var todo := s.instruments.Keys;
    while todo != {}
      invariant todo <= s.instruments.Keys
      invariant shown.Keys <= views.Keys
      invariant forall sym :: sym in views ==> ShowsBook(s, sym, views[sym]) || ShowsNothing(s, sym, views[sym])
      invariant forall l :: l in s.instruments && l !in todo ==> s.instruments[l].symbol in views
      decreases |todo|
    {
      var l :| l in todo;
      todo := todo - {l};
      var info := s.instruments[l];
      if info.symbol !in views {
        assert Names(s.instruments, l, info.symbol);
        assert ShowsNothing(s, info.symbol, EmptyView(info));
        views := views[info.symbol := EmptyView(info)];
      }
    }
  }

  method IndexSymbols(views: map<Text, BookView>) returns (index: map<Text, Text>)
    ensures IndexFaithful(views, index)
  {
    index := map[];
    var todo := views.Keys;
    while todo != {}
      invariant todo <= views.Keys
      invariant forall lo :: lo in index ==> index[lo] in views && Lower(index[lo]) == lo
      invariant forall sym :: sym in views && sym !in todo ==> Lower(sym) in index
      decreases |todo|
    {
      var sym :| sym in todo;
      todo := todo - {sym};
      index := index[Lower(sym) := sym];
    }
  }

  method BuildSnapshot(s: State, complete: bool) returns (snap: Snapshot)
    ensures Faithful(snap, s, complete)
  {
    var shown := ShowBooks(s);
    var views := ShowIdle(s, shown);
    var index := IndexSymbols(views);
    snap := Snapshot(views, index, s.processed, complete);
  }

  // ----- what follows -----

  ghost predicate DistinctSymbols(instruments: map<u16, Instrument>) {
    forall l, k :: l in instruments && k in instruments && l != k ==>
      instruments[l].symbol != instruments[k].symbol
  }

  /** With distinct symbols the iteration order does not matter: every instrument has its own entry. */
  lemma DistinctSymbolsShown(snap: Snapshot, s: State, complete: bool, l: u16)
    requires Faithful(snap, s, complete) && DistinctSymbols(s.instruments) && l in s.instruments
    ensures var info := s.instruments[l];
            && info.symbol in snap.books
            && snap.books[info.symbol] == if l in s.books then ViewOf(info, s.books[l]) else EmptyView(info)
  {
    assert Names(s.instruments, l, s.instruments[l].symbol);
  }

  /** Every entry belongs to a registered instrument. */
  lemma EntriesAreInstruments(snap: Snapshot, s: State, complete: bool, sym: Text)
    requires Faithful(snap, s, complete)
    ensures sym in snap.books <==> exists l :: Names(s.instruments, l, sym)
    ensures sym in snap.books ==> snap.books[sym].symbol == sym
  {
    if sym in snap.books {
      if ShowsBook(s, sym, snap.books[sym]) {
        var l :| Names(s.instruments, l, sym) && l in s.books
                 && snap.books[sym] == ViewOf(s.instruments[l], s.books[l]);
      } else {
        assert ShowsNothing(s, sym, snap.books[sym]);
      }
    }
  }

  ghost function Symbols(instruments: map<u16, Instrument>): set<Text> {
    set l | l in instruments :: instruments[l].symbol
  }

  lemma SymbolsWithout(instruments: map<u16, Instrument>, l: u16)
    requires l in instruments
    ensures var rest, sym := instruments - {l}, instruments[l].symbol;
            && Symbols(instruments) == Symbols(rest) + {sym}
            && (DistinctSymbols(instruments) <==> DistinctSymbols(rest) && sym !in Symbols(rest))
            && |instruments| == |rest| + 1
  {
    var rest, sym := instruments - {l}, instruments[l].symbol;
    assert rest.Keys == instruments.Keys - {l};
    forall x ensures x in Symbols(instruments) <==> x in Symbols(rest) + {sym} {
      if k :| k in instruments && instruments[k].symbol == x {
        assert k != l ==> k in rest && rest[k].symbol == x;
      }
    }
    if DistinctSymbols(rest) && sym !in Symbols(rest) {
      forall j, k | j in instruments && k in instruments && j != k
        ensures instruments[j].symbol != instruments[k].symbol
      {
        assert j in rest ==> rest[j].symbol in Symbols(rest);
        assert k in rest ==> rest[k].symbol in Symbols(rest);
      }
    }
    if DistinctSymbols(instruments) {
      forall k | k in rest ensures rest[k].symbol != sym {
        assert instruments[k].symbol != instruments[l].symbol;
      }
    }
  }

  lemma {:induction false} SymbolsCount(instruments: map<u16, Instrument>)
    ensures |Symbols(instruments)| <= |instruments|
    ensures |Symbols(instruments)| == |instruments| <==> DistinctSymbols(instruments)
    decreases |instruments|
  {
    if l :| l in instruments {
      SymbolsWithout(instruments, l);
      SymbolsCount(instruments - {l});
    } else {
      assert Symbols(instruments) == {};
    }
  }

  /** One entry per instrument exactly when no two instruments share a symbol. */
  lemma EntryPerInstrument(snap: Snapshot, s: State, complete: bool)
    requires Faithful(snap, s, complete)
    ensures |snap.books| <= |s.instruments|
    ensures |snap.books| == |s.instruments| <==> DistinctSymbols(s.instruments)
  {
    KeysAreSymbols(snap, s, complete);
    SymbolsCount(s.instruments);
    assert |snap.books| == |snap.books.Keys|;
  }

  lemma KeysAreSymbols(snap: Snapshot, s: State, complete: bool)
    requires Faithful(snap, s, complete)
    ensures snap.books.Keys == Symbols(s.instruments)
  {
  }

  // ----- shown books, in any arithmetic -----

  /** Levels are filed under their prices and the cached tops are up to date. */
  ghost predicate Orderly(b: Book) {
    Filed(b.bids) && Filed(b.asks) && b.bestBid == Best(Bid, b.bids) && b.bestAsk == Best(Ask, b.asks)
  }

  ghost predicate OrderlyAt(s: State, l: u16) {
    l in s.books ==> l in s.instruments && Orderly(s.books[l])
  }

  lemma RestKeepsOrder(a: Arith, s: State, ref: u64, rec: OrderRecord, ts: u64, l: u16)
    requires OrderlyAt(s, l)
    ensures OrderlyAt(RestOrder(a, s, ref, rec, ts), l)
  {
  }

  lemma ReduceKeepsOrder(a: Arith, s: State, ref: u64, n: u32, ts: u64, l: u16)
    requires OrderlyAt(s, l)
    ensures OrderlyAt(Reduce(a, s, ref, n, ts), l)
  {
  }

  lemma StepKeepsOrder(a: Arith, s: State, m: Message, l: u16)
    requires OrderlyAt(s, l)
    ensures OrderlyAt(Handle(a, s, m), l)
  {
    if m.AddOrder? || m.AddOrderMpid? {
      RestKeepsOrder(a, s, m.ref, NewRecord(m), m.timestamp, l);
    } else if m.Executed? || m.ExecutedPrice? || m.Cancel? {
      ReduceKeepsOrder(a, s, m.ref, Asked(m), m.timestamp, l);
    } else if (m.Delete? || m.Replace?) && m.ref in s.orders {
      var was := s.orders[m.ref];
      DeleteIsReduce(a, s, m.ref, m.timestamp);
      ReduceKeepsOrder(a, s, m.ref, was.shares, m.timestamp, l);
      if m.Replace? {
        var mid := DeleteImpl(a, s, m.ref, m.timestamp);
        ReplaceIsDeleteThenRest(a, s, m.ref, m.newRef, m.shares, m.price, m.timestamp);
        RestKeepsOrder(a, mid, m.newRef, Successor(was, m.shares, m.price), m.timestamp, l);
      }
    }
  }

  lemma {:induction false} RunKeepsOrder(a: Arith, instruments: map<u16, Instrument>, ms: seq<Message>, l: u16)
    ensures OrderlyAt(Run(a, Boot(instruments), ms), l)
  {
    if ms != [] {
      RunKeepsOrder(a, instruments, ms[..|ms| - 1], l);
      StepKeepsOrder(a, Run(a, Boot(instruments), ms[..|ms| - 1]), ms[|ms| - 1], l);
    }
  }

  ghost predicate PricesFall(xs: seq<Level>) {
    forall i, j :: 0 <= i < j < |xs| ==> xs[i].price > xs[j].price
  }

  ghost predicate PricesRise(xs: seq<Level>) {
    forall i, j :: 0 <= i < j < |xs| ==> xs[i].price < xs[j].price
  }

  function TopPrice(shown: seq<Level>): Option<u32> {
    if shown == [] then None else Some(shown[0].price)
  }

  /**
   In every run, wrapping or not, a shown book lists exactly its levels, strictly best-first on both
   sides, and starts with the levels that the cached tops point to.
   */
  lemma RunViewsBestFirst(a: Arith, instruments: map<u16, Instrument>, ms: seq<Message>, l: u16)
    requires l in Run(a, Boot(instruments), ms).books
    ensures var s := Run(a, Boot(instruments), ms);
            && l in s.instruments
            && Lists(Bid, ViewOf(s.instruments[l], s.books[l]).bids, s.books[l].bids)
            && Lists(Ask, ViewOf(s.instruments[l], s.books[l]).asks, s.books[l].asks)
            && PricesFall(ViewOf(s.instruments[l], s.books[l]).bids)
            && PricesRise(ViewOf(s.instruments[l], s.books[l]).asks)
            && TopPrice(BestFirst(Bid, s.books[l].bids)) == s.books[l].bestBid
            && TopPrice(BestFirst(Ask, s.books[l].asks)) == s.books[l].bestAsk
  {
    var s := Run(a, Boot(instruments), ms);
    RunKeepsOrder(a, instruments, ms, l);
    BestFirstLists(Bid, s.books[l].bids);
    BestFirstLists(Ask, s.books[l].asks);
  }

  /** The REST lookup: case-insensitive through the index, then the canonical symbol. */
  method Lookup(snap: Snapshot, ghost s: State, requested: Text) returns (r: Option<BookView>)
    requires Faithful(snap, s, snap.complete)
    ensures r.Some? <==> exists l :: l in s.instruments && SameText(s.instruments[l].symbol, requested)
    ensures r.Some? ==> r.value.symbol in snap.books && snap.books[r.value.symbol] == r.value
    ensures r.Some? ==> SameText(r.value.symbol, requested)
  {
    var lo := Lower(requested);
    forall l | l in s.instruments
      ensures SameText(s.instruments[l].symbol, requested) <==> Lower(s.instruments[l].symbol) == lo
    {
      LowerComparesText(s.instruments[l].symbol, requested);
    }
    if lo in snap.symbolIndex {
      EntriesAreInstruments(snap, s, snap.complete, snap.symbolIndex[lo]);
      r := Some(snap.books[snap.symbolIndex[lo]]);
    } else {
      r := None;
      forall l | l in s.instruments ensures Lower(s.instruments[l].symbol) != lo {
        assert s.instruments[l].symbol in snap.books;
      }
    }
  }

  // ----- staleness -----

  /** The state from which the currently published snapshot was built, publishing every `k` messages. */
  function Published(a: Arith, k: nat, s: State, ms: seq<Message>): Option<State>
    requires k > 0
  {
    if ms == [] then None
    else
      var t := Run(a, s, ms);
      if t.processed % k == 0 then Some(t) else Published(a, k, s, ms[..|ms| - 1])
  }

  lemma ProcessedStep(a: Arith, s: State, m: Message)
    ensures Apply(a, s, m).processed == Wrap64(a, s.processed + 1)
  {
  }

  lemma ProcessedLast(a: Arith, s: State, ms: seq<Message>)
    requires ms != []
    ensures Run(a, s, ms).processed == Wrap64(a, Run(a, s, ms[..|ms| - 1]).processed + 1)
  {
    var before, m := Run(a, s, ms[..|ms| - 1]), ms[|ms| - 1];
    var after := Apply(a, before, m);
    assert after.processed == Wrap64(a, before.processed + 1) by { ProcessedStep(a, before, m); }
    assert Run(a, s, ms) == after;
  }

  lemma {:induction false} ProcessedCounts(a: Arith, instruments: map<u16, Instrument>, ms: seq<Message>)
    requires a.Exact? || |ms| < TWO64
    ensures Run(a, Boot(instruments), ms).processed == |ms|
  {
    if ms != [] {
      ProcessedCounts(a, instruments, ms[..|ms| - 1]);
      ProcessedLast(a, Boot(instruments), ms);
    }
  }

  lemma Multiples(n: nat, k: nat, j: nat)
    requires k > 0 && j * k <= n < (j + 1) * k
    ensures n % k == 0 <==> n == j * k
  {
    var d := n / k - j;
    assert n == n / k * k + n % k;
    assert d * k == n - j * k - n % k;
    if d > 0 {
      PositiveMultiple(d, k);
    } else if d < 0 {
      PositiveMultiple(0 - d, k);
    }
  }

  /**
   Between j*k and (j+1)*k messages, the published state is the one after exactly j*k
   messages; before the first k messages nothing is published.
   */
  lemma {:induction false} BoundedStaleness(
    a: Arith, k: nat, instruments: map<u16, Instrument>, ms: seq<Message>, j: nat)
    requires k > 0 && (a.Exact? || |ms| < TWO64)
    requires j * k <= |ms| < (j + 1) * k
    ensures Published(a, k, Boot(instruments), ms)
            == if j == 0 then None else Some(Run(a, Boot(instruments), ms[..j * k]))
  {
    if ms != [] {
      ProcessedCounts(a, instruments, ms);
      Multiples(|ms|, k, j);
      if |ms| == j * k {
        assert ms[..j * k] == ms;
      } else {
        var init := ms[..|ms| - 1];
        BoundedStaleness(a, k, instruments, init, j);
        assert init[..j * k] == ms[..j * k];
      }
    } else {
      assert j == 0 by { assert j > 0 ==> j * k >= 1 * k; }
    }
  }
}
