/** Which side of the book an order rests on, in terms of its side byte: 'B' (0x42) or anything else. */
module BookSides {
  import opened Words
  import opened Levels
  import opened Messages
  import opened Engine
  import opened Sums
  import opened Ledger
  import opened Runs
  import opened NoWrap

  function BidsOf(s: State, l: u16): SideMap {
    if l in s.books then s.books[l].bids else map[]
  }

  function AsksOf(s: State, l: u16): SideMap {
    if l in s.books then s.books[l].asks else map[]
  }

  /** Live orders of instrument `l` at price `p` with side byte 'B'. */
  ghost function Buyers(orders: Index, l: u16, p: u32): Index {
    map r | r in orders && orders[r].locate == l && orders[r].price == p && orders[r].side == 0x42 :: orders[r]
  }

  /** Live orders of instrument `l` at price `p` with any other side byte. */
  ghost function Sellers(orders: Index, l: u16, p: u32): Index {
    map r | r in orders && orders[r].locate == l && orders[r].price == p && orders[r].side != 0x42 :: orders[r]
  }

  /** Overwritten records at `l` and `p`, by side byte. */
  ghost function Lost(ledger: seq<OrderRecord>, l: u16, p: u32, buy: bool): seq<OrderRecord> {
    if ledger == [] then []
    else
      var n := |ledger| - 1;
      var r := ledger[n];
      Lost(ledger[..n], l, p, buy)
      + if r.locate == l && r.price == p && (r.side == 0x42) == buy then [r] else []
  }

  /** `f` holds exactly the orders of `m` that rest at `k`. */
  ghost predicate Picks(f: Index, m: Index, k: Key) {
    && (forall r :: r in m && KeyOf(m[r]) == k ==> r in f)
    && (forall r :: r in f ==> r in m && KeyOf(m[r]) == k && f[r] == m[r])
  }

  lemma PicksWithout(f: Index, m: Index, k: Key, r: u64)
    requires Picks(f, m, k) && r in m
    ensures Picks(f - {r}, m - {r}, k)
    ensures KeyOf(m[r]) != k ==> f - {r} == f
    ensures KeyOf(m[r]) == k ==> r in f && |f - {r}| == |f| - 1
  {
    assert (f - {r}).Keys == f.Keys - {r};
  }

  lemma PickedStep(f: Index, m: Index, k: Key, r: u64)
    requires Picks(f, m, k) && r in m
    requires Sum(m - {r}, OrdersAt(k)) == |f - {r}| && Sum(m - {r}, SharesAt(k)) == Sum(f - {r}, AllShares)
    ensures Sum(m, OrdersAt(k)) == |f| && Sum(m, SharesAt(k)) == Sum(f, AllShares)
  {
    PicksWithout(f, m, k, r);
    SumRemove(m, r, OrdersAt(k));
    SumRemove(m, r, SharesAt(k));
    if r in f {
      SumRemove(f, r, AllShares);
    }
  }

  lemma {:induction false} PickedSums(f: Index, m: Index, k: Key)
    requires Picks(f, m, k)
    ensures Sum(m, OrdersAt(k)) == |f| && Sum(m, SharesAt(k)) == Sum(f, AllShares)
    decreases |m|
  {
    if r :| r in m {
      PicksWithout(f, m, k, r);
      PickedSums(f - {r}, m - {r}, k);
      PickedStep(f, m, k, r);
    } else {
      assert m == map[] && f == map[];
    }
  }

  lemma {:induction false} LostSums(ledger: seq<OrderRecord>, l: u16, p: u32, buy: bool)
    ensures var k := Key(l, if buy then Bid else Ask, p);
            && SumSeq(ledger, OrdersAt(k)) == |Lost(ledger, l, p, buy)|
            && SumSeq(ledger, SharesAt(k)) == SumSeq(Lost(ledger, l, p, buy), AllShares)
  {
    if ledger != [] {
      var n := |ledger| - 1;
      LostSums(ledger[..n], l, p, buy);
      SumAppend(Lost(ledger[..n], l, p, buy), ledger[n], AllShares);
      assert Lost(ledger[..n], l, p, buy) + [] == Lost(ledger[..n], l, p, buy);
    }
  }

  /** The level at a price holds exactly these orders; it exists only if there is one. */
  ghost predicate Holds(ls: SideMap, p: u32, live: Index, lost: seq<OrderRecord>) {
    && (p in ls <==> live != map[] || lost != [])
    && (p in ls ==> ls[p] == Level(p, Sum(live, AllShares) + SumSeq(lost, AllShares), |live| + |lost|))
  }

  lemma SideHolds(s: State, ledger: seq<OrderRecord>, l: u16, p: u32, buy: bool, live: Index)
    requires Consistent(s, ledger) && Picks(live, s.orders, Key(l, if buy then Bid else Ask, p))
    ensures Holds(LevelsAt(s, l, if buy then Bid else Ask), p, live, Lost(ledger, l, p, buy))
  {
    var k := Key(l, if buy then Bid else Ask, p);
    assert KeyOk(s, ledger, k);
    PickedSums(live, s.orders, k);
    LostSums(ledger, l, p, buy);
  }

  /**
   After every run: the bids of an instrument hold its live and overwritten orders with side byte 'B',
   the asks all others, each at its own price with its shares and its count.
   */
  lemma SidesByByte(a: Arith, instruments: map<u16, Instrument>, ms: seq<Message>, l: u16, p: u32)
    requires a.Exact? || FitsThroughout(Boot(instruments), ms)
    ensures var s, ledger := Run(a, Boot(instruments), ms), Orphans(Exact, Boot(instruments), ms);
            && Holds(BidsOf(s, l), p, Buyers(s.orders, l, p), Lost(ledger, l, p, true))
            && Holds(AsksOf(s, l), p, Sellers(s.orders, l, p), Lost(ledger, l, p, false))
  {
    if a.Machine? {
      MachineFollows(instruments, ms);
    }
    var s, ledger := Run(Exact, Boot(instruments), ms), Orphans(Exact, Boot(instruments), ms);
    RunConsistent(instruments, ms);
    SideHolds(s, ledger, l, p, true, Buyers(s.orders, l, p));
    SideHolds(s, ledger, l, p, false, Sellers(s.orders, l, p));
  }

  /** The level at a price is the sum of these live orders; it exists only if there is one. */
  ghost predicate Totals(ls: SideMap, p: u32, live: Index) {
    && (p in ls <==> live != map[])
    && (p in ls ==> ls[p] == Level(p, Sum(live, AllShares), |live|))
  }

  /**
   Without reuse of live references the bids at each price are the live orders with side byte 'B'
   there, and the asks all other live orders there, with their shares and their count.
   */
  lemma FreshSidesByByte(a: Arith, instruments: map<u16, Instrument>, ms: seq<Message>, l: u16, p: u32)
    requires FreshRun(Exact, Boot(instruments), ms) && (a.Exact? || FitsThroughout(Boot(instruments), ms))
    ensures var s := Run(a, Boot(instruments), ms);
            && Totals(BidsOf(s, l), p, Buyers(s.orders, l, p))
            && Totals(AsksOf(s, l), p, Sellers(s.orders, l, p))
  {
    FreshRunHasNoOrphans(Exact, Boot(instruments), ms);
    SidesByByte(a, instruments, ms, l, p);
  }

  /** In every run the top bid is the highest bid price and the top ask the lowest ask price. */
  lemma TopsByPrice(a: Arith, instruments: map<u16, Instrument>, ms: seq<Message>, l: u16)
    requires a.Exact? || FitsThroughout(Boot(instruments), ms)
    requires l in Run(a, Boot(instruments), ms).books
    ensures var b := Run(a, Boot(instruments), ms).books[l];
            && (b.bestBid.None? <==> b.bids == map[]) && (b.bestAsk.None? <==> b.asks == map[])
            && (b.bestBid.Some? ==> b.bestBid.value in b.bids && forall q :: q in b.bids ==> q <= b.bestBid.value)
            && (b.bestAsk.Some? ==> b.bestAsk.value in b.asks && forall q :: q in b.asks ==> q >= b.bestAsk.value)
  {
    if a.Machine? {
      MachineFollows(instruments, ms);
    }
    RunConsistent(instruments, ms);
    assert BookOk(Run(Exact, Boot(instruments), ms), l);
  }

  // ----- one Add -----

  /** Only the level at `p` differs, and it exists. */
  ghost predicate OnlyAt(before: SideMap, after: SideMap, p: u32) {
    p in after && forall q :: q != p ==> (q in after <==> q in before) && (q in after ==> after[q] == before[q])
  }

  lemma AddSharesOnlyAt(a: Arith, ls: SideMap, p: u32, n: u32)
    ensures OnlyAt(ls, AddShares(a, ls, p, n), p)
  {
  }

  /** From `s` to `t` only the level at this price, on the side this byte says, of this book changes. */
  ghost predicate OneLevelChanges(s: State, t: State, locate: u16, side: u8, price: u32, l: u16) {
    && (if l == locate && side == 0x42 then OnlyAt(BidsOf(s, l), BidsOf(t, l), price)
        else BidsOf(t, l) == BidsOf(s, l))
    && (if l == locate && side != 0x42 then OnlyAt(AsksOf(s, l), AsksOf(t, l), price)
        else AsksOf(t, l) == AsksOf(s, l))
  }

  lemma RestByByte(a: Arith, s: State, ref: u64, rec: OrderRecord, ts: u64, l: u16)
    ensures OneLevelChanges(s, RestOrder(a, s, ref, rec, ts), rec.locate, rec.side, rec.price, l)
  {
    LevelsAfterRest(a, s, ref, rec, ts, l, Bid);
    LevelsAfterRest(a, s, ref, rec, ts, l, Ask);
    AddSharesOnlyAt(a, BidsOf(s, l), rec.price, rec.shares);
    AddSharesOnlyAt(a, AsksOf(s, l), rec.price, rec.shares);
  }

  /** One Add changes the level at its own price, on the side its side byte says, and no other side of any book. */
  lemma AddByByte(a: Arith, s: State, m: Message, l: u16)
    requires m.AddOrder? || m.AddOrderMpid?
    ensures OneLevelChanges(s, Handle(a, s, m), m.locate, m.side, m.price, l)
  {
    RestByByte(a, s, m.ref, NewRecord(m), m.timestamp, l);
  }
}
