/**
 The aggregates in the books always equal the sums over the resting orders.

 Reusing a live reference overwrites its record but leaves its shares in the book. Such
 records are collected in a ledger, so that the statement covers every run.
 */
module Ledger {
  import opened Words
  import opened Levels
  import opened Messages
  import opened Engine
  import opened Sums

  /** Where a message files a new record, if it does. */
  function FiledUnder(s: State, m: Message): Option<u64> {
    match m
    case AddOrder(_, _, _, ref, _, _, _, _) => Some(ref)
    case AddOrderMpid(_, _, _, ref, _, _, _, _, _) => Some(ref)
    case Replace(_, _, _, ref, newRef, _, _) => if ref in s.orders then Some(newRef) else None
    case _ => None
  }

  /** The record a message silently overwrites in the index: none, or one. */
  function Overwritten(s: State, m: Message): seq<OrderRecord> {
    match FiledUnder(s, m)
    case None => []
    case Some(r) =>
      if r in s.orders && !(m.Replace? && m.ref == r) then [s.orders[r]] else []
  }

  function Orphans(a: Arith, s: State, ms: seq<Message>): seq<OrderRecord> {
    if ms == [] then []
    else
      var init := ms[..|ms| - 1];
      Orphans(a, s, init) + Overwritten(Run(a, s, init), ms[|ms| - 1])
  }

  /** Total over the live orders and the ledger. */
  ghost function Resting(s: State, ledger: seq<OrderRecord>, w: Measure): nat {
    Sum(s.orders, w) + SumSeq(ledger, w)
  }

  function LevelsAt(s: State, locate: u16, side: Side): SideMap {
    if locate in s.books then s.books[locate].Levels(side) else map[]
  }

  ghost predicate LevelIs(ls: SideMap, p: u32, shares: int, orders: int) {
    if orders == 0 then p !in ls else p in ls && ls[p] == Level(p, shares, orders)
  }

  ghost predicate KeyOk(s: State, ledger: seq<OrderRecord>, k: Key) {
    LevelIs(LevelsAt(s, k.locate, k.side), k.price,
            Resting(s, ledger, SharesAt(k)), Resting(s, ledger, OrdersAt(k)))
  }

  ghost predicate BookOk(s: State, locate: u16)
    requires locate in s.books
  {
    var b := s.books[locate];
    && locate in s.instruments
    && b.locate == locate
    && b.bestBid == Best(Bid, b.bids)
    && b.bestAsk == Best(Ask, b.asks)
  }

  ghost predicate Consistent(s: State, ledger: seq<OrderRecord>) {
    && (forall k :: KeyOk(s, ledger, k))
    && (forall l :: l in s.books ==> BookOk(s, l))
  }

  // ----- inserting an order -----

  lemma LevelsAfterRest(a: Arith, s: State, ref: u64, rec: OrderRecord, ts: u64, l: u16, side: Side)
    ensures var after := LevelsAt(RestOrder(a, s, ref, rec, ts), l, side);
            after == if l == rec.locate && side == SideOf(rec.side)
                     then AddShares(a, LevelsAt(s, l, side), rec.price, rec.shares)
                     else LevelsAt(s, l, side)
  {
  }

  lemma RestingAfterRest(s: State, ledger: seq<OrderRecord>, ref: u64, rec: OrderRecord, ts: u64, w: Measure)
    ensures var s' := RestOrder(Exact, s, ref, rec, ts);
            var gone := if ref in s.orders then [s.orders[ref]] else [];
            Resting(s', ledger + gone, w) == Resting(s, ledger, w) + Weigh(w, rec)
  {
    SumInsert(s.orders, ref, rec, w);
    if ref in s.orders {
      SumAppend(ledger, s.orders[ref], w);
    } else {
      assert ledger + [] == ledger;
    }
  }

  lemma RestKeepsKey(s: State, ledger: seq<OrderRecord>, ref: u64, rec: OrderRecord, ts: u64, k: Key)
    requires KeyOk(s, ledger, k)
    ensures var gone := if ref in s.orders then [s.orders[ref]] else [];
            KeyOk(RestOrder(Exact, s, ref, rec, ts), ledger + gone, k)
  {
    LevelsAfterRest(Exact, s, ref, rec, ts, k.locate, k.side);
    RestingAfterRest(s, ledger, ref, rec, ts, SharesAt(k));
    RestingAfterRest(s, ledger, ref, rec, ts, OrdersAt(k));
    SharesNeedOrders(s, ledger, k);
  }

  lemma RestKeeps(s: State, ledger: seq<OrderRecord>, ref: u64, rec: OrderRecord, ts: u64)
    requires Consistent(s, ledger)
    ensures var gone := if ref in s.orders then [s.orders[ref]] else [];
            Consistent(RestOrder(Exact, s, ref, rec, ts), ledger + gone)
  {
    var s' := RestOrder(Exact, s, ref, rec, ts);
    var ledger' := ledger + if ref in s.orders then [s.orders[ref]] else [];
    forall k ensures KeyOk(s', ledger', k) {
      RestKeepsKey(s, ledger, ref, rec, ts, k);
    }
    forall l | l in s'.books ensures BookOk(s', l) {
      assert l in s.books ==> BookOk(s, l);
    }
  }

  lemma SharesNeedOrders(s: State, ledger: seq<OrderRecord>, k: Key)
    ensures Resting(s, ledger, SharesAt(k)) <= Resting(s, ledger, OrdersAt(k)) * (TWO32 - 1)
  {
    SumBounds(s.orders, k);
    SumSeqBounds(ledger, k);
  }

  // ----- taking shares off an order -----

  lemma LevelsAfterReduce(a: Arith, s: State, ref: u64, n: u32, ts: u64, l: u16, side: Side)
    requires ref in s.orders
    ensures var rec := s.orders[ref];
            var left := Left(rec, n);
            var after := LevelsAt(Reduce(a, s, ref, n, ts), l, side);
            after == if l == rec.locate && side == SideOf(rec.side)
                     then TakeClamped(a, LevelsAt(s, l, side), rec.price, rec.shares - left, left == 0)
                     else LevelsAt(s, l, side)
  {
  }

  lemma RestingAfterReduce(s: State, ledger: seq<OrderRecord>, ref: u64, n: u32, ts: u64, w: Measure)
    requires ref in s.orders
    ensures var rec := s.orders[ref];
            var left := Left(rec, n);
            Resting(Reduce(Exact, s, ref, n, ts), ledger, w)
            == Resting(s, ledger, w) - Weigh(w, rec)
               + (if left == 0 then 0 else Weigh(w, rec.(shares := left)))
    ensures Resting(s, ledger, w) >= Weigh(w, s.orders[ref])
  {
    var rec := s.orders[ref];
    SumRemove(s.orders, ref, w);
    if Left(rec, n) != 0 {
      SumInsert(s.orders, ref, rec.(shares := Left(rec, n)), w);
    }
  }

  lemma ReduceKeepsKey(s: State, ledger: seq<OrderRecord>, ref: u64, n: u32, ts: u64, k: Key)
    requires KeyOk(s, ledger, k) && ref in s.orders
    ensures KeyOk(Reduce(Exact, s, ref, n, ts), ledger, k)
  {
    LevelsAfterReduce(Exact, s, ref, n, ts, k.locate, k.side);
    RestingAfterReduce(s, ledger, ref, n, ts, SharesAt(k));
    RestingAfterReduce(s, ledger, ref, n, ts, OrdersAt(k));
    SharesNeedOrders(Reduce(Exact, s, ref, n, ts), ledger, k);
  }

  lemma ReduceKeeps(s: State, ledger: seq<OrderRecord>, ref: u64, n: u32, ts: u64)
    requires Consistent(s, ledger) && ref in s.orders
    ensures Consistent(Reduce(Exact, s, ref, n, ts), ledger)
  {
    var s' := Reduce(Exact, s, ref, n, ts);
    forall k ensures KeyOk(s', ledger, k) {
      ReduceKeepsKey(s, ledger, ref, n, ts, k);
    }
    forall l | l in s'.books ensures BookOk(s', l) {
      assert l in s.books ==> BookOk(s, l);
    }
  }

  // ----- every message -----

  lemma DeleteIsReduce(a: Arith, s: State, ref: u64, ts: u64)
    requires ref in s.orders
    ensures DeleteImpl(a, s, ref, ts) == Reduce(a, s, ref, s.orders[ref].shares, ts)
  {
  }

  /** Replace removes the old order and rests a new one on the same side of the same book. */
  lemma ReplaceIsDeleteThenRest(a: Arith, s: State, ref: u64, newRef: u64, shares: u32, price: u32, ts: u64)
    requires ref in s.orders
    ensures var was := s.orders[ref];
            var rec := Successor(was, shares, price);
            ReplaceImpl(a, s, ref, newRef, shares, price, ts)
            == RestOrder(a, DeleteImpl(a, s, ref, ts), newRef, rec, ts)
  {
  }

  lemma ReplaceKeeps(s: State, ledger: seq<OrderRecord>, ref: u64, newRef: u64, shares: u32, price: u32, ts: u64)
    requires Consistent(s, ledger) && ref in s.orders
    ensures var gone := if newRef in s.orders && newRef != ref then [s.orders[newRef]] else [];
            Consistent(ReplaceImpl(Exact, s, ref, newRef, shares, price, ts), ledger + gone)
  {
    var was := s.orders[ref];
    var mid := DeleteImpl(Exact, s, ref, ts);
    assert Consistent(mid, ledger) by {
      DeleteIsReduce(Exact, s, ref, ts);
      ReduceKeeps(s, ledger, ref, was.shares, ts);
    }
    ReplaceIsDeleteThenRest(Exact, s, ref, newRef, shares, price, ts);
    RestKeeps(mid, ledger, newRef, Successor(was, shares, price), ts);
    assert mid.orders == s.orders - {ref};
  }

  lemma OutsideOrders(s: State, t: State, ledger: seq<OrderRecord>)
    requires Consistent(s, ledger)
    requires t.orders == s.orders && t.books == s.books && s.instruments.Keys <= t.instruments.Keys
    ensures Consistent(t, ledger)
  {
    forall k ensures KeyOk(t, ledger, k) {
      assert KeyOk(s, ledger, k);
    }
    forall l | l in t.books ensures BookOk(t, l) {
      assert BookOk(s, l);
    }
  }

  lemma HandleKeeps(s: State, ledger: seq<OrderRecord>, m: Message)
    requires Consistent(s, ledger)
    ensures Consistent(Handle(Exact, s, m), ledger + Overwritten(s, m))
  {
    assert ledger + [] == ledger;
    if m.AddOrder? || m.AddOrderMpid? {
      RestKeeps(s, ledger, m.ref, NewRecord(m), m.timestamp);
    } else if m.StockDirectory? || m.TradingAction? || m.ref !in s.orders {
      OutsideOrders(s, Handle(Exact, s, m), ledger);
    } else if m.Replace? {
      ReplaceKeeps(s, ledger, m.ref, m.newRef, m.shares, m.price, m.timestamp);
    } else if m.Delete? {
      DeleteIsReduce(Exact, s, m.ref, m.timestamp);
      ReduceKeeps(s, ledger, m.ref, s.orders[m.ref].shares, m.timestamp);
    } else {
      ReduceKeeps(s, ledger, m.ref, Asked(m), m.timestamp);
    }
  }

  lemma ApplyKeeps(s: State, ledger: seq<OrderRecord>, m: Message)
    requires Consistent(s, ledger)
    ensures Consistent(Apply(Exact, s, m), ledger + Overwritten(s, m))
  {
    HandleKeeps(s, ledger, m);
    OutsideOrders(Handle(Exact, s, m), Apply(Exact, s, m), ledger + Overwritten(s, m));
  }

  /** Every run, reused references included. */
  lemma {:induction false} RunConsistent(instruments: map<u16, Instrument>, ms: seq<Message>)
    ensures var s := Boot(instruments);
            Consistent(Run(Exact, s, ms), Orphans(Exact, s, ms))
  {
    var s := Boot(instruments);
    if ms != [] {
      var init := ms[..|ms| - 1];
      RunConsistent(instruments, init);
      ApplyKeeps(Run(Exact, s, init), Orphans(Exact, s, init), ms[|ms| - 1]);
    }
  }
}
