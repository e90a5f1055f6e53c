/** Sums over the order index and over lists of records, and how single updates change them. */
module Sums {
  import opened Words
  import opened Engine

  type Index = map<u64, OrderRecord>

  /** What is being added up. */
  datatype Measure = SharesAt(key: Key) | OrdersAt(key: Key) | AllShares | AllOrders

  function Weigh(w: Measure, r: OrderRecord): nat {
    match w
    case SharesAt(k) => if KeyOf(r) == k then r.shares else 0
    case OrdersAt(k) => if KeyOf(r) == k then 1 else 0
    case AllShares => r.shares
    case AllOrders => 1
  }

  ghost function Sum(m: Index, w: Measure): nat
    decreases |m|
  {
    if m == map[] then 0
    else
      var r :| r in m;
      Weigh(w, m[r]) + Sum(m - {r}, w)
  }

  ghost function SumSeq(rs: seq<OrderRecord>, w: Measure): nat {
    if rs == [] then 0 else SumSeq(rs[..|rs| - 1], w) + Weigh(w, rs[|rs| - 1])
  }

  /** Any entry can be taken out first. */
  lemma {:induction false} SumRemove(m: Index, r: u64, w: Measure)
    requires r in m
    ensures Sum(m, w) == Weigh(w, m[r]) + Sum(m - {r}, w)
    decreases |m|
  {
    var c :| c in m && Sum(m, w) == Weigh(w, m[c]) + Sum(m - {c}, w);
    if c != r {
      SumRemove(m - {c}, r, w);
      SumRemove(m - {r}, c, w);
      assert m - {c} - {r} == m - {r} - {c};
    }
  }

  lemma SumInsert(m: Index, r: u64, v: OrderRecord, w: Measure)
    ensures Sum(m[r := v], w) == Sum(m, w) - (if r in m then Weigh(w, m[r]) else 0) + Weigh(w, v)
  {
    SumRemove(m[r := v], r, w);
    if r in m {
      SumRemove(m, r, w);
      assert m[r := v] - {r} == m - {r};
    } else {
      assert m[r := v] - {r} == m;
    }
  }

  lemma SumAppend(rs: seq<OrderRecord>, v: OrderRecord, w: Measure)
    ensures SumSeq(rs + [v], w) == SumSeq(rs, w) + Weigh(w, v)
  {
  }

  ghost predicate RestsAt(m: Index, k: Key) {
    exists r :: r in m && KeyOf(m[r]) == k
  }

  /** A key has a positive order count exactly when some order rests there. */
  lemma {:induction false} SumOccupied(m: Index, k: Key)
    ensures Sum(m, OrdersAt(k)) > 0 <==> RestsAt(m, k)
    decreases |m|
  {
    if r :| r in m && KeyOf(m[r]) == k {
      SumRemove(m, r, OrdersAt(k));
    } else if m != map[] {
      var c :| c in m;
      SumRemove(m, c, OrdersAt(k));
      SumOccupied(m - {c}, k);
    }
  }

  /** Shares at a key are bounded by the number of orders there. */
  lemma {:induction false} SumBounds(m: Index, k: Key)
    ensures Sum(m, SharesAt(k)) <= Sum(m, OrdersAt(k)) * (TWO32 - 1)
    ensures Sum(m, OrdersAt(k)) <= Sum(m, AllOrders)
    decreases |m|
  {
    if r :| r in m {
      SumRemove(m, r, SharesAt(k));
      SumRemove(m, r, OrdersAt(k));
      SumRemove(m, r, AllOrders);
      SumBounds(m - {r}, k);
    } else {
      assert m == map[];
    }
  }

  lemma {:induction false} SumSeqBounds(rs: seq<OrderRecord>, k: Key)
    ensures SumSeq(rs, SharesAt(k)) <= SumSeq(rs, OrdersAt(k)) * (TWO32 - 1)
    ensures SumSeq(rs, OrdersAt(k)) <= SumSeq(rs, AllOrders)
  {
    if rs != [] {
      SumSeqBounds(rs[..|rs| - 1], k);
    }
  }
}
