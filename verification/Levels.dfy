/** One side of a book: price levels keyed by raw price, and the best-first order on them. */
module Levels {
  import opened Words

  datatype Side = Bid | Ask

  datatype Level = Level(price: u32, shares: int, orders: int)

  type SideMap = map<u32, Level>

  predicate Better(side: Side, a: u32, b: u32) {
    if side.Bid? then a > b else a < b
  }

  // ----- updates -----

  /** Merge one order into its level, creating the level when absent. */
  function AddShares(a: Arith, ls: SideMap, p: u32, n: u32): SideMap {
    var l := if p in ls then ls[p] else Level(p, 0, 0);
    ls[p := Level(p, Wrap64(a, l.shares + n), Wrap32(a, l.orders + 1))]
  }

  /** What a removal leaves behind once the level's new share total is known. */
  function Settle(a: Arith, ls: SideMap, p: u32, shares: int, full: bool): SideMap
    requires p in ls
  {
    var orders := if full then Wrap32(a, ls[p].orders - 1) else ls[p].orders;
    if orders == 0 then ls - {p} else ls[p := Level(ls[p].price, shares, orders)]
  }

  /** The engine's removal: the share total is clamped at zero. */
  function TakeClamped(a: Arith, ls: SideMap, p: u32, n: u32, full: bool): SideMap {
    if p !in ls then ls
    else Settle(a, ls, p, if n > ls[p].shares then 0 else ls[p].shares - n, full)
  }

  /** The ladders' removal: the share total wraps. */
  function TakeWrapping(ls: SideMap, p: u32, n: u32, full: bool): SideMap {
    if p !in ls then ls
    else Settle(Machine, ls, p, Wrap64(Machine, ls[p].shares - n), full)
  }

  /** Every level is filed under its own price. */
  ghost predicate Filed(ls: SideMap) {
    forall p :: p in ls ==> ls[p].price == p
  }

  // ----- the best level -----

  ghost predicate IsBest(side: Side, ls: SideMap, p: u32) {
    p in ls && forall q :: q in ls && q != p ==> Better(side, p, q)
  }

  lemma BestExists(side: Side, ls: SideMap)
    requires ls != map[]
    ensures exists p :: IsBest(side, ls, p)
    decreases |ls|
  {
    var p :| p in ls;
    var rest := ls - {p};
    if rest == map[] {
      assert forall q :: q in ls && q != p ==> q in rest;
      assert IsBest(side, ls, p);
    } else {
      BestExists(side, rest);
      var b :| IsBest(side, rest, b);
      assert forall q :: q in ls && q != p ==> q in rest;
      assert IsBest(side, ls, if Better(side, p, b) then p else b);
    }
  }

  /** The key of `begin()` in a map ordered best-first; `None` for an empty map. */
  function Best(side: Side, ls: SideMap): (r: Option<u32>)
    ensures r.None? <==> ls == map[]
    ensures r.Some? ==> IsBest(side, ls, r.value)
  {
    if ls == map[] then None
    else
      BestExists(side, ls);
      var p :| p in ls && forall q :: q in ls && q != p ==> Better(side, p, q);
      Some(p)
  }

  // ----- best-first listing -----

  /** The levels in the order a best-first iteration visits them. */
  ghost function BestFirst(side: Side, ls: SideMap): seq<Level>
    decreases |ls|
  {
    if ls == map[] then []
    else
      var p := Best(side, ls).value;
      [ls[p]] + BestFirst(side, ls - {p})
  }

  ghost predicate Sorted(side: Side, xs: seq<Level>) {
    forall i, j :: 0 <= i < j < |xs| ==> Better(side, xs[i].price, xs[j].price)
  }

  ghost predicate HasPrice(xs: seq<Level>, p: u32) {
    exists i :: 0 <= i < |xs| && xs[i].price == p
  }

  /** `xs` is strictly best-first and holds exactly the levels of `ls`. */
  ghost predicate Lists(side: Side, xs: seq<Level>, ls: SideMap) {
    && Sorted(side, xs)
    && (forall i :: 0 <= i < |xs| ==> xs[i].price in ls && ls[xs[i].price] == xs[i])
    && (forall p :: p in ls ==> HasPrice(xs, p))
  }

  /** Putting the best level in front of a listing of the others lists them all. */
  lemma ListsCons(side: Side, p: u32, ys: seq<Level>, ls: SideMap)
    requires Filed(ls) && IsBest(side, ls, p) && Lists(side, ys, ls - {p})
    ensures Lists(side, [ls[p]] + ys, ls)
  {
    var xs := [ls[p]] + ys;
    forall i, j | 0 <= i < j < |xs| ensures Better(side, xs[i].price, xs[j].price) {
      assert xs[j] == ys[j - 1];
      if i > 0 {
        assert xs[i] == ys[i - 1];
      }
    }
    forall q | q in ls ensures HasPrice(xs, q) {
      if q == p {
        assert xs[0].price == q;
      } else {
        assert HasPrice(ys, q);
        var i :| 0 <= i < |ys| && ys[i].price == q;
        assert xs[i + 1].price == q;
      }
    }
  }

  lemma {:induction false} BestFirstLists(side: Side, ls: SideMap)
    requires Filed(ls)
    ensures Lists(side, BestFirst(side, ls), ls)
    decreases |ls|
  {
    if ls != map[] {
      var p := Best(side, ls).value;
      BestFirstLists(side, ls - {p});
      ListsCons(side, p, BestFirst(side, ls - {p}), ls);
    }
  }

  /** The head of a listing is the best level and the tail lists the others. */
  lemma ListsTail(side: Side, xs: seq<Level>, ls: SideMap)
    requires Lists(side, xs, ls) && xs != []
    ensures IsBest(side, ls, xs[0].price)
    ensures Lists(side, xs[1..], ls - {xs[0].price})
  {
  }

  lemma BestFirstStep(side: Side, ls: SideMap, p: u32)
    requires IsBest(side, ls, p)
    ensures BestFirst(side, ls) == [ls[p]] + BestFirst(side, ls - {p})
  {
  }

  lemma EmptyListing(side: Side, ls: SideMap)
    requires Lists(side, [], ls)
    ensures ls == map[]
  {
  }

  lemma ListingStep(side: Side, xs: seq<Level>, ls: SideMap)
    requires Lists(side, xs, ls) && xs != []
    ensures xs[0].price in ls
    ensures xs[1..] == BestFirst(side, ls - {xs[0].price}) ==> xs == BestFirst(side, ls)
  {
  }

  /** A strictly best-first list of exactly these levels can only be the best-first listing. */
  lemma {:induction false} ListingUnique(side: Side, xs: seq<Level>, ls: SideMap)
    requires Lists(side, xs, ls)
    ensures xs == BestFirst(side, ls)
    decreases |xs|
  {
    if xs == [] {
      EmptyListing(side, ls);
    } else {
      ListsTail(side, xs, ls);
      ListingUnique(side, xs[1..], ls - {xs[0].price});
      ListingStep(side, xs, ls);
    }
  }

  lemma {:induction false} BestFirstSize(side: Side, ls: SideMap)
    ensures |BestFirst(side, ls)| == |ls|
    decreases |ls|
  {
    if ls != map[] {
      var p := Best(side, ls).value;
      BestFirstSize(side, ls - {p});
      assert (ls - {p}).Keys == ls.Keys - {p};
    }
  }

  /** In-order traversal of a side. */
  method ListSide(side: Side, ls: SideMap) returns (xs: seq<Level>)
    ensures xs == BestFirst(side, ls)
  {
    xs := [];
    var rest := ls;
    while rest != map[]
      invariant xs + BestFirst(side, rest) == BestFirst(side, ls)
      decreases |rest|
    {
      var p := Best(side, rest).value;
      assert (rest - {p}).Keys == rest.Keys - {p};
      xs := xs + [rest[p]];
      rest := rest - {p};
    }
  }
}
