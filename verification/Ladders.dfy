/** The map-backed and sorted-vector price ladders, and why they cannot be told apart. */
module Ladders {
  import opened Words
  import opened Levels

  datatype Op = Add(price: u32, shares: u32) | Remove(price: u32, shares: u32, full: bool)

  /** The reference behaviour: a plain map of levels with wrapping arithmetic. */
  function Step(ls: SideMap, op: Op): SideMap {
    match op
    case Add(p, n) => AddShares(Machine, ls, p, n)
    case Remove(p, n, full) => TakeWrapping(ls, p, n, full)
  }

  function RunOps(ops: seq<Op>): SideMap {
    if ops == [] then map[] else Step(RunOps(ops[..|ops| - 1]), ops[|ops| - 1])
  }

  lemma RunOpsSnoc(ops: seq<Op>, op: Op)
    ensures RunOps(ops + [op]) == Step(RunOps(ops), op)
  {
  }

  lemma {:induction false} RunOpsFiled(ops: seq<Op>)
    ensures Filed(RunOps(ops))
  {
    if ops != [] {
      RunOpsFiled(ops[..|ops| - 1]);
    }
  }

  /** After every operation sequence the levels are visited strictly best-first, each once. */
  lemma VisitsBestFirst(side: Side, ops: seq<Op>)
    ensures Lists(side, BestFirst(side, RunOps(ops)), RunOps(ops))
  {
    RunOpsFiled(ops);
    BestFirstLists(side, RunOps(ops));
  }

  // ----- map ladder -----

  class MapLadder {
    const side: Side
    var levels: SideMap

    constructor (side: Side)
      ensures this.side == side && levels == map[]
    {
      this.side := side;
      levels := map[];
    }

    method AddShares(p: u32, n: u32)
      modifies this
      ensures levels == Step(old(levels), Add(p, n))
    {
      var level := if p in levels then levels[p] else Level(0, 0, 0);
      level := level.(price := p);
      level := level.(shares := (level.shares + n) % TWO64);
      level := level.(orders := (level.orders + 1) % TWO32);
      levels := levels[p := level];
    }

    method RemoveShares(p: u32, n: u32, full: bool)
      modifies this
      ensures levels == Step(old(levels), Remove(p, n, full))
    {
      if p !in levels {
        return;
      }
      var level := levels[p];
      level := level.(shares := (level.shares - n) % TWO64);
      if full {
        level := level.(orders := (level.orders - 1) % TWO32);
      }
      levels := if level.orders == 0 then levels - {p} else levels[p := level];
    }

    method First() returns (r: Option<Level>)
      ensures r == if levels == map[] then None else Some(BestFirst(side, levels)[0])
    {
      var p := Best(side, levels);
      r := if p.None? then None else Some(levels[p.value]);
    }

    method ForEach() returns (visited: seq<Level>)
      ensures visited == BestFirst(side, levels)
    {
      visited := ListSide(side, levels);
    }
  }

  // ----- sorted-vector ladder -----

  /** First position whose price is not better than `p`. */
  method LowerBound(side: Side, xs: seq<Level>, p: u32) returns (k: nat)
    requires Sorted(side, xs)
    ensures k <= |xs|
    ensures forall i :: 0 <= i < k ==> Better(side, xs[i].price, p)
    ensures forall i :: k <= i < |xs| ==> !Better(side, xs[i].price, p)
  {
    k := 0;
    var count := |xs|;
    while count > 0
      invariant 0 <= k <= k + count <= |xs|
      invariant forall i :: 0 <= i < k ==> Better(side, xs[i].price, p)
      invariant forall i :: k + count <= i < |xs| ==> !Better(side, xs[i].price, p)
    {
      var half := count / 2;
      if Better(side, xs[k + half].price, p) {
        k := k + half + 1;
        count := count - half - 1;
      } else {
        count := half;
      }
    }
  }

  /** Where the price is, if anywhere, is where the lower bound points. */
  lemma FoundAtBound(side: Side, xs: seq<Level>, ls: SideMap, p: u32, k: nat)
    requires Lists(side, xs, ls) && k <= |xs|
    requires forall i :: 0 <= i < k ==> Better(side, xs[i].price, p)
    requires forall i :: k <= i < |xs| ==> !Better(side, xs[i].price, p)
    ensures p in ls <==> k < |xs| && xs[k].price == p
    ensures p in ls ==> ls[p] == xs[k]
  {
  }

  /** If the price is absent, everything from the lower bound on is worse. */
  lemma WorseFromBound(side: Side, xs: seq<Level>, p: u32, k: nat)
    requires Sorted(side, xs) && k <= |xs| && (k == |xs| || xs[k].price != p)
    requires forall i :: k <= i < |xs| ==> !Better(side, xs[i].price, p)
    ensures forall i :: k <= i < |xs| ==> Better(side, p, xs[i].price)
  {
    forall i | k <= i < |xs| ensures Better(side, p, xs[i].price) {
      assert i > k ==> Better(side, xs[k].price, xs[i].price);
    }
  }

  lemma ListsUpdate(side: Side, xs: seq<Level>, ls: SideMap, k: nat, l: Level)
    requires Lists(side, xs, ls) && k < |xs| && l.price == xs[k].price
    ensures Lists(side, xs[k := l], ls[l.price := l])
  {
    var ys := xs[k := l];
    assert forall i :: 0 <= i < |xs| ==> ys[i].price == xs[i].price;
    forall q | q in ls[l.price := l] ensures HasPrice(ys, q) {
      assert HasPrice(xs, q);
      var i :| 0 <= i < |xs| && xs[i].price == q;
      assert ys[i].price == q;
    }
  }

  lemma SortedInsert(side: Side, xs: seq<Level>, k: nat, l: Level)
    requires Sorted(side, xs) && k <= |xs|
    requires forall i :: 0 <= i < k ==> Better(side, xs[i].price, l.price)
    requires forall i :: k <= i < |xs| ==> Better(side, l.price, xs[i].price)
    ensures Sorted(side, xs[..k] + [l] + xs[k..])
  {
  }

  lemma ListsInsert(side: Side, xs: seq<Level>, ls: SideMap, k: nat, l: Level)
    requires Lists(side, xs, ls) && k <= |xs| && l.price !in ls
    requires forall i :: 0 <= i < k ==> Better(side, xs[i].price, l.price)
    requires forall i :: k <= i < |xs| ==> Better(side, l.price, xs[i].price)
    ensures Lists(side, xs[..k] + [l] + xs[k..], ls[l.price := l])
  {
    var ys, more := xs[..k] + [l] + xs[k..], ls[l.price := l];
    SortedInsert(side, xs, k, l);
    forall i | 0 <= i < |ys| ensures ys[i].price in more && more[ys[i].price] == ys[i] {
      if i != k {
        assert ys[i] == xs[if i < k then i else i - 1];
      }
    }
    forall q | q in more ensures HasPrice(ys, q) {
      if q == l.price {
        assert ys[k].price == q;
      } else {
        assert HasPrice(xs, q);
        var i :| 0 <= i < |xs| && xs[i].price == q;
        assert ys[if i < k then i else i + 1] == xs[i];
      }
    }
  }

  lemma SortedErase(side: Side, xs: seq<Level>, k: nat)
    requires Sorted(side, xs) && k < |xs|
    ensures Sorted(side, xs[..k] + xs[k + 1..])
  {
  }

  lemma ErasedDiffers(side: Side, xs: seq<Level>, k: nat, i: nat)
    requires Sorted(side, xs) && k < |xs| && i < |xs| && i != k
    ensures xs[i].price != xs[k].price
  {
  }

  lemma ListsErase(side: Side, xs: seq<Level>, ls: SideMap, k: nat)
    requires Lists(side, xs, ls) && k < |xs|
    ensures Lists(side, xs[..k] + xs[k + 1..], ls - {xs[k].price})
  {
    var ys, rest := xs[..k] + xs[k + 1..], ls - {xs[k].price};
    SortedErase(side, xs, k);
    forall i | 0 <= i < |ys| ensures ys[i].price in rest && rest[ys[i].price] == ys[i] {
      var j := if i < k then i else i + 1;
      assert ys[i] == xs[j];
      ErasedDiffers(side, xs, k, j);
    }
    forall q | q in rest ensures HasPrice(ys, q) {
      assert HasPrice(xs, q);
      var i :| 0 <= i < |xs| && xs[i].price == q;
      assert ys[if i < k then i else i - 1] == xs[i];
    }
  }

  class FlatLadder {
    const side: Side
    var levels: seq<Level>
    /** The map of levels that the vector stands for. */
    ghost var model: SideMap

    ghost predicate Valid()
      reads this
    {
      Lists(side, levels, model)
    }

    constructor (side: Side)
      ensures Valid() && this.side == side && model == map[]
    {
      this.side := side;
      levels := [];
      model := map[];
    }

    /** Overwrite the level at `k`, keeping its price. */
    method Write(k: nat, l: Level)
      requires Valid() && k < |levels| && l.price == levels[k].price
      modifies this
      ensures Valid() && model == old(model)[l.price := l]
    {
      ListsUpdate(side, levels, model, k, l);
      levels := levels[k := l];
      model := model[l.price := l];
    }

    /** Shift the tail down and put a new level at its lower bound. */
    method InsertAt(k: nat, l: Level)
      requires Valid() && k <= |levels| && l.price !in model
      requires forall i :: 0 <= i < k ==> Better(side, levels[i].price, l.price)
      requires forall i :: k <= i < |levels| ==> Better(side, l.price, levels[i].price)
      modifies this
      ensures Valid() && model == old(model)[l.price := l]
    {
      ListsInsert(side, levels, model, k, l);
      levels := levels[..k] + [l] + levels[k..];
      model := model[l.price := l];
    }

    /** Shift the tail up over position `k`. */
    method EraseAt(k: nat)
      requires Valid() && k < |levels|
      modifies this
      ensures Valid() && model == old(model) - {old(levels)[k].price}
    {
      ListsErase(side, levels, model, k);
      model := model - {levels[k].price};
      levels := levels[..k] + levels[k + 1..];
    }

    method AddShares(p: u32, n: u32)
      requires Valid()
      modifies this
      ensures Valid() && model == Step(old(model), Add(p, n))
    {
      var k := LowerBound(side, levels, p);
      FoundAtBound(side, levels, model, p, k);
      if k < |levels| && levels[k].price == p {
        Write(k, Level(p, (levels[k].shares + n) % TWO64, (levels[k].orders + 1) % TWO32));
      } else {
        WorseFromBound(side, levels, p, k);
        InsertAt(k, Level(p, n, 1));
      }
    }

    method RemoveShares(p: u32, n: u32, full: bool)
      requires Valid()
      modifies this
      ensures Valid() && model == Step(old(model), Remove(p, n, full))
    {
      var k := LowerBound(side, levels, p);
      FoundAtBound(side, levels, model, p, k);
      if k == |levels| || levels[k].price != p {
        return;
      }
      var l := levels[k].(shares := (levels[k].shares - n) % TWO64);
      if full {
        l := l.(orders := (l.orders - 1) % TWO32);
      }
      if l.orders == 0 {
        EraseAt(k);
      } else {
        Write(k, l);
      }
    }

    method First() returns (r: Option<Level>)
      requires Valid()
      ensures r == if model == map[] then None else Some(BestFirst(side, model)[0])
    {
      ListingUnique(side, levels, model);
      r := if levels == [] then None else Some(levels[0]);
    }

    method Size() returns (n: nat)
      requires Valid()
      ensures n == |model|
    {
      ListingUnique(side, levels, model);
      BestFirstSize(side, model);
      n := |levels|;
    }

    method ForEach() returns (visited: seq<Level>)
      requires Valid()
      ensures visited == BestFirst(side, model)
    {
      visited := [];
      for i := 0 to |levels|
        invariant visited == levels[..i]
      {
        visited := visited + [levels[i]];
      }
      ListingUnique(side, levels, model);
    }
  }

  /** What a client of a ladder can see. */
  datatype Sight = Sight(best: Option<Level>, size: nat, visited: seq<Level>)

  ghost function Seen(side: Side, ls: SideMap): Sight {
    Sight(if ls == map[] then None else Some(BestFirst(side, ls)[0]), |ls|, BestFirst(side, ls))
  }

  method DriveMap(side: Side, ops: seq<Op>) returns (r: Sight)
    ensures r == Seen(side, RunOps(ops))
  {
    var ladder := new MapLadder(side);
    for i := 0 to |ops|
      invariant ladder.levels == RunOps(ops[..i])
    {
      assert ops[..i + 1][..i] == ops[..i];
      match ops[i]
      case Add(p, n) => ladder.AddShares(p, n);
      case Remove(p, n, full) => ladder.RemoveShares(p, n, full);
    }
    assert ops[..|ops|] == ops;
    var best := ladder.First();
    var visited := ladder.ForEach();
    r := Sight(best, |ladder.levels|, visited);
  }

  /** Every operation sequence: the sorted vector shows what the map shows. */
  method DriveFlat(side: Side, ops: seq<Op>) returns (r: Sight)
    ensures r == Seen(side, RunOps(ops))
  {
    var ladder := new FlatLadder(side);
    for i := 0 to |ops|
      invariant ladder.Valid() && ladder.model == RunOps(ops[..i])
    {
      assert ops[..i + 1][..i] == ops[..i];
      match ops[i]
      case Add(p, n) => ladder.AddShares(p, n);
      case Remove(p, n, full) => ladder.RemoveShares(p, n, full);
    }
    assert ops[..|ops|] == ops;
    var best := ladder.First();
    var size := ladder.Size();
    var visited := ladder.ForEach();
    r := Sight(best, size, visited);
  }
}
