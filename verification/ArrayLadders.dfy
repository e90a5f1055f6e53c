/**
 The dense-array price ladder: slots indexed by (price - base) / tick, a count of occupied
 slots and the index of the best one, which walks when the best slot empties.
 */
module ArrayLadders {
  import opened Words
  import opened Levels
  import opened Ladders
  import opened ArraySlots

  /** Slot `i` comes before slot `j` in best-first order. */
  predicate Ahead(side: Side, i: int, j: int) {
    if side.Bid? then i > j else i < j
  }

  ghost function Occupied(xs: seq<Level>): set<int> {
    set i | 0 <= i < |xs| && xs[i].orders != 0
  }

  /** `best` is the extreme occupied slot, or |xs| when none is occupied. */
  ghost predicate BestSlot(side: Side, xs: seq<Level>, best: int) {
    if Occupied(xs) == {} then best == |xs|
    else best in Occupied(xs) && forall j :: j in Occupied(xs) && j != best ==> Ahead(side, best, j)
  }

  /** Everything the ladder keeps true of its slots, its cached best slot and its count. */
  ghost predicate Shape(side: Side, b: Band, xs: seq<Level>, best: int, nonempty: int) {
    Placed(b, xs) && nonempty == |Occupied(xs)| && BestSlot(side, xs, best)
  }

  lemma OccupiedUpdate(xs: seq<Level>, i: nat, l: Level)
    requires i < |xs|
    ensures Occupied(xs[i := l]) == if l.orders != 0 then Occupied(xs) + {i} else Occupied(xs) - {i}
    ensures i in Occupied(xs) <==> xs[i].orders != 0
  {
  }

  lemma BestSlotAfterWrite(side: Side, xs: seq<Level>, best: int, i: nat, l: Level, best': int)
    requires BestSlot(side, xs, best) && i < |xs| && l.orders != 0
    requires best' == if xs[i].orders == 0 && (Occupied(xs) == {} || Ahead(side, i, best)) then i else best
    ensures BestSlot(side, xs[i := l], best')
  {
    OccupiedUpdate(xs, i, l);
    assert i in Occupied(xs[i := l]);
  }

  lemma BestSlotGone(side: Side, xs: seq<Level>, i: nat, l: Level)
    requires i < |xs| && BestSlot(side, xs, i) && l.orders == 0
    ensures forall j :: 0 <= j < |xs| && xs[i := l][j].orders != 0 ==> Ahead(side, i, j)
  {
  }

  /** Writing an occupied slot: a better or only slot becomes the best one. */
  lemma ShapeAfterWrite(side: Side, b: Band, xs: seq<Level>, best: int, nonempty: int, i: nat, l: Level, best': int)
    requires Shape(side, b, xs, best, nonempty) && i < |xs| && l.orders != 0 && Placed(b, xs[i := l])
    requires best' == if xs[i].orders == 0 && (nonempty == 0 || Ahead(side, i, best)) then i else best
    ensures Shape(side, b, xs[i := l], best', if xs[i].orders == 0 then nonempty + 1 else nonempty)
  {
    BestSlotAfterWrite(side, xs, best, i, l, best');
    OccupiedUpdate(xs, i, l);
    if xs[i].orders != 0 {
      assert Occupied(xs) + {i} == Occupied(xs);
    } else {
      assert |Occupied(xs) + {i}| == |Occupied(xs)| + 1;
    }
  }

  lemma ShapeAfterErase(side: Side, b: Band, xs: seq<Level>, best: int, nonempty: int, i: nat, l: Level, best': int)
    requires Shape(side, b, xs, best, nonempty) && i < |xs| && xs[i].orders != 0
    requires l.orders == 0 && Placed(b, xs[i := l])
    requires if i == best then BestSlot(side, xs[i := l], best') else best' == best
    ensures Shape(side, b, xs[i := l], best', nonempty - 1)
  {
    OccupiedUpdate(xs, i, l);
  }

  /** Emptying a slot without lowering the count breaks the shape. */
  lemma ShapeLost(side: Side, b: Band, xs: seq<Level>, best: int, nonempty: int, i: nat, l: Level)
    requires Shape(side, b, xs, best, nonempty) && i < |xs| && xs[i].orders != 0 && l.orders == 0
    ensures !Shape(side, b, xs[i := l], best, nonempty)
  {
    OccupiedUpdate(xs, i, l);
    assert |Occupied(xs) - {i}| == |Occupied(xs)| - 1;
  }

  /** Merging an order keeps the shape unless the slot's counter wraps. */
  lemma ShapeAfterMerge(side: Side, b: Band, xs: seq<Level>, best: int, nonempty: int, p: u32, n: u32, best': int)
    requires Shape(side, b, xs, best, nonempty) && b.Holds(p)
    requires var i := b.IndexOf(p);
             best' == if xs[i].orders == 0 && (nonempty == 0 || Ahead(side, i, best)) then i else best
    ensures var i := b.IndexOf(p);
            var nonempty' := if xs[i].orders == 0 then nonempty + 1 else nonempty;
            Shape(side, b, SlotStep(b, xs, Add(p, n)), best', nonempty') <==> xs[i].orders != TWO32 - 1
  {
    var i := b.IndexOf(p);
    var l := Merged(xs[i], p, n);
    PlacedStep(b, xs, Add(p, n));
    assert InRange(xs[i]);
    if l.orders == 0 {
      ShapeLost(side, b, xs, best, nonempty, i, l);
    } else {
      ShapeAfterWrite(side, b, xs, best, nonempty, i, l, best');
    }
  }

  class ArrayLadder {
    const side: Side
    const band: Band
    const slots: array<Level>
    var best: nat
    var nonempty: nat

    ghost predicate Valid()
      reads this, slots
    {
      Shape(side, band, slots[..], best, nonempty)
    }

    /** The levels that the ladder stands for. */
    ghost function Model(): SideMap
      requires Valid()
      reads this, slots
    {
      Held(band, slots[..])
    }

    constructor (side: Side, band: Band)
      requires band.Valid()
      ensures Valid() && fresh(slots) && slots[..] == EmptySlots(band)
      ensures this.side == side && this.band == band
    {
      this.side := side;
      this.band := band;
      slots := new Level[band.slots](_ => Level(0, 0, 0));
      best, nonempty := band.slots, 0;
      new;
      assert Occupied(slots[..]) == {};
    }

    method UpdateBestAfterAdd(i: nat)
      modifies this`best
      ensures best == if nonempty == 1 || Ahead(side, i, old(best)) then i else old(best)
    {
      if nonempty == 1 {
        best := i;
      } else if side.Bid? {
        if i > best { best := i; }
      } else {
        if i < best { best := i; }
      }
    }

    /** Walk from an emptied best slot to the next occupied one; the sentinel only if there is none. */
    method AdvanceBestFrom(start: nat)
      requires start < slots.Length && slots[start].orders == 0
      requires nonempty == 0 ==> Occupied(slots[..]) == {}
      requires forall j :: 0 <= j < slots.Length ==> InRange(slots[j])
      requires forall j :: 0 <= j < slots.Length && slots[j].orders != 0 ==> Ahead(side, start, j)
      modifies this`best
      ensures BestSlot(side, slots[..], best)
    {
      if nonempty == 0 {
        best := slots.Length;
        return;
      }
      var i := start;
      if side.Bid? {
        while i > 0
          invariant 0 <= i <= start
          invariant forall j :: i <= j < slots.Length ==> slots[j].orders == 0
        {
          i := i - 1;
          if slots[i].orders > 0 {
            best := i;
            assert i in Occupied(slots[..]);
            return;
          }
        }
      } else {
        while i + 1 < slots.Length
          invariant start <= i < slots.Length
          invariant forall j :: 0 <= j <= i ==> slots[j].orders == 0
        {
          i := i + 1;
          if slots[i].orders > 0 {
            best := i;
            assert i in Occupied(slots[..]);
            return;
          }
        }
      }
      best := slots.Length;
    }

    /**
     Any insertion. The ladder stays valid unless the slot already counts 2^32 - 1 orders: then its
     counter wraps to zero, and the occupied-slot count is off by one from there on.
     */
    method AddShares(p: u32, n: u32)
      requires Valid()
      modifies this, slots
      ensures slots[..] == SlotStep(band, old(slots[..]), Add(p, n))
      ensures Valid() <==> !(band.Holds(p) && old(slots[..])[band.IndexOf(p)].orders == TWO32 - 1)
    {
      var i := band.IndexOf(p);
      if i >= slots.Length {
        return;
      }
      ghost var xs, best0, nonempty0 := slots[..], best, nonempty;
      if slots[i].orders == 0 {
        nonempty := nonempty + 1;
        UpdateBestAfterAdd(i);
      }
      slots[i] := Merged(slots[i], p, n);
      assert slots[..] == SlotStep(band, xs, Add(p, n));
      ShapeAfterMerge(side, band, xs, best0, nonempty0, p, n, best);
    }

    /** Any removal. */
    method RemoveShares(p: u32, n: u32, full: bool)
      requires Valid()
      modifies this, slots
      ensures Valid() && slots[..] == SlotStep(band, old(slots[..]), Remove(p, n, full))
    {
      var i := band.IndexOf(p);
      if i >= slots.Length || slots[i].orders == 0 {
        return;
      }
      PlacedStep(band, slots[..], Remove(p, n, full));
      var l := Reduced(slots[i], n, full);
      if l.orders == 0 {
        Erase(i, l);
      } else {
        ghost var xs := slots[..];
        ShapeAfterWrite(side, band, xs, best, nonempty, i, l, best);
        slots[i] := l;
        assert slots[..] == xs[i := l];
      }
    }

    method Erase(i: nat, l: Level)
      requires Valid() && i < slots.Length && slots[i].orders != 0
      requires l.orders == 0 && Placed(band, slots[..][i := l])
      modifies this, slots
      ensures Valid() && slots[..] == old(slots[..])[i := l]
    {
      ghost var xs, best0, nonempty0 := slots[..], best, nonempty;
      slots[i] := l;
      assert slots[..] == xs[i := l];
      OccupiedUpdate(xs, i, l);
      nonempty := nonempty - 1;
      assert |Occupied(xs) - {i}| == |Occupied(xs)| - 1;
      if i == best {
        BestSlotGone(side, xs, i, l);
        assert forall j :: 0 <= j < slots.Length ==> slots[j] == xs[i := l][j];
        AdvanceBestFrom(i);
      }
      ShapeAfterErase(side, band, xs, best0, nonempty0, i, l, best);
    }

    method Size() returns (n: nat)
      requires Valid()
      ensures n == |Model()|
    {
      n := nonempty;
      OccupiedCount(band, slots[..]);
    }

    method First() returns (r: Option<Level>)
      requires Valid()
      ensures r == if Model() == map[] then None else Some(BestFirst(side, Model())[0])
    {
      OccupiedCount(band, slots[..]);
      if nonempty == 0 {
        assert Model() == map[];
        r := None;
      } else {
        r := Some(slots[best]);
        BestSlotIsBest(side, band, slots[..], best, nonempty);
      }
    }

    /** Visit the occupied slots, best first. */
    method ForEach() returns (visited: seq<Level>)
      requires Valid()
      ensures visited == BestFirst(side, Model())
    {
      ghost var at: seq<int> := [];
      visited := [];
      if nonempty != 0 {
        if side.Bid? {
          visited, at := ScanDown();
        } else {
          visited, at := ScanUp();
        }
      }
      VisitsList(side, band, slots[..], at, visited);
      ListingUnique(side, visited, Model());
    }

    method ScanDown() returns (visited: seq<Level>, ghost at: seq<int>)
      requires Valid() && side.Bid? && nonempty != 0
      ensures Visits(side, slots[..], at, visited) && forall j :: j in Occupied(slots[..]) ==> j in at
    {
      visited, at := [], [];
      var i := best + 1;
      while i > 0
        invariant 0 <= i <= best + 1
        invariant Visits(side, slots[..], at, visited)
        invariant forall j :: j in at ==> i <= j
        invariant forall j :: j in Occupied(slots[..]) && i <= j ==> j in at
      {
        i := i - 1;
        if slots[i].orders > 0 {
          VisitsMore(side, slots[..], at, visited, i);
          visited, at := visited + [slots[i]], at + [i];
        }
      }
    }

    method ScanUp() returns (visited: seq<Level>, ghost at: seq<int>)
      requires Valid() && side.Ask? && nonempty != 0
      ensures Visits(side, slots[..], at, visited) && forall j :: j in Occupied(slots[..]) ==> j in at
    {
      visited, at := [], [];
      for i := best to slots.Length
        invariant Visits(side, slots[..], at, visited)
        invariant forall j :: j in at ==> j < i
        invariant forall j :: j in Occupied(slots[..]) && j < i ==> j in at
      {
        if slots[i].orders > 0 {
          VisitsMore(side, slots[..], at, visited, i);
          visited, at := visited + [slots[i]], at + [i];
        }
      }
    }
  }

  // ----- reading the ladder -----

  /** `visited` are the levels of the occupied slots `at`, in best-first slot order. */
  ghost predicate Visits(side: Side, xs: seq<Level>, at: seq<int>, visited: seq<Level>) {
    && |at| == |visited|
    && (forall k :: 0 <= k < |at| ==> at[k] in Occupied(xs) && visited[k] == xs[at[k]])
    && (forall k, m :: 0 <= k < m < |at| ==> Ahead(side, at[k], at[m]))
  }

  lemma VisitsMore(side: Side, xs: seq<Level>, at: seq<int>, visited: seq<Level>, i: nat)
    requires Visits(side, xs, at, visited) && i < |xs| && xs[i].orders != 0
    requires forall j :: j in at ==> Ahead(side, j, i)
    ensures Visits(side, xs, at + [i], visited + [xs[i]])
  {
  }

  lemma AheadIsBetter(side: Side, b: Band, xs: seq<Level>, i: int, j: int)
    requires Placed(b, xs) && i in Occupied(xs) && j in Occupied(xs) && Ahead(side, i, j)
    ensures Better(side, xs[i].price, xs[j].price)
  {
    if side.Bid? {
      IndexOrder(b, xs[j].price, xs[i].price);
    } else {
      IndexOrder(b, xs[i].price, xs[j].price);
    }
  }

  lemma BestSlotIsBest(side: Side, b: Band, xs: seq<Level>, best: int, nonempty: int)
    requires Shape(side, b, xs, best, nonempty) && nonempty != 0
    ensures best in Occupied(xs) && IsBest(side, Held(b, xs), xs[best].price)
    ensures Held(b, xs) != map[] && BestFirst(side, Held(b, xs))[0] == xs[best]
  {
    var p, ls := xs[best].price, Held(b, xs);
    assert p in ls;
    forall q | q in ls && q != p ensures Better(side, p, q) {
      assert b.IndexOf(q) in Occupied(xs);
      AheadIsBetter(side, b, xs, best, b.IndexOf(q));
    }
    BestFirstStep(side, ls, p);
  }

  lemma VisitsList(side: Side, b: Band, xs: seq<Level>, at: seq<int>, visited: seq<Level>)
    requires Placed(b, xs) && Visits(side, xs, at, visited)
    requires forall j :: j in Occupied(xs) ==> j in at
    ensures Lists(side, visited, Held(b, xs))
  {
    forall k, m | 0 <= k < m < |visited| ensures Better(side, visited[k].price, visited[m].price) {
      AheadIsBetter(side, b, xs, at[k], at[m]);
    }
    forall p | p in Held(b, xs) ensures HasPrice(visited, p) {
      assert b.IndexOf(p) in Occupied(xs);
      var k :| 0 <= k < |at| && at[k] == b.IndexOf(p);
      assert visited[k].price == p;
    }
  }

  lemma DropLevel(b: Band, xs: seq<Level>, p: u32) returns (ys: seq<Level>)
    requires Placed(b, xs) && p in Held(b, xs)
    ensures Placed(b, ys) && |Occupied(ys)| == |Occupied(xs)| - 1 && |Held(b, ys)| == |Held(b, xs)| - 1
  {
    var i := b.IndexOf(p);
    var gone := xs[i].(orders := 0);
    ys := xs[i := gone];
    OccupiedUpdate(xs, i, gone);
    HeldErase(b, xs, i, gone);
    assert (Held(b, xs) - {p}).Keys == Held(b, xs).Keys - {p};
  }

  lemma OccupiedIffHeld(b: Band, xs: seq<Level>)
    requires Placed(b, xs)
    ensures Held(b, xs) == map[] <==> Occupied(xs) == {}
  {
    assert forall i :: i in Occupied(xs) ==> xs[i].price in Held(b, xs);
    assert forall p :: p in Held(b, xs) ==> b.IndexOf(p) in Occupied(xs);
  }

  /** The number of occupied slots is the number of levels. */
  lemma {:induction false} OccupiedCount(b: Band, xs: seq<Level>)
    requires Placed(b, xs)
    ensures |Occupied(xs)| == |Held(b, xs)|
    decreases |Held(b, xs)|
  {
    if p :| p in Held(b, xs) {
      var ys := DropLevel(b, xs, p);
      OccupiedCount(b, ys);
    } else {
      assert Held(b, xs) == map[];
      OccupiedIffHeld(b, xs);
    }
  }

  /** Wherever every operation is agreeable, the dense array shows what the map shows. */
  method DriveArray(side: Side, b: Band, ops: seq<Op>) returns (r: Sight)
    requires b.Valid() && AllAgreeable(b, ops)
    ensures r == Seen(side, RunOps(ops))
  {
    var ladder := new ArrayLadder(side, b);
    for i := 0 to |ops|
      invariant ladder.Valid() && fresh(ladder) && fresh(ladder.slots)
      invariant ladder.slots[..] == RunSlots(b, ops[..i])
    {
      assert ops[..i + 1][..i] == ops[..i];
      assert AgreeableAt(b, ops, i);
      match ops[i]
      case Add(p, n) => ladder.AddShares(p, n);
      case Remove(p, n, full) => ladder.RemoveShares(p, n, full);
    }
    assert ops[..|ops|] == ops;
    AgreeableMatches(b, ops, |ops|);
    var best := ladder.First();
    var size := ladder.Size();
    var visited := ladder.ForEach();
    r := Sight(best, size, visited);
  }
}
