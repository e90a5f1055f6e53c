/**
 The slots of the dense-array ladder: what one operation does to them, and exactly when that is what
 the reference map would have done.
 */
module ArraySlots {
  import opened Words
  import opened Levels
  import opened Ladders

  /** The price band: `slots` ticks upwards from `base`. */
  datatype Band = Band(base: u32, tick: u32, slots: u32) {
    predicate Valid() {
      tick > 0
    }

    /** Slot of a price; `slots` or more means out of band. */
    function IndexOf(p: u32): nat
      requires Valid()
    {
      if p < base then slots else (p - base) / tick
    }

    predicate Holds(p: u32)
      requires Valid()
    {
      IndexOf(p) < slots
    }

    predicate OnTick(p: u32)
      requires Valid()
    {
      p >= base && (p - base) % tick == 0
    }
  }

  lemma DivMonotone(x: nat, y: nat, d: nat)
    requires d > 0 && x <= y
    ensures x / d <= y / d
  {
    var q, r := x / d, y / d;
    assert x == q * d + x % d && y == r * d + y % d;
    assert (q - r) * d == q * d - r * d;
    if q > r {
      PositiveMultiple(q - r, d);
    }
  }

  /** Slot `i` is the tick interval that starts `i` ticks above the base. */
  lemma SlotInterval(b: Band, p: u32)
    requires b.Valid() && b.base <= p
    ensures b.IndexOf(p) * b.tick <= p - b.base < (b.IndexOf(p) + 1) * b.tick
  {
    var x := p - b.base;
    assert x == x / b.tick * b.tick + x % b.tick;
    assert (x / b.tick + 1) * b.tick == x / b.tick * b.tick + b.tick;
  }

  lemma ProductOrder(i: nat, k: nat, d: nat)
    requires i <= k
    ensures i * d <= k * d
  {
    assert (k - i) * d == k * d - i * d;
    assert (k - i) * d >= 0;
  }

  /** In band: `slots` ticks upwards from the base, the end excluded. */
  lemma BandInPrices(b: Band, p: u32)
    requires b.Valid()
    ensures b.Holds(p) <==> b.base <= p < b.base + b.slots * b.tick
  {
    if b.base <= p {
      var i := b.IndexOf(p);
      SlotInterval(b, p);
      if i < b.slots {
        ProductOrder(i + 1, b.slots, b.tick);
      } else {
        ProductOrder(b.slots, i, b.tick);
      }
    }
  }

  /** A higher slot holds a higher price. */
  lemma IndexOrder(b: Band, p: u32, q: u32)
    requires b.Valid() && b.Holds(p) && b.Holds(q) && b.IndexOf(p) < b.IndexOf(q)
    ensures p < q
  {
    if q <= p {
      DivMonotone(q - b.base, p - b.base, b.tick);
    }
  }

  /** On-tick prices do not share slots. */
  lemma OnTickInjective(b: Band, p: u32, q: u32)
    requires b.Valid() && b.OnTick(p) && b.OnTick(q) && b.IndexOf(p) == b.IndexOf(q)
    ensures p == q
  {
  }

  // ----- slots and the levels they hold -----

  ghost predicate InRange(l: Level) {
    0 <= l.shares < TWO64 && 0 <= l.orders < TWO32
  }

  /** Every slot is within its words, and an occupied one is the slot of its price. */
  ghost predicate Placed(b: Band, xs: seq<Level>) {
    && b.Valid() && |xs| == b.slots
    && forall i :: 0 <= i < |xs| ==> InRange(xs[i]) && (xs[i].orders != 0 ==> b.IndexOf(xs[i].price) == i)
  }

  predicate HeldAt(b: Band, xs: seq<Level>, p: u32)
    requires b.Valid() && |xs| == b.slots
  {
    b.Holds(p) && xs[b.IndexOf(p)].orders != 0 && xs[b.IndexOf(p)].price == p
  }

  /** The levels that the occupied slots hold. */
  ghost function Held(b: Band, xs: seq<Level>): SideMap
    requires b.Valid() && |xs| == b.slots
  {
    map p: u32 | 0 <= p < TWO32 && HeldAt(b, xs, p) :: xs[b.IndexOf(p)]
  }

  function EmptySlots(b: Band): seq<Level> {
    seq(b.slots, _ => Level(0, 0, 0))
  }

  /** A slot after merging an order at `p`: it keeps its left-over shares, and its price if occupied. */
  function Merged(l: Level, p: u32, n: u32): Level {
    Level(if l.orders == 0 then p else l.price, (l.shares + n) % TWO64, (l.orders + 1) % TWO32)
  }

  /** An occupied slot after a removal. */
  function Reduced(l: Level, n: u32, full: bool): Level {
    Level(l.price, (l.shares - n) % TWO64, if full then l.orders - 1 else l.orders)
  }

  /** One operation: out-of-band prices and removals from an empty slot are ignored. */
  function SlotStep(b: Band, xs: seq<Level>, op: Op): (ys: seq<Level>)
    requires b.Valid() && |xs| == b.slots
    ensures |ys| == b.slots
  {
    if !b.Holds(op.price) then xs
    else
      var i := b.IndexOf(op.price);
      match op
      case Add(p, n) => xs[i := Merged(xs[i], p, n)]
      case Remove(_, n, full) => if xs[i].orders == 0 then xs else xs[i := Reduced(xs[i], n, full)]
  }

  function RunSlots(b: Band, ops: seq<Op>): (xs: seq<Level>)
    requires b.Valid()
    ensures |xs| == b.slots
  {
    if ops == [] then EmptySlots(b) else SlotStep(b, RunSlots(b, ops[..|ops| - 1]), ops[|ops| - 1])
  }

  lemma PlacedStep(b: Band, xs: seq<Level>, op: Op)
    requires Placed(b, xs)
    ensures Placed(b, SlotStep(b, xs, op))
  {
  }

  lemma {:induction false} RunPlaced(b: Band, ops: seq<Op>)
    requires b.Valid()
    ensures Placed(b, RunSlots(b, ops))
  {
    if ops != [] {
      RunPlaced(b, ops[..|ops| - 1]);
      PlacedStep(b, RunSlots(b, ops[..|ops| - 1]), ops[|ops| - 1]);
    }
  }

  lemma HeldWrite(b: Band, xs: seq<Level>, i: nat, l: Level)
    requires Placed(b, xs) && i < |xs| && l.orders != 0 && b.IndexOf(l.price) == i
    requires xs[i].orders != 0 ==> xs[i].price == l.price
    ensures Held(b, xs[i := l]) == Held(b, xs)[l.price := l]
  {
  }

  lemma HeldErase(b: Band, xs: seq<Level>, i: nat, l: Level)
    requires Placed(b, xs) && i < |xs| && xs[i].orders != 0 && l.orders == 0
    ensures Held(b, xs[i := l]) == Held(b, xs) - {xs[i].price}
  {
  }

  // ----- when one operation does what the map does -----

  /**
   An insertion is in band; an occupied slot already has this price and room for one more order; an
   empty slot has no left-over shares. A removal finds its own price, or nothing, or takes nothing.
   */
  predicate Agreeable(b: Band, xs: seq<Level>, op: Op)
    requires b.Valid() && |xs| == b.slots
  {
    var i := b.IndexOf(op.price);
    match op
    case Add(p, _) =>
      b.Holds(p) && if xs[i].orders == 0 then xs[i].shares == 0 else xs[i].price == p && xs[i].orders < TWO32 - 1
    case Remove(p, n, full) =>
      !b.Holds(p) || xs[i].orders == 0 || xs[i].price == p || (n == 0 && !full)
  }

  lemma MergeIntoEmpty(ls: SideMap, l: Level, p: u32, n: u32)
    requires p !in ls && l.orders == 0 && InRange(l)
    ensures ls[p := Merged(l, p, n)] == Step(ls, Add(p, n)) <==> l.shares == 0
  {
    assert Step(ls, Add(p, n))[p] == Level(p, n, 1);
    assert ls[p := Merged(l, p, n)][p].shares == (l.shares + n) % TWO64;
  }

  lemma MergeIntoTaken(ls: SideMap, l: Level, p: u32, n: u32)
    requires 0 < l.orders < TWO32 && l.price in ls && ls[l.price] == l
    requires p != l.price ==> p !in ls
    ensures var m := Merged(l, p, n);
            (if m.orders == 0 then ls - {l.price} else ls[l.price := m]) == Step(ls, Add(p, n))
            <==> l.price == p && l.orders < TWO32 - 1
  {
    var m := Merged(l, p, n);
    assert p in Step(ls, Add(p, n));
    if m.orders == 0 {
      assert p !in ls - {l.price};
    } else if l.price != p {
      assert p !in ls[l.price := m];
    }
  }

  lemma AddAgrees(b: Band, xs: seq<Level>, p: u32, n: u32)
    requires Placed(b, xs)
    ensures Held(b, SlotStep(b, xs, Add(p, n))) == Step(Held(b, xs), Add(p, n)) <==> Agreeable(b, xs, Add(p, n))
  {
    var ls, i := Held(b, xs), b.IndexOf(p);
    if !b.Holds(p) {
      assert p !in ls && p in Step(ls, Add(p, n));
    } else if xs[i].orders == 0 {
      HeldWrite(b, xs, i, Merged(xs[i], p, n));
      MergeIntoEmpty(ls, xs[i], p, n);
    } else {
      AddTakenAgrees(b, xs, p, n, i);
    }
  }

  lemma AddTakenAgrees(b: Band, xs: seq<Level>, p: u32, n: u32, i: nat)
    requires Placed(b, xs) && b.Holds(p) && i == b.IndexOf(p) && xs[i].orders != 0
    ensures Held(b, xs[i := Merged(xs[i], p, n)]) == Step(Held(b, xs), Add(p, n))
            <==> xs[i].price == p && xs[i].orders < TWO32 - 1
  {
    var ls, l := Held(b, xs), Merged(xs[i], p, n);
    assert xs[i].price in ls && ls[xs[i].price] == xs[i];
    if l.orders == 0 {
      HeldErase(b, xs, i, l);
    } else {
      HeldWrite(b, xs, i, l);
    }
    MergeIntoTaken(ls, xs[i], p, n);
  }

  lemma TakeFromTaken(ls: SideMap, l: Level, p: u32, n: u32, full: bool)
    requires InRange(l) && l.orders != 0 && l.price in ls && ls[l.price] == l
    requires p != l.price ==> p !in ls
    ensures var m := Reduced(l, n, full);
            (if m.orders == 0 then ls - {l.price} else ls[l.price := m]) == Step(ls, Remove(p, n, full))
            <==> l.price == p || (n == 0 && !full)
  {
    var m := Reduced(l, n, full);
    if l.price != p && (n != 0 || full) {
      assert Step(ls, Remove(p, n, full)) == ls;
      if m.orders == 0 {
        assert l.price !in ls - {l.price};
      } else {
        assert ls[l.price := m][l.price] == m != l;
      }
    }
  }

  lemma RemoveAgrees(b: Band, xs: seq<Level>, p: u32, n: u32, full: bool)
    requires Placed(b, xs)
    ensures Held(b, SlotStep(b, xs, Remove(p, n, full))) == Step(Held(b, xs), Remove(p, n, full))
            <==> Agreeable(b, xs, Remove(p, n, full))
  {
    var ls, i := Held(b, xs), b.IndexOf(p);
    if b.Holds(p) && xs[i].orders != 0 {
      var l := Reduced(xs[i], n, full);
      assert xs[i].price in ls && ls[xs[i].price] == xs[i];
      if l.orders == 0 {
        HeldErase(b, xs, i, l);
      } else {
        HeldWrite(b, xs, i, l);
      }
      TakeFromTaken(ls, xs[i], p, n, full);
    } else {
      assert p !in ls;
    }
  }

  /** One operation on the slots does what it does to the map exactly when it is agreeable. */
  lemma StepAgrees(b: Band, xs: seq<Level>, op: Op)
    requires Placed(b, xs)
    ensures Held(b, SlotStep(b, xs, op)) == Step(Held(b, xs), op) <==> Agreeable(b, xs, op)
  {
    match op
    case Add(p, n) => AddAgrees(b, xs, p, n);
    case Remove(p, n, full) => RemoveAgrees(b, xs, p, n, full);
  }

  // ----- whole runs -----

  ghost predicate MatchesAt(b: Band, ops: seq<Op>, i: nat)
    requires b.Valid() && i <= |ops|
  {
    Held(b, RunSlots(b, ops[..i])) == RunOps(ops[..i])
  }

  predicate AgreeableAt(b: Band, ops: seq<Op>, i: nat)
    requires b.Valid() && i < |ops|
  {
    Agreeable(b, RunSlots(b, ops[..i]), ops[i])
  }

  ghost predicate MatchesThroughout(b: Band, ops: seq<Op>)
    requires b.Valid()
  {
    forall i :: 0 <= i <= |ops| ==> MatchesAt(b, ops, i)
  }

  ghost predicate AllAgreeable(b: Band, ops: seq<Op>)
    requires b.Valid()
  {
    forall i :: 0 <= i < |ops| ==> AgreeableAt(b, ops, i)
  }

  lemma MatchStep(b: Band, ops: seq<Op>, i: nat)
    requires b.Valid() && i < |ops| && MatchesAt(b, ops, i)
    ensures MatchesAt(b, ops, i + 1) <==> AgreeableAt(b, ops, i)
  {
    assert ops[..i + 1][..i] == ops[..i];
    RunPlaced(b, ops[..i]);
    StepAgrees(b, RunSlots(b, ops[..i]), ops[i]);
  }

  lemma {:induction false} AgreeableMatches(b: Band, ops: seq<Op>, i: nat)
    requires b.Valid() && i <= |ops| && AllAgreeable(b, ops)
    ensures MatchesAt(b, ops, i)
  {
    if i == 0 {
      assert ops[..0] == [];
      assert Held(b, EmptySlots(b)) == map[];
    } else {
      AgreeableMatches(b, ops, i - 1);
      assert AgreeableAt(b, ops, i - 1);
      MatchStep(b, ops, i - 1);
    }
  }

  /** The slots hold the reference levels all along exactly when every operation is agreeable. */
  lemma MatchesIffAgreeable(b: Band, ops: seq<Op>)
    requires b.Valid()
    ensures MatchesThroughout(b, ops) <==> AllAgreeable(b, ops)
  {
    if AllAgreeable(b, ops) {
      forall i | 0 <= i <= |ops| ensures MatchesAt(b, ops, i) {
        AgreeableMatches(b, ops, i);
      }
    }
    if MatchesThroughout(b, ops) {
      forall i | 0 <= i < |ops| ensures AgreeableAt(b, ops, i) {
        assert MatchesAt(b, ops, i) && MatchesAt(b, ops, i + 1);
        MatchStep(b, ops, i);
      }
    }
  }

  lemma RunSlotsSnoc(b: Band, ops: seq<Op>, op: Op)
    requires b.Valid()
    ensures RunSlots(b, ops + [op]) == SlotStep(b, RunSlots(b, ops), op)
  {
    assert (ops + [op])[..|ops|] == ops;
  }

  /** Emptying a level without taking all its shares leaves a residue that the next order inherits. */
  lemma ResidueSurvives()
    ensures var b, ops := Band(0, 100, 1), [Add(0, 10), Remove(0, 5, true), Add(0, 1)];
            RunSlots(b, ops) == [Level(0, 6, 1)] && RunOps(ops) == map[0 := Level(0, 1, 1)]
  {
    var b, x, y, z := Band(0, 100, 1), Add(0, 10), Remove(0, 5, true), Add(0, 1);
    RunSlotsSnoc(b, [], x);
    RunSlotsSnoc(b, [] + [x], y);
    RunSlotsSnoc(b, [] + [x] + [y], z);
    RunOpsSnoc([], x);
    RunOpsSnoc([] + [x], y);
    RunOpsSnoc([] + [x] + [y], z);
    assert [] + [x] + [y] + [z] == [x, y, z];
    assert RunSlots(b, [] + [x]) == [Level(0, 10, 1)];
    assert RunSlots(b, [] + [x] + [y]) == [Level(0, 5, 0)];
    assert RunOps([] + [x] + [y]) == map[];
  }

  /** A removal at an off-tick price takes from the slot it shares; the map has no such level. */
  lemma AliasedRemoval()
    ensures var b, ops := Band(0, 100, 1), [Add(0, 10), Remove(50, 10, true)];
            RunSlots(b, ops) == [Level(0, 0, 0)] && RunOps(ops) == map[0 := Level(0, 10, 1)]
  {
    var b, x, y := Band(0, 100, 1), Add(0, 10), Remove(50, 10, true);
    RunSlotsSnoc(b, [], x);
    RunSlotsSnoc(b, [] + [x], y);
    RunOpsSnoc([], x);
    RunOpsSnoc([] + [x], y);
    assert [] + [x] + [y] == [x, y];
    assert RunSlots(b, [] + [x]) == [Level(0, 10, 1)];
    assert RunOps([] + [x]) == map[0 := Level(0, 10, 1)];
  }

  // ----- disciplined use -----

  /** Empty slots hold no left-over shares. */
  ghost predicate Clean(xs: seq<Level>) {
    forall i :: 0 <= i < |xs| && xs[i].orders == 0 ==> xs[i].shares == 0
  }

  /** The level's counter has room, and whoever empties a level takes all its shares. */
  predicate Tidy(ls: SideMap, op: Op) {
    && (op.Add? && op.price in ls ==> ls[op.price].orders < TWO32 - 1)
    && (op.Remove? && op.price in ls && op.price !in Step(ls, op) ==> ls[op.price].shares == op.shares)
  }

  /** Tidy, in band and on tick. */
  predicate Suits(b: Band, ls: SideMap, op: Op)
    requires b.Valid()
  {
    Tidy(ls, op) && b.Holds(op.price) && b.OnTick(op.price)
  }

  ghost predicate Disciplined(b: Band, ops: seq<Op>)
    requires b.Valid()
  {
    forall i :: 0 <= i < |ops| ==> Suits(b, RunOps(ops[..i]), ops[i])
  }

  ghost predicate AllOnTick(b: Band, ls: SideMap)
    requires b.Valid()
  {
    forall p :: p in ls ==> b.OnTick(p)
  }

  /** With on-tick prices a slot is either empty or holds the very price asked for. */
  lemma SlotOfPrice(b: Band, xs: seq<Level>, p: u32)
    requires Placed(b, xs) && AllOnTick(b, Held(b, xs)) && b.Holds(p) && b.OnTick(p)
    ensures xs[b.IndexOf(p)].orders != 0 <==> p in Held(b, xs)
  {
    var q := xs[b.IndexOf(p)].price;
    if xs[b.IndexOf(p)].orders != 0 {
      assert q in Held(b, xs);
      OnTickInjective(b, p, q);
    }
  }

  lemma SuitedStep(b: Band, xs: seq<Level>, op: Op)
    requires Placed(b, xs) && Clean(xs) && AllOnTick(b, Held(b, xs)) && Suits(b, Held(b, xs), op)
    ensures Agreeable(b, xs, op) && Clean(SlotStep(b, xs, op)) && AllOnTick(b, Held(b, SlotStep(b, xs, op)))
  {
    SlotOfPrice(b, xs, op.price);
    StepAgrees(b, xs, op);
  }

  /** Disciplined use leaves no residue, and every operation is agreeable. */
  lemma {:induction false} DisciplinedPrefix(b: Band, ops: seq<Op>, i: nat)
    requires b.Valid() && Disciplined(b, ops) && i <= |ops|
    ensures MatchesAt(b, ops, i) && Clean(RunSlots(b, ops[..i])) && AllOnTick(b, RunOps(ops[..i]))
    ensures i < |ops| ==> AgreeableAt(b, ops, i)
  {
    if i == 0 {
      assert ops[..0] == [];
      assert Held(b, EmptySlots(b)) == map[];
    } else {
      DisciplinedPrefix(b, ops, i - 1);
      assert ops[..i][..i - 1] == ops[..i - 1];
      RunPlaced(b, ops[..i - 1]);
      SuitedStep(b, RunSlots(b, ops[..i - 1]), ops[i - 1]);
      MatchStep(b, ops, i - 1);
    }
    if i < |ops| {
      RunPlaced(b, ops[..i]);
      SuitedStep(b, RunSlots(b, ops[..i]), ops[i]);
    }
  }

  lemma DisciplinedAgreeable(b: Band, ops: seq<Op>)
    requires b.Valid() && Disciplined(b, ops)
    ensures AllAgreeable(b, ops)
  {
    forall i | 0 <= i < |ops| ensures AgreeableAt(b, ops, i) {
      DisciplinedPrefix(b, ops, i);
    }
  }
}
