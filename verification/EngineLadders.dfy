/** The calls the engine makes on one side of one book, replayed on a stand-alone ladder. */
module EngineLadders {
  import opened Words
  import opened Levels
  import opened Messages
  import opened Engine
  import opened Sums
  import opened Ledger
  import opened Runs
  import opened NoWrap
  import opened Ladders
  import opened ArraySlots
  import opened ArrayLadders

  predicate OnSide(rec: OrderRecord, l: u16, side: Side) {
    rec.locate == l && SideOf(rec.side) == side
  }

  /** Ladder calls that a message causes on one side of one book. */
  function Calls(s: State, m: Message, l: u16, side: Side): seq<Op> {
    if m.AddOrder? || m.AddOrderMpid? then
      if OnSide(NewRecord(m), l, side) then [Add(m.price, m.shares)] else []
    else if !Refers(m) || m.ref !in s.orders || !OnSide(s.orders[m.ref], l, side) then []
    else
      var rec := s.orders[m.ref];
      if m.Delete? then [Remove(rec.price, rec.shares, true)]
      else if m.Replace? then [Remove(rec.price, rec.shares, true), Add(m.price, m.shares)]
      else [Remove(rec.price, rec.shares - Left(rec, Asked(m)), Left(rec, Asked(m)) == 0)]
  }

  function AllCalls(a: Arith, s: State, ms: seq<Message>, l: u16, side: Side): seq<Op> {
    if ms == [] then []
    else
      var init := ms[..|ms| - 1];
      AllCalls(a, s, init, l, side) + Calls(Run(a, s, init), ms[|ms| - 1], l, side)
  }

  ghost predicate TidyAt(ops: seq<Op>, i: nat)
    requires i < |ops|
  {
    Tidy(RunOps(ops[..i]), ops[i])
  }

  ghost predicate AllTidy(ops: seq<Op>) {
    forall i :: 0 <= i < |ops| ==> TidyAt(ops, i)
  }

  lemma TidySnoc(ops: seq<Op>, op: Op)
    requires AllTidy(ops) && Tidy(RunOps(ops), op)
    ensures AllTidy(ops + [op])
    ensures RunOps(ops + [op]) == Step(RunOps(ops), op)
  {
    RunOpsSnoc(ops, op);
    var all := ops + [op];
    forall i | 0 <= i < |all| ensures TidyAt(all, i) {
      if i < |ops| {
        assert TidyAt(ops, i);
        assert all[..i] == ops[..i];
      } else {
        assert all[..i] == ops;
      }
    }
  }

  /** The record's level covers it and fits its words. */
  ghost predicate Rests(s: State, ledger: seq<OrderRecord>, rec: OrderRecord) {
    KeyOk(s, ledger, KeyOf(rec)) && Housed(s, rec) && FitsAt(s, KeyOf(rec))
  }

  lemma LiveRests(s: State, ledger: seq<OrderRecord>, ref: u64)
    requires Consistent(s, ledger) && Fits(s) && ref in s.orders
    ensures Rests(s, ledger, s.orders[ref])
  {
    ConsistentHouses(s, ledger, ref);
    assert KeyOk(s, ledger, KeyOf(s.orders[ref]));
    assert FitsAt(s, KeyOf(s.orders[ref]));
  }

  /** Covered removals need no clamp and do not wrap. */
  lemma ClampedIsWrapping(ls: SideMap, p: u32, n: u32, full: bool)
    requires p in ls && n <= ls[p].shares < TWO64 && 1 <= ls[p].orders < TWO32
    ensures TakeWrapping(ls, p, n, full) == TakeClamped(Exact, ls, p, n, full)
  {
  }

  /**
   A removal from a level within its words. The engine leaves zero shares and the ladder wraps when
   more is asked for than is there; they do the same exactly when it is not, or when the level goes.
   */
  lemma ClampMeetsWrap(ls: SideMap, p: u32, n: u32, full: bool)
    requires p in ls && InRange(ls[p]) && ls[p].orders > 0
    ensures var gone := full && ls[p].orders == 1;
            var clamped, wrapped := TakeClamped(Machine, ls, p, n, full), TakeWrapping(ls, p, n, full);
            && (clamped == wrapped <==> n <= ls[p].shares || gone)
            && (p in clamped <==> !gone) && (p in wrapped <==> !gone)
            && (!gone && n > ls[p].shares ==>
                  clamped[p].shares == 0 && wrapped[p].shares == ls[p].shares - n + 0x1_0000_0000_0000_0000)
            && (!gone && n <= ls[p].shares ==> clamped[p].shares == ls[p].shares - n)
            && (!gone ==> clamped[p].orders == wrapped[p].orders == ls[p].orders - if full then 1 else 0)
  {
    var clamped, wrapped := TakeClamped(Machine, ls, p, n, full), TakeWrapping(ls, p, n, full);
    if !(full && ls[p].orders == 1) && n > ls[p].shares {
      assert clamped[p].shares != wrapped[p].shares;
    }
  }

  /** Whoever empties a level takes the last of its shares. */
  lemma EmptiedTakesAll(s: State, ledger: seq<OrderRecord>, ref: u64, n: u32, ts: u64)
    requires ref in s.orders && KeyOk(s, ledger, KeyOf(s.orders[ref])) && Housed(s, s.orders[ref])
    ensures var rec := s.orders[ref];
            var k := KeyOf(rec);
            k.price !in LevelsAt(Reduce(Exact, s, ref, n, ts), k.locate, k.side) ==>
              LevelsAt(s, k.locate, k.side)[k.price].shares == rec.shares - Left(rec, n)
  {
    var k, s' := KeyOf(s.orders[ref]), Reduce(Exact, s, ref, n, ts);
    ReduceKeepsKey(s, ledger, ref, n, ts, k);
    SharesNeedOrders(s', ledger, k);
    RestingAfterReduce(s, ledger, ref, n, ts, SharesAt(k));
  }

  /** The engine's clamped removal and the ladder's wrapping one coincide, and leave no residue. */
  lemma ReduceCall(s: State, ledger: seq<OrderRecord>, ref: u64, n: u32, ts: u64)
    requires ref in s.orders && Rests(s, ledger, s.orders[ref])
    ensures var rec := s.orders[ref];
            var side := SideOf(rec.side);
            var op := Remove(rec.price, rec.shares - Left(rec, n), Left(rec, n) == 0);
            var ls := LevelsAt(s, rec.locate, side);
            && Step(ls, op) == LevelsAt(Reduce(Exact, s, ref, n, ts), rec.locate, side)
            && Tidy(ls, op)
  {
    var rec := s.orders[ref];
    var k := KeyOf(rec);
    LevelsAfterReduce(Exact, s, ref, n, ts, rec.locate, k.side);
    ClampedIsWrapping(LevelsAt(s, k.locate, k.side), k.price, rec.shares - Left(rec, n), Left(rec, n) == 0);
    EmptiedTakesAll(s, ledger, ref, n, ts);
  }

  lemma RestCall(s: State, ref: u64, rec: OrderRecord, ts: u64)
    requires FitsAt(RestOrder(Exact, s, ref, rec, ts), KeyOf(rec))
    ensures var side := SideOf(rec.side);
            var op := Add(rec.price, rec.shares);
            var ls := LevelsAt(s, rec.locate, side);
            && Step(ls, op) == LevelsAt(RestOrder(Exact, s, ref, rec, ts), rec.locate, side)
            && Tidy(ls, op)
  {
    LevelsAfterRest(Exact, s, ref, rec, ts, rec.locate, SideOf(rec.side));
  }

  /** What a ladder has seen before a message, and what it must show. */
  ghost predicate Follows(ops: seq<Op>, s: State, l: u16, side: Side) {
    AllTidy(ops) && RunOps(ops) == LevelsAt(s, l, side)
  }

  lemma FollowReduce(ops: seq<Op>, s: State, ledger: seq<OrderRecord>, ref: u64, n: u32, ts: u64, l: u16, side: Side)
    requires Follows(ops, s, l, side)
    requires ref in s.orders && Rests(s, ledger, s.orders[ref])
    ensures var rec := s.orders[ref];
            var call := Remove(rec.price, rec.shares - Left(rec, n), Left(rec, n) == 0);
            Follows(ops + if OnSide(rec, l, side) then [call] else [], Reduce(Exact, s, ref, n, ts), l, side)
  {
    var rec := s.orders[ref];
    if OnSide(rec, l, side) {
      ReduceCall(s, ledger, ref, n, ts);
      TidySnoc(ops, Remove(rec.price, rec.shares - Left(rec, n), Left(rec, n) == 0));
    } else {
      LevelsAfterReduce(Exact, s, ref, n, ts, l, side);
      assert ops + [] == ops;
    }
  }

  lemma FollowRest(ops: seq<Op>, s: State, ref: u64, rec: OrderRecord, ts: u64, l: u16, side: Side)
    requires Follows(ops, s, l, side)
    requires FitsAt(RestOrder(Exact, s, ref, rec, ts), KeyOf(rec))
    ensures var call := Add(rec.price, rec.shares);
            Follows(ops + if OnSide(rec, l, side) then [call] else [], RestOrder(Exact, s, ref, rec, ts), l, side)
  {
    if OnSide(rec, l, side) {
      RestCall(s, ref, rec, ts);
      TidySnoc(ops, Add(rec.price, rec.shares));
    } else {
      LevelsAfterRest(Exact, s, ref, rec, ts, l, side);
      assert ops + [] == ops;
    }
  }

  lemma FollowReplace(ops: seq<Op>, s: State, ledger: seq<OrderRecord>, m: Message, l: u16, side: Side)
    requires Follows(ops, s, l, side)
    requires m.Replace? && m.ref in s.orders && Rests(s, ledger, s.orders[m.ref])
    requires FitsAt(Handle(Exact, s, m), KeyOf(Successor(s.orders[m.ref], m.shares, m.price)))
    ensures Follows(ops + Calls(s, m, l, side), Handle(Exact, s, m), l, side)
  {
    var was := s.orders[m.ref];
    var mid, rec := DeleteImpl(Exact, s, m.ref, m.timestamp), Successor(was, m.shares, m.price);
    var more := ops + if OnSide(was, l, side) then [Remove(was.price, was.shares, true)] else [];
    assert Follows(more, mid, l, side) by {
      DeleteIsReduce(Exact, s, m.ref, m.timestamp);
      FollowReduce(ops, s, ledger, m.ref, was.shares, m.timestamp, l, side);
    }
    ReplaceIsDeleteThenRest(Exact, s, m.ref, m.newRef, m.shares, m.price, m.timestamp);
    FollowRest(more, mid, m.newRef, rec, m.timestamp, l, side);
    var all := more + if OnSide(rec, l, side) then [Add(rec.price, rec.shares)] else [];
    assert all == ops + Calls(s, m, l, side);
  }

  lemma FollowDelete(ops: seq<Op>, s: State, ledger: seq<OrderRecord>, m: Message, l: u16, side: Side)
    requires Follows(ops, s, l, side)
    requires m.Delete? && m.ref in s.orders && Rests(s, ledger, s.orders[m.ref])
    ensures Follows(ops + Calls(s, m, l, side), Handle(Exact, s, m), l, side)
  {
    DeleteIsReduce(Exact, s, m.ref, m.timestamp);
    FollowReduce(ops, s, ledger, m.ref, s.orders[m.ref].shares, m.timestamp, l, side);
  }

  lemma FollowTake(ops: seq<Op>, s: State, ledger: seq<OrderRecord>, m: Message, l: u16, side: Side)
    requires Follows(ops, s, l, side)
    requires (m.Executed? || m.ExecutedPrice? || m.Cancel?) && m.ref in s.orders && Rests(s, ledger, s.orders[m.ref])
    ensures Follows(ops + Calls(s, m, l, side), Handle(Exact, s, m), l, side)
  {
    assert Handle(Exact, s, m) == Reduce(Exact, s, m.ref, Asked(m), m.timestamp);
    FollowReduce(ops, s, ledger, m.ref, Asked(m), m.timestamp, l, side);
  }

  lemma FollowMessage(ops: seq<Op>, s: State, ledger: seq<OrderRecord>, m: Message, l: u16, side: Side)
    requires Follows(ops, s, l, side) && Consistent(s, ledger) && Fits(s) && Fits(Handle(Exact, s, m))
    ensures Follows(ops + Calls(s, m, l, side), Handle(Exact, s, m), l, side)
  {
    if m.AddOrder? || m.AddOrderMpid? {
      assert FitsAt(Handle(Exact, s, m), KeyOf(NewRecord(m)));
      FollowRest(ops, s, m.ref, NewRecord(m), m.timestamp, l, side);
    } else if !Refers(m) || m.ref !in s.orders {
      assert ops + [] == ops;
    } else if m.Replace? {
      LiveRests(s, ledger, m.ref);
      assert FitsAt(Handle(Exact, s, m), KeyOf(Successor(s.orders[m.ref], m.shares, m.price)));
      FollowReplace(ops, s, ledger, m, l, side);
    } else if m.Delete? {
      LiveRests(s, ledger, m.ref);
      FollowDelete(ops, s, ledger, m, l, side);
    } else {
      LiveRests(s, ledger, m.ref);
      FollowTake(ops, s, ledger, m, l, side);
    }
  }

  /** A ladder fed with the engine's calls holds the engine's own levels, while values fit their words. */
  lemma {:induction false} LadderFollowsEngine(instruments: map<u16, Instrument>, ms: seq<Message>, l: u16, side: Side)
    requires FitsThroughout(Boot(instruments), ms)
    ensures Follows(AllCalls(Exact, Boot(instruments), ms, l, side), Run(Exact, Boot(instruments), ms), l, side)
  {
    if ms != [] {
      var s0, init, m := Boot(instruments), ms[..|ms| - 1], ms[|ms| - 1];
      var s := Run(Exact, s0, init);
      PrefixFits(s0, ms, |ms| - 1);
      LadderFollowsEngine(instruments, init, l, side);
      RunConsistent(instruments, init);
      assert ms[..|ms|] == ms;
      assert Fits(s) && Fits(Run(Exact, s0, ms[..|ms|]));
      HandleFits(s, m);
      FollowMessage(AllCalls(Exact, s0, init, l, side), s, Orphans(Exact, s0, init), m, l, side);
    }
  }

  lemma {:induction false} CallsAgree(instruments: map<u16, Instrument>, ms: seq<Message>, l: u16, side: Side)
    requires FitsThroughout(Boot(instruments), ms)
    ensures AllCalls(Machine, Boot(instruments), ms, l, side) == AllCalls(Exact, Boot(instruments), ms, l, side)
  {
    if ms != [] {
      PrefixFits(Boot(instruments), ms, |ms| - 1);
      CallsAgree(instruments, ms[..|ms| - 1], l, side);
      MachineFollows(instruments, ms[..|ms| - 1]);
    }
  }

  /** In band and on tick, in prices: a whole number of ticks above the base, fewer than `slots`. */
  predicate OnGrid(b: Band, p: u32)
    requires b.tick > 0
  {
    b.base <= p < b.base + b.slots * b.tick && (p - b.base) % b.tick == 0
  }

  lemma GridIsBand(b: Band, p: u32)
    requires b.Valid()
    ensures OnGrid(b, p) <==> b.Holds(p) && b.OnTick(p)
  {
    BandInPrices(b, p);
  }

  /**
   The engine clamps and the ladders wrap, yet a ladder driven by the engine's calls shows the
   engine's own levels; and where those prices are in band and on tick, so does the dense array.
   */
  lemma EngineCallsSuitEveryLadder(instruments: map<u16, Instrument>, ms: seq<Message>, l: u16, side: Side, b: Band)
    requires FitsThroughout(Boot(instruments), ms) && b.tick > 0
    ensures var s0 := Boot(instruments);
            var ops := AllCalls(Machine, s0, ms, l, side);
            && RunOps(ops) == LevelsAt(Run(Machine, s0, ms), l, side)
            && ((forall i :: 0 <= i < |ops| ==> OnGrid(b, ops[i].price)) <==> Disciplined(b, ops))
  {
    var s0 := Boot(instruments);
    var ops := AllCalls(Machine, s0, ms, l, side);
    LadderFollowsEngine(instruments, ms, l, side);
    CallsAgree(instruments, ms, l, side);
    MachineFollows(instruments, ms);
    forall i | 0 <= i < |ops| ensures Suits(b, RunOps(ops[..i]), ops[i]) <==> OnGrid(b, ops[i].price) {
      assert TidyAt(ops, i);
      GridIsBand(b, ops[i].price);
    }
    if Disciplined(b, ops) {
      forall i | 0 <= i < |ops| ensures OnGrid(b, ops[i].price) {
        assert Suits(b, RunOps(ops[..i]), ops[i]);
      }
    }
  }

  /** Replay one side of one book on the sorted vector: it shows the engine's own levels. */
  method ReplayOnFlat(instruments: map<u16, Instrument>, ms: seq<Message>, l: u16, side: Side) returns (r: Sight)
    requires FitsThroughout(Boot(instruments), ms)
    ensures r == Seen(side, LevelsAt(Run(Machine, Boot(instruments), ms), l, side))
  {
    EngineCallsSuitEveryLadder(instruments, ms, l, side, Band(0, 1, 0));
    r := DriveFlat(side, AllCalls(Machine, Boot(instruments), ms, l, side));
  }

  lemma GridCallsAgree(instruments: map<u16, Instrument>, ms: seq<Message>, l: u16, side: Side, b: Band, ops: seq<Op>)
    requires FitsThroughout(Boot(instruments), ms) && b.tick > 0
    requires ops == AllCalls(Machine, Boot(instruments), ms, l, side)
    requires forall i :: 0 <= i < |ops| ==> OnGrid(b, ops[i].price)
    ensures AllAgreeable(b, ops) && RunOps(ops) == LevelsAt(Run(Machine, Boot(instruments), ms), l, side)
  {
    EngineCallsSuitEveryLadder(instruments, ms, l, side, b);
    DisciplinedAgreeable(b, ops);
  }

  /** Likewise on the dense array, where every price lies a whole number of ticks, fewer than `slots`, above the base. */
  method ReplayOnArray(instruments: map<u16, Instrument>, ms: seq<Message>, l: u16, side: Side, b: Band)
    returns (r: Sight)
    requires FitsThroughout(Boot(instruments), ms) && b.tick > 0
    requires var ops := AllCalls(Machine, Boot(instruments), ms, l, side);
             forall i :: 0 <= i < |ops| ==> OnGrid(b, ops[i].price)
    ensures r == Seen(side, LevelsAt(Run(Machine, Boot(instruments), ms), l, side))
  {
    var ops := AllCalls(Machine, Boot(instruments), ms, l, side);
    GridCallsAgree(instruments, ms, l, side, b, ops);
    r := DriveArray(side, b, ops);
  }
}
