/**
 One instrument's book depends only on the messages that concern that instrument. Its orders do
 too, up to references of its live orders being taken over by another instrument.
 */
module Projection {
  import opened Words
  import opened Messages
  import opened Engine
  import opened Ledger
  import opened Runs

  /** The message adds to instrument `l`, or addresses an order resting there. */
  predicate Touches(s: State, m: Message, l: u16) {
    if m.AddOrder? || m.AddOrderMpid? then m.locate == l
    else Refers(m) && m.ref in s.orders && s.orders[m.ref].locate == l
  }

  /** A message for another instrument takes over the reference of a live order of `l`. */
  predicate Evicts(s: State, m: Message, l: u16) {
    !Touches(s, m, l) && Overwritten(s, m) != [] && Overwritten(s, m)[0].locate == l
  }

  /** The messages of a run that touch `l` at the point where they occur. */
  function Project(a: Arith, s: State, ms: seq<Message>, l: u16): seq<Message> {
    if ms == [] then []
    else
      var init, m := ms[..|ms| - 1], ms[|ms| - 1];
      Project(a, s, init, l) + if Touches(Run(a, s, init), m, l) then [m] else []
  }

  ghost function OrdersOf(s: State, l: u16): map<u64, OrderRecord> {
    map r | r in s.orders && s.orders[r].locate == l :: s.orders[r]
  }

  function BookAt(s: State, l: u16): Option<Book> {
    if l in s.books then Some(s.books[l]) else None
  }

  /** `t` holds exactly the orders and the book of instrument `l` in `s`. */
  ghost predicate Mirrors(s: State, t: State, l: u16) {
    t.orders == OrdersOf(s, l) && BookAt(t, l) == BookAt(s, l)
  }

  lemma RestMirrors(a: Arith, s: State, t: State, l: u16, ref: u64, rec: OrderRecord, ts: u64)
    requires Mirrors(s, t, l) && rec.locate == l
    ensures Mirrors(RestOrder(a, s, ref, rec, ts), RestOrder(a, t, ref, rec, ts), l)
  {
  }

  lemma ReduceMirrors(a: Arith, s: State, t: State, l: u16, ref: u64, n: u32, ts: u64)
    requires Mirrors(s, t, l) && ref in s.orders && s.orders[ref].locate == l
    ensures Mirrors(Reduce(a, s, ref, n, ts), Reduce(a, t, ref, n, ts), l)
  {
  }

  lemma RestElsewhere(a: Arith, s: State, t: State, l: u16, ref: u64, rec: OrderRecord, ts: u64)
    requires Mirrors(s, t, l) && rec.locate != l
    requires ref in s.orders ==> s.orders[ref].locate != l
    ensures Mirrors(RestOrder(a, s, ref, rec, ts), t, l)
  {
  }

  lemma ReduceElsewhere(a: Arith, s: State, t: State, l: u16, ref: u64, n: u32, ts: u64)
    requires Mirrors(s, t, l) && ref in s.orders && s.orders[ref].locate != l
    ensures Mirrors(Reduce(a, s, ref, n, ts), t, l)
  {
  }

  lemma StepTouching(a: Arith, s: State, t: State, l: u16, m: Message)
    requires Mirrors(s, t, l) && Touches(s, m, l)
    ensures Mirrors(Handle(a, s, m), Handle(a, t, m), l)
  {
    if m.AddOrder? || m.AddOrderMpid? {
      RestMirrors(a, s, t, l, m.ref, NewRecord(m), m.timestamp);
    } else if m.Replace? || m.Delete? {
      var n, ts := s.orders[m.ref].shares, m.timestamp;
      DeleteIsReduce(a, s, m.ref, ts);
      DeleteIsReduce(a, t, m.ref, ts);
      ReduceMirrors(a, s, t, l, m.ref, n, ts);
      if m.Replace? {
        ReplaceIsDeleteThenRest(a, s, m.ref, m.newRef, m.shares, m.price, ts);
        ReplaceIsDeleteThenRest(a, t, m.ref, m.newRef, m.shares, m.price, ts);
        RestMirrors(a, DeleteImpl(a, s, m.ref, ts), DeleteImpl(a, t, m.ref, ts), l,
                    m.newRef, Successor(s.orders[m.ref], m.shares, m.price), ts);
      }
    } else {
      ReduceMirrors(a, s, t, l, m.ref, Asked(m), m.timestamp);
    }
  }

  lemma StepPassing(a: Arith, s: State, t: State, l: u16, m: Message)
    requires Mirrors(s, t, l) && !Touches(s, m, l) && !Evicts(s, m, l)
    ensures Mirrors(Handle(a, s, m), t, l)
  {
    if m.AddOrder? || m.AddOrderMpid? {
      RestElsewhere(a, s, t, l, m.ref, NewRecord(m), m.timestamp);
    } else if Refers(m) && m.ref in s.orders {
      if m.Replace? || m.Delete? {
        var n, ts := s.orders[m.ref].shares, m.timestamp;
        DeleteIsReduce(a, s, m.ref, ts);
        ReduceElsewhere(a, s, t, l, m.ref, n, ts);
        if m.Replace? {
          ReplaceIsDeleteThenRest(a, s, m.ref, m.newRef, m.shares, m.price, ts);
          RestElsewhere(a, DeleteImpl(a, s, m.ref, ts), t, l, m.newRef, Successor(s.orders[m.ref], m.shares, m.price), ts);
        }
      } else {
        ReduceElsewhere(a, s, t, l, m.ref, Asked(m), m.timestamp);
      }
    }
  }

  /** An eviction leaves the order in the projection but not in the full run. */
  lemma StepEvicting(a: Arith, s: State, t: State, l: u16, m: Message)
    requires Mirrors(s, t, l) && Evicts(s, m, l)
    ensures !Mirrors(Handle(a, s, m), t, l)
  {
    var r := FiledUnder(s, m).value;
    assert r in t.orders;
    assert r !in OrdersOf(Handle(a, s, m), l);
  }

  lemma MirrorsIgnoresCounters(s: State, t: State, s': State, t': State, l: u16)
    requires s'.orders == s.orders && s'.books == s.books && t'.orders == t.orders && t'.books == t.books
    ensures Mirrors(s', t', l) == Mirrors(s, t, l)
  {
  }

  /** The projected run, after the first `i` messages of the full run. */
  ghost predicate MirrorsAt(a: Arith, s: State, ms: seq<Message>, l: u16, i: nat)
    requires i <= |ms|
  {
    Mirrors(Run(a, s, ms[..i]), Run(a, s, Project(a, s, ms[..i], l)), l)
  }

  predicate EvictsAt(a: Arith, s: State, ms: seq<Message>, l: u16, i: nat)
    requires i < |ms|
  {
    Evicts(Run(a, s, ms[..i]), ms[i], l)
  }

  ghost predicate MirrorsThroughout(a: Arith, s: State, ms: seq<Message>, l: u16) {
    forall i :: 0 <= i <= |ms| ==> MirrorsAt(a, s, ms, l, i)
  }

  ghost predicate NeverEvicts(a: Arith, s: State, ms: seq<Message>, l: u16) {
    forall i :: 0 <= i < |ms| ==> !EvictsAt(a, s, ms, l, i)
  }

  lemma ProjectStep(a: Arith, s: State, init: seq<Message>, m: Message, l: u16)
    requires Mirrors(Run(a, s, init), Run(a, s, Project(a, s, init, l)), l)
    ensures Mirrors(Run(a, s, init + [m]), Run(a, s, Project(a, s, init + [m], l)), l)
            <==> !Evicts(Run(a, s, init), m, l)
  {
    var x, y := Run(a, s, init), Run(a, s, Project(a, s, init, l));
    assert (init + [m])[..|init|] == init;
    RunSnoc(a, s, init, m);
    if Touches(x, m, l) {
      StepTouching(a, x, y, l, m);
      RunSnoc(a, s, Project(a, s, init, l), m);
      MirrorsIgnoresCounters(Handle(a, x, m), Handle(a, y, m), Apply(a, x, m), Apply(a, y, m), l);
    } else {
      assert Project(a, s, init + [m], l) == Project(a, s, init, l);
      if Evicts(x, m, l) {
        StepEvicting(a, x, y, l, m);
      } else {
        StepPassing(a, x, y, l, m);
      }
      MirrorsIgnoresCounters(Handle(a, x, m), y, Apply(a, x, m), y, l);
    }
  }

  lemma {:induction false} MirrorsUpTo(a: Arith, instruments: map<u16, Instrument>, ms: seq<Message>, l: u16, n: nat)
    requires n <= |ms|
    requires forall i :: 0 <= i < n ==> !EvictsAt(a, Boot(instruments), ms, l, i)
    ensures MirrorsAt(a, Boot(instruments), ms, l, n)
  {
    if n > 0 {
      MirrorsUpTo(a, instruments, ms, l, n - 1);
      assert ms[..n] == ms[..n - 1] + [ms[n - 1]];
      assert !EvictsAt(a, Boot(instruments), ms, l, n - 1);
      ProjectStep(a, Boot(instruments), ms[..n - 1], ms[n - 1], l);
    }
  }

  /**
   Running only the messages that touch `l` reproduces that instrument's orders and book at
   every point of the run, exactly when no other instrument ever takes over one of its
   live references.
   */
  lemma ProjectionExact(a: Arith, instruments: map<u16, Instrument>, ms: seq<Message>, l: u16)
    ensures MirrorsThroughout(a, Boot(instruments), ms, l) <==> NeverEvicts(a, Boot(instruments), ms, l)
  {
    var s := Boot(instruments);
    if NeverEvicts(a, s, ms, l) {
      forall i | 0 <= i <= |ms| ensures MirrorsAt(a, s, ms, l, i) {
        MirrorsUpTo(a, instruments, ms, l, i);
      }
    }
    if MirrorsThroughout(a, s, ms, l) {
      forall i | 0 <= i < |ms| ensures !EvictsAt(a, s, ms, l, i) {
        assert MirrorsAt(a, s, ms, l, i) && MirrorsAt(a, s, ms, l, i + 1);
        assert ms[..i + 1] == ms[..i] + [ms[i]];
        ProjectStep(a, s, ms[..i], ms[i], l);
      }
    }
  }

  /** An Add for another instrument takes over the reference of a live order: the projections part ways. */
  lemma TakeoverBreaksProjection(a: Arith, x: Message, y: Message)
    requires x.AddOrder? && y.AddOrder? && x.ref == y.ref && x.locate != y.locate
    ensures !MirrorsThroughout(a, Boot(map[]), [x, y], x.locate)
  {
    var ms := [x, y];
    RunSnoc(a, Boot(map[]), [], x);
    assert ms[..1] == [] + [x];
    assert EvictsAt(a, Boot(map[]), ms, x.locate, 1);
    ProjectionExact(a, map[], ms, x.locate);
  }

  // ----- the book alone needs no condition -----

  /** `t` has the book of `l` in `s` and every order of `l` in `s`, and possibly stale ones besides. */
  ghost predicate Covers(s: State, t: State, l: u16) {
    && BookAt(t, l) == BookAt(s, l)
    && forall r :: r in s.orders && s.orders[r].locate == l ==> r in t.orders && t.orders[r] == s.orders[r]
  }

  lemma RestCovers(a: Arith, s: State, t: State, l: u16, ref: u64, rec: OrderRecord, ts: u64)
    requires Covers(s, t, l)
    ensures if rec.locate == l then Covers(RestOrder(a, s, ref, rec, ts), RestOrder(a, t, ref, rec, ts), l)
            else Covers(RestOrder(a, s, ref, rec, ts), t, l)
  {
  }

  lemma ReduceCovers(a: Arith, s: State, t: State, l: u16, ref: u64, n: u32, ts: u64)
    requires Covers(s, t, l) && ref in s.orders
    ensures if s.orders[ref].locate == l then Covers(Reduce(a, s, ref, n, ts), Reduce(a, t, ref, n, ts), l)
            else Covers(Reduce(a, s, ref, n, ts), t, l)
  {
  }

  lemma ReplaceCovers(a: Arith, s: State, t: State, l: u16, m: Message)
    requires Covers(s, t, l) && m.Replace? && m.ref in s.orders
    ensures if s.orders[m.ref].locate == l then Covers(Handle(a, s, m), Handle(a, t, m), l)
            else Covers(Handle(a, s, m), t, l)
  {
    var was, ts := s.orders[m.ref], m.timestamp;
    var rec, mid := Successor(was, m.shares, m.price), DeleteImpl(a, s, m.ref, ts);
    DeleteIsReduce(a, s, m.ref, ts);
    ReduceCovers(a, s, t, l, m.ref, was.shares, ts);
    ReplaceIsDeleteThenRest(a, s, m.ref, m.newRef, m.shares, m.price, ts);
    if was.locate == l {
      DeleteIsReduce(a, t, m.ref, ts);
      ReplaceIsDeleteThenRest(a, t, m.ref, m.newRef, m.shares, m.price, ts);
      RestCovers(a, mid, DeleteImpl(a, t, m.ref, ts), l, m.newRef, rec, ts);
    } else {
      RestCovers(a, mid, t, l, m.newRef, rec, ts);
    }
  }

  lemma StepCovers(a: Arith, s: State, t: State, l: u16, m: Message)
    requires Covers(s, t, l)
    ensures Covers(Handle(a, s, m), if Touches(s, m, l) then Handle(a, t, m) else t, l)
  {
    if m.AddOrder? || m.AddOrderMpid? {
      RestCovers(a, s, t, l, m.ref, NewRecord(m), m.timestamp);
    } else if Refers(m) && m.ref in s.orders {
      if m.Replace? {
        ReplaceCovers(a, s, t, l, m);
      } else if m.Delete? {
        DeleteIsReduce(a, s, m.ref, m.timestamp);
        ReduceCovers(a, s, t, l, m.ref, s.orders[m.ref].shares, m.timestamp);
        if s.orders[m.ref].locate == l {
          DeleteIsReduce(a, t, m.ref, m.timestamp);
        }
      } else {
        ReduceCovers(a, s, t, l, m.ref, Asked(m), m.timestamp);
      }
    }
  }

  lemma {:induction false} ProjectCovers(a: Arith, instruments: map<u16, Instrument>, ms: seq<Message>, l: u16)
    ensures var s := Boot(instruments);
            Covers(Run(a, s, ms), Run(a, s, Project(a, s, ms, l)), l)
  {
    if ms != [] {
      var s, init, m := Boot(instruments), ms[..|ms| - 1], ms[|ms| - 1];
      var x, mine := Run(a, s, init), Project(a, s, init, l);
      ProjectCovers(a, instruments, init, l);
      StepCovers(a, x, Run(a, s, mine), l, m);
      if Touches(x, m, l) {
        RunSnoc(a, s, mine, m);
      } else {
        assert mine + [] == mine;
      }
    }
  }

  /**
   The book of every instrument - levels, tops and stamp - is the book of the messages that touch
   it, in every run. A takeover leaves a stale record in the projected index, which no later message
   that touches the instrument reads.
   */
  lemma BookProjects(a: Arith, instruments: map<u16, Instrument>, ms: seq<Message>, l: u16)
    ensures var s := Boot(instruments);
            BookAt(Run(a, s, Project(a, s, ms, l)), l) == BookAt(Run(a, s, ms), l)
  {
    ProjectCovers(a, instruments, ms, l);
  }
}
