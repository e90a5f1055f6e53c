/** Each live order and each book stamp, traced back to the messages they come from. */
module History {
  import opened Words
  import opened Messages
  import opened Engine
  import opened Ledger
  import opened Runs
  import opened Projection

  /** The last message that filed a record under `ref`. */
  function Filing(a: Arith, s: State, ms: seq<Message>, ref: u64): (r: Option<nat>)
    ensures r.Some? ==> r.value < |ms|
  {
    if ms == [] then None
    else
      var n := |ms| - 1;
      if FiledUnder(Run(a, s, ms[..n]), ms[n]) == Some(ref) then Some(n) else Filing(a, s, ms[..n], ref)
  }

  /** Shares taken off `ref` by executes and cancels since it was last filed, after clamping. */
  function TakenSince(a: Arith, s: State, ms: seq<Message>, ref: u64): nat {
    if ms == [] then 0
    else
      var n := |ms| - 1;
      var t := Run(a, s, ms[..n]);
      if FiledUnder(t, ms[n]) == Some(ref) then 0
      else TakenSince(a, s, ms[..n], ref) + if Refers(ms[n]) && ms[n].ref == ref then Taken(t, ms[n]) else 0
  }

  /** The record has the terms of the message that filed it: a Replace keeps side, locate and participant. */
  ghost predicate FiledBy(t: State, m: Message, rec: OrderRecord) {
    if m.AddOrder? || m.AddOrderMpid? then
      rec.price == m.price && rec.locate == m.locate && rec.side == m.side
      && rec.mpid == StoreMpid(if m.AddOrder? then [] else m.attribution)
    else
      && m.Replace? && m.ref in t.orders
      && rec.price == m.price && rec.locate == t.orders[m.ref].locate && rec.side == t.orders[m.ref].side
      && rec.mpid == t.orders[m.ref].mpid
  }

  ghost predicate Terms(a: Arith, s: State, ms: seq<Message>, ref: u64, rec: OrderRecord) {
    match Filing(a, s, ms, ref)
    case None => false
    case Some(i) =>
      && FiledBy(Run(a, s, ms[..i]), ms[i], rec)
      && (ms[i].AddOrder? || ms[i].AddOrderMpid? || ms[i].Replace?)
      && rec.shares + TakenSince(a, s, ms, ref) == ms[i].shares
  }

  /** A message that files a record files its own terms. */
  lemma StepFiles(a: Arith, t: State, m: Message, ref: u64)
    requires FiledUnder(t, m) == Some(ref)
    ensures ref in Handle(a, t, m).orders
    ensures var rec := Handle(a, t, m).orders[ref]; FiledBy(t, m, rec) && rec.shares == m.shares
  {
  }

  lemma ReduceRecord(a: Arith, t: State, at: u64, n: u32, ts: u64, ref: u64)
    requires ref in Reduce(a, t, at, n, ts).orders
    ensures ref in t.orders
    ensures Reduce(a, t, at, n, ts).orders[ref]
            == if ref == at then t.orders[ref].(shares := Left(t.orders[ref], n)) else t.orders[ref]
    ensures ref == at ==> n <= t.orders[ref].shares
  {
  }

  /** Any other message leaves a record as it was, except for the shares it takes from it. */
  lemma StepKeepsRecord(a: Arith, t: State, m: Message, ref: u64)
    requires ref in Handle(a, t, m).orders && FiledUnder(t, m) != Some(ref)
    ensures ref in t.orders
    ensures var rec := Handle(a, t, m).orders[ref];
            && rec == t.orders[ref].(shares := rec.shares)
            && rec.shares + (if Refers(m) && m.ref == ref then Taken(t, m) else 0) == t.orders[ref].shares
  {
    if m.Executed? || m.ExecutedPrice? || m.Cancel? {
      ReduceRecord(a, t, m.ref, Asked(m), m.timestamp, ref);
    }
  }

  /**
   Every live order, in every run: price, side, locate and participant are those of the message that
   last filed its reference, and its shares are what that message brought minus what was taken since.
   */
  lemma {:induction false} LiveOrderTerms(a: Arith, instruments: map<u16, Instrument>, ms: seq<Message>, ref: u64)
    requires ref in Run(a, Boot(instruments), ms).orders
    ensures Terms(a, Boot(instruments), ms, ref, Run(a, Boot(instruments), ms).orders[ref])
  {
    var s := Boot(instruments);
    if ms != [] {
      var n := |ms| - 1;
      if FiledUnder(Run(a, s, ms[..n]), ms[n]) == Some(ref) {
        StepFiles(a, Run(a, s, ms[..n]), ms[n], ref);
      } else {
        StepKeepsRecord(a, Run(a, s, ms[..n]), ms[n], ref);
        LiveOrderTerms(a, instruments, ms[..n], ref);
        var i := Filing(a, s, ms[..n], ref).value;
        assert ms[..n][..i] == ms[..i];
      }
    }
  }

  lemma StepStamp(a: Arith, t: State, m: Message, l: u16)
    ensures BookAt(Handle(a, t, m), l).Some? <==> BookAt(t, l).Some? || Touches(t, m, l)
    ensures BookAt(Handle(a, t, m), l).Some? ==>
              Handle(a, t, m).books[l].stamp == if Touches(t, m, l) then m.timestamp else t.books[l].stamp
  {
  }

  /** A book exists once a message has touched it, and carries the timestamp of the last one that did. */
  lemma {:induction false} StampIsLastTouch(a: Arith, instruments: map<u16, Instrument>, ms: seq<Message>, l: u16)
    ensures var t, mine := Run(a, Boot(instruments), ms), Project(a, Boot(instruments), ms, l);
            && (l in t.books <==> mine != [])
            && (l in t.books ==> t.books[l].stamp == mine[|mine| - 1].timestamp)
  {
    if ms != [] {
      var n := |ms| - 1;
      StampIsLastTouch(a, instruments, ms[..n], l);
      StepStamp(a, Run(a, Boot(instruments), ms[..n]), ms[n], l);
    }
  }
}
