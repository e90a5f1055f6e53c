/**
 The live pipeline: a receive thread that enqueues and an engine thread that polls, then drains.

 The two threads share a FIFO queue and a done flag. Every read of the flag, every queue operation
 and every message application is a step of its own, in any interleaving.
 */
module Drain {
  import opened Words
  import opened Messages
  import opened Engine
  import opened Codec

  type Buffer = seq<u8>

  /** What the engine does with one buffer: out-of-scope and malformed ones are skipped. */
  function Process(s: State, b: Buffer): State {
    match Parse(b)
    case Ok(m) => Apply(Machine, s, m)
    case OutOfScope => s
    case Truncated => s
    case EmptyBuffer => s
  }

  /** The messages among the buffers, in order. */
  function Understood(bs: seq<Buffer>): seq<Message> {
    if bs == [] then []
    else
      var n := |bs| - 1;
      Understood(bs[..n]) + match Parse(bs[n]) case Ok(m) => [m] case _ => []
  }

  lemma {:induction false} UnderstoodMessages(bs: seq<Buffer>, ms: seq<Message>)
    requires |bs| == |ms| && forall i :: 0 <= i < |bs| ==> Parse(bs[i]) == Ok(ms[i])
    ensures Understood(bs) == ms
  {
    if bs != [] {
      var n := |bs| - 1;
      UnderstoodMessages(bs[..n], ms[..n]);
      assert ms == ms[..n] + [ms[n]];
    }
  }

  lemma UnderstoodSnoc(s: State, bs: seq<Buffer>, b: Buffer)
    ensures Run(Machine, s, Understood(bs + [b])) == Process(Run(Machine, s, Understood(bs)), b)
  {
    assert (bs + [b])[..|bs|] == bs;
    if Parse(b).Ok? {
      RunSnoc(Machine, s, Understood(bs), Parse(b).message);
    } else {
      assert Understood(bs) + [] == Understood(bs);
    }
  }

  // ----- the two threads -----

  /** Receive thread: at the loop head, holding a message to enqueue, past the loop, flag set. */
  datatype Receiver = Reading | Holding(buffer: Buffer) | Leaving | Finished

  /** Engine thread: first loop (flag test, poll, apply), final loop (take, apply), left. */
  datatype Consumer =
    | Testing | Polling | Applying(buffer: Buffer)
    | Draining | DrainApplying(buffer: Buffer) | Exited

  datatype System = System(
    feed: seq<Buffer>, queue: seq<Buffer>, done: bool,
    receiver: Receiver, consumer: Consumer, engine: State,
    fetched: seq<Buffer>, processed: seq<Buffer>)

  ghost predicate Init(s: System, feed: seq<Buffer>, engine: State) {
    s == System(feed, [], false, Reading, Testing, engine, [], [])
  }

  /** The reader yields a message. */
  ghost predicate Fetch(s: System, t: System) {
    && s.receiver.Reading? && s.feed != []
    && t == s.(feed := s.feed[1..], receiver := Holding(s.feed[0]), fetched := s.fetched + [s.feed[0]])
  }

  ghost predicate Enqueue(s: System, t: System) {
    s.receiver.Holding? && t == s.(queue := s.queue + [s.receiver.buffer], receiver := Reading)
  }

  /** Stop requested, socket closed, or an exception: the loop is left at its head. */
  ghost predicate Leave(s: System, t: System) {
    s.receiver.Reading? && t == s.(receiver := Leaving)
  }

  ghost predicate SetDone(s: System, t: System) {
    s.receiver.Leaving? && t == s.(done := true, receiver := Finished)
  }

  ghost predicate TestFlag(s: System, t: System) {
    s.consumer.Testing? && t == s.(consumer := if s.done then Draining else Polling)
  }

  ghost predicate Poll(s: System, t: System) {
    && s.consumer.Polling?
    && t == if s.queue == [] then s.(consumer := Testing)
            else s.(queue := s.queue[1..], consumer := Applying(s.queue[0]))
  }

  ghost predicate ApplyOne(s: System, t: System) {
    && s.consumer.Applying?
    && t == s.(engine := Process(s.engine, s.consumer.buffer),
               processed := s.processed + [s.consumer.buffer], consumer := Testing)
  }

  ghost predicate DrainTake(s: System, t: System) {
    && s.consumer.Draining?
    && t == if s.queue == [] then s.(consumer := Exited)
            else s.(queue := s.queue[1..], consumer := DrainApplying(s.queue[0]))
  }

  ghost predicate DrainApply(s: System, t: System) {
    && s.consumer.DrainApplying?
    && t == s.(engine := Process(s.engine, s.consumer.buffer),
               processed := s.processed + [s.consumer.buffer], consumer := Draining)
  }

  ghost predicate ReceiverStep(s: System, t: System) {
    Fetch(s, t) || Enqueue(s, t) || Leave(s, t) || SetDone(s, t)
  }

  ghost predicate ConsumerStep(s: System, t: System) {
    TestFlag(s, t) || Poll(s, t) || ApplyOne(s, t) || DrainTake(s, t) || DrainApply(s, t)
  }

  ghost predicate Next(s: System, t: System) {
    ReceiverStep(s, t) || ConsumerStep(s, t)
  }

  ghost predicate Behaviour(run: seq<System>, feed: seq<Buffer>, engine: State) {
    run != [] && Init(run[0], feed, engine) && forall i :: 0 <= i < |run| - 1 ==> Next(run[i], run[i + 1])
  }

  // ----- what every interleaving keeps -----

  function InReceiver(s: System): seq<Buffer> {
    if s.receiver.Holding? then [s.receiver.buffer] else []
  }

  function InConsumer(s: System): seq<Buffer> {
    if s.consumer.Applying? || s.consumer.DrainApplying? then [s.consumer.buffer] else []
  }

  /** Buffers flow from the feed to the processed list without loss, and the phases agree with the flag. */
  ghost predicate FlowOk(s: System, feed: seq<Buffer>) {
    && s.fetched + s.feed == feed
    && s.processed + InConsumer(s) + s.queue + InReceiver(s) == s.fetched
    && (s.done <==> s.receiver.Finished?)
    && (s.consumer.Draining? || s.consumer.DrainApplying? || s.consumer.Exited? ==> s.done)
    && (s.consumer.Exited? ==> s.queue == [])
  }

  ghost predicate EngineOk(s: System, engine: State) {
    s.engine == Run(Machine, engine, Understood(s.processed))
  }

  ghost predicate Inv(s: System, feed: seq<Buffer>, engine: State) {
    FlowOk(s, feed) && EngineOk(s, engine)
  }

  lemma ReceiverFlow(s: System, t: System, feed: seq<Buffer>)
    requires FlowOk(s, feed) && ReceiverStep(s, t)
    ensures FlowOk(t, feed)
  {
  }

  lemma TakingFlow(s: System, t: System, feed: seq<Buffer>)
    requires FlowOk(s, feed) && (TestFlag(s, t) || Poll(s, t) || DrainTake(s, t))
    ensures FlowOk(t, feed)
  {
  }

  lemma ApplyingFlow(s: System, t: System, feed: seq<Buffer>)
    requires FlowOk(s, feed) && (ApplyOne(s, t) || DrainApply(s, t))
    ensures FlowOk(t, feed)
  {
  }

  lemma ApplyingEngine(s: System, t: System, engine: State)
    requires EngineOk(s, engine) && (ApplyOne(s, t) || DrainApply(s, t))
    ensures EngineOk(t, engine)
  {
    UnderstoodSnoc(engine, s.processed, s.consumer.buffer);
  }

  lemma StepKeeps(s: System, t: System, feed: seq<Buffer>, engine: State)
    requires Inv(s, feed, engine) && Next(s, t)
    ensures Inv(t, feed, engine)
  {
    if ReceiverStep(s, t) {
      ReceiverFlow(s, t, feed);
    } else if ApplyOne(s, t) || DrainApply(s, t) {
      ApplyingFlow(s, t, feed);
      ApplyingEngine(s, t, engine);
    } else {
      TakingFlow(s, t, feed);
    }
  }

  /** Nothing is lost, duplicated or reordered in any reachable state. */
  lemma {:induction false} AlwaysInv(run: seq<System>, feed: seq<Buffer>, engine: State)
    requires Behaviour(run, feed, engine)
    ensures Inv(run[|run| - 1], feed, engine)
  {
    var n := |run| - 1;
    if n == 0 {
      assert Understood([]) == [];
    } else {
      AlwaysInv(run[..n], feed, engine);
      assert Next(run[n - 1], run[n]);
      StepKeeps(run[n - 1], run[n], feed, engine);
    }
  }

  /**
   When the engine thread has left its final loop, it has processed every buffer the receive
   thread ever fetched, exactly once and in order, and no step of either thread remains.
   */
  lemma DrainComplete(run: seq<System>, feed: seq<Buffer>, engine: State)
    requires Behaviour(run, feed, engine) && run[|run| - 1].consumer.Exited?
    ensures var s := run[|run| - 1];
            && s.processed == s.fetched && s.fetched <= feed
            && s.engine == Run(Machine, engine, Understood(s.fetched))
            && forall t :: !Next(s, t)
  {
    AlwaysInv(run, feed, engine);
    var s := run[|run| - 1];
    assert s.processed + [] + [] + [] == s.processed;
  }

  /** Steps left once the flag is set: only the engine thread moves, and it takes exactly this many. */
  function Remaining(s: System): nat {
    match s.consumer
    case Exited => 0
    case Draining => 2 * |s.queue| + 1
    case DrainApplying(_) => 2 * |s.queue| + 2
    case Testing => 2 * |s.queue| + 2
    case Applying(_) => 2 * |s.queue| + 3
    case Polling => if s.queue == [] then 3 else 2 * |s.queue| + 2
  }

  /** The engine thread's only move from here. */
  function Advance(s: System): System
    requires !s.consumer.Exited?
  {
    match s.consumer
    case Testing => s.(consumer := if s.done then Draining else Polling)
    case Polling =>
      if s.queue == [] then s.(consumer := Testing)
      else s.(queue := s.queue[1..], consumer := Applying(s.queue[0]))
    case Draining =>
      if s.queue == [] then s.(consumer := Exited)
      else s.(queue := s.queue[1..], consumer := DrainApplying(s.queue[0]))
    case Applying(b) =>
      s.(engine := Process(s.engine, b), processed := s.processed + [b], consumer := Testing)
    case DrainApplying(b) =>
      s.(engine := Process(s.engine, b), processed := s.processed + [b], consumer := Draining)
  }

  lemma AdvanceIsStep(s: System, t: System)
    requires !s.consumer.Exited?
    ensures ConsumerStep(s, t) <==> t == Advance(s)
  {
  }

  /** Once the flag is set and until the engine thread has left, some step is possible and each one counts. */
  lemma DrainTerminates(s: System, feed: seq<Buffer>, engine: State)
    requires Inv(s, feed, engine) && s.done && !s.consumer.Exited?
    ensures exists t :: Next(s, t)
    ensures forall t :: Next(s, t) ==> t.done && Remaining(t) == Remaining(s) - 1
  {
    AdvanceIsStep(s, Advance(s));
    assert Next(s, Advance(s));
    forall t | Next(s, t) ensures t == Advance(s) {
      AdvanceIsStep(s, t);
    }
  }

  lemma InvAt(run: seq<System>, feed: seq<Buffer>, engine: State, j: nat)
    requires Behaviour(run, feed, engine) && j < |run|
    ensures Inv(run[j], feed, engine)
  {
    assert Behaviour(run[..j + 1], feed, engine);
    AlwaysInv(run[..j + 1], feed, engine);
  }

  lemma ExitedIsFinal(s: System, t: System, feed: seq<Buffer>)
    requires FlowOk(s, feed) && Next(s, t)
    ensures !s.consumer.Exited?
  {
  }

  lemma CountdownStep(s: System, t: System, feed: seq<Buffer>, engine: State)
    requires Inv(s, feed, engine) && s.done && Next(s, t)
    ensures t.done && Remaining(t) == Remaining(s) - 1
  {
    ExitedIsFinal(s, t, feed);
    DrainTerminates(s, feed, engine);
  }

  /** The step from `run[j]` takes one off. */
  ghost predicate Ticks(run: seq<System>, j: nat)
    requires j + 1 < |run|
  {
    run[j].done ==> run[j + 1].done && Remaining(run[j + 1]) == Remaining(run[j]) - 1
  }

  lemma CountdownAt(run: seq<System>, feed: seq<Buffer>, engine: State, j: nat)
    requires Behaviour(run, feed, engine) && j + 1 < |run|
    ensures Ticks(run, j)
  {
    if run[j].done {
      InvAt(run, feed, engine, j);
      CountdownStep(run[j], run[j + 1], feed, engine);
    }
  }

  lemma {:induction false} Countdown(run: seq<System>, i: nat, j: nat)
    requires i <= j < |run| && run[i].done
    requires forall k :: 0 <= k < |run| - 1 ==> Ticks(run, k)
    ensures run[j].done && Remaining(run[j]) == Remaining(run[i]) - (j - i)
  {
    if i < j {
      Countdown(run, i, j - 1);
      assert Ticks(run, j - 1);
    }
  }

  /**
   In every interleaving, the engine thread exits exactly `Remaining` steps after any state in which
   the flag is set.
   */
  lemma ExitsOnTime(run: seq<System>, feed: seq<Buffer>, engine: State, i: nat, j: nat)
    requires Behaviour(run, feed, engine) && i <= j < |run| && run[i].done
    ensures j - i <= Remaining(run[i])
    ensures run[j].consumer.Exited? <==> j - i == Remaining(run[i])
  {
    forall k | 0 <= k < |run| - 1 ensures Ticks(run, k) {
      CountdownAt(run, feed, engine, k);
    }
    Countdown(run, i, j);
    assert run[j].consumer.Exited? <==> Remaining(run[j]) == 0;
  }
}
