/** The pipeline end to end: file mode, live mode, and why they build the same books. */
module Pipeline {
  import opened Words
  import opened Messages
  import opened Engine
  import opened Snapshots
  import opened BookEngine
  import opened Codec
  import Framing
  import Mold
  import MoldPackets
  import Drain

  /** The engine has applied exactly the messages among these buffers, and published what it should have. */
  ghost predicate Current(engine: OrderBookEngine, interval: nat, s0: State, done: seq<seq<u8>>)
    reads engine, engine.publisher
  {
    && engine.Valid() && engine.interval == interval > 0 && !engine.complete
    && engine.Abs() == Run(Machine, s0, Drain.Understood(done))
    && engine.published == Editions(interval, s0, Drain.Understood(done))
  }

  /** One buffer in file mode: parse, apply if it is a message, ignore it otherwise. */
  method ProcessBuffer(engine: OrderBookEngine, b: seq<u8>, ghost s0: State, ghost done: seq<seq<u8>>)
    requires Current(engine, engine.interval, s0, done)
    modifies engine, engine.publisher
    ensures engine.interval == old(engine.interval) && Current(engine, engine.interval, s0, done + [b])
  {
    ghost var before := Drain.Understood(done);
    assert (done + [b])[..|done|] == done;
    var parsed := Parse(b);
    if parsed.Ok? {
      ghost var m := parsed.message;
      RunSnoc(Machine, s0, before, m);
      assert (before + [m])[..|before|] == before;
      engine.ApplyMessage(parsed.message);
    } else {
      assert before + [] == before;
    }
  }

  /** What readers can see after the messages so far. */
  ghost function Editions(k: nat, s0: State, ms: seq<Message>): Option<Edition>
    requires k > 0
  {
    match Published(Machine, k, s0, ms)
    case None => None
    case Some(s) => Some(Edition(s, false))
  }

  /**
   File mode. `read` are the buffers read and `failed` says that the device reported an error.
   The run succeeds exactly when no read fails and the stream ends cleanly, and then the published
   snapshot is a faithful, complete picture of the books after every message in the stream.
   Otherwise readers keep the last periodic snapshot of what was read.
   */
  method FileMode(data: seq<u8>, healthy: bool, known: map<u16, Instrument>, interval: nat)
    returns (code: int, seen: Option<Snapshot>, ghost read: seq<seq<u8>>, ghost failed: bool)
    requires interval > 0
    ensures healthy ==> !failed
    ensures code == if !failed && Framing.ReadAll(data).last.EndOfStream? then 0 else 1
    ensures if failed then read <= Framing.ReadAll(data).payloads else read == Framing.ReadAll(data).payloads
    ensures var ms := Drain.Understood(read);
            if code == 0
            then seen.Some? && Faithful(seen.value, Run(Machine, Boot(known), ms), true)
            else match Published(Machine, interval, Boot(known), ms)
                 case None => seen == None
                 case Some(s) => seen.Some? && Faithful(seen.value, s, false)
  {
    var publisher := new SnapshotPublisher();
    var engine := new OrderBookEngine(publisher, known);
    engine.SetSnapshotInterval(interval);
    var reader := new Framing.FileFeedReader(data, healthy);
    ghost var s0 := Boot(known);
    var f := Framing.EndOfStream;
    read := [];
    assert data[0..] == data;
    while true
      invariant reader.Valid() && reader.data == data && reader.healthy == healthy && reader.errors == 0
      invariant engine.publisher == publisher && engine.interval == interval && Current(engine, interval, s0, read)
      invariant fresh(engine) && fresh(publisher) && fresh(reader)
      invariant Framing.ReadAll(data) == Resume(read, data[reader.pos..])
      decreases |data| - reader.pos
    {
      ghost var rest := data[reader.pos..];
      f := reader.NextMessage();
      failed := reader.errors != 0;
      if !f.Payload? {
        ResumeEnds(read, rest);
        break;
      }
      ResumeStep(read, rest);
      assert rest[Framing.NextFrame(rest).1..] == data[reader.pos..];
      ProcessBuffer(engine, f.bytes, s0, read);
      read := read + [f.bytes];
    }
    if f.EndOfStream? {
      engine.SetPipelineComplete();
      code := 0;
    } else {
      code := 1;
    }
    seen := publisher.current;
  }

  /** What reading yields in total, with some payloads already read. */
  ghost function Resume(done: seq<seq<u8>>, rest: seq<u8>): Framing.Reading {
    Framing.ReadAll(rest).Behind(done)
  }

  lemma ResumeStep(done: seq<seq<u8>>, rest: seq<u8>)
    requires Framing.NextFrame(rest).0.Payload?
    ensures var (f, n) := Framing.NextFrame(rest);
            2 <= n <= |rest| && Resume(done, rest) == Resume(done + [f.bytes], rest[n..])
  {
  }

  lemma ResumeEnds(done: seq<seq<u8>>, rest: seq<u8>)
    ensures done <= Resume(done, rest).payloads
    ensures var (f, _) := Framing.NextFrame(rest);
            !f.Payload? ==> Resume(done, rest) == Framing.Reading(done, f)
  {
  }

  // ----- the same messages through either mode -----

  ghost predicate AllEncodable(ms: seq<Message>) {
    forall i :: 0 <= i < |ms| ==> Encodable(ms[i])
  }

  ghost function EncodeAll(ms: seq<Message>): (bs: seq<seq<u8>>)
    requires AllEncodable(ms)
  {
    seq(|ms|, i requires 0 <= i < |ms| => Encode(ms[i]))
  }

  lemma EncodedParses(m: Message, b: seq<u8>)
    requires Encodable(m) && b == Encode(m)
    ensures Parse(b) == Ok(m)
  {
    ParseEncoded(m, []);
    assert Encode(m) + [] == Encode(m);
  }

  lemma EncodedUnderstood(ms: seq<Message>, bs: seq<seq<u8>>)
    requires AllEncodable(ms) && bs == EncodeAll(ms)
    ensures Drain.Understood(bs) == ms
  {
    forall i | 0 <= i < |ms| ensures Parse(bs[i]) == Ok(ms[i]) {
      EncodedParses(ms[i], bs[i]);
    }
    Drain.UnderstoodMessages(bs, ms);
  }

  lemma EncodedFramable(ms: seq<Message>)
    requires AllEncodable(ms)
    ensures Framing.AllFramable(EncodeAll(ms))
  {
    forall i | 0 <= i < |ms| ensures Framing.Framable(EncodeAll(ms)[i]) {
      EncodedLength(ms[i]);
    }
  }

  /**
   The same messages, written to a file as frames or sent as numbered packets without loss, end in
   the same engine state: the one obtained by running the messages themselves.
   */
  lemma LiveEqualsFile(ms: seq<Message>, session: seq<u8>, groups: seq<seq<seq<u8>>>,
                       known: map<u16, Instrument>, run: seq<Drain.System>)
    requires AllEncodable(ms) && |ms| < TWO64 - 1 && |session| == 10
    requires MoldPackets.GroupsFit(groups) && MoldPackets.Concat(groups) == EncodeAll(ms)
    requires var feed := Mold.Queue(Mold.Feed(MoldPackets.Packets(session, groups)).log);
             Drain.Behaviour(run, feed, Boot(known))
    requires run[|run| - 1].consumer.Exited? && run[|run| - 1].feed == []
    ensures Framing.AllFramable(EncodeAll(ms))
    ensures var file := Framing.ReadAll(Framing.WriteFrames(EncodeAll(ms)));
            && file.last.EndOfStream?
            && Run(Machine, Boot(known), Drain.Understood(file.payloads)) == Run(Machine, Boot(known), ms)
    ensures run[|run| - 1].engine == Run(Machine, Boot(known), ms)
  {
    EncodedUnderstood(ms, EncodeAll(ms));
    EncodedFramable(ms);
    Framing.FramingRoundTrip(EncodeAll(ms));
    MoldPackets.LosslessStream(session, groups);
    Drain.DrainComplete(run, EncodeAll(ms), Boot(known));
    Drain.AlwaysInv(run, EncodeAll(ms), Boot(known));
    assert run[|run| - 1].fetched + [] == run[|run| - 1].fetched;
  }
}
