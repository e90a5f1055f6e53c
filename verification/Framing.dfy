/** Length-prefixed frames read from a byte stream that may deliver any number of bytes at a time. */
module Framing {
  import opened Words
  import opened Bytes

  datatype Frame = Payload(bytes: seq<u8>) | EndOfStream | Thrown

  /** What one call yields for the bytes that are left, and how many of them it consumes. */
  function NextFrame(rest: seq<u8>): (Frame, nat) {
    if rest == [] then (EndOfStream, 0)
    else if |rest| == 1 then (Thrown, 1)
    else
      var len: nat := ReadBE16(rest, 0);
      if len == 0 then (Thrown, 2)
      // the stream ends exactly after the prefix: the zero-filled buffer is returned
      else if |rest| == 2 then (Payload(Zeros(len)), 2)
      else if |rest| < 2 + len then (Thrown, |rest|)
      else (Payload(rest[2..2 + len]), 2 + len)
  }

  function Zeros(n: nat): (bs: seq<u8>)
    ensures |bs| == n && forall i :: 0 <= i < n ==> bs[i] == 0
  {
    seq(n, _ => 0)
  }

  /** The payloads read until the stream ends or a read throws, and which of the two it was. */
  datatype Reading = Reading(payloads: seq<seq<u8>>, last: Frame) {
    function After(payload: seq<u8>): Reading {
      Reading([payload] + payloads, last)
    }

    /** The same reading with `ps` read before it. */
    function Behind(ps: seq<seq<u8>>): Reading {
      Reading(ps + payloads, last)
    }
  }

  function ReadAll(rest: seq<u8>): Reading
    decreases |rest|
  {
    var (f, n) := NextFrame(rest);
    if f.Payload? then ReadAll(rest[n..]).After(f.bytes) else Reading([], f)
  }

  class FileFeedReader {
    const data: seq<u8>
    /** The device never reports a read error. */
    const healthy: bool
    var pos: nat
    /** Read errors reported so far. */
    ghost var errors: nat

    ghost predicate Valid()
      reads this
    {
      pos <= |data|
    }

    ghost function Rest(): seq<u8>
      requires Valid()
      reads this
    {
      data[pos..]
    }

    constructor (data: seq<u8>, healthy: bool)
      ensures Valid() && pos == 0 && errors == 0 && this.data == data && this.healthy == healthy
    {
      this.data := data;
      this.healthy := healthy;
      pos := 0;
      errors := 0;
    }

    /** The operating system's read: any non-empty part of what is left, 0 at the end, -1 on error. */
    method OsRead(max: nat) returns (r: int, bytes: seq<u8>)
      requires Valid() && max > 0
      modifies this`pos, this`errors
      ensures Valid()
      ensures r < 0 ==> !healthy && pos == old(pos) && errors == old(errors) + 1
      ensures r >= 0 ==> errors == old(errors)
      ensures r >= 0 ==> r <= max && pos == old(pos) + r && bytes == data[old(pos)..pos]
      ensures r == 0 ==> pos == |data|
    {
      if !healthy {
        if * {
          errors := errors + 1;
          return -1, [];
        }
      }
      if pos == |data| {
        return 0, [];
      }
      var n: nat :| 1 <= n <= max && n <= |data| - pos;
      r, bytes := n, data[pos..pos + n];
      pos := pos + n;
    }

    /**
     Fill the buffer completely; false at a clean end of stream before the first byte. It throws
     exactly on a read error or when the stream ends in between.
     */
    method ReadExact(n: nat, init: seq<u8>) returns (ok: bool, threw: bool, buf: seq<u8>)
      requires Valid() && |init| == n > 0
      modifies this`pos, this`errors
      ensures Valid() && |buf| == n && old(pos) <= pos && old(errors) <= errors
      ensures healthy ==> errors == old(errors)
      ensures threw <==> errors != old(errors) || 0 < |old(Rest())| < n
      ensures errors == old(errors) ==> pos == old(pos) + (if |old(Rest())| < n then |old(Rest())| else n)
      ensures !threw ==> ok == (|old(Rest())| >= n)
      ensures !threw ==> buf == if ok then old(Rest())[..n] else init
    {
      var total := 0;
      buf := init;
      while total < n
        invariant 0 <= total <= n && |buf| == n && Valid()
        invariant pos == old(pos) + total && errors == old(errors)
        invariant buf == data[old(pos)..pos] + init[total..]
        decreases n - total
      {
        ghost var from := pos;
        var r, bytes := OsRead(n - total);
        if r == 0 {
          return false, total != 0, buf;
        }
        if r < 0 {
          return false, true, buf;
        }
        assert buf[..total] == data[old(pos)..from] && buf[total + r..] == init[total + r..];
        assert data[old(pos)..from] + bytes == data[old(pos)..pos];
        buf := buf[..total] + bytes + buf[total + r..];
        total := total + r;
      }
      return true, false, buf;
    }

    /**
     One frame. For every way the reads are split, the outcome is that of the bytes themselves,
     unless a read fails: then the call throws.
     */
    method NextMessage() returns (f: Frame)
      requires Valid()
      modifies this`pos, this`errors
      ensures Valid() && old(pos) <= pos && old(errors) <= errors
      ensures healthy ==> errors == old(errors)
      ensures if errors != old(errors) then f.Thrown? else (f, pos - old(pos)) == NextFrame(old(Rest()))
    {
      var ok, threw, prefix := ReadExact(2, [0, 0]);
      if threw {
        return Thrown;
      }
      if !ok {
        return EndOfStream;
      }
      assert Rest() == old(Rest())[2..] && prefix[0] == old(Rest())[0] && prefix[1] == old(Rest())[1];
      var len: nat := ReadBE16(prefix, 0);
      if len == 0 {
        return Thrown;
      }
      var buf;
      ok, threw, buf := ReadExact(len, Zeros(len));
      if threw {
        return Thrown;
      }
      assert ok ==> old(Rest())[2..][..len] == old(Rest())[2..2 + len];
      f := Payload(buf);
    }
  }

  // ----- round trip and cuts -----

  predicate Framable(payload: seq<u8>) {
    1 <= |payload| < 0x1_0000
  }

  function WriteFrame(payload: seq<u8>): (bs: seq<u8>)
    requires Framable(payload)
    ensures |bs| == 2 + |payload|
  {
    ToBE(|payload|, 2) + payload
  }

  ghost predicate AllFramable(ps: seq<seq<u8>>) {
    forall i :: 0 <= i < |ps| ==> Framable(ps[i])
  }

  ghost function WriteFrames(ps: seq<seq<u8>>): seq<u8>
    requires AllFramable(ps)
  {
    if ps == [] then [] else WriteFrame(ps[0]) + WriteFrames(ps[1..])
  }

  lemma PrefixReads(payload: seq<u8>, rest: seq<u8>)
    requires Framable(payload) && 2 <= |rest| && rest[..2] == ToBE(|payload|, 2)
    ensures ReadBE16(rest, 0) == |payload|
  {
  }

  lemma FrameReadsBack(payload: seq<u8>, tail: seq<u8>)
    requires Framable(payload)
    ensures NextFrame(WriteFrame(payload) + tail) == (Payload(payload), 2 + |payload|)
  {
    var rest := WriteFrame(payload) + tail;
    assert rest[..2] == ToBE(|payload|, 2);
    PrefixReads(payload, rest);
    assert rest[2..2 + |payload|] == payload;
  }

  lemma ReadAllStep(payload: seq<u8>, tail: seq<u8>)
    requires Framable(payload)
    ensures ReadAll(WriteFrame(payload) + tail) == ReadAll(tail).After(payload)
  {
    FrameReadsBack(payload, tail);
    assert (WriteFrame(payload) + tail)[2 + |payload|..] == tail;
  }

  lemma BehindCons(r: Reading, ps: seq<seq<u8>>)
    requires ps != []
    ensures r.Behind(ps[1..]).After(ps[0]) == r.Behind(ps)
  {
  }

  lemma FirstFrame(ps: seq<seq<u8>>, tail: seq<u8>)
    requires AllFramable(ps) && ps != []
    ensures WriteFrames(ps) + tail == WriteFrame(ps[0]) + (WriteFrames(ps[1..]) + tail)
  {
  }

  /** Reading the frames of a list of payloads gives that list, then whatever follows. */
  lemma {:induction false} FramesReadBack(ps: seq<seq<u8>>, tail: seq<u8>, r: Reading)
    requires AllFramable(ps) && r == ReadAll(tail)
    ensures ReadAll(WriteFrames(ps) + tail) == r.Behind(ps)
  {
    if ps == [] {
      assert WriteFrames(ps) + tail == tail;
    } else {
      FramesReadBack(ps[1..], tail, r);
      ReadAllStep(ps[0], WriteFrames(ps[1..]) + tail);
      FirstFrame(ps, tail);
      BehindCons(r, ps);
    }
  }

  lemma FramingRoundTrip(ps: seq<seq<u8>>)
    requires AllFramable(ps)
    ensures ReadAll(WriteFrames(ps)) == Reading(ps, EndOfStream)
  {
    FramesReadBack(ps, [], ReadAll([]));
    assert WriteFrames(ps) + [] == WriteFrames(ps);
    assert ReadAll([]) == Reading([], EndOfStream);
  }

  lemma CutFrame(payload: seq<u8>, k: nat)
    requires Framable(payload) && k < 2 + |payload|
    ensures ReadAll(WriteFrame(payload)[..k])
            == if k == 0 then Reading([], EndOfStream)
               else if k == 2 then Reading([Zeros(|payload|)], EndOfStream)
               else Reading([], Thrown)
  {
    var part := WriteFrame(payload)[..k];
    if k >= 2 {
      assert part[..2] == ToBE(|payload|, 2);
      PrefixReads(payload, part);
    }
    if k == 2 {
      assert part[2..] == [];
      assert ReadAll([]) == Reading([], EndOfStream);
    }
  }

  /**
   A stream cut inside the frame of `payload`, after the complete frames of `ps`. A cut before the
   frame is a clean end; a cut inside the prefix or after at least one payload byte throws; a cut
   exactly between prefix and payload yields one phantom buffer of zeros.
   */
  lemma CutStream(ps: seq<seq<u8>>, payload: seq<u8>, k: nat)
    requires AllFramable(ps) && Framable(payload) && k < 2 + |payload|
    ensures var cut := WriteFrames(ps) + WriteFrame(payload)[..k];
            ReadAll(cut) == if k == 0 then Reading(ps, EndOfStream)
                            else if k == 2 then Reading(ps + [Zeros(|payload|)], EndOfStream)
                            else Reading(ps, Thrown)
  {
    CutFrame(payload, k);
    FramesReadBack(ps, WriteFrame(payload)[..k], ReadAll(WriteFrame(payload)[..k]));
    assert ps + [] == ps;
  }

  /** A zero length prefix after complete frames throws, whatever follows it. */
  lemma ZeroPrefixThrows(ps: seq<seq<u8>>, tail: seq<u8>)
    requires AllFramable(ps)
    ensures ReadAll(WriteFrames(ps) + ([0, 0] + tail)) == Reading(ps, Thrown)
  {
    assert NextFrame([0, 0] + tail) == (Thrown, 2);
    FramesReadBack(ps, [0, 0] + tail, Reading([], Thrown));
    assert ps + [] == ps;
  }

  /** On the wire: each payload behind its length in two big-endian bytes. */
  lemma TwoFramesReadBack(x: seq<u8>, y: seq<u8>)
    requires 1 <= |x| < 0x1_0000 && 1 <= |y| < 0x1_0000
    ensures ReadAll(ToBE(|x|, 2) + x + (ToBE(|y|, 2) + y)) == Reading([x, y], EndOfStream)
  {
    var ps, last := [x, y], [y];
    assert ps[1..] == last && last[1..] == [];
    assert WriteFrames(last) == WriteFrame(y) + [] == ToBE(|y|, 2) + y;
    FramingRoundTrip(ps);
  }
}
