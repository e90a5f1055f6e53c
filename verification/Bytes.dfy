/** Big-endian numbers and space-padded text, both ways. */
module Bytes {
  import opened Words
  import opened Messages

  function FromBE(bs: seq<u8>): nat {
    if bs == [] then 0 else FromBE(bs[..|bs| - 1]) * 256 + bs[|bs| - 1]
  }

  function ToBE(n: nat, w: nat): (bs: seq<u8>)
    ensures |bs| == w
  {
    if w == 0 then [] else ToBE(n / 256, w - 1) + [n % 256]
  }

  function Pow256(w: nat): nat {
    if w == 0 then 1 else Pow256(w - 1) * 256
  }

  lemma {:induction false} FromBEBound(bs: seq<u8>)
    ensures FromBE(bs) < Pow256(|bs|)
  {
    if bs != [] {
      FromBEBound(bs[..|bs| - 1]);
    }
  }

  lemma {:induction false} FromToBE(n: nat, w: nat)
    requires n < Pow256(w)
    ensures FromBE(ToBE(n, w)) == n
  {
    if w > 0 {
      FromToBE(n / 256, w - 1);
      assert ToBE(n, w)[..w - 1] == ToBE(n / 256, w - 1);
    }
  }

  lemma {:induction false} ToFromBE(bs: seq<u8>)
    ensures ToBE(FromBE(bs), |bs|) == bs
  {
    if bs != [] {
      var init := bs[..|bs| - 1];
      ToFromBE(init);
      assert FromBE(bs) / 256 == FromBE(init) && FromBE(bs) % 256 == bs[|bs| - 1];
    }
  }

  lemma Powers()
    ensures Pow256(1) == 0x100 && Pow256(2) == 0x1_0000 && Pow256(4) == TWO32
    ensures Pow256(6) == 0x1_0000_0000_0000 && Pow256(8) == TWO64
  {
  }

  // The fixed-width readers, byte by byte.

  function ReadBE16(p: seq<u8>, at: nat): u16
    requires at + 2 <= |p|
  {
    (p[at] as int) * 0x100
    + p[at + 1]
  }

  function ReadBE32(p: seq<u8>, at: nat): u32
    requires at + 4 <= |p|
  {
    (p[at] as int) * 0x1000000
    + (p[at + 1] as int) * 0x10000
    + (p[at + 2] as int) * 0x100
    + p[at + 3]
  }

  function ReadBE48(p: seq<u8>, at: nat): u64
    requires at + 6 <= |p|
  {
    (p[at] as int) * 0x10000000000
    + (p[at + 1] as int) * 0x100000000
    + (p[at + 2] as int) * 0x1000000
    + (p[at + 3] as int) * 0x10000
    + (p[at + 4] as int) * 0x100
    + p[at + 5]
  }

  function ReadBE64(p: seq<u8>, at: nat): u64
    requires at + 8 <= |p|
  {
    (p[at] as int) * 0x100000000000000
    + (p[at + 1] as int) * 0x1000000000000
    + (p[at + 2] as int) * 0x10000000000
    + (p[at + 3] as int) * 0x100000000
    + (p[at + 4] as int) * 0x1000000
    + (p[at + 5] as int) * 0x10000
    + (p[at + 6] as int) * 0x100
    + p[at + 7]
  }

  lemma {:induction false} FromBEStep(p: seq<u8>, at: nat, w: nat)
    requires w > 0 && at + w <= |p|
    ensures FromBE(p[at..at + w]) == FromBE(p[at..at + (w - 1)]) * 256 + p[at + (w - 1)]
  {
    assert p[at..at + w][..w - 1] == p[at..at + (w - 1)];
  }

  /** The byte-by-byte readers are the big-endian values of their bytes. */
  lemma ByteIsBE(p: seq<u8>, at: nat)
    requires at + 1 <= |p|
    ensures FromBE(p[at..at + 1]) == p[at]
  {
  }

  lemma ReadBE16IsBE(p: seq<u8>, at: nat)
    requires at + 2 <= |p|
    ensures FromBE(p[at..at + 2]) == ReadBE16(p, at)
  {
    ByteIsBE(p, at);
    FromBEStep(p, at, 2);
  }

  lemma ReadBE32IsBE(p: seq<u8>, at: nat)
    requires at + 4 <= |p|
    ensures FromBE(p[at..at + 4]) == ReadBE32(p, at)
  {
    ReadBE16IsBE(p, at);
    FromBEStep(p, at, 3);
    FromBEStep(p, at, 4);
  }

  lemma ReadBE48IsBE(p: seq<u8>, at: nat)
    requires at + 6 <= |p|
    ensures FromBE(p[at..at + 6]) == ReadBE48(p, at)
  {
    ReadBE32IsBE(p, at);
    FromBEStep(p, at, 5);
    FromBEStep(p, at, 6);
  }

  lemma ReadBE64IsBE(p: seq<u8>, at: nat)
    requires at + 8 <= |p|
    ensures FromBE(p[at..at + 8]) == ReadBE64(p, at)
  {
    ReadBE48IsBE(p, at);
    FromBEStep(p, at, 7);
    FromBEStep(p, at, 8);
  }

  // ----- text -----

  function StripSpaces(s: Text): Text {
    if s != [] && s[|s| - 1] == SPACE then StripSpaces(s[..|s| - 1]) else s
  }

  function Pad(s: Text, w: nat): Text {
    if |s| >= w then s[..w] else s + seq(w - |s|, _ => SPACE)
  }

  predicate Trimmed(s: Text) {
    s == [] || s[|s| - 1] != SPACE
  }

  lemma {:induction false} StripPad(s: Text, w: nat)
    requires |s| <= w && Trimmed(s)
    ensures StripSpaces(Pad(s, w)) == s
    decreases w
  {
    if |s| < w {
      assert Pad(s, w)[..w - 1] == Pad(s, w - 1);
      StripPad(s, w - 1);
    }
  }

  lemma {:induction false} PadStrip(s: Text)
    ensures Pad(StripSpaces(s), |s|) == s
    ensures |StripSpaces(s)| <= |s| && Trimmed(StripSpaces(s))
  {
    if s != [] && s[|s| - 1] == SPACE {
      var init := s[..|s| - 1];
      PadStrip(init);
      assert Pad(StripSpaces(s), |s|) == Pad(StripSpaces(init), |init|) + [SPACE];
    }
  }
}
