/** Which symbols a run gives its instruments, and exactly when two of them coincide. */
module SymbolNames {
  import opened Words
  import opened Messages
  import opened Bytes
  import opened Codec
  import opened Engine
  import opened Ledger
  import opened Snapshots
  import Drain

  /** The stock of the latest directory message for each locate, or the symbol registered up front. */
  function Directory(instruments: map<u16, Instrument>, ms: seq<Message>): map<u16, Text> {
    if ms == [] then map l | l in instruments :: instruments[l].symbol
    else
      var rest, m := Directory(instruments, ms[..|ms| - 1]), ms[|ms| - 1];
      if m.StockDirectory? then rest[m.locate := m.stock] else rest
  }

  function NameOf(dir: map<u16, Text>, l: u16): Text {
    if l in dir then dir[l] else Placeholder(l).symbol
  }

  /** Every listed locate is an instrument; every instrument has its listed name or a placeholder's. */
  ghost predicate NamedBy(instruments: map<u16, Instrument>, dir: map<u16, Text>, l: u16) {
    && (l in dir ==> l in instruments)
    && (l in instruments ==> instruments[l].symbol == NameOf(dir, l))
  }

  lemma RestKeepsNames(a: Arith, s: State, ref: u64, rec: OrderRecord, ts: u64, dir: map<u16, Text>, l: u16)
    requires NamedBy(s.instruments, dir, l)
    ensures NamedBy(RestOrder(a, s, ref, rec, ts).instruments, dir, l)
  {
  }

  lemma ReduceKeepsNames(a: Arith, s: State, ref: u64, n: u32, ts: u64, dir: map<u16, Text>, l: u16)
    requires NamedBy(s.instruments, dir, l)
    ensures NamedBy(Reduce(a, s, ref, n, ts).instruments, dir, l)
  {
  }

  lemma StepNames(a: Arith, s: State, m: Message, dir: map<u16, Text>, l: u16)
    requires NamedBy(s.instruments, dir, l)
    ensures NamedBy(Handle(a, s, m).instruments, if m.StockDirectory? then dir[m.locate := m.stock] else dir, l)
  {
    if m.AddOrder? || m.AddOrderMpid? {
      RestKeepsNames(a, s, m.ref, NewRecord(m), m.timestamp, dir, l);
    } else if m.Executed? || m.ExecutedPrice? || m.Cancel? {
      ReduceKeepsNames(a, s, m.ref, Asked(m), m.timestamp, dir, l);
    } else if (m.Delete? || m.Replace?) && m.ref in s.orders {
      var was := s.orders[m.ref];
      DeleteIsReduce(a, s, m.ref, m.timestamp);
      ReduceKeepsNames(a, s, m.ref, was.shares, m.timestamp, dir, l);
      if m.Replace? {
        var mid := DeleteImpl(a, s, m.ref, m.timestamp);
        ReplaceIsDeleteThenRest(a, s, m.ref, m.newRef, m.shares, m.price, m.timestamp);
        RestKeepsNames(a, mid, m.newRef, Successor(was, m.shares, m.price), m.timestamp, dir, l);
      }
    }
  }

  /** After every run, an instrument is called what the directory last called it, or is a placeholder. */
  lemma {:induction false} RunNames(a: Arith, instruments: map<u16, Instrument>, ms: seq<Message>, l: u16)
    ensures NamedBy(Run(a, Boot(instruments), ms).instruments, Directory(instruments, ms), l)
  {
    if ms != [] {
      var n := |ms| - 1;
      RunNames(a, instruments, ms[..n], l);
      StepNames(a, Run(a, Boot(instruments), ms[..n]), ms[n], Directory(instruments, ms[..n]), l);
    }
  }

  /** `l` is an instrument exactly when it is listed or has a book. */
  ghost predicate KnownBy(s: State, dir: map<u16, Text>, l: u16) {
    l in s.instruments <==> l in dir || l in s.books
  }

  lemma RestKeepsKnown(a: Arith, s: State, ref: u64, rec: OrderRecord, ts: u64, dir: map<u16, Text>, l: u16)
    requires KnownBy(s, dir, l)
    ensures KnownBy(RestOrder(a, s, ref, rec, ts), dir, l)
  {
  }

  lemma ReduceKeepsKnown(a: Arith, s: State, ref: u64, n: u32, ts: u64, dir: map<u16, Text>, l: u16)
    requires KnownBy(s, dir, l)
    ensures KnownBy(Reduce(a, s, ref, n, ts), dir, l)
  {
  }

  lemma StepKnown(a: Arith, s: State, m: Message, dir: map<u16, Text>, l: u16)
    requires KnownBy(s, dir, l)
    ensures KnownBy(Handle(a, s, m), if m.StockDirectory? then dir[m.locate := m.stock] else dir, l)
  {
    if m.AddOrder? || m.AddOrderMpid? {
      RestKeepsKnown(a, s, m.ref, NewRecord(m), m.timestamp, dir, l);
    } else if m.Executed? || m.ExecutedPrice? || m.Cancel? {
      ReduceKeepsKnown(a, s, m.ref, Asked(m), m.timestamp, dir, l);
    } else if (m.Delete? || m.Replace?) && m.ref in s.orders {
      var was := s.orders[m.ref];
      DeleteIsReduce(a, s, m.ref, m.timestamp);
      ReduceKeepsKnown(a, s, m.ref, was.shares, m.timestamp, dir, l);
      if m.Replace? {
        var mid := DeleteImpl(a, s, m.ref, m.timestamp);
        ReplaceIsDeleteThenRest(a, s, m.ref, m.newRef, m.shares, m.price, m.timestamp);
        RestKeepsKnown(a, mid, m.newRef, Successor(was, m.shares, m.price), m.timestamp, dir, l);
      }
    }
  }

  /** After every run, the instruments are the registered and listed ones and those with a book. */
  lemma {:induction false} RunKnown(a: Arith, instruments: map<u16, Instrument>, ms: seq<Message>, l: u16)
    ensures KnownBy(Run(a, Boot(instruments), ms), Directory(instruments, ms), l)
  {
    if ms != [] {
      var n := |ms| - 1;
      RunKnown(a, instruments, ms[..n], l);
      StepKnown(a, Run(a, Boot(instruments), ms[..n]), ms[n], Directory(instruments, ms[..n]), l);
    }
  }

  // ----- placeholders never collide -----

  /** The digits in front of the last one. */
  function Leading(n: nat): Text {
    if n < 10 then [] else Decimal(n / 10)
  }

  lemma DecimalParts(n: nat)
    ensures Decimal(n) == Leading(n) + [0x30 + n % 10]
    ensures Leading(n) == [] <==> n < 10
  {
  }

  lemma {:induction false} DecimalInjective(n: nat, k: nat)
    requires Decimal(n) == Decimal(k)
    ensures n == k
    decreases n
  {
    DecimalParts(n);
    DecimalParts(k);
    SnocInjective(Leading(n), 0x30 + n % 10, Leading(k), 0x30 + k % 10);
    if n >= 10 {
      DecimalInjective(n / 10, k / 10);
    }
  }

  lemma SnocInjective(x: Text, c: u8, y: Text, d: u8)
    requires x + [c] == y + [d]
    ensures x == y && c == d
  {
    assert (x + [c])[..|x|] == x && (y + [d])[..|y|] == y;
    assert (x + [c])[|x|] == c && (y + [d])[|y|] == d;
  }

  /** The number that a sequence of digits stands for. */
  function ValueOf(s: Text): int {
    if s == [] then 0 else ValueOf(s[..|s| - 1]) * 10 + (s[|s| - 1] as int - 0x30)
  }

  ghost predicate Digits(s: Text) {
    forall i :: 0 <= i < |s| ==> 0x30 <= s[i] <= 0x39
  }

  lemma ValueSnoc(s: Text, c: u8)
    ensures ValueOf(s + [c]) == ValueOf(s) * 10 + (c as int - 0x30)
  {
    assert (s + [c])[..|s|] == s;
  }

  /** `s` are decimal digits of value `n`, without leading zeros. */
  ghost predicate Spells(s: Text, n: nat) {
    Digits(s) && ValueOf(s) == n && |s| >= 1 && (s[0] == 0x30 ==> |s| == 1)
  }

  lemma {:induction false} DecimalSpells(n: nat)
    ensures Spells(Decimal(n), n) && (n > 0 ==> Decimal(n)[0] != 0x30)
  {
    var lead, last := Leading(n), 0x30 + n % 10;
    DecimalParts(n);
    ValueSnoc(lead, last);
    if n >= 10 {
      DecimalSpells(n / 10);
    }
  }

  /** The placeholder is "UNKNOWN_" and the locate in decimal without leading zeros, trading. */
  lemma PlaceholderText(l: u16)
    ensures var info := Placeholder(l);
            && info.locate == l && info.tradingState == 0x54 && |info.symbol| >= 9
            && info.symbol[..8] == [0x55, 0x4E, 0x4B, 0x4E, 0x4F, 0x57, 0x4E, 0x5F]
            && Spells(info.symbol[8..], l)
  {
    DecimalSpells(l);
    assert Placeholder(l).symbol[8..] == Decimal(l);
  }

  /** A placeholder's symbol is longer than any eight-byte stock, and no other locate has it. */
  lemma PlaceholderDistinct(l: u16, k: u16)
    ensures |Placeholder(l).symbol| >= 9
    ensures l != k ==> Placeholder(l).symbol != Placeholder(k).symbol
  {
    DecimalParts(l);
    var x, y := Placeholder(l).symbol, Placeholder(k).symbol;
    assert x[8..] == Decimal(l) && y[8..] == Decimal(k);
    if x == y {
      DecimalInjective(l, k);
    }
  }

  // ----- distinct symbols -----

  ghost predicate Short(dir: map<u16, Text>) {
    forall l :: l in dir ==> |dir[l]| <= 8
  }

  ghost predicate Injective(dir: map<u16, Text>) {
    forall l, k :: l in dir && k in dir && l != k ==> dir[l] != dir[k]
  }

  lemma NamesDiffer(dir: map<u16, Text>, l: u16, k: u16)
    requires Short(dir) && l != k
    ensures NameOf(dir, l) == NameOf(dir, k) <==> l in dir && k in dir && dir[l] == dir[k]
  {
    PlaceholderDistinct(l, k);
    PlaceholderDistinct(k, l);
  }

  lemma DistinctNames(instruments: map<u16, Instrument>, dir: map<u16, Text>)
    requires Short(dir) && forall l: u16 :: NamedBy(instruments, dir, l)
    ensures DistinctSymbols(instruments) <==> Injective(dir)
  {
    forall l, k | l in instruments && k in instruments && l != k
      ensures instruments[l].symbol == instruments[k].symbol <==> l in dir && k in dir && dir[l] == dir[k]
    {
      assert NamedBy(instruments, dir, l) && NamedBy(instruments, dir, k);
      NamesDiffer(dir, l, k);
    }
    forall l | l in dir ensures l in instruments {
      assert NamedBy(instruments, dir, l);
    }
  }

  /** Symbols are distinct after a run exactly when the directory's own stocks are. */
  lemma DistinctIffDirectory(a: Arith, instruments: map<u16, Instrument>, ms: seq<Message>)
    requires Short(Directory(instruments, ms))
    ensures DistinctSymbols(Run(a, Boot(instruments), ms).instruments) <==> Injective(Directory(instruments, ms))
  {
    var named, dir := Run(a, Boot(instruments), ms).instruments, Directory(instruments, ms);
    forall l: u16 ensures NamedBy(named, dir, l) {
      RunNames(a, instruments, ms, l);
    }
    DistinctNames(named, dir);
  }

  lemma ParsedStockShort(p: seq<u8>)
    requires Parse(p).Ok? && Parse(p).message.StockDirectory?
    ensures |Parse(p).message.stock| <= 8
  {
    PadStrip(p[11..11 + 8]);
  }

  lemma {:induction false} UnderstoodShort(bs: seq<seq<u8>>)
    ensures Short(Directory(map[], Drain.Understood(bs)))
  {
    if bs != [] {
      var n := |bs| - 1;
      UnderstoodShort(bs[..n]);
      if Parse(bs[n]).Ok? {
        var before, m := Drain.Understood(bs[..n]), Parse(bs[n]).message;
        assert (before + [m])[..|before|] == before;
        if m.StockDirectory? {
          ParsedStockShort(bs[n]);
        }
      } else {
        assert Drain.Understood(bs) == Drain.Understood(bs[..n]);
      }
    }
  }

  /**
   Whatever buffers arrive, a faithful snapshot has one entry per instrument exactly when the latest
   directory stocks are distinct: placeholders collide with nothing.
   */
  lemma FeedEntryPerInstrument(a: Arith, bs: seq<seq<u8>>, snap: Snapshot, complete: bool)
    requires Faithful(snap, Run(a, Boot(map[]), Drain.Understood(bs)), complete)
    ensures |snap.books| == |Run(a, Boot(map[]), Drain.Understood(bs)).instruments|
            <==> Injective(Directory(map[], Drain.Understood(bs)))
  {
    UnderstoodShort(bs);
    DistinctIffDirectory(a, map[], Drain.Understood(bs));
    EntryPerInstrument(snap, Run(a, Boot(map[]), Drain.Understood(bs)), complete);
  }

  lemma DirectoryStep(a: Arith, s: State, m: Message)
    requires m.StockDirectory?
    ensures var now := Apply(a, s, m).instruments;
            && m.locate in now && now[m.locate].symbol == m.stock
            && forall l :: l in s.instruments && l != m.locate ==> l in now && now[l] == s.instruments[l]
  {
  }

  lemma SharedStock(a: Arith, s: State, x: Message, y: Message)
    requires x.StockDirectory? && y.StockDirectory? && x.stock == y.stock && x.locate != y.locate
    ensures !DistinctSymbols(Apply(a, Apply(a, s, x), y).instruments)
  {
    var now := Apply(a, Apply(a, s, x), y).instruments;
    DirectoryStep(a, s, x);
    DirectoryStep(a, Apply(a, s, x), y);
    assert now[x.locate].symbol == now[y.locate].symbol;
  }

  /** Two directory messages give one stock to two locates: every snapshot then misses an entry. */
  lemma SharedStockMissesEntry(a: Arith, instruments: map<u16, Instrument>, x: Message, y: Message,
                               snap: Snapshot, complete: bool)
    requires x.StockDirectory? && y.StockDirectory? && x.stock == y.stock && x.locate != y.locate
    requires Faithful(snap, Run(a, Boot(instruments), [x, y]), complete)
    ensures |snap.books| < |Run(a, Boot(instruments), [x, y]).instruments|
  {
    assert [x] == [] + [x] && [x, y] == [x] + [y];
    RunSnoc(a, Boot(instruments), [], x);
    RunSnoc(a, Boot(instruments), [x], y);
    SharedStock(a, Boot(instruments), x, y);
    EntryPerInstrument(snap, Run(a, Boot(instruments), [x, y]), complete);
  }
}
