/** The fixed-width message parsers, and the encoder they invert. */
module Codec {
  import opened Words
  import opened Messages
  import opened Bytes

  // ----- field tables -----

  datatype Kind = Number | Alpha

  /** `width` bytes at `offset` from the start of the payload. */
  datatype Field = Field(offset: nat, width: nat, kind: Kind)

  datatype Value = N(n: nat) | T(text: Text)

  function ReadField(f: Field, buf: seq<u8>): Value
    requires f.offset + f.width <= |buf|
  {
    var bs := buf[f.offset..f.offset + f.width];
    if f.kind.Number? then N(FromBE(bs)) else T(StripSpaces(bs))
  }

  predicate FitsField(f: Field, v: Value) {
    if f.kind.Number? then v.N? && v.n < Pow256(f.width)
    else v.T? && |v.text| <= f.width && Trimmed(v.text)
  }

  function WriteField(f: Field, v: Value): (bs: seq<u8>)
    requires FitsField(f, v)
    ensures |bs| == f.width
  {
    if f.kind.Number? then ToBE(v.n, f.width) else Pad(v.text, f.width)
  }

  lemma FieldInverse(f: Field, v: Value, buf: seq<u8>)
    requires FitsField(f, v) && f.offset + f.width <= |buf|
    requires buf[f.offset..f.offset + f.width] == WriteField(f, v)
    ensures ReadField(f, buf) == v
  {
    if f.kind.Number? {
      FromToBE(v.n, f.width);
    } else {
      StripPad(v.text, f.width);
    }
  }

  lemma FieldReencodes(f: Field, buf: seq<u8>)
    requires f.offset + f.width <= |buf|
    ensures FitsField(f, ReadField(f, buf))
    ensures WriteField(f, ReadField(f, buf)) == buf[f.offset..f.offset + f.width]
  {
    var bs := buf[f.offset..f.offset + f.width];
    if f.kind.Number? {
      FromBEBound(bs);
      ToFromBE(bs);
    } else {
      PadStrip(bs);
    }
  }

  // ----- whole tables -----

  /** Where a table that starts at `start` ends. */
  function End(fs: seq<Field>, start: nat): nat {
    if fs == [] then start else fs[|fs| - 1].offset + fs[|fs| - 1].width
  }

  ghost predicate FollowsAt(fs: seq<Field>, start: nat, i: nat)
    requires i < |fs|
  {
    fs[i].offset == if i == 0 then start else fs[i - 1].offset + fs[i - 1].width
  }

  /** The fields follow each other without gaps from `start`. */
  ghost predicate Follow(fs: seq<Field>, start: nat) {
    forall i :: 0 <= i < |fs| ==> FollowsAt(fs, start, i)
  }

  function Extent(fs: seq<Field>): nat {
    End(fs, 0)
  }

  ghost predicate Contiguous(fs: seq<Field>) {
    Follow(fs, 0)
  }

  lemma FollowJoin(fs: seq<Field>, gs: seq<Field>, start: nat)
    requires Follow(fs, start) && Follow(gs, End(fs, start)) && fs != [] && gs != []
    ensures Follow(fs + gs, start) && End(fs + gs, start) == End(gs, End(fs, start))
  {
    var hs := fs + gs;
    forall i | 0 <= i < |hs| ensures FollowsAt(hs, start, i) {
      if i < |fs| {
        assert FollowsAt(fs, start, i);
      } else {
        assert FollowsAt(gs, End(fs, start), i - |fs|);
      }
    }
  }

  ghost predicate FitAll(fs: seq<Field>, vs: seq<Value>) {
    |fs| == |vs| && forall i :: 0 <= i < |fs| ==> FitsField(fs[i], vs[i])
  }

  ghost function WriteFields(fs: seq<Field>, vs: seq<Value>): seq<u8>
    requires FitAll(fs, vs)
  {
    if fs == [] then []
    else
      var n := |fs| - 1;
      WriteFields(fs[..n], vs[..n]) + WriteField(fs[n], vs[n])
  }

  ghost predicate ReadsAt(f: Field, buf: seq<u8>, v: Value) {
    f.offset + f.width <= |buf| && v == ReadField(f, buf)
  }

  /** `vs` are the values that the table reads from the buffer. */
  ghost predicate Reads(fs: seq<Field>, buf: seq<u8>, vs: seq<Value>) {
    |fs| == |vs| && forall i :: 0 <= i < |fs| ==> ReadsAt(fs[i], buf, vs[i])
  }

  lemma ReadsSnoc(fs: seq<Field>, buf: seq<u8>, vs: seq<Value>)
    requires fs != [] && |fs| == |vs|
    ensures var n := |fs| - 1;
            Reads(fs, buf, vs) <==> Reads(fs[..n], buf, vs[..n]) && ReadsAt(fs[n], buf, vs[n])
  {
  }

  lemma ContiguousPrefix(fs: seq<Field>)
    requires Contiguous(fs) && fs != []
    ensures Contiguous(fs[..|fs| - 1])
    ensures fs[|fs| - 1].offset == Extent(fs[..|fs| - 1])
  {
    var n := |fs| - 1;
    assert FollowsAt(fs, 0, n);
    forall i | 0 <= i < n ensures FollowsAt(fs[..n], 0, i) {
      assert FollowsAt(fs, 0, i);
    }
  }

  lemma {:induction false} WriteFieldsLength(fs: seq<Field>, vs: seq<Value>)
    requires Contiguous(fs) && FitAll(fs, vs)
    ensures |WriteFields(fs, vs)| == Extent(fs)
  {
    if fs != [] {
      ContiguousPrefix(fs);
      WriteFieldsLength(fs[..|fs| - 1], vs[..|fs| - 1]);
    }
  }

  lemma LastReadsBack(f: Field, v: Value, before: seq<u8>, tail: seq<u8>)
    requires FitsField(f, v) && f.offset == |before|
    ensures ReadsAt(f, before + (WriteField(f, v) + tail), v)
  {
    var buf := before + (WriteField(f, v) + tail);
    assert buf[f.offset..f.offset + f.width] == WriteField(f, v);
    FieldInverse(f, v, buf);
  }

  /** Reading what was written, whatever follows it, gives back the values. */
  lemma {:induction false} WrittenReadsBack(fs: seq<Field>, vs: seq<Value>, tail: seq<u8>)
    requires Contiguous(fs) && FitAll(fs, vs)
    ensures Reads(fs, WriteFields(fs, vs) + tail, vs)
  {
    if fs != [] {
      var n := |fs| - 1;
      ContiguousPrefix(fs);
      var before, more := WriteFields(fs[..n], vs[..n]), WriteField(fs[n], vs[n]) + tail;
      WriteFieldsLength(fs[..n], vs[..n]);
      WrittenReadsBack(fs[..n], vs[..n], more);
      LastReadsBack(fs[n], vs[n], before, tail);
      assert WriteFields(fs, vs) + tail == before + more;
      ReadsSnoc(fs, before + more, vs);
    }
  }

  lemma ReadFits(fs: seq<Field>, buf: seq<u8>, vs: seq<Value>)
    requires Reads(fs, buf, vs)
    ensures FitAll(fs, vs)
  {
    forall i | 0 <= i < |fs| ensures FitsField(fs[i], vs[i]) {
      assert ReadsAt(fs[i], buf, vs[i]);
      FieldReencodes(fs[i], buf);
    }
  }

  lemma LastWritesBack(f: Field, buf: seq<u8>, v: Value)
    requires ReadsAt(f, buf, v)
    ensures FitsField(f, v) && buf[..f.offset] + WriteField(f, v) == buf[..f.offset + f.width]
  {
    FieldReencodes(f, buf);
  }

  /** Writing what was read recovers the bytes. */
  lemma {:induction false} ReadWritesBack(fs: seq<Field>, buf: seq<u8>, vs: seq<Value>)
    requires Contiguous(fs) && Reads(fs, buf, vs)
    ensures FitAll(fs, vs) && Extent(fs) <= |buf| && WriteFields(fs, vs) == buf[..Extent(fs)]
  {
    ReadFits(fs, buf, vs);
    if fs != [] {
      var n := |fs| - 1;
      ContiguousPrefix(fs);
      ReadsSnoc(fs, buf, vs);
      ReadWritesBack(fs[..n], buf, vs[..n]);
      LastWritesBack(fs[n], buf, vs[n]);
    }
  }

  // ----- the nine parsers -----

  /** A parse returns a message, ignores an out-of-scope type, or throws. */
  datatype Parsed = Ok(message: Message) | OutOfScope | Truncated | EmptyBuffer

  function ReadAlpha(p: seq<u8>, at: nat, len: nat): Text
    requires at + len <= |p|
  {
    StripSpaces(p[at..at + len])
  }

  function ParseStockDirectory(p: seq<u8>): Parsed {
    if |p| < 39 then Truncated
    else Ok(StockDirectory(
        ReadBE16(p, 1), ReadBE16(p, 3), ReadBE48(p, 5), ReadAlpha(p, 11, 8), p[19], p[20],
        ReadBE32(p, 21), p[25], p[26], ReadAlpha(p, 27, 2), p[29], p[30], p[31], p[32], p[33],
        ReadBE32(p, 34), p[38]))
  }

  function ParseTradingAction(p: seq<u8>): Parsed {
    if |p| < 25 then Truncated
    else Ok(TradingAction(
        ReadBE16(p, 1), ReadBE16(p, 3), ReadBE48(p, 5), ReadAlpha(p, 11, 8), p[19], p[20],
        ReadAlpha(p, 21, 4)))
  }

  function ParseAddOrder(p: seq<u8>): Parsed {
    if |p| < 36 then Truncated
    else Ok(AddOrder(
        ReadBE16(p, 1), ReadBE16(p, 3), ReadBE48(p, 5), ReadBE64(p, 11), p[19], ReadBE32(p, 20),
        ReadAlpha(p, 24, 8), ReadBE32(p, 32)))
  }

  function ParseAddOrderMpid(p: seq<u8>): Parsed {
    if |p| < 40 then Truncated
    else Ok(AddOrderMpid(
        ReadBE16(p, 1), ReadBE16(p, 3), ReadBE48(p, 5), ReadBE64(p, 11), p[19], ReadBE32(p, 20),
        ReadAlpha(p, 24, 8), ReadBE32(p, 32), ReadAlpha(p, 36, 4)))
  }

  function ParseExecuted(p: seq<u8>): Parsed {
    if |p| < 31 then Truncated
    else Ok(Executed(
        ReadBE16(p, 1), ReadBE16(p, 3), ReadBE48(p, 5), ReadBE64(p, 11), ReadBE32(p, 19),
        ReadBE64(p, 23)))
  }

  function ParseExecutedPrice(p: seq<u8>): Parsed {
    if |p| < 36 then Truncated
    else Ok(ExecutedPrice(
        ReadBE16(p, 1), ReadBE16(p, 3), ReadBE48(p, 5), ReadBE64(p, 11), ReadBE32(p, 19),
        ReadBE64(p, 23), p[31], ReadBE32(p, 32)))
  }

  function ParseCancel(p: seq<u8>): Parsed {
    if |p| < 23 then Truncated
    else Ok(Cancel(
        ReadBE16(p, 1), ReadBE16(p, 3), ReadBE48(p, 5), ReadBE64(p, 11), ReadBE32(p, 19)))
  }

  function ParseDelete(p: seq<u8>): Parsed {
    if |p| < 19 then Truncated
    else Ok(Delete(
        ReadBE16(p, 1), ReadBE16(p, 3), ReadBE48(p, 5), ReadBE64(p, 11)))
  }

  function ParseReplace(p: seq<u8>): Parsed {
    if |p| < 35 then Truncated
    else Ok(Replace(
        ReadBE16(p, 1), ReadBE16(p, 3), ReadBE48(p, 5), ReadBE64(p, 11), ReadBE64(p, 19),
        ReadBE32(p, 27), ReadBE32(p, 31)))
  }

  function Parse(p: seq<u8>): Parsed {
    if p == [] then EmptyBuffer
    else match p[0]
      case 0x52 => ParseStockDirectory(p)  // 'R'
      case 0x48 => ParseTradingAction(p)  // 'H'
      case 0x41 => ParseAddOrder(p)  // 'A'
      case 0x46 => ParseAddOrderMpid(p)  // 'F'
      case 0x45 => ParseExecuted(p)  // 'E'
      case 0x43 => ParseExecutedPrice(p)  // 'C'
      case 0x58 => ParseCancel(p)  // 'X'
      case 0x44 => ParseDelete(p)  // 'D'
      case 0x55 => ParseReplace(p)  // 'U'
      case _ => OutOfScope
  }

  // ----- the encoder: type byte and fields of each message -----

  function HeaderValues(kind: u8, m: Message): seq<Value> {
    [N(kind), N(m.locate), N(m.tracking), N(m.timestamp)]
  }

  function DirectoryFrontValues(m: Message): seq<Value>
    requires m.StockDirectory?
  {
    [T(m.stock), N(m.marketCategory), N(m.financialStatus), N(m.roundLotSize),
     N(m.roundLotsOnly), N(m.issueClassification), T(m.issueSubType)]
  }

  function DirectoryBackValues(m: Message): seq<Value>
    requires m.StockDirectory?
  {
    [N(m.authenticity), N(m.shortSaleThreshold), N(m.ipoFlag), N(m.luldTier),
     N(m.etpFlag), N(m.etpLeverage), N(m.inverseIndicator)]
  }

  function TypeByte(m: Message): u8 {
    if m.StockDirectory? then 0x52
    else if m.TradingAction? then 0x48
    else if m.AddOrder? then 0x41
    else if m.AddOrderMpid? then 0x46
    else if m.Executed? then 0x45
    else if m.ExecutedPrice? then 0x43
    else if m.Cancel? then 0x58
    else if m.Delete? then 0x44
    else 0x55
  }

  function BodyValues(m: Message): seq<Value> {
    if m.StockDirectory? then
      DirectoryFrontValues(m) + DirectoryBackValues(m)
    else if m.TradingAction? then
      [T(m.stock), N(m.tradingState),
       N(m.reserved), T(m.reason)]
    else if m.AddOrder? then
      [N(m.ref), N(m.side), N(m.shares),
       T(m.stock), N(m.price)]
    else if m.AddOrderMpid? then
      [N(m.ref), N(m.side), N(m.shares),
       T(m.stock), N(m.price), T(m.attribution)]
    else if m.Executed? then
      [N(m.ref), N(m.executedShares),
       N(m.matchNumber)]
    else if m.ExecutedPrice? then
      [N(m.ref), N(m.executedShares),
       N(m.matchNumber), N(m.printable), N(m.executionPrice)]
    else if m.Cancel? then
      [N(m.ref), N(m.cancelledShares)]
    else if m.Delete? then
      [N(m.ref)]
    else
      [N(m.ref), N(m.newRef), N(m.shares),
       N(m.price)]
  }

  function Values(m: Message): seq<Value> {
    HeaderValues(TypeByte(m), m) + BodyValues(m)
  }

  function HeaderFields(): seq<Field> {
    [Field(0, 1, Number), Field(1, 2, Number), Field(3, 2, Number), Field(5, 6, Number)]
  }

  function DirectoryFront(): seq<Field> {
    [Field(11, 8, Alpha), Field(19, 1, Number), Field(20, 1, Number), Field(21, 4, Number),
     Field(25, 1, Number), Field(26, 1, Number), Field(27, 2, Alpha)]
  }

  function DirectoryBack(): seq<Field> {
    [Field(29, 1, Number), Field(30, 1, Number), Field(31, 1, Number), Field(32, 1, Number),
     Field(33, 1, Number), Field(34, 4, Number), Field(38, 1, Number)]
  }

  function Body(m: Message): seq<Field> {
    if m.StockDirectory? then
      DirectoryFront() + DirectoryBack()
    else if m.TradingAction? then
      [Field(11, 8, Alpha), Field(19, 1, Number), Field(20, 1, Number),
       Field(21, 4, Alpha)]
    else if m.AddOrder? then
      [Field(11, 8, Number), Field(19, 1, Number), Field(20, 4, Number),
       Field(24, 8, Alpha), Field(32, 4, Number)]
    else if m.AddOrderMpid? then
      [Field(11, 8, Number), Field(19, 1, Number), Field(20, 4, Number),
       Field(24, 8, Alpha), Field(32, 4, Number), Field(36, 4, Alpha)]
    else if m.Executed? then
      [Field(11, 8, Number), Field(19, 4, Number), Field(23, 8, Number)]
    else if m.ExecutedPrice? then
      [Field(11, 8, Number), Field(19, 4, Number), Field(23, 8, Number),
       Field(31, 1, Number), Field(32, 4, Number)]
    else if m.Cancel? then
      [Field(11, 8, Number), Field(19, 4, Number)]
    else if m.Delete? then
      [Field(11, 8, Number)]
    else
      [Field(11, 8, Number), Field(19, 8, Number), Field(27, 4, Number),
       Field(31, 4, Number)]
  }

  function Layout(m: Message): seq<Field> {
    HeaderFields() + Body(m)
  }

  // ----- parsers read their tables -----

  lemma HeaderReads(p: seq<u8>, m: Message)
    requires |p| >= 11
    requires m.locate == ReadBE16(p, 1) && m.tracking == ReadBE16(p, 3) && m.timestamp == ReadBE48(p, 5)
    ensures Reads(HeaderFields(), p, HeaderValues(p[0], m))
  {
    ByteIsBE(p, 0);
    ReadBE16IsBE(p, 1);
    ReadBE16IsBE(p, 3);
    ReadBE48IsBE(p, 5);
  }

  lemma ReadsJoin(fs: seq<Field>, gs: seq<Field>, p: seq<u8>, vs: seq<Value>, ws: seq<Value>)
    requires Reads(fs, p, vs) && Reads(gs, p, ws)
    ensures Reads(fs + gs, p, vs + ws)
  {
  }

  lemma DirectoryFrontReads(p: seq<u8>)
    requires ParseStockDirectory(p).Ok?
    ensures Reads(DirectoryFront(), p, DirectoryFrontValues(ParseStockDirectory(p).message))
  {
    ByteIsBE(p, 19);
    ByteIsBE(p, 20);
    ByteIsBE(p, 25);
    ByteIsBE(p, 26);
    ReadBE32IsBE(p, 21);
  }

  lemma DirectoryBackReads(p: seq<u8>)
    requires ParseStockDirectory(p).Ok?
    ensures Reads(DirectoryBack(), p, DirectoryBackValues(ParseStockDirectory(p).message))
  {
    ByteIsBE(p, 29);
    ByteIsBE(p, 30);
    ByteIsBE(p, 31);
    ByteIsBE(p, 32);
    ByteIsBE(p, 33);
    ByteIsBE(p, 38);
    ReadBE32IsBE(p, 34);
  }

  lemma StockDirectoryReads(p: seq<u8>)
    requires ParseStockDirectory(p).Ok?
    ensures var m := ParseStockDirectory(p).message; Reads(Body(m), p, BodyValues(m))
  {
    var m := ParseStockDirectory(p).message;
    DirectoryFrontReads(p);
    DirectoryBackReads(p);
    ReadsJoin(DirectoryFront(), DirectoryBack(), p, DirectoryFrontValues(m), DirectoryBackValues(m));
  }

  lemma TradingActionReads(p: seq<u8>)
    requires ParseTradingAction(p).Ok?
    ensures var m := ParseTradingAction(p).message; Reads(Body(m), p, BodyValues(m))
  {
    ByteIsBE(p, 19);
    ByteIsBE(p, 20);
  }

  lemma AddOrderReads(p: seq<u8>)
    requires ParseAddOrder(p).Ok?
    ensures var m := ParseAddOrder(p).message; Reads(Body(m), p, BodyValues(m))
  {
    ByteIsBE(p, 19);
    ReadBE32IsBE(p, 20);
    ReadBE32IsBE(p, 32);
    ReadBE64IsBE(p, 11);
  }

  lemma AddOrderMpidReads(p: seq<u8>)
    requires ParseAddOrderMpid(p).Ok?
    ensures var m := ParseAddOrderMpid(p).message; Reads(Body(m), p, BodyValues(m))
  {
    ByteIsBE(p, 19);
    ReadBE32IsBE(p, 20);
    ReadBE32IsBE(p, 32);
    ReadBE64IsBE(p, 11);
  }

  lemma ExecutedReads(p: seq<u8>)
    requires ParseExecuted(p).Ok?
    ensures var m := ParseExecuted(p).message; Reads(Body(m), p, BodyValues(m))
  {
    ReadBE32IsBE(p, 19);
    ReadBE64IsBE(p, 11);
    ReadBE64IsBE(p, 23);
  }

  lemma ExecutedPriceReads(p: seq<u8>)
    requires ParseExecutedPrice(p).Ok?
    ensures var m := ParseExecutedPrice(p).message; Reads(Body(m), p, BodyValues(m))
  {
    ByteIsBE(p, 31);
    ReadBE32IsBE(p, 19);
    ReadBE32IsBE(p, 32);
    ReadBE64IsBE(p, 11);
    ReadBE64IsBE(p, 23);
  }

  lemma CancelReads(p: seq<u8>)
    requires ParseCancel(p).Ok?
    ensures var m := ParseCancel(p).message; Reads(Body(m), p, BodyValues(m))
  {
    ReadBE32IsBE(p, 19);
    ReadBE64IsBE(p, 11);
  }

  lemma DeleteReads(p: seq<u8>)
    requires ParseDelete(p).Ok?
    ensures var m := ParseDelete(p).message; Reads(Body(m), p, BodyValues(m))
  {
    ReadBE64IsBE(p, 11);
  }

  lemma ReplaceReads(p: seq<u8>)
    requires ParseReplace(p).Ok?
    ensures var m := ParseReplace(p).message; Reads(Body(m), p, BodyValues(m))
  {
    ReadBE32IsBE(p, 27);
    ReadBE32IsBE(p, 31);
    ReadBE64IsBE(p, 11);
    ReadBE64IsBE(p, 19);
  }


  lemma ParseReads(p: seq<u8>)
    requires Parse(p).Ok?
    ensures var m := Parse(p).message; Reads(Layout(m), p, Values(m))
  {
    if p[0] == 0x52 { StockDirectoryReads(p); }
    else if p[0] == 0x48 { TradingActionReads(p); }
    else if p[0] == 0x41 { AddOrderReads(p); }
    else if p[0] == 0x46 { AddOrderMpidReads(p); }
    else if p[0] == 0x45 { ExecutedReads(p); }
    else if p[0] == 0x43 { ExecutedPriceReads(p); }
    else if p[0] == 0x58 { CancelReads(p); }
    else if p[0] == 0x44 { DeleteReads(p); }
    else { ReplaceReads(p); }
    var m := Parse(p).message;
    HeaderReads(p, m);
    ReadsJoin(HeaderFields(), Body(m), p, HeaderValues(p[0], m), BodyValues(m));
  }

  // ----- parse and encode are inverse -----

  /** Payload length that a message's parser requires. */
  function Required(m: Message): nat {
    if m.StockDirectory? then 39
    else if m.TradingAction? then 25
    else if m.AddOrder? then 36
    else if m.AddOrderMpid? then 40
    else if m.Executed? then 31
    else if m.ExecutedPrice? then 36
    else if m.Cancel? then 23
    else if m.Delete? then 19
    else 35
  }

  lemma BodyFollowsHeader(m: Message)
    ensures Follow(Body(m), 11) && End(Body(m), 11) == Required(m)
    ensures |Body(m)| == |BodyValues(m)| > 0
  {
    if m.StockDirectory? {
      FollowJoin(DirectoryFront(), DirectoryBack(), 11);
    }
  }

  lemma LayoutContiguous(m: Message)
    ensures Contiguous(Layout(m)) && Extent(Layout(m)) == Required(m)
    ensures |Layout(m)| == |Values(m)|
  {
    BodyFollowsHeader(m);
    FollowJoin(HeaderFields(), Body(m), 0);
  }

  /** Alpha fields fit their width without trailing spaces, and the timestamp its six bytes. */
  ghost predicate Encodable(m: Message) {
    FitAll(Layout(m), Values(m))
  }

  ghost function Encode(m: Message): seq<u8>
    requires Encodable(m)
  {
    WriteFields(Layout(m), Values(m))
  }

  lemma EncodedLength(m: Message)
    requires Encodable(m)
    ensures |Encode(m)| == Required(m) && Encode(m)[0] == TypeByte(m)
  {
    LayoutContiguous(m);
    WriteFieldsLength(Layout(m), Values(m));
    WrittenReadsBack(Layout(m), Values(m), []);
    assert Encode(m) + [] == Encode(m);
    assert ReadsAt(Layout(m)[0], Encode(m), Values(m)[0]);
    ByteIsBE(Encode(m), 0);
  }

  /** A table determines what it reads. */
  lemma ReadsUnique(fs: seq<Field>, p: seq<u8>, vs: seq<Value>, ws: seq<Value>)
    requires Reads(fs, p, vs) && Reads(fs, p, ws)
    ensures vs == ws
  {
  }

  /** The fields of a message, in order, determine it. */
  lemma ValuesInjective(m: Message, m': Message)
    requires TypeByte(m) == TypeByte(m') && Values(m) == Values(m')
    ensures m == m'
  {
    var h, b, h', b' := HeaderValues(TypeByte(m), m), BodyValues(m), HeaderValues(TypeByte(m'), m'), BodyValues(m');
    assert (h + b)[..4] == h && (h' + b')[..4] == h' && (h + b)[4..] == b && (h' + b')[4..] == b';
    assert h[1] == h'[1] && h[2] == h'[2] && h[3] == h'[3];
    if m.StockDirectory? {
      var f, f' := DirectoryFrontValues(m), DirectoryFrontValues(m');
      assert b[..7] == f && b'[..7] == f' && b[7..] == DirectoryBackValues(m) && b'[7..] == DirectoryBackValues(m');
    }
  }

  /** Only the type byte and the length decide whether a buffer parses, throws or is ignored. */
  lemma ParseOutcome(p: seq<u8>)
    ensures Parse(p).EmptyBuffer? <==> p == []
    ensures Parse(p).OutOfScope? <==> p != [] && forall m: Message :: TypeByte(m) != p[0]
    ensures forall m: Message :: p != [] && TypeByte(m) == p[0] ==> (Parse(p).Truncated? <==> |p| < Required(m))
    ensures Parse(p).Ok? ==> |p| >= Required(Parse(p).message) && TypeByte(Parse(p).message) == p[0]
  {
    if p != [] && !Parse(p).OutOfScope? {
      var m := Sample(p[0]);
      assert TypeByte(m) == p[0];
    }
  }

  /** Some message of each type. */
  function Sample(t: u8): (m: Message)
    requires t in {0x52, 0x48, 0x41, 0x46, 0x45, 0x43, 0x58, 0x44, 0x55}
    ensures TypeByte(m) == t
  {
    if t == 0x52 then StockDirectory(0, 0, 0, [], 0, 0, 0, 0, 0, [], 0, 0, 0, 0, 0, 0, 0)
    else if t == 0x48 then TradingAction(0, 0, 0, [], 0, 0, [])
    else if t == 0x41 then AddOrder(0, 0, 0, 0, 0, 0, [], 0)
    else if t == 0x46 then AddOrderMpid(0, 0, 0, 0, 0, 0, [], 0, [])
    else if t == 0x45 then Executed(0, 0, 0, 0, 0, 0)
    else if t == 0x43 then ExecutedPrice(0, 0, 0, 0, 0, 0, 0, 0)
    else if t == 0x58 then Cancel(0, 0, 0, 0, 0)
    else if t == 0x44 then Delete(0, 0, 0, 0)
    else Replace(0, 0, 0, 0, 0, 0, 0)
  }

  lemma SameType(m: Message, m': Message)
    requires TypeByte(m) == TypeByte(m')
    ensures Layout(m) == Layout(m')
  {
  }

  /** Parsing an encoded message, whatever bytes follow it, gives the message back. */
  lemma ParseEncoded(m: Message, tail: seq<u8>)
    requires Encodable(m)
    ensures Parse(Encode(m) + tail) == Ok(m)
  {
    var p := Encode(m) + tail;
    EncodedLength(m);
    ParseOutcome(p);
    assert p[0] == TypeByte(m);
    var m' := Parse(p).message;
    ParseReads(p);
    LayoutContiguous(m);
    WrittenReadsBack(Layout(m), Values(m), tail);
    SameType(m, m');
    ReadsUnique(Layout(m), p, Values(m), Values(m'));
    ValuesInjective(m, m');
  }

  /** Re-encoding a parsed message recovers exactly the bytes its parser looks at. */
  lemma EncodeParsed(p: seq<u8>)
    requires Parse(p).Ok?
    ensures var m := Parse(p).message;
            Encodable(m) && Required(m) <= |p| && Encode(m) == p[..Required(m)]
  {
    var m := Parse(p).message;
    ParseReads(p);
    LayoutContiguous(m);
    ReadWritesBack(Layout(m), p, Values(m));
  }

  /** A parse depends only on the required prefix of the buffer. */
  lemma ParseUsesPrefix(p: seq<u8>)
    requires Parse(p).Ok?
    ensures Parse(p[..Required(Parse(p).message)]) == Parse(p)
  {
    var m := Parse(p).message;
    EncodeParsed(p);
    ParseEncoded(m, []);
    assert Encode(m) + [] == Encode(m);
  }
}
