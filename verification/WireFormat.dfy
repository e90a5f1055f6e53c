/** The bytes of each message on the wire, written out field by field. */
module WireFormat {
  import opened Words
  import opened Messages
  import opened Bytes
  import opened Codec

  /** The encoding starts with the bytes `bs`. */
  ghost predicate Begins(m: Message, bs: seq<u8>) {
    Encodable(m) && bs <= Encode(m)
  }

  lemma FieldBytes(buf: seq<u8>, bs: seq<u8>, f: Field, v: Value)
    requires bs <= buf && f.offset == |bs| && FitsField(f, v) && ReadsAt(f, buf, v)
    ensures bs + WriteField(f, v) <= buf
  {
    FieldReencodes(f, buf);
    assert buf[..|bs| + f.width] == bs + buf[|bs|..|bs| + f.width];
  }

  /** Every field of an encoded message reads back. */
  lemma FieldReads(m: Message, i: nat)
    requires Encodable(m) && i < |Layout(m)|
    ensures FitsField(Layout(m)[i], Values(m)[i]) && ReadsAt(Layout(m)[i], Encode(m), Values(m)[i])
  {
    LayoutContiguous(m);
    WrittenReadsBack(Layout(m), Values(m), []);
    assert Encode(m) + [] == Encode(m);
  }

  lemma FieldAt(m: Message, bs: seq<u8>, i: nat)
    requires Begins(m, bs) && i < |Layout(m)| && Layout(m)[i].offset == |bs|
    ensures FitsField(Layout(m)[i], Values(m)[i]) && Begins(m, bs + WriteField(Layout(m)[i], Values(m)[i]))
  {
    FieldReads(m, i);
    FieldBytes(Encode(m), bs, Layout(m)[i], Values(m)[i]);
  }

  /** The field `i` of the body comes next. */
  ghost predicate Due(m: Message, bs: seq<u8>, i: nat, f: Field, v: Value) {
    Begins(m, bs) && i < |Body(m)| == |BodyValues(m)| && Body(m)[i] == f && BodyValues(m)[i] == v && f.offset == |bs|
  }

  lemma BodyAt(m: Message, bs: seq<u8>, i: nat, f: Field, v: Value)
    requires Due(m, bs, i, f, v)
    ensures FitsField(f, v) && Begins(m, bs + WriteField(f, v))
  {
    FieldAt(m, bs, i + 4);
  }

  lemma NumberAt(m: Message, bs: seq<u8>, i: nat, w: nat, n: nat) returns (more: seq<u8>)
    requires Due(m, bs, i, Field(|bs|, w, Number), N(n))
    ensures more == bs + ToBE(n, w) && Begins(m, more)
  {
    BodyAt(m, bs, i, Field(|bs|, w, Number), N(n));
    more := bs + ToBE(n, w);
  }

  lemma SingleByte(n: u8)
    ensures ToBE(n, 1) == [n]
  {
    assert ToBE(n / 256, 0) == [];
  }

  lemma ByteAt(m: Message, bs: seq<u8>, i: nat, n: u8) returns (more: seq<u8>)
    requires Due(m, bs, i, Field(|bs|, 1, Number), N(n))
    ensures more == bs + [n] && Begins(m, more)
  {
    SingleByte(n);
    more := NumberAt(m, bs, i, 1, n);
  }

  lemma TextAt(m: Message, bs: seq<u8>, i: nat, w: nat, t: Text) returns (more: seq<u8>)
    requires Due(m, bs, i, Field(|bs|, w, Alpha), T(t))
    ensures more == bs + Pad(t, w) && Begins(m, more)
  {
    BodyAt(m, bs, i, Field(|bs|, w, Alpha), T(t));
    more := bs + Pad(t, w);
  }

  /** The header of an encoded message. */
  lemma Header(m: Message) returns (bs: seq<u8>)
    requires Encodable(m)
    ensures bs == [TypeByte(m)] + ToBE(m.locate, 2) + ToBE(m.tracking, 2) + ToBE(m.timestamp, 6)
    ensures |bs| == 11 && Begins(m, bs)
  {
    FieldAt(m, [], 0);
    SingleByte(TypeByte(m));
    bs := [TypeByte(m)];
    assert [] + bs == bs;
    FieldAt(m, bs, 1);
    bs := bs + ToBE(m.locate, 2);
    FieldAt(m, bs, 2);
    bs := bs + ToBE(m.tracking, 2);
    FieldAt(m, bs, 3);
    bs := bs + ToBE(m.timestamp, 6);
  }

  lemma Finish(m: Message, bs: seq<u8>)
    requires Begins(m, bs) && |bs| == Required(m)
    ensures Encode(m) == bs
  {
    EncodedLength(m);
  }

  // ----- the nine messages -----

  lemma StockDirectoryWire(m: Message)
    requires m.StockDirectory? && Encodable(m)
    ensures Encode(m) == [0x52] + ToBE(m.locate, 2) + ToBE(m.tracking, 2) + ToBE(m.timestamp, 6)
                         + Pad(m.stock, 8) + [m.marketCategory] + [m.financialStatus] + ToBE(m.roundLotSize, 4)
                         + [m.roundLotsOnly] + [m.issueClassification] + Pad(m.issueSubType, 2)
                         + [m.authenticity] + [m.shortSaleThreshold] + [m.ipoFlag] + [m.luldTier] + [m.etpFlag]
                         + ToBE(m.etpLeverage, 4) + [m.inverseIndicator]
  {
    var bs := Header(m);
    bs := TextAt(m, bs, 0, 8, m.stock);
    bs := ByteAt(m, bs, 1, m.marketCategory);
    bs := ByteAt(m, bs, 2, m.financialStatus);
    bs := NumberAt(m, bs, 3, 4, m.roundLotSize);
    bs := ByteAt(m, bs, 4, m.roundLotsOnly);
    bs := ByteAt(m, bs, 5, m.issueClassification);
    bs := TextAt(m, bs, 6, 2, m.issueSubType);
    bs := ByteAt(m, bs, 7, m.authenticity);
    bs := ByteAt(m, bs, 8, m.shortSaleThreshold);
    bs := ByteAt(m, bs, 9, m.ipoFlag);
    bs := ByteAt(m, bs, 10, m.luldTier);
    bs := ByteAt(m, bs, 11, m.etpFlag);
    bs := NumberAt(m, bs, 12, 4, m.etpLeverage);
    bs := ByteAt(m, bs, 13, m.inverseIndicator);
    Finish(m, bs);
  }

  lemma TradingActionWire(m: Message)
    requires m.TradingAction? && Encodable(m)
    ensures Encode(m) == [0x48] + ToBE(m.locate, 2) + ToBE(m.tracking, 2) + ToBE(m.timestamp, 6)
                         + Pad(m.stock, 8) + [m.tradingState] + [m.reserved] + Pad(m.reason, 4)
  {
    var bs := Header(m);
    bs := TextAt(m, bs, 0, 8, m.stock);
    bs := ByteAt(m, bs, 1, m.tradingState);
    bs := ByteAt(m, bs, 2, m.reserved);
    bs := TextAt(m, bs, 3, 4, m.reason);
    Finish(m, bs);
  }

  lemma AddOrderWire(m: Message)
    requires m.AddOrder? && Encodable(m)
    ensures Encode(m) == [0x41] + ToBE(m.locate, 2) + ToBE(m.tracking, 2) + ToBE(m.timestamp, 6)
                         + ToBE(m.ref, 8) + [m.side] + ToBE(m.shares, 4) + Pad(m.stock, 8) + ToBE(m.price, 4)
  {
    var bs := Header(m);
    bs := NumberAt(m, bs, 0, 8, m.ref);
    bs := ByteAt(m, bs, 1, m.side);
    bs := NumberAt(m, bs, 2, 4, m.shares);
    bs := TextAt(m, bs, 3, 8, m.stock);
    bs := NumberAt(m, bs, 4, 4, m.price);
    Finish(m, bs);
  }

  lemma AddOrderMpidWire(m: Message)
    requires m.AddOrderMpid? && Encodable(m)
    ensures Encode(m) == [0x46] + ToBE(m.locate, 2) + ToBE(m.tracking, 2) + ToBE(m.timestamp, 6)
                         + ToBE(m.ref, 8) + [m.side] + ToBE(m.shares, 4) + Pad(m.stock, 8) + ToBE(m.price, 4)
                         + Pad(m.attribution, 4)
  {
    var bs := Header(m);
    bs := NumberAt(m, bs, 0, 8, m.ref);
    bs := ByteAt(m, bs, 1, m.side);
    bs := NumberAt(m, bs, 2, 4, m.shares);
    bs := TextAt(m, bs, 3, 8, m.stock);
    bs := NumberAt(m, bs, 4, 4, m.price);
    bs := TextAt(m, bs, 5, 4, m.attribution);
    Finish(m, bs);
  }

  lemma ExecutedWire(m: Message)
    requires m.Executed? && Encodable(m)
    ensures Encode(m) == [0x45] + ToBE(m.locate, 2) + ToBE(m.tracking, 2) + ToBE(m.timestamp, 6)
                         + ToBE(m.ref, 8) + ToBE(m.executedShares, 4) + ToBE(m.matchNumber, 8)
  {
    var bs := Header(m);
    bs := NumberAt(m, bs, 0, 8, m.ref);
    bs := NumberAt(m, bs, 1, 4, m.executedShares);
    bs := NumberAt(m, bs, 2, 8, m.matchNumber);
    Finish(m, bs);
  }

  lemma ExecutedPriceWire(m: Message)
    requires m.ExecutedPrice? && Encodable(m)
    ensures Encode(m) == [0x43] + ToBE(m.locate, 2) + ToBE(m.tracking, 2) + ToBE(m.timestamp, 6)
                         + ToBE(m.ref, 8) + ToBE(m.executedShares, 4) + ToBE(m.matchNumber, 8) + [m.printable]
                         + ToBE(m.executionPrice, 4)
  {
    var bs := Header(m);
    bs := NumberAt(m, bs, 0, 8, m.ref);
    bs := NumberAt(m, bs, 1, 4, m.executedShares);
    bs := NumberAt(m, bs, 2, 8, m.matchNumber);
    bs := ByteAt(m, bs, 3, m.printable);
    bs := NumberAt(m, bs, 4, 4, m.executionPrice);
    Finish(m, bs);
  }

  lemma CancelWire(m: Message)
    requires m.Cancel? && Encodable(m)
    ensures Encode(m) == [0x58] + ToBE(m.locate, 2) + ToBE(m.tracking, 2) + ToBE(m.timestamp, 6)
                         + ToBE(m.ref, 8) + ToBE(m.cancelledShares, 4)
  {
    var bs := Header(m);
    bs := NumberAt(m, bs, 0, 8, m.ref);
    bs := NumberAt(m, bs, 1, 4, m.cancelledShares);
    Finish(m, bs);
  }

  lemma DeleteWire(m: Message)
    requires m.Delete? && Encodable(m)
    ensures Encode(m) == [0x44] + ToBE(m.locate, 2) + ToBE(m.tracking, 2) + ToBE(m.timestamp, 6)
                         + ToBE(m.ref, 8)
  {
    var bs := Header(m);
    bs := NumberAt(m, bs, 0, 8, m.ref);
    Finish(m, bs);
  }

  lemma ReplaceWire(m: Message)
    requires m.Replace? && Encodable(m)
    ensures Encode(m) == [0x55] + ToBE(m.locate, 2) + ToBE(m.tracking, 2) + ToBE(m.timestamp, 6)
                         + ToBE(m.ref, 8) + ToBE(m.newRef, 8) + ToBE(m.shares, 4) + ToBE(m.price, 4)
  {
    var bs := Header(m);
    bs := NumberAt(m, bs, 0, 8, m.ref);
    bs := NumberAt(m, bs, 1, 8, m.newRef);
    bs := NumberAt(m, bs, 2, 4, m.shares);
    bs := NumberAt(m, bs, 3, 4, m.price);
    Finish(m, bs);
  }

  // ----- which messages can be written -----

  /** Padding fills up with spaces. */
  lemma PadBytes(s: Text, w: nat, i: nat)
    requires |s| <= w && i < w
    ensures |Pad(s, w)| == w && Pad(s, w)[i] == if i < |s| then s[i] else 0x20
  {
  }

  lemma FitAllJoin(fs: seq<Field>, gs: seq<Field>, vs: seq<Value>, ws: seq<Value>)
    requires |fs| == |vs|
    ensures FitAll(fs + gs, vs + ws) <==> FitAll(fs, vs) && FitAll(gs, ws)
  {
    var hs, us := fs + gs, vs + ws;
    if FitAll(hs, us) {
      forall i | 0 <= i < |fs| ensures FitsField(fs[i], vs[i]) {
        assert FitsField(hs[i], us[i]);
      }
      forall i | 0 <= i < |gs| ensures FitsField(gs[i], ws[i]) {
        assert FitsField(hs[|fs| + i], us[|fs| + i]);
      }
    }
  }

  /** At most `w` bytes, the last of them not a space. */
  predicate FitsText(s: Text, w: nat) {
    |s| <= w && (s == [] || s[|s| - 1] != 0x20)
  }

  lemma HeaderFits(kind: u8, m: Message)
    ensures FitAll(HeaderFields(), HeaderValues(kind, m)) <==> m.timestamp < 0x1_0000_0000_0000
  {
    Powers();
    var fs, vs := HeaderFields(), HeaderValues(kind, m);
    assert FitsField(fs[3], vs[3]) <==> m.timestamp < 0x1_0000_0000_0000;
  }

  lemma DirectoryFits(m: Message)
    requires m.StockDirectory?
    ensures FitAll(Body(m), BodyValues(m)) <==> FitsText(m.stock, 8) && FitsText(m.issueSubType, 2)
  {
    Powers();
    var fs, vs := DirectoryFront(), DirectoryFrontValues(m);
    assert FitsField(fs[0], vs[0]) <==> FitsText(m.stock, 8);
    assert FitsField(fs[6], vs[6]) <==> FitsText(m.issueSubType, 2);
    assert FitAll(DirectoryBack(), DirectoryBackValues(m));
    FitAllJoin(fs, DirectoryBack(), vs, DirectoryBackValues(m));
  }

  lemma AddFits(m: Message)
    requires m.AddOrder? || m.AddOrderMpid?
    ensures FitAll(Body(m), BodyValues(m))
            <==> FitsText(m.stock, 8) && (m.AddOrderMpid? ==> FitsText(m.attribution, 4))
  {
    Powers();
    var fs, vs := Body(m), BodyValues(m);
    assert FitsField(fs[3], vs[3]) <==> FitsText(m.stock, 8);
    if m.AddOrderMpid? {
      assert FitsField(fs[5], vs[5]) <==> FitsText(m.attribution, 4);
    }
  }

  lemma ActionFits(m: Message)
    requires m.TradingAction?
    ensures FitAll(Body(m), BodyValues(m)) <==> FitsText(m.stock, 8) && FitsText(m.reason, 4)
  {
    Powers();
    var fs, vs := Body(m), BodyValues(m);
    assert FitsField(fs[0], vs[0]) <==> FitsText(m.stock, 8);
    assert FitsField(fs[3], vs[3]) <==> FitsText(m.reason, 4);
  }

  lemma ReferenceFits(m: Message)
    requires m.Executed? || m.ExecutedPrice? || m.Cancel? || m.Delete? || m.Replace?
    ensures FitAll(Body(m), BodyValues(m))
  {
    Powers();
  }

  /** Exactly these messages can be written: six-byte timestamps, and texts that fit and do not end in a space. */
  lemma EncodableIff(m: Message)
    ensures Encodable(m) <==>
            && m.timestamp < 0x1_0000_0000_0000
            && (m.StockDirectory? ==> FitsText(m.stock, 8) && FitsText(m.issueSubType, 2))
            && (m.TradingAction? ==> FitsText(m.stock, 8) && FitsText(m.reason, 4))
            && (m.AddOrder? ==> FitsText(m.stock, 8))
            && (m.AddOrderMpid? ==> FitsText(m.stock, 8) && FitsText(m.attribution, 4))
  {
    HeaderFits(TypeByte(m), m);
    FitAllJoin(HeaderFields(), Body(m), HeaderValues(TypeByte(m), m), BodyValues(m));
    if m.StockDirectory? {
      DirectoryFits(m);
    } else if m.TradingAction? {
      ActionFits(m);
    } else if m.AddOrder? || m.AddOrderMpid? {
      AddFits(m);
    } else {
      ReferenceFits(m);
    }
  }
}
