/**
 The order book engine as a function on its state: what one message does to the order
 index, the books, the instruments and the counters.
 */
module Engine {
  import opened Words
  import opened Levels
  import opened Messages

  // ----- order records -----

  type Mpid = s: Text | |s| == 4 witness [0, 0, 0, 0]

  datatype OrderRecord = OrderRecord(shares: u32, price: u32, locate: u16, side: u8, mpid: Mpid)

  /** Participant id for display: trailing spaces and NULs are dropped. */
  function TrimMpid(s: Text): Text {
    if s != [] && (s[|s| - 1] == SPACE || s[|s| - 1] == 0) then TrimMpid(s[..|s| - 1]) else s
  }

  /** Participant id for storage: an empty attribution leaves NULs, any other is space padded. */
  function StoreMpid(s: Text): Mpid {
    if s == [] then [0, 0, 0, 0]
    else seq(4, i requires 0 <= i => if i < |s| then s[i] else SPACE)
  }

  /** Any side byte other than 'B' is the ask side. */
  function SideOf(b: u8): Side {
    if b == 0x42 then Bid else Ask
  }

  /** Where an order rests. */
  datatype Key = Key(locate: u16, side: Side, price: u32)

  function KeyOf(r: OrderRecord): Key {
    Key(r.locate, SideOf(r.side), r.price)
  }

  // ----- books and instruments -----

  /** `bestBid` and `bestAsk` are the cached pointers, given by the price of the level they point to. */
  datatype Book = Book(
    locate: u16, stamp: u64, bids: SideMap, asks: SideMap,
    bestBid: Option<u32>, bestAsk: Option<u32>)
  {
    function Levels(side: Side): SideMap {
      if side.Bid? then bids else asks
    }

    function With(side: Side, ls: SideMap): Book {
      if side.Bid? then this.(bids := ls) else this.(asks := ls)
    }

    function Top(side: Side): Option<u32> {
      if side.Bid? then bestBid else bestAsk
    }
  }

  datatype Instrument = Instrument(
    locate: u16, symbol: Text, tradingState: u8,
    roundLotSize: u32, marketCategory: u8, financialStatus: u8)

  function Decimal(n: nat): Text {
    (if n < 10 then [] else Decimal(n / 10)) + [0x30 + n % 10]
  }

  /** "UNKNOWN_<locate>", trading. */
  function Placeholder(locate: u16): Instrument {
    Instrument(locate, [0x55, 0x4E, 0x4B, 0x4E, 0x4F, 0x57, 0x4E, 0x5F] + Decimal(locate), 0x54, 0, 0, 0)
  }

  function RefreshTop(b: Book): Book {
    b.(bestBid := Best(Bid, b.bids), bestAsk := Best(Ask, b.asks))
  }

  function Insert(a: Arith, b: Book, side: u8, price: u32, shares: u32): Book {
    RefreshTop(b.With(SideOf(side), AddShares(a, b.Levels(SideOf(side)), price, shares)))
  }

  function RemoveShares(a: Arith, b: Book, side: u8, price: u32, shares: u32, full: bool): Book {
    RefreshTop(b.With(SideOf(side), TakeClamped(a, b.Levels(SideOf(side)), price, shares, full)))
  }

  // ----- engine state -----

  datatype State = State(
    orders: map<u64, OrderRecord>,
    books: map<u16, Book>,
    instruments: map<u16, Instrument>,
    processed: int, skipped: int, corrupt: int)

  /** A new engine, with whatever instruments were registered up front. */
  function Boot(instruments: map<u16, Instrument>): State {
    State(map[], map[], instruments, 0, 0, 0)
  }

  function GetOrCreateBook(s: State, locate: u16): (r: State)
    ensures locate in r.books
  {
    if locate in s.books then s
    else s.(
      books := s.books[locate := Book(locate, 0, map[], map[], None, None)],
      instruments := if locate in s.instruments then s.instruments
                     else s.instruments[locate := Placeholder(locate)])
  }

  /** Insert a record into its book and file it under its reference. */
  function RestOrder(a: Arith, s: State, ref: u64, rec: OrderRecord, timestamp: u64): State {
    var t := GetOrCreateBook(s, rec.locate);
    var book := Insert(a, t.books[rec.locate], rec.side, rec.price, rec.shares);
    t.(books := t.books[rec.locate := book.(stamp := timestamp)], orders := t.orders[ref := rec])
  }

  /** The record an Add files. */
  function NewRecord(m: Message): OrderRecord
    requires m.AddOrder? || m.AddOrderMpid?
  {
    OrderRecord(m.shares, m.price, m.locate, m.side, StoreMpid(if m.AddOrder? then [] else m.attribution))
  }

  /** Shares an Execute or Cancel asks to take. */
  function Asked(m: Message): u32
    requires m.Executed? || m.ExecutedPrice? || m.Cancel?
  {
    if m.Cancel? then m.cancelledShares else m.executedShares
  }

  function AddImpl(a: Arith, s: State, locate: u16, ref: u64, side: u8, shares: u32,
                   price: u32, timestamp: u64, mpid: Text): State
  {
    RestOrder(a, s, ref, OrderRecord(shares, price, locate, side, StoreMpid(mpid)), timestamp)
  }

  function Left(rec: OrderRecord, n: u32): u32 {
    if n > rec.shares then 0 else rec.shares - n
  }

  /** Execute and Cancel: take `n` shares off a live order, clamping an oversized request. */
  function Reduce(a: Arith, s: State, ref: u64, n: u32, timestamp: u64): State {
    if ref !in s.orders then s.(skipped := Wrap64(a, s.skipped + 1))
    else
      var rec := s.orders[ref];
      var t := GetOrCreateBook(s, rec.locate);
      var left := Left(rec, n);
      var book := RemoveShares(a, t.books[rec.locate], rec.side, rec.price, rec.shares - left, left == 0);
      t.(
        books := t.books[rec.locate := book.(stamp := timestamp)],
        orders := if left == 0 then t.orders - {ref} else t.orders[ref := rec.(shares := left)],
        corrupt := if n > rec.shares then Wrap64(a, t.corrupt + 1) else t.corrupt)
  }

  function DeleteImpl(a: Arith, s: State, ref: u64, timestamp: u64): State {
    if ref !in s.orders then s.(skipped := Wrap64(a, s.skipped + 1))
    else
      var rec := s.orders[ref];
      var t := GetOrCreateBook(s, rec.locate);
      var book := RemoveShares(a, t.books[rec.locate], rec.side, rec.price, rec.shares, true);
      t.(books := t.books[rec.locate := book.(stamp := timestamp)], orders := t.orders - {ref})
  }

  /** The record a Replace files: same side, locate and participant as the one it replaces. */
  function Successor(was: OrderRecord, shares: u32, price: u32): OrderRecord {
    OrderRecord(shares, price, was.locate, was.side, was.mpid)
  }

  function ReplaceImpl(a: Arith, s: State, ref: u64, newRef: u64, shares: u32,
                       price: u32, timestamp: u64): State
  {
    if ref !in s.orders then s.(skipped := Wrap64(a, s.skipped + 1))
    else
      var rec := s.orders[ref];
      var t := GetOrCreateBook(s, rec.locate);
      var gone := RemoveShares(a, t.books[rec.locate], rec.side, rec.price, rec.shares, true);
      var book := Insert(a, gone, rec.side, price, shares);
      t.(
        books := t.books[rec.locate := book.(stamp := timestamp)],
        orders := (t.orders - {ref})[newRef := Successor(rec, shares, price)])
  }

  function Handle(a: Arith, s: State, m: Message): State {
    match m
    case StockDirectory(locate, _, _, stock, category, status, lot, _, _, _, _, _, _, _, _, _, _) =>
      s.(instruments := s.instruments[locate := Instrument(locate, stock, 0x54, lot, category, status)])
    case TradingAction(locate, _, _, _, state, _, _) =>
      if locate in s.instruments
      then s.(instruments := s.instruments[locate := s.instruments[locate].(tradingState := state)])
      else s
    case AddOrder(locate, _, ts, ref, side, shares, _, price) =>
      AddImpl(a, s, locate, ref, side, shares, price, ts, [])
    case AddOrderMpid(locate, _, ts, ref, side, shares, _, price, attribution) =>
      AddImpl(a, s, locate, ref, side, shares, price, ts, attribution)
    case Executed(_, _, ts, ref, n, _) => Reduce(a, s, ref, n, ts)
    case ExecutedPrice(_, _, ts, ref, n, _, _, _) => Reduce(a, s, ref, n, ts)
    case Cancel(_, _, ts, ref, n) => Reduce(a, s, ref, n, ts)
    case Delete(_, _, ts, ref) => DeleteImpl(a, s, ref, ts)
    case Replace(_, _, ts, ref, newRef, shares, price) =>
      ReplaceImpl(a, s, ref, newRef, shares, price, ts)
  }

  /** One call of `apply`, snapshots aside. */
  function Apply(a: Arith, s: State, m: Message): State {
    var t := Handle(a, s, m);
    t.(processed := Wrap64(a, t.processed + 1))
  }

  function Run(a: Arith, s: State, ms: seq<Message>): State {
    if ms == [] then s
    else Apply(a, Run(a, s, ms[..|ms| - 1]), ms[|ms| - 1])
  }

  lemma RunSnoc(a: Arith, s: State, ms: seq<Message>, m: Message)
    ensures Run(a, s, ms + [m]) == Apply(a, Run(a, s, ms), m)
  {
  }
}
