/** The engine as an object: fields updated in place, one handler per message. */
module BookEngine {
  import opened Words
  import opened Levels
  import opened Messages
  import opened Engine
  import opened Snapshots

  /** The single cell through which readers see the latest snapshot. */
  class SnapshotPublisher {
    var current: Option<Snapshot>

    constructor ()
      ensures current == None
    {
      current := None;
    }

    method Publish(snap: Snapshot)
      modifies this
      ensures current == Some(snap)
    {
      current := Some(snap);
    }
  }

  /** What a published snapshot was built from. */
  datatype Edition = Edition(state: State, complete: bool)

  /** Subtract, clamping at zero; `clamped` signals that the request was too large. */
  method ClampedSub(val: u32, sub: u32) returns (r: u32, clamped: bool)
    ensures r + sub == if clamped then sub else val
    ensures clamped <==> sub > val
  {
    if sub > val {
      return 0, true;
    }
    return val - sub, false;
  }

  lemma UpdateThenErase<K, V>(m: map<K, V>, k: K, v: V)
    ensures m[k := v] - {k} == m - {k}
  {
  }

  class OrderBookEngine {
    var orders: map<u64, OrderRecord>
    var books: map<u16, Book>
    var instruments: map<u16, Instrument>
    var processed: int
    var skipped: int
    var corrupt: int
    var interval: nat
    var complete: bool
    const publisher: SnapshotPublisher
    ghost var published: Option<Edition>

    ghost function Abs(): State
      reads this
    {
      State(orders, books, instruments, processed, skipped, corrupt)
    }

    /** Readers see a faithful snapshot of the state it was built from. */
    ghost predicate Valid()
      reads this, publisher
    {
      match published
      case None => publisher.current == None
      case Some(e) => publisher.current.Some? && Faithful(publisher.current.value, e.state, e.complete)
    }

    constructor (publisher: SnapshotPublisher, known: map<u16, Instrument>)
      requires publisher.current == None
      ensures Valid() && this.publisher == publisher && published == None
      ensures Abs() == Boot(known) && interval == 1000 && !complete
    {
      orders, books, instruments := map[], map[], known;
      processed, skipped, corrupt := 0, 0, 0;
      interval, complete := 1000, false;
      this.publisher := publisher;
      published := None;
    }

    // ----- helpers -----

    method GetOrCreate(locate: u16)
      modifies this`books, this`instruments
      ensures Abs() == GetOrCreateBook(old(Abs()), locate)
    {
      if locate in books {
        return;
      }
      if locate !in instruments {
        instruments := instruments[locate := Placeholder(locate)];
      }
      books := books[locate := Book(locate, 0, map[], map[], None, None)];
    }

    method AddToLevel(locate: u16, side: u8, price: u32, shares: u32)
      requires locate in books
      modifies this`books
      ensures books == old(books)[locate := Insert(Machine, old(books)[locate], side, price, shares)]
    {
      var book := books[locate];
      var levels := book.Levels(SideOf(side));
      var level := if price in levels then levels[price] else Level(0, 0, 0);
      level := level.(price := price);
      level := level.(shares := (level.shares + shares) % TWO64);
      level := level.(orders := (level.orders + 1) % TWO32);
      levels := levels[price := level];
      books := books[locate := RefreshTop(book.With(SideOf(side), levels))];
    }

    method TakeFromLevel(locate: u16, side: u8, price: u32, shares: u32, full: bool)
      requires locate in books
      modifies this`books
      ensures books == old(books)[locate := RemoveShares(Machine, old(books)[locate], side, price, shares, full)]
    {
      var book := books[locate];
      var levels := book.Levels(SideOf(side));
      if price in levels {
        var level := levels[price];
        level := level.(shares := if shares > level.shares then 0 else level.shares - shares);
        if full {
          level := level.(orders := (level.orders - 1) % TWO32);
        }
        levels := if level.orders == 0 then levels - {price} else levels[price := level];
      }
      books := books[locate := RefreshTop(book.With(SideOf(side), levels))];
    }

    method StampBook(locate: u16, timestamp: u64)
      modifies this`books
      ensures books == if locate in old(books)
                       then old(books)[locate := old(books)[locate].(stamp := timestamp)] else old(books)
    {
      if locate in books {
        books := books[locate := books[locate].(stamp := timestamp)];
      }
    }

    /** Take and stamp in one go: the tail that Execute, Cancel and Delete share. */
    method TakeAndStamp(locate: u16, side: u8, price: u32, shares: u32, full: bool, timestamp: u64)
      requires locate in books
      modifies this`books
      ensures books == old(books)[locate :=
                         RemoveShares(Machine, old(books)[locate], side, price, shares, full).(stamp := timestamp)]
    {
      TakeFromLevel(locate, side, price, shares, full);
      StampBook(locate, timestamp);
    }

    // ----- handlers -----

    method HandleAdd(locate: u16, ref: u64, side: u8, shares: u32, price: u32, timestamp: u64, mpid: Text)
      modifies this`books, this`instruments, this`orders
      ensures Abs() == AddImpl(Machine, old(Abs()), locate, ref, side, shares, price, timestamp, mpid)
    {
      GetOrCreate(locate);
      AddToLevel(locate, side, price, shares);
      orders := orders[ref := OrderRecord(shares, price, locate, side, StoreMpid(mpid))];
      StampBook(locate, timestamp);
      assert books == AddImpl(Machine, old(Abs()), locate, ref, side, shares, price, timestamp, mpid).books;
    }

    method HandleReduce(ref: u64, n: u32, timestamp: u64)
      modifies this`books, this`instruments, this`orders, this`skipped, this`corrupt
      ensures Abs() == Reduce(Machine, old(Abs()), ref, n, timestamp)
    {
      if ref !in orders {
        skipped := (skipped + 1) % TWO64;
      } else {
        ReduceLive(ref, n, timestamp);
      }
    }

    method ReduceLive(ref: u64, n: u32, timestamp: u64)
      requires ref in orders
      modifies this`books, this`instruments, this`orders, this`corrupt
      ensures Abs() == Reduce(Machine, old(Abs()), ref, n, timestamp)
    {
      var rec := orders[ref];
      GetOrCreate(rec.locate);
      var left := ShrinkRecord(ref, n);
      TakeAndStamp(rec.locate, rec.side, rec.price, rec.shares - left, left == 0, timestamp);
      EraseIfSpent(ref, left);
      UpdateThenErase(old(orders), ref, rec.(shares := left));
    }

    method EraseIfSpent(ref: u64, left: u32)
      modifies this`orders
      ensures orders == if left == 0 then old(orders) - {ref} else old(orders)
    {
      if left == 0 {
        orders := orders - {ref};
      }
    }

    /** Take shares off the record itself, counting an oversized request. */
    method ShrinkRecord(ref: u64, n: u32) returns (left: u32)
      requires ref in orders
      modifies this`orders, this`corrupt
      ensures left == Left(old(orders)[ref], n)
      ensures orders == old(orders)[ref := old(orders)[ref].(shares := left)]
      ensures corrupt == if n > old(orders)[ref].shares then Wrap64(Machine, old(corrupt) + 1) else old(corrupt)
    {
      var clamped;
      left, clamped := ClampedSub(orders[ref].shares, n);
      orders := orders[ref := orders[ref].(shares := left)];
      if clamped {
        corrupt := (corrupt + 1) % TWO64;
      }
    }

    method HandleDelete(ref: u64, timestamp: u64)
      modifies this`books, this`instruments, this`orders, this`skipped
      ensures Abs() == DeleteImpl(Machine, old(Abs()), ref, timestamp)
    {
      if ref !in orders {
        skipped := (skipped + 1) % TWO64;
        return;
      }
      var rec := orders[ref];
      GetOrCreate(rec.locate);
      TakeAndStamp(rec.locate, rec.side, rec.price, rec.shares, true, timestamp);
      orders := orders - {ref};
    }

    method HandleReplace(ref: u64, newRef: u64, shares: u32, price: u32, timestamp: u64)
      modifies this`books, this`instruments, this`orders, this`skipped
      ensures Abs() == ReplaceImpl(Machine, old(Abs()), ref, newRef, shares, price, timestamp)
    {
      if ref !in orders {
        skipped := (skipped + 1) % TWO64;
        return;
      }
      var was := orders[ref];
      orders := orders - {ref};
      GetOrCreate(was.locate);
      ghost var found := books;
      TakeFromLevel(was.locate, was.side, was.price, was.shares, true);
      AddToLevel(was.locate, was.side, price, shares);
      orders := orders[newRef := Successor(was, shares, price)];
      StampBook(was.locate, timestamp);
      ghost var gone := RemoveShares(Machine, found[was.locate], was.side, was.price, was.shares, true);
      assert books == found[was.locate := Insert(Machine, gone, was.side, price, shares).(stamp := timestamp)];
    }

    method Dispatch(m: Message)
      modifies this`books, this`instruments, this`orders, this`skipped, this`corrupt
      ensures Abs() == Handle(Machine, old(Abs()), m)
    {
      match m
      case StockDirectory(locate, _, _, stock, category, status, lot, _, _, _, _, _, _, _, _, _, _) =>
        instruments := instruments[locate := Instrument(locate, stock, 0x54, lot, category, status)];
      case TradingAction(locate, _, _, _, state, _, _) =>
        if locate in instruments {
          instruments := instruments[locate := instruments[locate].(tradingState := state)];
        }
      case AddOrder(locate, _, ts, ref, side, shares, _, price) =>
        HandleAdd(locate, ref, side, shares, price, ts, []);
      case AddOrderMpid(locate, _, ts, ref, side, shares, _, price, attribution) =>
        HandleAdd(locate, ref, side, shares, price, ts, attribution);
      case Executed(_, _, ts, ref, n, _) => HandleReduce(ref, n, ts);
      case ExecutedPrice(_, _, ts, ref, n, _, _, _) => HandleReduce(ref, n, ts);
      case Cancel(_, _, ts, ref, n) => HandleReduce(ref, n, ts);
      case Delete(_, _, ts, ref) => HandleDelete(ref, ts);
      case Replace(_, _, ts, ref, newRef, shares, price) => HandleReplace(ref, newRef, shares, price, ts);
    }

    // ----- public interface -----

    method PublishSnapshot()
      modifies this`published, publisher
      ensures Valid() && published == Some(Edition(Abs(), complete))
    {
      var snap := BuildSnapshot(State(orders, books, instruments, processed, skipped, corrupt), complete);
      publisher.Publish(snap);
      published := Some(Edition(Abs(), complete));
    }

    method MaybePublishSnapshot()
      requires Valid() && interval > 0
      modifies this`published, publisher
      ensures Valid() && Abs() == old(Abs())
      ensures published == if processed % interval == 0 then Some(Edition(Abs(), complete)) else old(published)
    {
      if processed % interval == 0 {
        PublishSnapshot();
      }
    }

    method CountMessage()
      modifies this`processed
      ensures Abs() == old(Abs()).(processed := Wrap64(Machine, old(processed) + 1))
    {
      processed := (processed + 1) % TWO64;
    }

    /** One message; a snapshot is published whenever the message count reaches a multiple of the interval. */
    method ApplyMessage(m: Message)
      requires Valid() && interval > 0
      modifies this`books, this`instruments, this`orders, this`processed, this`skipped, this`corrupt,
               this`published, publisher
      ensures Valid()
      ensures Abs() == Apply(Machine, old(Abs()), m)
      ensures published == if processed % interval == 0 then Some(Edition(Abs(), complete)) else old(published)
    {
      Dispatch(m);
      CountMessage();
      MaybePublishSnapshot();
    }

    method SetPipelineComplete()
      requires Valid()
      modifies this`complete, this`published, publisher
      ensures Valid() && complete && Abs() == old(Abs())
      ensures published == Some(Edition(Abs(), true))
    {
      complete := true;
      PublishSnapshot();
    }

    method SetSnapshotInterval(k: nat)
      requires Valid()
      modifies this`interval
      ensures Valid() && interval == k
    {
      interval := k;
    }
  }
}
