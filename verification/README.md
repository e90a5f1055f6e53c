# ITCH order book reconstruction: a verified model

A Dafny model of the pipeline that turns a NASDAQ TotalView-ITCH 5.0 feed into limit order books:
byte stream or multicast packets, message parser, order book engine, snapshots, and the alternative
price ladders. `dafny verify dfyconfig.toml` checks everything.

## How the model is laid out

| file | models |
|---|---|
| `Words.dfy`, `Messages.dfy`, `Bytes.dfy` | machine words, the nine messages, big-endian numbers and padded text |
| `Levels.dfy` | one side of a book: level updates, the best level, the best-first listing |
| `Engine.dfy` | the engine as a function `Apply(arithmetic, state, message)`, folded over runs by `Run` |
| `BookEngine.dfy` | the engine as a class whose handlers update their fields in place; refines `Apply` |
| `Sums.dfy`, `Ledger.dfy`, `Runs.dfy`, `BookSides.dfy`, `NoWrap.dfy`, `Projection.dfy`, `History.dfy` | what whole runs keep |
| `Snapshots.dfy`, `ShownBooks.dfy`, `SymbolNames.dfy` | snapshot construction, lookup, staleness; what entries hold in terms of the messages; which symbols a run produces |
| `Ladders.dfy`, `ArraySlots.dfy`, `ArrayLadders.dfy`, `EngineLadders.dfy` | the three ladders and their agreement with each other and with the engine |
| `Codec.dfy`, `WireFormat.dfy`, `Framing.dfy` | the parsers, their encoder, the bytes of each message written out, and length-prefixed framing over short reads |
| `Mold.dfy`, `MoldPackets.dfy`, `MoldOrder.dfy` | MoldUDP64 reception over arbitrary packet traces, what a sender's packets become, and the numbers under which messages are delivered |
| `Drain.dfy`, `Pipeline.dfy` | the two-thread live pipeline, file mode, and their equivalence |

Modelling choices a reader should know:

- Text and single characters are bytes. Prices are raw integers.
- The engine is parameterised by its arithmetic. `Machine` wraps the 64-bit share totals and counters
  and the 32-bit order counts, as the program does, and is what the classes implement. `Exact` never
  wraps. `NoWrap` says exactly when the two coincide.
- Reusing a live order reference overwrites its record silently (`src/book_engine.cpp:128`, `:261`).
  Overwritten records are collected in a ledger, so that the invariant covers every run.
- A cached best pointer is represented by the price of the level it points to.
- Hash-map iteration order is an arbitrary choice in the loops, so results hold for every order.
- `read`, `recvfrom` and the queue are inputs: arbitrary short reads, arbitrary traces of datagrams
  and errors, a FIFO queue. A closed socket is the end of the trace.

Where code and comments disagree, the code is followed. A file that ends exactly after a length
prefix yields a zero-filled buffer, although the comment at `src/feed_reader.cpp:56` calls every
truncated frame an error (`Framing.CutStream`). The UDP reader treats a count of 0xFFFF as a heartbeat,
where MoldUDP64 uses 0 for heartbeats and 0xFFFF for end of session.

Properties that fail in general, with the exact condition under which they hold:

- levels equal the sums of live orders if and only if no live reference is reused (`Runs.LiveOnlyIffFresh`);
- the orders and the book of an instrument together depend on its own messages only, if and only if
  no other instrument takes over one of its live references (`Projection.ProjectionExact`); the book
  alone always does (`Projection.BookProjects`);
- machine and exact arithmetic agree if and only if every exact value fits its word
  (`NoWrap.MachineAgreesIffFits`), which fewer than 2^32 messages guarantee;
- the dense array holds what the map holds all along a sequence of operations if and only if every
  insertion is in band, into a slot of its own price with room in its counter or an empty one without
  left-over shares, and every removal finds its own price, an empty slot or no slot, or takes nothing
  (`ArraySlots.MatchesIffAgreeable`; failing inputs in `ArraySlots.ResidueSurvives` and
  `ArraySlots.AliasedRemoval`);
- the sequence accounting is exact if and only if no accepted packet wraps (`Mold.AccountingExact`);
- messages are delivered under increasing wire numbers while no packet wraps
  (`MoldOrder.DeliveriesInOrder`), and, where no block is cut off, if and only if no accepted packet
  reaches beyond the last 64-bit number or follows one that reached it (`MoldOrder.InOrderIffWithin`);
  past it, a packet is delivered twice (`MoldOrder.WrapDeliversTwice`);
- a snapshot has one entry per instrument if and only if symbols are distinct
  (`Snapshots.EntryPerInstrument`), which for parsed buffers means that no two locates have the same
  latest directory stock (`SymbolNames.FeedEntryPerInstrument`; failing input in
  `SymbolNames.SharedStockMissesEntry`).

## Model

| member | source | states |
|---|---|---|
| `Ledger.RunConsistent` | src/book_engine.cpp:62-264 | After every run, reused references included, each level at each key holds exactly the shares and the number of the live plus overwritten orders there and exists only if there is one; tops are the best levels; every book has an instrument |
| `Ledger.HandleKeeps` | src/book_engine.cpp:133-282 | Every single message preserves that invariant, with the record it overwrites moved to the ledger |
| `Ledger.RestingAfterRest` | src/book_engine.cpp:106-131 | An insertion changes every total by exactly the new record, whether or not the reference was live |
| `Ledger.RestingAfterReduce` | src/book_engine.cpp:143-163 | A take changes every total by exactly the shares the record loses, and its count by one exactly when the record ends |
| `Sums.SumRemove` | src/book_engine.h:73-75 | The sum over the index does not depend on the order of summation: any entry can be taken out first |
| `Sums.SumOccupied` | src/book_engine.h:73-75 | The order count at a key is positive exactly when a live order rests there |
| `Levels.Best` | src/book_engine.cpp:62-65 | The cached top is the highest bid or lowest ask level, absent exactly when the side is empty |
| `Levels.ListingUnique` | include/itch/order_book.h:20-24 | A strictly best-first list of exactly the levels of a side is unique |
| `Runs.LiveOnlyIffFresh` | src/book_engine.cpp:106-264 | Levels equal the sums over live orders only, exactly when no Add or Replace reuses a live reference |
| `Runs.ReuseBreaksLiveOnly` | src/book_engine.cpp:128 | Two Adds under one reference leave a level that counts two orders while the index has one |
| `Runs.FreshRunBooks` | src/book_engine.cpp:62-264 | Without reuse: a level exists iff a live order has its key, its totals are the sums over those orders, and the cached tops are the best levels or absent |
| `BookSides.SidesByByte` | src/book_engine.cpp:111-121 | After every run, at each price the bids hold exactly the live and overwritten orders whose side byte is 0x42 and the asks exactly the others, with their share sum and their number |
| `BookSides.FreshSidesByByte` | src/book_engine.cpp:76-121 | Without reuse, a bid level exists iff a live order with side byte 0x42 rests there, an ask level iff one with another byte does, each with the sum and number of those orders |
| `BookSides.TopsByPrice` | src/book_engine.cpp:62-65 | In every run the cached top bid is the highest bid price and the cached top ask the lowest ask price, absent exactly when the side is empty |
| `BookSides.AddByByte` | src/book_engine.cpp:106-131 | One Add changes the level at its price, among the bids if its side byte is 0x42 and among the asks otherwise, and no other level of any book |
| `Runs.RunHouses` | src/book_engine.cpp:76-95 | In every run, each live order's book, instrument and level exist and the level covers it, so removal never misses, never clamps and never underflows |
| `Runs.SharesConserved` | src/book_engine.cpp:106-264 | Shares brought in by Add and Replace = shares resting in the index + shares taken after clamping + shares of overwritten records |
| `Runs.CountersExact` | src/book_engine.cpp:143-232 | The counters equal the number of messages, of messages on dead references, and of oversized executes and cancels |
| `Runs.ReplaceIsDeleteThenAdd` | src/book_engine.cpp:227-264 | Replace of a live order = Delete then attributed Add on the old side and locate: same books, tops, stamps, instruments and index, participant ids equal up to padding |
| `Runs.StoredMpidReadsBack` | include/itch/order_record.h:44-48 | A participant id of up to four bytes without trailing blanks is stored space-padded (NULs if empty) and shown unchanged |
| `Runs.ShownMpid` | include/itch/order_record.h:37-42 | What is shown is the part of the stored bytes up to the last one that is neither a space nor a NUL |
| `NoWrap.LevelsBounded` | src/book_engine.cpp:87-116 | No level counts more orders than there were messages, nor more shares than those orders could carry |
| `NoWrap.MachineAgreesIffFits` | include/itch/order_book.h:10-14 | Machine and exact runs agree at every point exactly when every exact value fits its word |
| `NoWrap.MachineRunIsExact` | src/book_engine.cpp:106-264 | In fewer than 2^32 messages nothing wraps |
| `NoWrap.MachineBooks` | src/book_engine.cpp:62-264 | The invariant, the cover of every live order and the freshness equivalence, for the wrapping engine while exact values fit their words |
| `NoWrap.OrderCountCanWrap` | include/itch/order_book.h:13 | Some run of 2^32 messages does wrap the 32-bit order count |
| `Projection.ProjectionExact` | src/book_engine.cpp:106-264 | Running only the messages that touch an instrument reproduces its orders and its whole book at every point, exactly when no other instrument takes over one of its live references |
| `Projection.BookProjects` | src/book_engine.cpp:106-264 | In every run, reused references included, the book of an instrument (levels, tops, stamp) is the book obtained from the messages that touch it |
| `Projection.TakeoverBreaksProjection` | src/book_engine.cpp:128 | Any Add for another instrument under a live reference separates the instrument's orders from those of its own messages |
| `History.LiveOrderTerms` | src/book_engine.cpp:122-261 | Every live order in every run has the price, side, locate and participant of the message that last filed its reference, and that message's shares minus the shares taken since |
| `History.StampIsLastTouch` | src/book_engine.cpp:97-102 | A book exists once a message has touched it and carries the timestamp of the last message that did |
| `BookEngine.ClampedSub` | src/book_engine.cpp:67-74 | Clamps at zero exactly when asked for too much |
| `BookEngine.OrderBookEngine.GetOrCreate` | src/book_engine.cpp:43-60 | Creates a missing book, and a placeholder for a missing instrument, and nothing else |
| `BookEngine.OrderBookEngine.AddToLevel` | src/book_engine.cpp:111-121 | In-place insertion refines the level update, tops refreshed, other books untouched |
| `BookEngine.OrderBookEngine.TakeFromLevel` | src/book_engine.cpp:76-95 | In-place removal refines the clamped level update, tops refreshed, other books untouched |
| `BookEngine.OrderBookEngine.HandleAdd` | src/book_engine.cpp:106-141 | The Add handlers compute the specified new state |
| `BookEngine.OrderBookEngine.HandleReduce` | src/book_engine.cpp:143-209 | The two Execute handlers and the Cancel handler compute the specified new state, dead references included |
| `BookEngine.OrderBookEngine.HandleDelete` | src/book_engine.cpp:211-225 | The Delete handler computes the specified new state |
| `BookEngine.OrderBookEngine.HandleReplace` | src/book_engine.cpp:227-264 | The Replace handler computes the specified new state, same-reference replaces included |
| `BookEngine.OrderBookEngine.Dispatch` | src/book_engine.cpp:133-282 | All nine messages reach the handler that computes their specified state |
| `BookEngine.OrderBookEngine.ApplyMessage` | src/book_engine.cpp:16-20 | One message, then a faithful snapshot exactly when the count reaches a multiple of the interval |
| `BookEngine.OrderBookEngine.MaybePublishSnapshot` | src/book_engine.cpp:303-307 | Publishes a faithful snapshot of the current state on a multiple of the interval, and changes nothing otherwise |
| `BookEngine.OrderBookEngine.SetPipelineComplete` | src/book_engine.cpp:297-301 | The final state is published with the flag set |
| `Snapshots.ShowBooks` | src/book_engine.cpp:321-356 | For every iteration order, entries show books of instruments with that symbol and no such symbol is missing |
| `Snapshots.ShowIdle` | src/book_engine.cpp:358-370 | Then every symbol has an entry, empty exactly when no instrument with it has a book |
| `Snapshots.IndexSymbols` | src/book_engine.cpp:372-379 | Every index value is a symbol shown whose lowercase is the key, and every symbol's lowercase is indexed |
| `Snapshots.BuildSnapshot` | src/book_engine.cpp:309-382 | The whole snapshot is faithful to the state for every iteration order |
| `Snapshots.DistinctSymbolsShown` | src/book_engine.cpp:321-370 | With distinct symbols each instrument has its own entry: its book best-first, or empty |
| `ShownBooks.EntryShowsInstrument` | src/book_engine.cpp:321-370 | Every entry holds symbol, locate, trading state, lot size and category of an instrument with its symbol, and the stamp and both sides of its book, or zero and nothing |
| `ShownBooks.InstrumentShown` | src/book_engine.cpp:321-370 | With distinct symbols every instrument has such an entry of its own |
| `ShownBooks.ShownAfterRun` | src/book_engine.cpp:321-370 | After every run with distinct symbols, an entry carries the timestamp of the last message that touched the instrument's book, and lists all bids by falling and all asks by rising price |
| `ShownBooks.ListedInstrument` | src/book_engine.cpp:266-282 | After every run a listed instrument has stock, lot size, category and status of its latest directory message, and the trading state of the latest action since, or 'T' |
| `Snapshots.EntryPerInstrument` | src/book_engine.cpp:355-370 | Never more entries than instruments, and as many exactly when symbols are distinct |
| `SymbolNames.RunNames` | src/book_engine.cpp:43-60 | After every run an instrument is called what the latest directory message for its locate says, or is a placeholder if there was none |
| `SymbolNames.RunKnown` | src/book_engine.cpp:43-60 | After every run the instruments are the registered ones, the listed ones and those with a book, and no others |
| `SymbolNames.PlaceholderText` | src/book_engine.cpp:50-54 | A placeholder is "UNKNOWN_" followed by the locate in decimal without leading zeros, in state 'T' |
| `SymbolNames.PlaceholderDistinct` | src/book_engine.cpp:50-54 | Placeholder symbols have at least nine bytes and differ between locates |
| `SymbolNames.DistinctIffDirectory` | src/book_engine.cpp:266-275 | After every run symbols are distinct exactly when the latest directory stocks are, provided those have at most eight bytes |
| `SymbolNames.ParsedStockShort` | src/parser.cpp:44-66 | A parsed directory stock has at most eight bytes |
| `SymbolNames.FeedEntryPerInstrument` | src/book_engine.cpp:309-382 | For any buffers received, a snapshot has one entry per instrument exactly when no two locates share their latest directory stock |
| `SymbolNames.SharedStockMissesEntry` | src/book_engine.cpp:321-370 | Two directory messages with one stock and two locates: every faithful snapshot has fewer entries than instruments |
| `Snapshots.RunViewsBestFirst` | src/book_engine.cpp:337-353 | In every run, wrapping or not, bids are shown by falling and asks by rising price, completely, starting at the cached tops |
| `Snapshots.Lookup` | src/rest_server.cpp:168-179 | Found exactly when some instrument's symbol equals the request up to the case of letters; the second lookup never fails |
| `Snapshots.LowerComparesText` | src/book_engine.cpp:372-379 | Lowercasing identifies two texts exactly when they differ only between the letters 0x41-0x5A and 0x61-0x7A |
| `Snapshots.BoundedStaleness` | src/book_engine.cpp:303-307 | Between j*k and (j+1)*k messages the published state is the one after j*k messages; none before the first k |
| `Ladders.VisitsBestFirst` | include/itch/price_ladder.h:5-15 | After every operation sequence the reference visit order is strictly best-first and complete |
| `Ladders.LowerBound` | include/itch/price_ladder.h:99-101 | The binary search returns the first position that is not better than the price |
| `Ladders.MapLadder.AddShares` | include/itch/price_ladder.h:51-56 | The map ladder's insertion is the reference step |
| `Ladders.MapLadder.RemoveShares` | include/itch/price_ladder.h:58-65 | The map ladder's removal is the reference step |
| `Ladders.FlatLadder.AddShares` | include/itch/price_ladder.h:95-112 | The vector stays strictly best-first and stands for the reference map after the step |
| `Ladders.FlatLadder.RemoveShares` | include/itch/price_ladder.h:114-122 | Likewise for removal, wrap-around included |
| `Ladders.DriveMap` | include/itch/price_ladder.h:67-76 | After every operation sequence, best, size and visit order are those of the reference map |
| `Ladders.DriveFlat` | include/itch/price_ladder.h:86-137 | After every operation sequence and for both sides, the sorted vector shows the same best, size and visit order |
| `ArrayLadders.ArrayLadder.AddShares` | include/itch/price_ladder.h:159-170 | Any insertion changes the slots as specified, out-of-band prices not at all; count and best slot stay exact unless the slot's 32-bit order count wraps, and then they do not |
| `ArrayLadders.ArrayLadder.RemoveShares` | include/itch/price_ladder.h:172-183 | Any removal changes the slots as specified; count and best slot stay exact |
| `ArrayLadders.ArrayLadder.UpdateBestAfterAdd` | include/itch/price_ladder.h:214-221 | The only or better slot becomes best |
| `ArrayLadders.ArrayLadder.AdvanceBestFrom` | include/itch/price_ladder.h:223-237 | The walk ends on the next occupied slot; on the sentinel only if none is left |
| `ArrayLadders.ArrayLadder.ForEach` | include/itch/price_ladder.h:191-205 | Visits exactly the live levels, best first |
| `ArraySlots.StepAgrees` | include/itch/price_ladder.h:159-183 | One operation on the slots does what it does to the reference map exactly when it is agreeable: in band, no foreign price in the slot, no wrapped counter, no left-over shares; a removal that takes nothing is always harmless |
| `ArraySlots.MatchesIffAgreeable` | include/itch/price_ladder.h:148-243 | Along any operation sequence the slots hold the reference levels at every point exactly when every operation is agreeable |
| `ArraySlots.AliasedRemoval` | include/itch/price_ladder.h:172-183 | A removal at an off-tick price empties the slot it shares while the map keeps its level |
| `ArraySlots.IndexOrder` | include/itch/price_ladder.h:208-212 | Higher slots hold higher prices |
| `ArraySlots.BandInPrices` | include/itch/price_ladder.h:208-212 | A price is in band exactly when base <= price < base + slots * tick |
| `ArraySlots.SlotInterval` | include/itch/price_ladder.h:208-212 | Slot i holds the prices from i ticks above the base up to i + 1 ticks above it, the end excluded |
| `ArraySlots.OnTickInjective` | include/itch/price_ladder.h:208-212 | On-tick prices never share a slot |
| `ArrayLadders.OccupiedCount` | include/itch/price_ladder.h:189 | The occupied-slot count is the number of levels |
| `ArrayLadders.DriveArray` | include/itch/price_ladder.h:148-243 | Where every operation is agreeable the dense array shows the same best, size and visit order as the map |
| `ArraySlots.DisciplinedAgreeable` | include/itch/price_ladder.h:140-147 | On-tick prices in band, with every level emptied of all its shares and room in its counter, make every operation agreeable |
| `ArraySlots.ResidueSurvives` | include/itch/price_ladder.h:177-182 | Emptying a level without taking all its shares makes the next order inherit the rest |
| `EngineLadders.ReduceCall` | src/book_engine.cpp:76-95 | The engine's clamped and the ladder's wrapping removal coincide, and whoever empties a level takes all its shares |
| `EngineLadders.ClampMeetsWrap` | include/itch/price_ladder.h:58-65 | Asked for more than a level holds, the engine leaves zero shares and a ladder wraps; they do the same exactly when not asked for more or when the level goes |
| `EngineLadders.LadderFollowsEngine` | src/book_engine.cpp:106-264 | A ladder fed with the engine's calls on one side holds the engine's levels after every run whose values fit their words |
| `EngineLadders.EngineCallsSuitEveryLadder` | include/itch/price_ladder.h:1-18 | In such runs the calls of the wrapping engine rebuild its own levels, and are disciplined for the dense array exactly when every price is a whole number of ticks, fewer than the slots, above the base |
| `EngineLadders.ReplayOnFlat` | include/itch/price_ladder.h:86-137 | The sorted vector driven by a run's calls shows best, size and visit order of the engine's own levels |
| `EngineLadders.ReplayOnArray` | include/itch/price_ladder.h:148-243 | So does the dense array when every price is a whole number of ticks, fewer than the slots, above the base |
| `Bytes.ReadBE64IsBE` | include/itch/byte_order.h:28-37 | The 8-byte reader is the big-endian value of its bytes |
| `Bytes.ReadBE48IsBE` | include/itch/byte_order.h:18-26 | The timestamp reader is the big-endian value of exactly six bytes |
| `Bytes.PadStrip` | src/parser.cpp:19-25 | Stripping then padding a fixed-width text recovers it, and the stripped text has no trailing space |
| `Codec.ParseReads` | src/parser.cpp:44-176 | Each parser reads exactly the fields of its message's table; `WireFormat` spells the tables out in bytes |
| `Codec.LayoutContiguous` | src/parser.cpp:44-176 | The fields of each message cover its required length without gap or overlap |
| `Codec.ParseOutcome` | src/parser.cpp:180-223 | Type byte and length alone decide between message, truncated, ignored and empty |
| `Codec.ParseEncoded` | src/parser.cpp:44-223 | Parsing an encoded message, whatever follows it, gives it back |
| `Codec.EncodeParsed` | src/parser.cpp:44-223 | Re-encoding a parsed message recovers exactly the required bytes |
| `Codec.ParseUsesPrefix` | src/parser.cpp:29-38 | A parse depends only on the required prefix |
| `WireFormat.StockDirectoryWire` | src/parser.cpp:44-66 | The 39 bytes of a directory message, field by field |
| `WireFormat.TradingActionWire` | src/parser.cpp:68-80 | The 25 bytes of a trading action, field by field |
| `WireFormat.AddOrderWire` | src/parser.cpp:82-95 | The 36 bytes of an Add, field by field: shares before the stock, price after it |
| `WireFormat.AddOrderMpidWire` | src/parser.cpp:97-111 | The 40 bytes of an attributed Add, field by field |
| `WireFormat.ExecutedWire` | src/parser.cpp:113-124 | The 31 bytes of an execution, field by field |
| `WireFormat.ExecutedPriceWire` | src/parser.cpp:126-139 | The 36 bytes of an execution with price, field by field |
| `WireFormat.CancelWire` | src/parser.cpp:141-151 | The 23 bytes of a cancel, field by field |
| `WireFormat.DeleteWire` | src/parser.cpp:153-162 | The 19 bytes of a delete, field by field |
| `WireFormat.ReplaceWire` | src/parser.cpp:164-176 | The 35 bytes of a replace, field by field: old reference, new reference, shares, price |
| `WireFormat.EncodableIff` | src/parser.cpp:19-25 | The messages that can be written are those with six-byte timestamps and texts that fit their fields and do not end in a space |
| `Framing.FileFeedReader.ReadExact` | src/feed_reader.cpp:24-38 | For every split of the reads: full buffer, or clean end before the first byte; it throws exactly on a read error or when the stream ends in between |
| `Framing.FileFeedReader.NextMessage` | src/feed_reader.cpp:40-64 | For every split of the reads, one frame is what the remaining bytes determine; if a read fails the call throws |
| `Framing.FramingRoundTrip` | src/feed_reader.cpp:40-64 | Reading the frames of any payloads of 1 to 65535 bytes returns exactly them, then end of stream |
| `Framing.CutStream` | src/feed_reader.cpp:49-64 | Where a cut falls decides: clean end at a frame boundary, throw inside prefix or payload, one zero-filled buffer between them |
| `Framing.ZeroPrefixThrows` | src/feed_reader.cpp:53-55 | A zero length prefix after complete frames throws, whatever follows |
| `Mold.UDPFeedReader.ReadBlocks` | src/udp_feed_reader.cpp:141-159 | The block loop extracts exactly the complete blocks |
| `Mold.UDPFeedReader.Absorb` | src/udp_feed_reader.cpp:105-159 | One datagram moves the sequence state as specified |
| `Mold.UDPFeedReader.NextMessage` | src/udp_feed_reader.cpp:76-91 | Hands out the queued messages one by one; none only when all have been delivered |
| `Mold.DeliverAll` | src/udp_feed_reader.cpp:76-162 | For every packet trace the messages handed out are the queued ones, in order |
| `Mold.AccountingModulo` | src/udp_feed_reader.cpp:124-139 | For every trace, wraps included, expected number and gap counter account for every number modulo 2^64 |
| `Mold.AccountingExact` | src/udp_feed_reader.cpp:139 | Every number below the expected one has exactly one fate, exactly when no accepted packet wraps |
| `Mold.AccountingIdentity` | src/udp_feed_reader.cpp:76-162 | Without wrap: expected - 1 = gaps + queued + cut off, so the gap counter has not overflowed |
| `Mold.UDPFeedReader.CountersBalance` | src/udp_feed_reader.cpp:76-162 | The reader's own fields at any time: gaps + received + pending + cut off = expected - 1, modulo 2^64 for every trace and exactly without wrap; the drop counter is the number of packets behind the expected number, modulo 2^64 |
| `Mold.DroppedCounts` | src/udp_feed_reader.cpp:124-137 | For every trace the drop counter is the number of packets with messages that start behind the number expected where they stand, modulo 2^64 |
| `Mold.ExpectedFollowsLast` | src/udp_feed_reader.cpp:139 | For every trace the expected number is the one after all messages announced by the last packet that was not behind |
| `Mold.IdleInBytes` | src/udp_feed_reader.cpp:99-122 | A receive is ignored before any sequence check exactly on an error, fewer than 20 bytes, or count bytes FF FF or 00 00 |
| `Mold.BlockHasItsNumber` | src/udp_feed_reader.cpp:139-159 | Block j of an accepted packet is accounted under sequence number seq + j |
| `MoldOrder.DeliveriesInOrder` | src/udp_feed_reader.cpp:124-159 | For every trace without wrap, deliveries carry strictly increasing wire numbers, so none is delivered twice, and each is block j of an accepted packet under that packet's sequence number plus j |
| `MoldOrder.DeliveredWasSent` | src/udp_feed_reader.cpp:139-159 | For every trace, each delivery is a complete block of a packet accepted where it stands, under the 64-bit number of that block |
| `MoldOrder.SentIsDelivered` | src/udp_feed_reader.cpp:141-159 | For every trace, each complete block of an accepted packet is among the deliveries under its number |
| `MoldOrder.WireNumbersArePositions` | src/udp_feed_reader.cpp:124-139 | For every trace, wraps included, the wire number of a delivery is its position in the accounting modulo 2^64 |
| `MoldOrder.QueueIsDeliveries` | src/udp_feed_reader.cpp:79-83 | What is handed out are those deliveries in that order |
| `MoldOrder.InOrderIffWithin` | src/udp_feed_reader.cpp:124-139 | Wire numbers increase when no accepted packet reaches beyond the last 64-bit number or follows one that reached it, and exactly then where no block is cut off |
| `MoldOrder.WrapDeliversTwice` | src/udp_feed_reader.cpp:139 | After a packet that ends the number space, an earlier packet is accepted and delivered again under the same numbers |
| `Mold.HarmlessInsertion` | src/udp_feed_reader.cpp:99-137 | Inserting a short, empty, heartbeat, failed or stale packet anywhere changes nothing but the dropped count of a stale one |
| `MoldPackets.CutBlocks` | src/udp_feed_reader.cpp:141-159 | Cut anywhere, a packet body yields exactly its complete blocks |
| `MoldPackets.PacketReceived` | src/udp_feed_reader.cpp:95-159 | A sent packet of at most 2048 bytes is read back whole, a longer one up to the last block complete within them |
| `MoldPackets.InOrderFeed` | src/udp_feed_reader.cpp:76-162 | Any packets that carry the messages in order and without loss deliver every message once, in order, with zero gaps, drops and cuts |
| `MoldPackets.LosslessStream` | src/udp_feed_reader.cpp:76-162 | So do the packets a sender builds from groups that fit the receive buffer |
| `MoldPackets.LastNumberWraps` | src/udp_feed_reader.cpp:139 | A packet that carries the last 64-bit number starts the expected one over |
| `Drain.AlwaysInv` | src/main.cpp:47-90 | In every interleaving processed ++ in hand ++ queued ++ being enqueued = fetched, and the engine state is that of the processed messages |
| `Drain.DrainComplete` | src/main.cpp:86-90 | When the engine thread has left, every fetched buffer was processed once and in order, and no step is left |
| `Drain.DrainTerminates` | src/main.cpp:86-90 | Once the flag is set, and until the engine thread has left, some step is always possible and every step takes exactly one off the steps that remain |
| `Drain.ExitsOnTime` | src/main.cpp:86-90 | In every interleaving the engine thread exits exactly that many steps after any state in which the flag is set |
| `Pipeline.FileMode` | src/main.cpp:96-113 | File mode succeeds exactly when no read fails and the stream ends cleanly, and then publishes a complete, faithful snapshot of all its messages; otherwise the last periodic one of what was read stays |
| `Pipeline.LiveEqualsFile` | src/main.cpp:42-111 | The same messages through a file or through lossless packets and any thread interleaving end in the same engine state |

## Left out

- `src/rest_server.cpp` beyond the symbol lookup: routing, JSON and depth parsing wrap a web library.
- Floating-point prices and spread: levels keep raw integer prices.
- The wall-clock time of a snapshot, latency and memory measurements, and everything under `bench/`.
- Internals of `std::map`, the hash map, the concurrent queue and the atomic snapshot cell; the queue is FIFO and a poll fails only when it is empty.
- Memory ordering: every step of the two threads is atomic and seen by the other at once; an exception inside the enqueue itself is not modelled.
- Sockets, file descriptors, environment variables and logging; their results are arbitrary inputs.
- `ArrayLadder::set_base`: the band is fixed at construction, since moving it under live levels orphans them.
- The computed-goto dispatch, which selects the same nine parsers as the switch.
- `register_instrument` after the first message: registered instruments are an input of the initial state.
- ArrayLadders.ArrayLadder.AddShares: once a slot's 32-bit order count has wrapped, the occupied-slot count is off by one and later calls on that ladder are not covered.
- MoldOrder.InOrderIffWithin: the converse half is for traces without cut-off blocks, since a cut-off block at the end of the number space can leave the delivered numbers increasing after a wrap.
