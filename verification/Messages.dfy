/** The nine in-scope ITCH 5.0 messages. Text and single characters are kept as bytes. */
module Messages {
  import opened Words

  type Text = seq<u8>

  const SPACE: u8 := 0x20

  datatype Message =
    | StockDirectory(
        locate: u16, tracking: u16, timestamp: u64, stock: Text,
        marketCategory: u8, financialStatus: u8, roundLotSize: u32, roundLotsOnly: u8,
        issueClassification: u8, issueSubType: Text, authenticity: u8, shortSaleThreshold: u8,
        ipoFlag: u8, luldTier: u8, etpFlag: u8, etpLeverage: u32, inverseIndicator: u8)
    | TradingAction(
        locate: u16, tracking: u16, timestamp: u64, stock: Text,
        tradingState: u8, reserved: u8, reason: Text)
    | AddOrder(
        locate: u16, tracking: u16, timestamp: u64, ref: u64,
        side: u8, shares: u32, stock: Text, price: u32)
    | AddOrderMpid(
        locate: u16, tracking: u16, timestamp: u64, ref: u64,
        side: u8, shares: u32, stock: Text, price: u32, attribution: Text)
    | Executed(
        locate: u16, tracking: u16, timestamp: u64, ref: u64,
        executedShares: u32, matchNumber: u64)
    | ExecutedPrice(
        locate: u16, tracking: u16, timestamp: u64, ref: u64,
        executedShares: u32, matchNumber: u64, printable: u8, executionPrice: u32)
    | Cancel(locate: u16, tracking: u16, timestamp: u64, ref: u64, cancelledShares: u32)
    | Delete(locate: u16, tracking: u16, timestamp: u64, ref: u64)
    | Replace(
        locate: u16, tracking: u16, timestamp: u64, ref: u64,
        newRef: u64, shares: u32, price: u32)
}
