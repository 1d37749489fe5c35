/**
 * The messages of the NASDAQ TotalView-ITCH 5.0 feed, one datatype per
 * message type, and the per-type decoders. Every message starts with its
 * type byte, then Stock Locate (2 bytes), Tracking Number (2 bytes) and a
 * 48-bit Timestamp (nanoseconds since midnight); the remaining fields sit
 * at fixed offsets. A decoder accepts a buffer only when its length is the
 * type's exact size and its first byte is the type's tag; it reads nothing
 * else before deciding.
 */
module ItchMessages {
  import opened FixedWidth
  import opened Wrappers
  import opened ItchWire

  const SYSTEM_EVENT_TYPE: byte := 83  // 'S'
  const SYSTEM_EVENT_SIZE: nat := 12
  const STOCK_DIRECTORY_TYPE: byte := 82  // 'R'
  const STOCK_DIRECTORY_SIZE: nat := 39
  const STOCK_TRADING_ACTION_TYPE: byte := 72  // 'H'
  const STOCK_TRADING_ACTION_SIZE: nat := 25
  const REG_SHO_RESTRICTION_TYPE: byte := 89  // 'Y'
  const REG_SHO_RESTRICTION_SIZE: nat := 20
  const MARKET_PARTICIPANT_POSITION_TYPE: byte := 76  // 'L'
  const MARKET_PARTICIPANT_POSITION_SIZE: nat := 26
  const MWCB_DECLINE_LEVEL_TYPE: byte := 86  // 'V'
  const MWCB_DECLINE_LEVEL_SIZE: nat := 35
  const MWCB_STATUS_TYPE: byte := 87  // 'W'
  const MWCB_STATUS_SIZE: nat := 12
  const IPO_QUOTING_PERIOD_UPDATE_TYPE: byte := 75  // 'K'
  const IPO_QUOTING_PERIOD_UPDATE_SIZE: nat := 28
  const LULD_AUCTION_COLLAR_TYPE: byte := 74  // 'J'
  const LULD_AUCTION_COLLAR_SIZE: nat := 35
  const OPERATIONAL_HALT_TYPE: byte := 104  // 'h'
  const OPERATIONAL_HALT_SIZE: nat := 21
  const ADD_ORDER_TYPE: byte := 65  // 'A'
  const ADD_ORDER_SIZE: nat := 36
  const ADD_ORDER_MPID_TYPE: byte := 70  // 'F'
  const ADD_ORDER_MPID_SIZE: nat := 40
  const ORDER_EXECUTED_TYPE: byte := 69  // 'E'
  const ORDER_EXECUTED_SIZE: nat := 31
  const ORDER_EXECUTED_WITH_PRICE_TYPE: byte := 67  // 'C'
  const ORDER_EXECUTED_WITH_PRICE_SIZE: nat := 36
  const ORDER_CANCEL_TYPE: byte := 88  // 'X'
  const ORDER_CANCEL_SIZE: nat := 23
  const ORDER_DELETE_TYPE: byte := 68  // 'D'
  const ORDER_DELETE_SIZE: nat := 19
  const ORDER_REPLACE_TYPE: byte := 85  // 'U'
  const ORDER_REPLACE_SIZE: nat := 35
  const TRADE_NON_CROSS_TYPE: byte := 80  // 'P'
  const TRADE_NON_CROSS_SIZE: nat := 44
  const CROSS_TRADE_TYPE: byte := 81  // 'Q'
  const CROSS_TRADE_SIZE: nat := 40
  const BROKEN_TRADE_TYPE: byte := 66  // 'B'
  const BROKEN_TRADE_SIZE: nat := 19
  const NOII_TYPE: byte := 73  // 'I'
  const NOII_SIZE: nat := 50
  const RPII_TYPE: byte := 78  // 'N'
  const RPII_SIZE: nat := 20
  const DLCR_TYPE: byte := 79  // 'O'
  const DLCR_SIZE: nat := 48

  /** System Event ('S'), 12 bytes. */
  datatype SystemEvent = SystemEvent(stockLocate: u16, trackingNumber: u16, timestamp: u48, eventCode: char8)

  /** Stock Directory ('R'), 39 bytes. */
  datatype StockDirectory = StockDirectory(stockLocate: u16, trackingNumber: u16, timestamp: u48, symbol: Text8, marketCategory: char8, financialStatus: char8, roundLotSize: u32, roundLotsOnly: char8, issueClassification: char8, issueSubtype: Text2, authenticity: char8, shortSaleThreshold: char8, ipoFlag: char8, luldPriceTier: char8, etpFlag: char8, etpLeverageFactor: u32, inverseIndicator: char8)

  /** Stock Trading Action ('H'), 25 bytes. */
  datatype StockTradingAction = StockTradingAction(stockLocate: u16, trackingNumber: u16, timestamp: u48, symbol: Text8, tradingState: char8, reserved: char8, reason: Text4)

  /** Reg SHO Short Sale Price Test Restricted Indicator ('Y'), 20 bytes. */
  datatype RegShoRestriction = RegShoRestriction(stockLocate: u16, trackingNumber: u16, timestamp: u48, symbol: Text8, regShoAction: char8)

  /** Market Participant Position ('L'), 26 bytes. */
  datatype MarketParticipantPosition = MarketParticipantPosition(stockLocate: u16, trackingNumber: u16, timestamp: u48, mpid: Text4, symbol: Text8, primaryMarketMaker: char8, marketMakerMode: char8, marketParticipantState: char8)

  /** Market-Wide Circuit Breaker Decline Level ('V'), 35 bytes. */
  datatype MwcbDeclineLevel = MwcbDeclineLevel(stockLocate: u16, trackingNumber: u16, timestamp: u48, level1: u64, level2: u64, level3: u64)

  /** Market-Wide Circuit Breaker Status ('W'), 12 bytes. */
  datatype MwcbStatus = MwcbStatus(stockLocate: u16, trackingNumber: u16, timestamp: u48, breachedLevel: char8)

  /** IPO Quoting Period Update ('K'), 28 bytes. */
  datatype IpoQuotingPeriodUpdate = IpoQuotingPeriodUpdate(stockLocate: u16, trackingNumber: u16, timestamp: u48, symbol: Text8, ipoQuotationReleaseTime: u32, ipoQuotationReleaseQualifier: char8, ipoPrice: u32)

  /** LULD Auction Collar ('J'), 35 bytes. */
  datatype LuldAuctionCollar = LuldAuctionCollar(stockLocate: u16, trackingNumber: u16, timestamp: u48, symbol: Text8, auctionCollarReferencePrice: u32, upperCollarPrice: u32, lowerCollarPrice: u32, auctionCollarExtension: u32)

  /** Operational Halt ('h'), 21 bytes. */
  datatype OperationalHalt = OperationalHalt(stockLocate: u16, trackingNumber: u16, timestamp: u48, symbol: Text8, marketCode: char8, operationalHaltAction: char8)

  /** Add Order (no MPID attribution) ('A'), 36 bytes. */
  datatype AddOrder = AddOrder(stockLocate: u16, trackingNumber: u16, timestamp: u48, orderReference: u64, buySellIndicator: char8, shares: u32, symbol: Text8, price: u32)

  /** Add Order with MPID attribution ('F'), 40 bytes. */
  datatype AddOrderMpid = AddOrderMpid(stockLocate: u16, trackingNumber: u16, timestamp: u48, orderReference: u64, buySellIndicator: char8, shares: u32, symbol: Text8, price: u32, attribution: Text4)

  /** Order Executed ('E'), 31 bytes. */
  datatype OrderExecuted = OrderExecuted(stockLocate: u16, trackingNumber: u16, timestamp: u48, orderReference: u64, executedShares: u32, matchNumber: u64)

  /** Order Executed With Price ('C'), 36 bytes. */
  datatype OrderExecutedWithPrice = OrderExecutedWithPrice(stockLocate: u16, trackingNumber: u16, timestamp: u48, orderReference: u64, executedShares: u32, matchNumber: u64, printable: char8, executionPrice: u32)

  /** Order Cancel ('X'), 23 bytes. */
  datatype OrderCancel = OrderCancel(stockLocate: u16, trackingNumber: u16, timestamp: u48, orderReference: u64, cancelledShares: u32)

  /** Order Delete ('D'), 19 bytes. */
  datatype OrderDelete = OrderDelete(stockLocate: u16, trackingNumber: u16, timestamp: u48, orderReference: u64)

  /** Order Replace ('U'), 35 bytes. */
  datatype OrderReplace = OrderReplace(stockLocate: u16, trackingNumber: u16, timestamp: u48, originalOrderReference: u64, newOrderReference: u64, shares: u32, price: u32)

  /** Trade (non-cross) ('P'), 44 bytes. */
  datatype TradeNonCross = TradeNonCross(stockLocate: u16, trackingNumber: u16, timestamp: u48, orderReference: u64, buySellIndicator: char8, shares: u32, symbol: Text8, price: u32, matchNumber: u64)

  /** Cross Trade ('Q'), 40 bytes. */
  datatype CrossTrade = CrossTrade(stockLocate: u16, trackingNumber: u16, timestamp: u48, shares: u64, symbol: Text8, crossPrice: u32, matchNumber: u64, crossType: char8)

  /** Broken Trade ('B'), 19 bytes. */
  datatype BrokenTrade = BrokenTrade(stockLocate: u16, trackingNumber: u16, timestamp: u48, matchNumber: u64)

  /** Net Order Imbalance Indicator ('I'), 50 bytes. */
  datatype Noii = Noii(stockLocate: u16, trackingNumber: u16, timestamp: u48, pairedShares: u64, imbalanceShares: u64, imbalanceDirection: char8, symbol: Text8, farPrice: u32, nearPrice: u32, currentReferencePrice: u32, crossType: char8, priceVariationIndicator: char8)

  /** Retail Price Improvement Indicator ('N'), 20 bytes. */
  datatype Rpii = Rpii(stockLocate: u16, trackingNumber: u16, timestamp: u48, symbol: Text8, interestFlag: char8)

  /** Direct Listing with Capital Raise Price Discovery ('O'), 48 bytes. */
  datatype Dlcr = Dlcr(stockLocate: u16, trackingNumber: u16, timestamp: u48, symbol: Text8, openEligibilityStatus: char8, minAllowablePrice: u32, maxAllowablePrice: u32, nearExecutionPrice: u32, nearExecutionTime: u64, lowerPriceRangeCollar: u32, upperPriceRangeCollar: u32)

  function ParseSystemEvent(buf: seq<byte>): (r: Option<SystemEvent>)
    ensures r.Some? <==> |buf| == SYSTEM_EVENT_SIZE && buf[0] == SYSTEM_EVENT_TYPE
  {
    if |buf| != SYSTEM_EVENT_SIZE || buf[0] != SYSTEM_EVENT_TYPE then None
    else Some(SystemEvent(ReadU16(buf, 1),
                    ReadU16(buf, 3),
                    ReadU48(buf, 5),
                    ReadChar(buf, 11)))
  }

  function ParseStockDirectory(buf: seq<byte>): (r: Option<StockDirectory>)
    ensures r.Some? <==> |buf| == STOCK_DIRECTORY_SIZE && buf[0] == STOCK_DIRECTORY_TYPE
  {
    if |buf| != STOCK_DIRECTORY_SIZE || buf[0] != STOCK_DIRECTORY_TYPE then None
    else Some(StockDirectory(ReadU16(buf, 1),
                       ReadU16(buf, 3),
                       ReadU48(buf, 5),
                       ReadText(buf, 11, 8),
                       ReadChar(buf, 19),
                       ReadChar(buf, 20),
                       ReadU32(buf, 21),
                       ReadChar(buf, 25),
                       ReadChar(buf, 26),
                       ReadText(buf, 27, 2),
                       ReadChar(buf, 29),
                       ReadChar(buf, 30),
                       ReadChar(buf, 31),
                       ReadChar(buf, 32),
                       ReadChar(buf, 33),
                       ReadU32(buf, 34),
                       ReadChar(buf, 38)))
  }

  function ParseStockTradingAction(buf: seq<byte>): (r: Option<StockTradingAction>)
    ensures r.Some? <==> |buf| == STOCK_TRADING_ACTION_SIZE && buf[0] == STOCK_TRADING_ACTION_TYPE
  {
    if |buf| != STOCK_TRADING_ACTION_SIZE || buf[0] != STOCK_TRADING_ACTION_TYPE then None
    else Some(StockTradingAction(ReadU16(buf, 1),
                           ReadU16(buf, 3),
                           ReadU48(buf, 5),
                           ReadText(buf, 11, 8),
                           ReadChar(buf, 19),
                           ReadChar(buf, 20),
                           ReadText(buf, 21, 4)))
  }

  function ParseRegShoRestriction(buf: seq<byte>): (r: Option<RegShoRestriction>)
    ensures r.Some? <==> |buf| == REG_SHO_RESTRICTION_SIZE && buf[0] == REG_SHO_RESTRICTION_TYPE
  {
    if |buf| != REG_SHO_RESTRICTION_SIZE || buf[0] != REG_SHO_RESTRICTION_TYPE then None
    else Some(RegShoRestriction(ReadU16(buf, 1),
                          ReadU16(buf, 3),
                          ReadU48(buf, 5),
                          ReadText(buf, 11, 8),
                          ReadChar(buf, 19)))
  }

  function ParseMarketParticipantPosition(buf: seq<byte>): (r: Option<MarketParticipantPosition>)
    ensures r.Some? <==> |buf| == MARKET_PARTICIPANT_POSITION_SIZE && buf[0] == MARKET_PARTICIPANT_POSITION_TYPE
  {
    if |buf| != MARKET_PARTICIPANT_POSITION_SIZE || buf[0] != MARKET_PARTICIPANT_POSITION_TYPE then None
    else Some(MarketParticipantPosition(ReadU16(buf, 1),
                                  ReadU16(buf, 3),
                                  ReadU48(buf, 5),
                                  ReadText(buf, 11, 4),
                                  ReadText(buf, 15, 8),
                                  ReadChar(buf, 23),
                                  ReadChar(buf, 24),
                                  ReadChar(buf, 25)))
  }

  function ParseMwcbDeclineLevel(buf: seq<byte>): (r: Option<MwcbDeclineLevel>)
    ensures r.Some? <==> |buf| == MWCB_DECLINE_LEVEL_SIZE && buf[0] == MWCB_DECLINE_LEVEL_TYPE
  {
    if |buf| != MWCB_DECLINE_LEVEL_SIZE || buf[0] != MWCB_DECLINE_LEVEL_TYPE then None
    else Some(MwcbDeclineLevel(ReadU16(buf, 1),
                         ReadU16(buf, 3),
                         ReadU48(buf, 5),
                         ReadU64(buf, 11),
                         ReadU64(buf, 19),
                         ReadU64(buf, 27)))
  }

  function ParseMwcbStatus(buf: seq<byte>): (r: Option<MwcbStatus>)
    ensures r.Some? <==> |buf| == MWCB_STATUS_SIZE && buf[0] == MWCB_STATUS_TYPE
  {
    if |buf| != MWCB_STATUS_SIZE || buf[0] != MWCB_STATUS_TYPE then None
    else Some(MwcbStatus(ReadU16(buf, 1),
                   ReadU16(buf, 3),
                   ReadU48(buf, 5),
                   ReadChar(buf, 11)))
  }

  function ParseIpoQuotingPeriodUpdate(buf: seq<byte>): (r: Option<IpoQuotingPeriodUpdate>)
    ensures r.Some? <==> |buf| == IPO_QUOTING_PERIOD_UPDATE_SIZE && buf[0] == IPO_QUOTING_PERIOD_UPDATE_TYPE
  {
    if |buf| != IPO_QUOTING_PERIOD_UPDATE_SIZE || buf[0] != IPO_QUOTING_PERIOD_UPDATE_TYPE then None
    else Some(IpoQuotingPeriodUpdate(ReadU16(buf, 1),
                               ReadU16(buf, 3),
                               ReadU48(buf, 5),
                               ReadText(buf, 11, 8),
                               ReadU32(buf, 19),
                               ReadChar(buf, 23),
                               ReadU32(buf, 24)))
  }

  function ParseLuldAuctionCollar(buf: seq<byte>): (r: Option<LuldAuctionCollar>)
    ensures r.Some? <==> |buf| == LULD_AUCTION_COLLAR_SIZE && buf[0] == LULD_AUCTION_COLLAR_TYPE
  {
    if |buf| != LULD_AUCTION_COLLAR_SIZE || buf[0] != LULD_AUCTION_COLLAR_TYPE then None
    else Some(LuldAuctionCollar(ReadU16(buf, 1),
                          ReadU16(buf, 3),
                          ReadU48(buf, 5),
                          ReadText(buf, 11, 8),
                          ReadU32(buf, 19),
                          ReadU32(buf, 23),
                          ReadU32(buf, 27),
                          ReadU32(buf, 31)))
  }

  function ParseOperationalHalt(buf: seq<byte>): (r: Option<OperationalHalt>)
    ensures r.Some? <==> |buf| == OPERATIONAL_HALT_SIZE && buf[0] == OPERATIONAL_HALT_TYPE
  {
    if |buf| != OPERATIONAL_HALT_SIZE || buf[0] != OPERATIONAL_HALT_TYPE then None
    else Some(OperationalHalt(ReadU16(buf, 1),
                        ReadU16(buf, 3),
                        ReadU48(buf, 5),
                        ReadText(buf, 11, 8),
                        ReadChar(buf, 19),
                        ReadChar(buf, 20)))
  }

  function ParseAddOrder(buf: seq<byte>): (r: Option<AddOrder>)
    ensures r.Some? <==> |buf| == ADD_ORDER_SIZE && buf[0] == ADD_ORDER_TYPE
  {
    if |buf| != ADD_ORDER_SIZE || buf[0] != ADD_ORDER_TYPE then None
    else Some(AddOrder(ReadU16(buf, 1),
                 ReadU16(buf, 3),
                 ReadU48(buf, 5),
                 ReadU64(buf, 11),
                 ReadChar(buf, 19),
                 ReadU32(buf, 20),
                 ReadText(buf, 24, 8),
                 ReadU32(buf, 32)))
  }

  function ParseAddOrderMpid(buf: seq<byte>): (r: Option<AddOrderMpid>)
    ensures r.Some? <==> |buf| == ADD_ORDER_MPID_SIZE && buf[0] == ADD_ORDER_MPID_TYPE
  {
    if |buf| != ADD_ORDER_MPID_SIZE || buf[0] != ADD_ORDER_MPID_TYPE then None
    else Some(AddOrderMpid(ReadU16(buf, 1),
                     ReadU16(buf, 3),
                     ReadU48(buf, 5),
                     ReadU64(buf, 11),
                     ReadChar(buf, 19),
                     ReadU32(buf, 20),
                     ReadText(buf, 24, 8),
                     ReadU32(buf, 32),
                     ReadText(buf, 36, 4)))
  }

  function ParseOrderExecuted(buf: seq<byte>): (r: Option<OrderExecuted>)
    ensures r.Some? <==> |buf| == ORDER_EXECUTED_SIZE && buf[0] == ORDER_EXECUTED_TYPE
  {
    if |buf| != ORDER_EXECUTED_SIZE || buf[0] != ORDER_EXECUTED_TYPE then None
    else Some(OrderExecuted(ReadU16(buf, 1),
                      ReadU16(buf, 3),
                      ReadU48(buf, 5),
                      ReadU64(buf, 11),
                      ReadU32(buf, 19),
                      ReadU64(buf, 23)))
  }

  function ParseOrderExecutedWithPrice(buf: seq<byte>): (r: Option<OrderExecutedWithPrice>)
    ensures r.Some? <==> |buf| == ORDER_EXECUTED_WITH_PRICE_SIZE && buf[0] == ORDER_EXECUTED_WITH_PRICE_TYPE
  {
    if |buf| != ORDER_EXECUTED_WITH_PRICE_SIZE || buf[0] != ORDER_EXECUTED_WITH_PRICE_TYPE then None
    else Some(OrderExecutedWithPrice(ReadU16(buf, 1),
                               ReadU16(buf, 3),
                               ReadU48(buf, 5),
                               ReadU64(buf, 11),
                               ReadU32(buf, 19),
                               ReadU64(buf, 23),
                               ReadChar(buf, 31),
                               ReadU32(buf, 32)))
  }

  function ParseOrderCancel(buf: seq<byte>): (r: Option<OrderCancel>)
    ensures r.Some? <==> |buf| == ORDER_CANCEL_SIZE && buf[0] == ORDER_CANCEL_TYPE
  {
    if |buf| != ORDER_CANCEL_SIZE || buf[0] != ORDER_CANCEL_TYPE then None
    else Some(OrderCancel(ReadU16(buf, 1),
                    ReadU16(buf, 3),
                    ReadU48(buf, 5),
                    ReadU64(buf, 11),
                    ReadU32(buf, 19)))
  }

  function ParseOrderDelete(buf: seq<byte>): (r: Option<OrderDelete>)
    ensures r.Some? <==> |buf| == ORDER_DELETE_SIZE && buf[0] == ORDER_DELETE_TYPE
  {
    if |buf| != ORDER_DELETE_SIZE || buf[0] != ORDER_DELETE_TYPE then None
    else Some(OrderDelete(ReadU16(buf, 1),
                    ReadU16(buf, 3),
                    ReadU48(buf, 5),
                    ReadU64(buf, 11)))
  }

  function ParseOrderReplace(buf: seq<byte>): (r: Option<OrderReplace>)
    ensures r.Some? <==> |buf| == ORDER_REPLACE_SIZE && buf[0] == ORDER_REPLACE_TYPE
  {
    if |buf| != ORDER_REPLACE_SIZE || buf[0] != ORDER_REPLACE_TYPE then None
    else Some(OrderReplace(ReadU16(buf, 1),
                     ReadU16(buf, 3),
                     ReadU48(buf, 5),
                     ReadU64(buf, 11),
                     ReadU64(buf, 19),
                     ReadU32(buf, 27),
                     ReadU32(buf, 31)))
  }

  function ParseTradeNonCross(buf: seq<byte>): (r: Option<TradeNonCross>)
    ensures r.Some? <==> |buf| == TRADE_NON_CROSS_SIZE && buf[0] == TRADE_NON_CROSS_TYPE
  {
    if |buf| != TRADE_NON_CROSS_SIZE || buf[0] != TRADE_NON_CROSS_TYPE then None
    else Some(TradeNonCross(ReadU16(buf, 1),
                      ReadU16(buf, 3),
                      ReadU48(buf, 5),
                      ReadU64(buf, 11),
                      ReadChar(buf, 19),
                      ReadU32(buf, 20),
                      ReadText(buf, 24, 8),
                      ReadU32(buf, 32),
                      ReadU64(buf, 36)))
  }

  function ParseCrossTrade(buf: seq<byte>): (r: Option<CrossTrade>)
    ensures r.Some? <==> |buf| == CROSS_TRADE_SIZE && buf[0] == CROSS_TRADE_TYPE
  {
    if |buf| != CROSS_TRADE_SIZE || buf[0] != CROSS_TRADE_TYPE then None
    else Some(CrossTrade(ReadU16(buf, 1),
                   ReadU16(buf, 3),
                   ReadU48(buf, 5),
                   ReadU64(buf, 11),
                   ReadText(buf, 19, 8),
                   ReadU32(buf, 27),
                   ReadU64(buf, 31),
                   ReadChar(buf, 39)))
  }

  function ParseBrokenTrade(buf: seq<byte>): (r: Option<BrokenTrade>)
    ensures r.Some? <==> |buf| == BROKEN_TRADE_SIZE && buf[0] == BROKEN_TRADE_TYPE
  {
    if |buf| != BROKEN_TRADE_SIZE || buf[0] != BROKEN_TRADE_TYPE then None
    else Some(BrokenTrade(ReadU16(buf, 1),
                    ReadU16(buf, 3),
                    ReadU48(buf, 5),
                    ReadU64(buf, 11)))
  }

  function ParseNoii(buf: seq<byte>): (r: Option<Noii>)
    ensures r.Some? <==> |buf| == NOII_SIZE && buf[0] == NOII_TYPE
  {
    if |buf| != NOII_SIZE || buf[0] != NOII_TYPE then None
    else Some(Noii(ReadU16(buf, 1),
             ReadU16(buf, 3),
             ReadU48(buf, 5),
             ReadU64(buf, 11),
             ReadU64(buf, 19),
             ReadChar(buf, 27),
             ReadText(buf, 28, 8),
             ReadU32(buf, 36),
             ReadU32(buf, 40),
             ReadU32(buf, 44),
             ReadChar(buf, 48),
             ReadChar(buf, 49)))
  }

  function ParseRpii(buf: seq<byte>): (r: Option<Rpii>)
    ensures r.Some? <==> |buf| == RPII_SIZE && buf[0] == RPII_TYPE
  {
    if |buf| != RPII_SIZE || buf[0] != RPII_TYPE then None
    else Some(Rpii(ReadU16(buf, 1),
             ReadU16(buf, 3),
             ReadU48(buf, 5),
             ReadText(buf, 11, 8),
             ReadChar(buf, 19)))
  }

  function ParseDlcr(buf: seq<byte>): (r: Option<Dlcr>)
    ensures r.Some? <==> |buf| == DLCR_SIZE && buf[0] == DLCR_TYPE
  {
    if |buf| != DLCR_SIZE || buf[0] != DLCR_TYPE then None
    else Some(Dlcr(ReadU16(buf, 1),
             ReadU16(buf, 3),
             ReadU48(buf, 5),
             ReadText(buf, 11, 8),
             ReadChar(buf, 19),
             ReadU32(buf, 20),
             ReadU32(buf, 24),
             ReadU32(buf, 28),
             ReadU64(buf, 32),
             ReadU32(buf, 40),
             ReadU32(buf, 44)))
  }

  /**
   * Cross Trade as the decoder is actually written: the length check accepts
   * 35 bytes, yet Match Number is read from bytes 31..38 and Cross Type from
   * byte 39. `mem` stands for the memory that starts at the message, of
   * which only the first `length` bytes belong to it; an accepted message is
   * decoded from 40 bytes of that memory.
   */
  const CROSS_TRADE_SIZE_AS_WRITTEN: nat := 35

  function ParseCrossTradeAsWritten(mem: seq<byte>, length: nat): (r: Option<CrossTrade>)
    requires length <= |mem|
    requires length == CROSS_TRADE_SIZE_AS_WRITTEN ==> CROSS_TRADE_SIZE <= |mem|
    ensures r.Some? <==> length == CROSS_TRADE_SIZE_AS_WRITTEN && mem[0] == CROSS_TRADE_TYPE
  {
    if length != CROSS_TRADE_SIZE_AS_WRITTEN || mem[0] != CROSS_TRADE_TYPE then None
    else Some(CrossTrade(ReadU16(mem, 1), ReadU16(mem, 3), ReadU48(mem, 5), ReadU64(mem, 11),
                         ReadText(mem, 19, 8), ReadU32(mem, 27), ReadU64(mem, 31), ReadChar(mem, 39)))
  }
}
