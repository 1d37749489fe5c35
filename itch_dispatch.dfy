/**
 * The ITCH 5.0 message dispatcher: the variant of all dispatched message
 * types, the entry point that classifies a buffer by its type byte and
 * hands it to that type's decoder, the helpers that read the common header
 * out of any message, the message categories, and the running statistics.
 */
module ItchDispatch {
  import opened FixedWidth
  import opened Wrappers
  import opened ItchWire
  import opened ItchMessages
  import opened ItchCodec

  /** Every message type except Operational Halt, which has a decoder but is not dispatched. */
  datatype ItchMessage =
    | SystemEventMsg(SystemEvent)
    | StockDirectoryMsg(StockDirectory)
    | StockTradingActionMsg(StockTradingAction)
    | RegShoRestrictionMsg(RegShoRestriction)
    | MarketParticipantPositionMsg(MarketParticipantPosition)
    | MwcbDeclineLevelMsg(MwcbDeclineLevel)
    | MwcbStatusMsg(MwcbStatus)
    | IpoQuotingPeriodUpdateMsg(IpoQuotingPeriodUpdate)
    | LuldAuctionCollarMsg(LuldAuctionCollar)
    | AddOrderMsg(AddOrder)
    | AddOrderMpidMsg(AddOrderMpid)
    | OrderExecutedMsg(OrderExecuted)
    | OrderExecutedWithPriceMsg(OrderExecutedWithPrice)
    | OrderCancelMsg(OrderCancel)
    | OrderDeleteMsg(OrderDelete)
    | OrderReplaceMsg(OrderReplace)
    | TradeNonCrossMsg(TradeNonCross)
    | CrossTradeMsg(CrossTrade)
    | BrokenTradeMsg(BrokenTrade)
    | NoiiMsg(Noii)
    | RpiiMsg(Rpii)
    | DlcrMsg(Dlcr)

  datatype ParseError = InvalidSize | InvalidType

  /** The ErrorCode values the dispatcher reports. */
  function ErrorCodeOf(e: ParseError): (code: nat)
    ensures code == (if e == InvalidSize then 100 else 101)
  {
    match e
    case InvalidSize => 100
    case InvalidType => 101
  }

  datatype ParseResult = Parsed(message: ItchMessage) | Failed(error: ParseError)

  /** The exact wire size of each dispatched type byte; None for every other byte. */
  function DispatchedSize(t: byte): Option<nat>
  {
    if t == SYSTEM_EVENT_TYPE then Some(SYSTEM_EVENT_SIZE)
    else if t == STOCK_DIRECTORY_TYPE then Some(STOCK_DIRECTORY_SIZE)
    else if t == STOCK_TRADING_ACTION_TYPE then Some(STOCK_TRADING_ACTION_SIZE)
    else if t == REG_SHO_RESTRICTION_TYPE then Some(REG_SHO_RESTRICTION_SIZE)
    else if t == MARKET_PARTICIPANT_POSITION_TYPE then Some(MARKET_PARTICIPANT_POSITION_SIZE)
    else if t == MWCB_DECLINE_LEVEL_TYPE then Some(MWCB_DECLINE_LEVEL_SIZE)
    else if t == MWCB_STATUS_TYPE then Some(MWCB_STATUS_SIZE)
    else if t == IPO_QUOTING_PERIOD_UPDATE_TYPE then Some(IPO_QUOTING_PERIOD_UPDATE_SIZE)
    else if t == LULD_AUCTION_COLLAR_TYPE then Some(LULD_AUCTION_COLLAR_SIZE)
    else if t == ADD_ORDER_TYPE then Some(ADD_ORDER_SIZE)
    else if t == ADD_ORDER_MPID_TYPE then Some(ADD_ORDER_MPID_SIZE)
    else if t == ORDER_EXECUTED_TYPE then Some(ORDER_EXECUTED_SIZE)
    else if t == ORDER_EXECUTED_WITH_PRICE_TYPE then Some(ORDER_EXECUTED_WITH_PRICE_SIZE)
    else if t == ORDER_CANCEL_TYPE then Some(ORDER_CANCEL_SIZE)
    else if t == ORDER_DELETE_TYPE then Some(ORDER_DELETE_SIZE)
    else if t == ORDER_REPLACE_TYPE then Some(ORDER_REPLACE_SIZE)
    else if t == TRADE_NON_CROSS_TYPE then Some(TRADE_NON_CROSS_SIZE)
    else if t == CROSS_TRADE_TYPE then Some(CROSS_TRADE_SIZE)
    else if t == BROKEN_TRADE_TYPE then Some(BROKEN_TRADE_SIZE)
    else if t == NOII_TYPE then Some(NOII_SIZE)
    else if t == RPII_TYPE then Some(RPII_SIZE)
    else if t == DLCR_TYPE then Some(DLCR_SIZE)
    else None
  }

  function TypeOf(msg: ItchMessage): byte
  {
    match msg
    case SystemEventMsg(_) => SYSTEM_EVENT_TYPE
    case StockDirectoryMsg(_) => STOCK_DIRECTORY_TYPE
    case StockTradingActionMsg(_) => STOCK_TRADING_ACTION_TYPE
    case RegShoRestrictionMsg(_) => REG_SHO_RESTRICTION_TYPE
    case MarketParticipantPositionMsg(_) => MARKET_PARTICIPANT_POSITION_TYPE
    case MwcbDeclineLevelMsg(_) => MWCB_DECLINE_LEVEL_TYPE
    case MwcbStatusMsg(_) => MWCB_STATUS_TYPE
    case IpoQuotingPeriodUpdateMsg(_) => IPO_QUOTING_PERIOD_UPDATE_TYPE
    case LuldAuctionCollarMsg(_) => LULD_AUCTION_COLLAR_TYPE
    case AddOrderMsg(_) => ADD_ORDER_TYPE
    case AddOrderMpidMsg(_) => ADD_ORDER_MPID_TYPE
    case OrderExecutedMsg(_) => ORDER_EXECUTED_TYPE
    case OrderExecutedWithPriceMsg(_) => ORDER_EXECUTED_WITH_PRICE_TYPE
    case OrderCancelMsg(_) => ORDER_CANCEL_TYPE
    case OrderDeleteMsg(_) => ORDER_DELETE_TYPE
    case OrderReplaceMsg(_) => ORDER_REPLACE_TYPE
    case TradeNonCrossMsg(_) => TRADE_NON_CROSS_TYPE
    case CrossTradeMsg(_) => CROSS_TRADE_TYPE
    case BrokenTradeMsg(_) => BROKEN_TRADE_TYPE
    case NoiiMsg(_) => NOII_TYPE
    case RpiiMsg(_) => RPII_TYPE
    case DlcrMsg(_) => DLCR_TYPE
  }

  function EncodeMessage(msg: ItchMessage): seq<byte>
  {
    match msg
    case SystemEventMsg(x) => EncodeSystemEvent(x)
    case StockDirectoryMsg(x) => EncodeStockDirectory(x)
    case StockTradingActionMsg(x) => EncodeStockTradingAction(x)
    case RegShoRestrictionMsg(x) => EncodeRegShoRestriction(x)
    case MarketParticipantPositionMsg(x) => EncodeMarketParticipantPosition(x)
    case MwcbDeclineLevelMsg(x) => EncodeMwcbDeclineLevel(x)
    case MwcbStatusMsg(x) => EncodeMwcbStatus(x)
    case IpoQuotingPeriodUpdateMsg(x) => EncodeIpoQuotingPeriodUpdate(x)
    case LuldAuctionCollarMsg(x) => EncodeLuldAuctionCollar(x)
    case AddOrderMsg(x) => EncodeAddOrder(x)
    case AddOrderMpidMsg(x) => EncodeAddOrderMpid(x)
    case OrderExecutedMsg(x) => EncodeOrderExecuted(x)
    case OrderExecutedWithPriceMsg(x) => EncodeOrderExecutedWithPrice(x)
    case OrderCancelMsg(x) => EncodeOrderCancel(x)
    case OrderDeleteMsg(x) => EncodeOrderDelete(x)
    case OrderReplaceMsg(x) => EncodeOrderReplace(x)
    case TradeNonCrossMsg(x) => EncodeTradeNonCross(x)
    case CrossTradeMsg(x) => EncodeCrossTrade(x)
    case BrokenTradeMsg(x) => EncodeBrokenTrade(x)
    case NoiiMsg(x) => EncodeNoii(x)
    case RpiiMsg(x) => EncodeRpii(x)
    case DlcrMsg(x) => EncodeDlcr(x)
  }

  /**
   * An empty buffer is too short; a type byte the dispatcher does not know
   * is an invalid type; a known type whose decoder refuses the buffer (the
   * length is not that type's size) is an invalid size.
   */
  function ParseMessage(buf: seq<byte>): (r: ParseResult)
    ensures |buf| == 0 ==> r == Failed(InvalidSize)
    ensures |buf| > 0 && DispatchedSize(buf[0]).None? ==> r == Failed(InvalidType)
    ensures |buf| > 0 && DispatchedSize(buf[0]).Some? ==>
              (r.Parsed? <==> |buf| == DispatchedSize(buf[0]).value)
              && (r.Failed? ==> r.error == InvalidSize)
    ensures r.Parsed? ==> TypeOf(r.message) == buf[0]
  {
    if |buf| < 1 then Failed(InvalidSize)
    else
      var t := buf[0];
      if t == SYSTEM_EVENT_TYPE then
        match ParseSystemEvent(buf) case Some(x) => Parsed(SystemEventMsg(x)) case None => Failed(InvalidSize)
      else if t == STOCK_DIRECTORY_TYPE then
        match ParseStockDirectory(buf) case Some(x) => Parsed(StockDirectoryMsg(x)) case None => Failed(InvalidSize)
      else if t == STOCK_TRADING_ACTION_TYPE then
        match ParseStockTradingAction(buf) case Some(x) => Parsed(StockTradingActionMsg(x)) case None => Failed(InvalidSize)
      else if t == REG_SHO_RESTRICTION_TYPE then
        match ParseRegShoRestriction(buf) case Some(x) => Parsed(RegShoRestrictionMsg(x)) case None => Failed(InvalidSize)
      else if t == MARKET_PARTICIPANT_POSITION_TYPE then
        match ParseMarketParticipantPosition(buf) case Some(x) => Parsed(MarketParticipantPositionMsg(x)) case None => Failed(InvalidSize)
      else if t == MWCB_DECLINE_LEVEL_TYPE then
        match ParseMwcbDeclineLevel(buf) case Some(x) => Parsed(MwcbDeclineLevelMsg(x)) case None => Failed(InvalidSize)
      else if t == MWCB_STATUS_TYPE then
        match ParseMwcbStatus(buf) case Some(x) => Parsed(MwcbStatusMsg(x)) case None => Failed(InvalidSize)
      else if t == IPO_QUOTING_PERIOD_UPDATE_TYPE then
        match ParseIpoQuotingPeriodUpdate(buf) case Some(x) => Parsed(IpoQuotingPeriodUpdateMsg(x)) case None => Failed(InvalidSize)
      else if t == LULD_AUCTION_COLLAR_TYPE then
        match ParseLuldAuctionCollar(buf) case Some(x) => Parsed(LuldAuctionCollarMsg(x)) case None => Failed(InvalidSize)
      else if t == ADD_ORDER_TYPE then
        match ParseAddOrder(buf) case Some(x) => Parsed(AddOrderMsg(x)) case None => Failed(InvalidSize)
      else if t == ADD_ORDER_MPID_TYPE then
        match ParseAddOrderMpid(buf) case Some(x) => Parsed(AddOrderMpidMsg(x)) case None => Failed(InvalidSize)
      else if t == ORDER_EXECUTED_TYPE then
        match ParseOrderExecuted(buf) case Some(x) => Parsed(OrderExecutedMsg(x)) case None => Failed(InvalidSize)
      else if t == ORDER_EXECUTED_WITH_PRICE_TYPE then
        match ParseOrderExecutedWithPrice(buf) case Some(x) => Parsed(OrderExecutedWithPriceMsg(x)) case None => Failed(InvalidSize)
      else if t == ORDER_CANCEL_TYPE then
        match ParseOrderCancel(buf) case Some(x) => Parsed(OrderCancelMsg(x)) case None => Failed(InvalidSize)
      else if t == ORDER_DELETE_TYPE then
        match ParseOrderDelete(buf) case Some(x) => Parsed(OrderDeleteMsg(x)) case None => Failed(InvalidSize)
      else if t == ORDER_REPLACE_TYPE then
        match ParseOrderReplace(buf) case Some(x) => Parsed(OrderReplaceMsg(x)) case None => Failed(InvalidSize)
      else if t == TRADE_NON_CROSS_TYPE then
        match ParseTradeNonCross(buf) case Some(x) => Parsed(TradeNonCrossMsg(x)) case None => Failed(InvalidSize)
      else if t == CROSS_TRADE_TYPE then
        match ParseCrossTrade(buf) case Some(x) => Parsed(CrossTradeMsg(x)) case None => Failed(InvalidSize)
      else if t == BROKEN_TRADE_TYPE then
        match ParseBrokenTrade(buf) case Some(x) => Parsed(BrokenTradeMsg(x)) case None => Failed(InvalidSize)
      else if t == NOII_TYPE then
        match ParseNoii(buf) case Some(x) => Parsed(NoiiMsg(x)) case None => Failed(InvalidSize)
      else if t == RPII_TYPE then
        match ParseRpii(buf) case Some(x) => Parsed(RpiiMsg(x)) case None => Failed(InvalidSize)
      else if t == DLCR_TYPE then
        match ParseDlcr(buf) case Some(x) => Parsed(DlcrMsg(x)) case None => Failed(InvalidSize)
      else Failed(InvalidType)
  }

  lemma DispatchesToSystemEvent(buf: seq<byte>)
    requires |buf| > 0 && buf[0] == SYSTEM_EVENT_TYPE
    ensures ParseMessage(buf)
            == match ParseSystemEvent(buf) case Some(x) => Parsed(SystemEventMsg(x)) case None => Failed(InvalidSize)
  {
  }

  lemma SystemEventMessageRoundTrip(x: SystemEvent)
    ensures ParseMessage(EncodeMessage(SystemEventMsg(x))) == Parsed(SystemEventMsg(x))
  {
    var buf := EncodeSystemEvent(x);
    assert EncodeMessage(SystemEventMsg(x)) == buf;
    DispatchesToSystemEvent(buf);
    SystemEventRoundTrip(x);
  }

  lemma DispatchesToStockDirectory(buf: seq<byte>)
    requires |buf| > 0 && buf[0] == STOCK_DIRECTORY_TYPE
    ensures ParseMessage(buf)
            == match ParseStockDirectory(buf) case Some(x) => Parsed(StockDirectoryMsg(x)) case None => Failed(InvalidSize)
  {
  }

  lemma StockDirectoryMessageRoundTrip(x: StockDirectory)
    ensures ParseMessage(EncodeMessage(StockDirectoryMsg(x))) == Parsed(StockDirectoryMsg(x))
  {
    var buf := EncodeStockDirectory(x);
    assert EncodeMessage(StockDirectoryMsg(x)) == buf;
    DispatchesToStockDirectory(buf);
    StockDirectoryRoundTrip(x);
  }

  lemma DispatchesToStockTradingAction(buf: seq<byte>)
    requires |buf| > 0 && buf[0] == STOCK_TRADING_ACTION_TYPE
    ensures ParseMessage(buf)
            == match ParseStockTradingAction(buf) case Some(x) => Parsed(StockTradingActionMsg(x)) case None => Failed(InvalidSize)
  {
  }

  lemma StockTradingActionMessageRoundTrip(x: StockTradingAction)
    ensures ParseMessage(EncodeMessage(StockTradingActionMsg(x))) == Parsed(StockTradingActionMsg(x))
  {
    var buf := EncodeStockTradingAction(x);
    assert EncodeMessage(StockTradingActionMsg(x)) == buf;
    DispatchesToStockTradingAction(buf);
    StockTradingActionRoundTrip(x);
  }

  lemma DispatchesToRegShoRestriction(buf: seq<byte>)
    requires |buf| > 0 && buf[0] == REG_SHO_RESTRICTION_TYPE
    ensures ParseMessage(buf)
            == match ParseRegShoRestriction(buf) case Some(x) => Parsed(RegShoRestrictionMsg(x)) case None => Failed(InvalidSize)
  {
  }

  lemma RegShoRestrictionMessageRoundTrip(x: RegShoRestriction)
    ensures ParseMessage(EncodeMessage(RegShoRestrictionMsg(x))) == Parsed(RegShoRestrictionMsg(x))
  {
    var buf := EncodeRegShoRestriction(x);
    assert EncodeMessage(RegShoRestrictionMsg(x)) == buf;
    DispatchesToRegShoRestriction(buf);
    RegShoRestrictionRoundTrip(x);
  }

  lemma DispatchesToMarketParticipantPosition(buf: seq<byte>)
    requires |buf| > 0 && buf[0] == MARKET_PARTICIPANT_POSITION_TYPE
    ensures ParseMessage(buf)
            == match ParseMarketParticipantPosition(buf) case Some(x) => Parsed(MarketParticipantPositionMsg(x)) case None => Failed(InvalidSize)
  {
  }

  lemma MarketParticipantPositionMessageRoundTrip(x: MarketParticipantPosition)
    ensures ParseMessage(EncodeMessage(MarketParticipantPositionMsg(x))) == Parsed(MarketParticipantPositionMsg(x))
  {
    var buf := EncodeMarketParticipantPosition(x);
    assert EncodeMessage(MarketParticipantPositionMsg(x)) == buf;
    DispatchesToMarketParticipantPosition(buf);
    MarketParticipantPositionRoundTrip(x);
  }

  lemma DispatchesToMwcbDeclineLevel(buf: seq<byte>)
    requires |buf| > 0 && buf[0] == MWCB_DECLINE_LEVEL_TYPE
    ensures ParseMessage(buf)
            == match ParseMwcbDeclineLevel(buf) case Some(x) => Parsed(MwcbDeclineLevelMsg(x)) case None => Failed(InvalidSize)
  {
  }

  lemma MwcbDeclineLevelMessageRoundTrip(x: MwcbDeclineLevel)
    ensures ParseMessage(EncodeMessage(MwcbDeclineLevelMsg(x))) == Parsed(MwcbDeclineLevelMsg(x))
  {
    var buf := EncodeMwcbDeclineLevel(x);
    assert EncodeMessage(MwcbDeclineLevelMsg(x)) == buf;
    DispatchesToMwcbDeclineLevel(buf);
    MwcbDeclineLevelRoundTrip(x);
  }

  lemma DispatchesToMwcbStatus(buf: seq<byte>)
    requires |buf| > 0 && buf[0] == MWCB_STATUS_TYPE
    ensures ParseMessage(buf)
            == match ParseMwcbStatus(buf) case Some(x) => Parsed(MwcbStatusMsg(x)) case None => Failed(InvalidSize)
  {
  }

  lemma MwcbStatusMessageRoundTrip(x: MwcbStatus)
    ensures ParseMessage(EncodeMessage(MwcbStatusMsg(x))) == Parsed(MwcbStatusMsg(x))
  {
    var buf := EncodeMwcbStatus(x);
    assert EncodeMessage(MwcbStatusMsg(x)) == buf;
    DispatchesToMwcbStatus(buf);
    MwcbStatusRoundTrip(x);
  }

  lemma DispatchesToIpoQuotingPeriodUpdate(buf: seq<byte>)
    requires |buf| > 0 && buf[0] == IPO_QUOTING_PERIOD_UPDATE_TYPE
    ensures ParseMessage(buf)
            == match ParseIpoQuotingPeriodUpdate(buf) case Some(x) => Parsed(IpoQuotingPeriodUpdateMsg(x)) case None => Failed(InvalidSize)
  {
  }

  lemma IpoQuotingPeriodUpdateMessageRoundTrip(x: IpoQuotingPeriodUpdate)
    ensures ParseMessage(EncodeMessage(IpoQuotingPeriodUpdateMsg(x))) == Parsed(IpoQuotingPeriodUpdateMsg(x))
  {
    var buf := EncodeIpoQuotingPeriodUpdate(x);
    assert EncodeMessage(IpoQuotingPeriodUpdateMsg(x)) == buf;
    DispatchesToIpoQuotingPeriodUpdate(buf);
    IpoQuotingPeriodUpdateRoundTrip(x);
  }

  lemma DispatchesToLuldAuctionCollar(buf: seq<byte>)
    requires |buf| > 0 && buf[0] == LULD_AUCTION_COLLAR_TYPE
    ensures ParseMessage(buf)
            == match ParseLuldAuctionCollar(buf) case Some(x) => Parsed(LuldAuctionCollarMsg(x)) case None => Failed(InvalidSize)
  {
  }

  lemma LuldAuctionCollarMessageRoundTrip(x: LuldAuctionCollar)
    ensures ParseMessage(EncodeMessage(LuldAuctionCollarMsg(x))) == Parsed(LuldAuctionCollarMsg(x))
  {
    var buf := EncodeLuldAuctionCollar(x);
    assert EncodeMessage(LuldAuctionCollarMsg(x)) == buf;
    DispatchesToLuldAuctionCollar(buf);
    LuldAuctionCollarRoundTrip(x);
  }

  lemma DispatchesToAddOrder(buf: seq<byte>)
    requires |buf| > 0 && buf[0] == ADD_ORDER_TYPE
    ensures ParseMessage(buf)
            == match ParseAddOrder(buf) case Some(x) => Parsed(AddOrderMsg(x)) case None => Failed(InvalidSize)
  {
  }

  lemma AddOrderMessageRoundTrip(x: AddOrder)
    ensures ParseMessage(EncodeMessage(AddOrderMsg(x))) == Parsed(AddOrderMsg(x))
  {
    var buf := EncodeAddOrder(x);
    assert EncodeMessage(AddOrderMsg(x)) == buf;
    DispatchesToAddOrder(buf);
    AddOrderRoundTrip(x);
  }

  lemma DispatchesToAddOrderMpid(buf: seq<byte>)
    requires |buf| > 0 && buf[0] == ADD_ORDER_MPID_TYPE
    ensures ParseMessage(buf)
            == match ParseAddOrderMpid(buf) case Some(x) => Parsed(AddOrderMpidMsg(x)) case None => Failed(InvalidSize)
  {
  }

  lemma AddOrderMpidMessageRoundTrip(x: AddOrderMpid)
    ensures ParseMessage(EncodeMessage(AddOrderMpidMsg(x))) == Parsed(AddOrderMpidMsg(x))
  {
    var buf := EncodeAddOrderMpid(x);
    assert EncodeMessage(AddOrderMpidMsg(x)) == buf;
    DispatchesToAddOrderMpid(buf);
    AddOrderMpidRoundTrip(x);
  }

  lemma DispatchesToOrderExecuted(buf: seq<byte>)
    requires |buf| > 0 && buf[0] == ORDER_EXECUTED_TYPE
    ensures ParseMessage(buf)
            == match ParseOrderExecuted(buf) case Some(x) => Parsed(OrderExecutedMsg(x)) case None => Failed(InvalidSize)
  {
  }

  lemma OrderExecutedMessageRoundTrip(x: OrderExecuted)
    ensures ParseMessage(EncodeMessage(OrderExecutedMsg(x))) == Parsed(OrderExecutedMsg(x))
  {
    var buf := EncodeOrderExecuted(x);
    assert EncodeMessage(OrderExecutedMsg(x)) == buf;
    DispatchesToOrderExecuted(buf);
    OrderExecutedRoundTrip(x);
  }

  lemma DispatchesToOrderExecutedWithPrice(buf: seq<byte>)
    requires |buf| > 0 && buf[0] == ORDER_EXECUTED_WITH_PRICE_TYPE
    ensures ParseMessage(buf)
            == match ParseOrderExecutedWithPrice(buf) case Some(x) => Parsed(OrderExecutedWithPriceMsg(x)) case None => Failed(InvalidSize)
  {
  }

  lemma OrderExecutedWithPriceMessageRoundTrip(x: OrderExecutedWithPrice)
    ensures ParseMessage(EncodeMessage(OrderExecutedWithPriceMsg(x))) == Parsed(OrderExecutedWithPriceMsg(x))
  {
    var buf := EncodeOrderExecutedWithPrice(x);
    assert EncodeMessage(OrderExecutedWithPriceMsg(x)) == buf;
    DispatchesToOrderExecutedWithPrice(buf);
    OrderExecutedWithPriceRoundTrip(x);
  }

  lemma DispatchesToOrderCancel(buf: seq<byte>)
    requires |buf| > 0 && buf[0] == ORDER_CANCEL_TYPE
    ensures ParseMessage(buf)
            == match ParseOrderCancel(buf) case Some(x) => Parsed(OrderCancelMsg(x)) case None => Failed(InvalidSize)
  {
  }

  lemma OrderCancelMessageRoundTrip(x: OrderCancel)
    ensures ParseMessage(EncodeMessage(OrderCancelMsg(x))) == Parsed(OrderCancelMsg(x))
  {
    var buf := EncodeOrderCancel(x);
    assert EncodeMessage(OrderCancelMsg(x)) == buf;
    DispatchesToOrderCancel(buf);
    OrderCancelRoundTrip(x);
  }

  lemma DispatchesToOrderDelete(buf: seq<byte>)
    requires |buf| > 0 && buf[0] == ORDER_DELETE_TYPE
    ensures ParseMessage(buf)
            == match ParseOrderDelete(buf) case Some(x) => Parsed(OrderDeleteMsg(x)) case None => Failed(InvalidSize)
  {
  }

  lemma OrderDeleteMessageRoundTrip(x: OrderDelete)
    ensures ParseMessage(EncodeMessage(OrderDeleteMsg(x))) == Parsed(OrderDeleteMsg(x))
  {
    var buf := EncodeOrderDelete(x);
    assert EncodeMessage(OrderDeleteMsg(x)) == buf;
    DispatchesToOrderDelete(buf);
    OrderDeleteRoundTrip(x);
  }

  lemma DispatchesToOrderReplace(buf: seq<byte>)
    requires |buf| > 0 && buf[0] == ORDER_REPLACE_TYPE
    ensures ParseMessage(buf)
            == match ParseOrderReplace(buf) case Some(x) => Parsed(OrderReplaceMsg(x)) case None => Failed(InvalidSize)
  {
  }

  lemma OrderReplaceMessageRoundTrip(x: OrderReplace)
    ensures ParseMessage(EncodeMessage(OrderReplaceMsg(x))) == Parsed(OrderReplaceMsg(x))
  {
    var buf := EncodeOrderReplace(x);
    assert EncodeMessage(OrderReplaceMsg(x)) == buf;
    DispatchesToOrderReplace(buf);
    OrderReplaceRoundTrip(x);
  }

  lemma DispatchesToTradeNonCross(buf: seq<byte>)
    requires |buf| > 0 && buf[0] == TRADE_NON_CROSS_TYPE
    ensures ParseMessage(buf)
            == match ParseTradeNonCross(buf) case Some(x) => Parsed(TradeNonCrossMsg(x)) case None => Failed(InvalidSize)
  {
  }

  lemma TradeNonCrossMessageRoundTrip(x: TradeNonCross)
    ensures ParseMessage(EncodeMessage(TradeNonCrossMsg(x))) == Parsed(TradeNonCrossMsg(x))
  {
    var buf := EncodeTradeNonCross(x);
    assert EncodeMessage(TradeNonCrossMsg(x)) == buf;
    DispatchesToTradeNonCross(buf);
    TradeNonCrossRoundTrip(x);
  }

  lemma DispatchesToCrossTrade(buf: seq<byte>)
    requires |buf| > 0 && buf[0] == CROSS_TRADE_TYPE
    ensures ParseMessage(buf)
            == match ParseCrossTrade(buf) case Some(x) => Parsed(CrossTradeMsg(x)) case None => Failed(InvalidSize)
  {
  }

  lemma CrossTradeMessageRoundTrip(x: CrossTrade)
    ensures ParseMessage(EncodeMessage(CrossTradeMsg(x))) == Parsed(CrossTradeMsg(x))
  {
    var buf := EncodeCrossTrade(x);
    assert EncodeMessage(CrossTradeMsg(x)) == buf;
    DispatchesToCrossTrade(buf);
    CrossTradeRoundTrip(x);
  }

  lemma DispatchesToBrokenTrade(buf: seq<byte>)
    requires |buf| > 0 && buf[0] == BROKEN_TRADE_TYPE
    ensures ParseMessage(buf)
            == match ParseBrokenTrade(buf) case Some(x) => Parsed(BrokenTradeMsg(x)) case None => Failed(InvalidSize)
  {
  }

  lemma BrokenTradeMessageRoundTrip(x: BrokenTrade)
    ensures ParseMessage(EncodeMessage(BrokenTradeMsg(x))) == Parsed(BrokenTradeMsg(x))
  {
    var buf := EncodeBrokenTrade(x);
    assert EncodeMessage(BrokenTradeMsg(x)) == buf;
    DispatchesToBrokenTrade(buf);
    BrokenTradeRoundTrip(x);
  }

  lemma DispatchesToNoii(buf: seq<byte>)
    requires |buf| > 0 && buf[0] == NOII_TYPE
    ensures ParseMessage(buf)
            == match ParseNoii(buf) case Some(x) => Parsed(NoiiMsg(x)) case None => Failed(InvalidSize)
  {
  }

  lemma NoiiMessageRoundTrip(x: Noii)
    ensures ParseMessage(EncodeMessage(NoiiMsg(x))) == Parsed(NoiiMsg(x))
  {
    var buf := EncodeNoii(x);
    assert EncodeMessage(NoiiMsg(x)) == buf;
    DispatchesToNoii(buf);
    NoiiRoundTrip(x);
  }

  lemma DispatchesToRpii(buf: seq<byte>)
    requires |buf| > 0 && buf[0] == RPII_TYPE
    ensures ParseMessage(buf)
            == match ParseRpii(buf) case Some(x) => Parsed(RpiiMsg(x)) case None => Failed(InvalidSize)
  {
  }

  lemma RpiiMessageRoundTrip(x: Rpii)
    ensures ParseMessage(EncodeMessage(RpiiMsg(x))) == Parsed(RpiiMsg(x))
  {
    var buf := EncodeRpii(x);
    assert EncodeMessage(RpiiMsg(x)) == buf;
    DispatchesToRpii(buf);
    RpiiRoundTrip(x);
  }

  lemma DispatchesToDlcr(buf: seq<byte>)
    requires |buf| > 0 && buf[0] == DLCR_TYPE
    ensures ParseMessage(buf)
            == match ParseDlcr(buf) case Some(x) => Parsed(DlcrMsg(x)) case None => Failed(InvalidSize)
  {
  }

  lemma DlcrMessageRoundTrip(x: Dlcr)
    ensures ParseMessage(EncodeMessage(DlcrMsg(x))) == Parsed(DlcrMsg(x))
  {
    var buf := EncodeDlcr(x);
    assert EncodeMessage(DlcrMsg(x)) == buf;
    DispatchesToDlcr(buf);
    DlcrRoundTrip(x);
  }

  /** Every dispatched message survives encoding and decoding. */
  lemma ParseMessageRoundTrip(msg: ItchMessage)
    ensures ParseMessage(EncodeMessage(msg)) == Parsed(msg)
  {
    match msg
    case SystemEventMsg(x) => SystemEventMessageRoundTrip(x);
    case StockDirectoryMsg(x) => StockDirectoryMessageRoundTrip(x);
    case StockTradingActionMsg(x) => StockTradingActionMessageRoundTrip(x);
    case RegShoRestrictionMsg(x) => RegShoRestrictionMessageRoundTrip(x);
    case MarketParticipantPositionMsg(x) => MarketParticipantPositionMessageRoundTrip(x);
    case MwcbDeclineLevelMsg(x) => MwcbDeclineLevelMessageRoundTrip(x);
    case MwcbStatusMsg(x) => MwcbStatusMessageRoundTrip(x);
    case IpoQuotingPeriodUpdateMsg(x) => IpoQuotingPeriodUpdateMessageRoundTrip(x);
    case LuldAuctionCollarMsg(x) => LuldAuctionCollarMessageRoundTrip(x);
    case AddOrderMsg(x) => AddOrderMessageRoundTrip(x);
    case AddOrderMpidMsg(x) => AddOrderMpidMessageRoundTrip(x);
    case OrderExecutedMsg(x) => OrderExecutedMessageRoundTrip(x);
    case OrderExecutedWithPriceMsg(x) => OrderExecutedWithPriceMessageRoundTrip(x);
    case OrderCancelMsg(x) => OrderCancelMessageRoundTrip(x);
    case OrderDeleteMsg(x) => OrderDeleteMessageRoundTrip(x);
    case OrderReplaceMsg(x) => OrderReplaceMessageRoundTrip(x);
    case TradeNonCrossMsg(x) => TradeNonCrossMessageRoundTrip(x);
    case CrossTradeMsg(x) => CrossTradeMessageRoundTrip(x);
    case BrokenTradeMsg(x) => BrokenTradeMessageRoundTrip(x);
    case NoiiMsg(x) => NoiiMessageRoundTrip(x);
    case RpiiMsg(x) => RpiiMessageRoundTrip(x);
    case DlcrMsg(x) => DlcrMessageRoundTrip(x);
  }

  /** A buffer the dispatcher accepts is exactly the encoding of what it returned. */
  lemma ParseMessageSound(buf: seq<byte>)
    requires ParseMessage(buf).Parsed?
    ensures EncodeMessage(ParseMessage(buf).message) == buf
  {
    match ParseMessage(buf).message
    case SystemEventMsg(x) => DispatchesToSystemEvent(buf); SystemEventParseSound(buf, x);
    case StockDirectoryMsg(x) => DispatchesToStockDirectory(buf); StockDirectoryParseSound(buf, x);
    case StockTradingActionMsg(x) => DispatchesToStockTradingAction(buf); StockTradingActionParseSound(buf, x);
    case RegShoRestrictionMsg(x) => DispatchesToRegShoRestriction(buf); RegShoRestrictionParseSound(buf, x);
    case MarketParticipantPositionMsg(x) => DispatchesToMarketParticipantPosition(buf); MarketParticipantPositionParseSound(buf, x);
    case MwcbDeclineLevelMsg(x) => DispatchesToMwcbDeclineLevel(buf); MwcbDeclineLevelParseSound(buf, x);
    case MwcbStatusMsg(x) => DispatchesToMwcbStatus(buf); MwcbStatusParseSound(buf, x);
    case IpoQuotingPeriodUpdateMsg(x) => DispatchesToIpoQuotingPeriodUpdate(buf); IpoQuotingPeriodUpdateParseSound(buf, x);
    case LuldAuctionCollarMsg(x) => DispatchesToLuldAuctionCollar(buf); LuldAuctionCollarParseSound(buf, x);
    case AddOrderMsg(x) => DispatchesToAddOrder(buf); AddOrderParseSound(buf, x);
    case AddOrderMpidMsg(x) => DispatchesToAddOrderMpid(buf); AddOrderMpidParseSound(buf, x);
    case OrderExecutedMsg(x) => DispatchesToOrderExecuted(buf); OrderExecutedParseSound(buf, x);
    case OrderExecutedWithPriceMsg(x) => DispatchesToOrderExecutedWithPrice(buf); OrderExecutedWithPriceParseSound(buf, x);
    case OrderCancelMsg(x) => DispatchesToOrderCancel(buf); OrderCancelParseSound(buf, x);
    case OrderDeleteMsg(x) => DispatchesToOrderDelete(buf); OrderDeleteParseSound(buf, x);
    case OrderReplaceMsg(x) => DispatchesToOrderReplace(buf); OrderReplaceParseSound(buf, x);
    case TradeNonCrossMsg(x) => DispatchesToTradeNonCross(buf); TradeNonCrossParseSound(buf, x);
    case CrossTradeMsg(x) => DispatchesToCrossTrade(buf); CrossTradeParseSound(buf, x);
    case BrokenTradeMsg(x) => DispatchesToBrokenTrade(buf); BrokenTradeParseSound(buf, x);
    case NoiiMsg(x) => DispatchesToNoii(buf); NoiiParseSound(buf, x);
    case RpiiMsg(x) => DispatchesToRpii(buf); RpiiParseSound(buf, x);
    case DlcrMsg(x) => DispatchesToDlcr(buf); DlcrParseSound(buf, x);
  }

  /**
   * Decoding is injective: two buffers that decode to the same message are
   * the same buffer.
   */
  lemma ParseMessageInjective(buf1: seq<byte>, buf2: seq<byte>)
    requires ParseMessage(buf1).Parsed? && ParseMessage(buf1) == ParseMessage(buf2)
    ensures buf1 == buf2
  {
    ParseMessageSound(buf1);
    ParseMessageSound(buf2);
  }

  /**
   * A well-formed Operational Halt decodes with its own decoder, but the
   * dispatcher reports its type as invalid.
   */
  lemma OperationalHaltIsNotDispatched(halt: OperationalHalt)
    ensures ParseOperationalHalt(EncodeOperationalHalt(halt)) == Some(halt)
    ensures ParseMessage(EncodeOperationalHalt(halt)) == Failed(InvalidType)
  {
    OperationalHaltRoundTrip(halt);
  }

  /**
   * The dispatcher as written, where 'Q' goes to the 35-byte Cross Trade
   * decoder. `mem` is the readable memory from the start of the message, of
   * which the first `length` bytes are the message; every other type byte is
   * decided on those `length` bytes by the same decoders as `ParseMessage`.
   */
  function ParseMessageAsWritten(mem: seq<byte>, length: nat): (r: ParseResult)
    requires length <= |mem|
    requires length == CROSS_TRADE_SIZE_AS_WRITTEN && mem[0] == CROSS_TRADE_TYPE ==> CROSS_TRADE_SIZE <= |mem|
    ensures length == 0 ==> r == Failed(InvalidSize)
    ensures length > 0 && DispatchedSize(mem[0]).None? ==> r == Failed(InvalidType)
    ensures length > 0 && mem[0] == CROSS_TRADE_TYPE ==>
              (r.Parsed? <==> length == CROSS_TRADE_SIZE_AS_WRITTEN)
              && (r.Failed? ==> r.error == InvalidSize)
    ensures length > 0 && mem[0] != CROSS_TRADE_TYPE && DispatchedSize(mem[0]).Some? ==>
              (r.Parsed? <==> length == DispatchedSize(mem[0]).value)
              && (r.Failed? ==> r.error == InvalidSize)
    ensures r.Parsed? ==> TypeOf(r.message) == mem[0]
  {
    if length < 1 then Failed(InvalidSize)
    else if mem[0] == CROSS_TRADE_TYPE then
      match ParseCrossTradeAsWritten(mem, length) case Some(x) => Parsed(CrossTradeMsg(x)) case None => Failed(InvalidSize)
    else ParseMessage(mem[..length])
  }

  /**
   * Away from 'Q' the dispatcher as written and the corrected one agree, and
   * both read only the message's own bytes.
   */
  lemma AsWrittenAgreesAwayFromCrossTrade(mem: seq<byte>, length: nat)
    requires length <= |mem| && (length == 0 || mem[0] != CROSS_TRADE_TYPE)
    ensures ParseMessageAsWritten(mem, length) == ParseMessage(mem[..length])
  {
  }

  /**
   * On 'Q' the two dispatchers part: the one as written refuses the 40-byte
   * encoding of every Cross Trade as an invalid size, which the corrected one
   * decodes, and accepts 35-byte messages, which the corrected one refuses.
   */
  lemma CrossTradeDispatchAsWritten(x: CrossTrade, mem: seq<byte>)
    requires |mem| == CROSS_TRADE_SIZE && mem[0] == CROSS_TRADE_TYPE
    ensures ParseMessage(EncodeCrossTrade(x)) == Parsed(CrossTradeMsg(x))
    ensures ParseMessageAsWritten(EncodeCrossTrade(x), CROSS_TRADE_SIZE) == Failed(InvalidSize)
    ensures ParseMessageAsWritten(mem, CROSS_TRADE_SIZE_AS_WRITTEN).Parsed?
    ensures ParseMessage(mem[..CROSS_TRADE_SIZE_AS_WRITTEN]) == Failed(InvalidSize)
  {
    CrossTradeMessageRoundTrip(x);
    assert EncodeMessage(CrossTradeMsg(x)) == EncodeCrossTrade(x);
  }

  /** get_timestamp: for a decoded message, the 48-bit field at offset 5 of its buffer. */
  function Timestamp(msg: ItchMessage): (r: u48)
    ensures forall buf :: ParseMessage(buf) == Parsed(msg) ==> r == ReadU48(buf, 5)
  {
    match msg
    case SystemEventMsg(x) => x.timestamp
    case StockDirectoryMsg(x) => x.timestamp
    case StockTradingActionMsg(x) => x.timestamp
    case RegShoRestrictionMsg(x) => x.timestamp
    case MarketParticipantPositionMsg(x) => x.timestamp
    case MwcbDeclineLevelMsg(x) => x.timestamp
    case MwcbStatusMsg(x) => x.timestamp
    case IpoQuotingPeriodUpdateMsg(x) => x.timestamp
    case LuldAuctionCollarMsg(x) => x.timestamp
    case AddOrderMsg(x) => x.timestamp
    case AddOrderMpidMsg(x) => x.timestamp
    case OrderExecutedMsg(x) => x.timestamp
    case OrderExecutedWithPriceMsg(x) => x.timestamp
    case OrderCancelMsg(x) => x.timestamp
    case OrderDeleteMsg(x) => x.timestamp
    case OrderReplaceMsg(x) => x.timestamp
    case TradeNonCrossMsg(x) => x.timestamp
    case CrossTradeMsg(x) => x.timestamp
    case BrokenTradeMsg(x) => x.timestamp
    case NoiiMsg(x) => x.timestamp
    case RpiiMsg(x) => x.timestamp
    case DlcrMsg(x) => x.timestamp
  }

  /** get_stock_locate: for a decoded message, the 16-bit field at offset 1 of its buffer. */
  function StockLocate(msg: ItchMessage): (r: u16)
    ensures forall buf :: ParseMessage(buf) == Parsed(msg) ==> r == ReadU16(buf, 1)
  {
    match msg
    case SystemEventMsg(x) => x.stockLocate
    case StockDirectoryMsg(x) => x.stockLocate
    case StockTradingActionMsg(x) => x.stockLocate
    case RegShoRestrictionMsg(x) => x.stockLocate
    case MarketParticipantPositionMsg(x) => x.stockLocate
    case MwcbDeclineLevelMsg(x) => x.stockLocate
    case MwcbStatusMsg(x) => x.stockLocate
    case IpoQuotingPeriodUpdateMsg(x) => x.stockLocate
    case LuldAuctionCollarMsg(x) => x.stockLocate
    case AddOrderMsg(x) => x.stockLocate
    case AddOrderMpidMsg(x) => x.stockLocate
    case OrderExecutedMsg(x) => x.stockLocate
    case OrderExecutedWithPriceMsg(x) => x.stockLocate
    case OrderCancelMsg(x) => x.stockLocate
    case OrderDeleteMsg(x) => x.stockLocate
    case OrderReplaceMsg(x) => x.stockLocate
    case TradeNonCrossMsg(x) => x.stockLocate
    case CrossTradeMsg(x) => x.stockLocate
    case BrokenTradeMsg(x) => x.stockLocate
    case NoiiMsg(x) => x.stockLocate
    case RpiiMsg(x) => x.stockLocate
    case DlcrMsg(x) => x.stockLocate
  }

  /**
   * The common header helpers report the header the dispatcher read: the
   * 48-bit timestamp at offset 5 and the stock locate at offset 1.
   */
  lemma HeaderOfParsedMessage(buf: seq<byte>)
    requires ParseMessage(buf).Parsed?
    ensures Timestamp(ParseMessage(buf).message) == ReadU48(buf, 5)
    ensures StockLocate(ParseMessage(buf).message) == ReadU16(buf, 1)
  {
  }

  /** Messages that add to, execute, cancel, delete or replace resting orders. */
  predicate IsOrderBookMessage(msg: ItchMessage)
    ensures IsOrderBookMessage(msg) <==>
      TypeOf(msg) in {ADD_ORDER_TYPE, ADD_ORDER_MPID_TYPE, ORDER_EXECUTED_TYPE, ORDER_EXECUTED_WITH_PRICE_TYPE,
                      ORDER_CANCEL_TYPE, ORDER_DELETE_TYPE, ORDER_REPLACE_TYPE}
  {
    msg.AddOrderMsg?
    || msg.AddOrderMpidMsg?
    || msg.OrderExecutedMsg?
    || msg.OrderExecutedWithPriceMsg?
    || msg.OrderCancelMsg?
    || msg.OrderDeleteMsg?
    || msg.OrderReplaceMsg?
  }

  /** Trade reports: non-cross trades, cross trades and broken trades. */
  predicate IsTradeMessage(msg: ItchMessage)
    ensures IsTradeMessage(msg) <==> TypeOf(msg) in {TRADE_NON_CROSS_TYPE, CROSS_TRADE_TYPE, BROKEN_TRADE_TYPE}
  {
    msg.TradeNonCrossMsg?
    || msg.CrossTradeMsg?
    || msg.BrokenTradeMsg?
  }

  /** Everything else: system, stock-level and market-wide announcements. */
  predicate IsSystemMessage(msg: ItchMessage)
    ensures IsSystemMessage(msg) <==>
      TypeOf(msg) in {SYSTEM_EVENT_TYPE, STOCK_DIRECTORY_TYPE, STOCK_TRADING_ACTION_TYPE, REG_SHO_RESTRICTION_TYPE,
                      MARKET_PARTICIPANT_POSITION_TYPE, MWCB_DECLINE_LEVEL_TYPE, MWCB_STATUS_TYPE,
                      IPO_QUOTING_PERIOD_UPDATE_TYPE, LULD_AUCTION_COLLAR_TYPE, NOII_TYPE, RPII_TYPE, DLCR_TYPE}
  {
    msg.SystemEventMsg?
    || msg.StockDirectoryMsg?
    || msg.StockTradingActionMsg?
    || msg.RegShoRestrictionMsg?
    || msg.MarketParticipantPositionMsg?
    || msg.MwcbDeclineLevelMsg?
    || msg.MwcbStatusMsg?
    || msg.IpoQuotingPeriodUpdateMsg?
    || msg.LuldAuctionCollarMsg?
    || msg.NoiiMsg?
    || msg.RpiiMsg?
    || msg.DlcrMsg?
  }

  /** Every dispatched message is in exactly one of the three categories. */
  lemma CategoriesPartition(msg: ItchMessage)
    ensures IsOrderBookMessage(msg) || IsTradeMessage(msg) || IsSystemMessage(msg)
    ensures !(IsOrderBookMessage(msg) && IsTradeMessage(msg))
    ensures !(IsOrderBookMessage(msg) && IsSystemMessage(msg))
    ensures !(IsTradeMessage(msg) && IsSystemMessage(msg))
  {
  }

  /** Running counts of decoded messages by kind, and of decoding failures. */
  class MessageStats {
    var totalMessages: u64
    var systemEvents: u64
    var addOrders: u64
    var executions: u64
    var cancels: u64
    var deletes: u64
    var orderReplaces: u64
    var trades: u64
    var parseErrors: u64

    constructor()
      ensures totalMessages == 0 && systemEvents == 0 && addOrders == 0
      ensures executions == 0 && cancels == 0 && deletes == 0
      ensures orderReplaces == 0 && trades == 0 && parseErrors == 0
    {
      totalMessages, systemEvents, addOrders := 0, 0, 0;
      executions, cancels, deletes := 0, 0, 0;
      orderReplaces, trades, parseErrors := 0, 0, 0;
    }

    /**
     * Counts one message in the total and in at most one kind counter. Only
     * System Event messages count as system events and only non-cross trades
     * count as trades; the other message types count in the total alone.
     */
    method RecordMessage(msg: ItchMessage)
      modifies this
      ensures totalMessages == Add64(old(totalMessages), 1)
      ensures systemEvents == if msg.SystemEventMsg? then Add64(old(systemEvents), 1) else old(systemEvents)
      ensures addOrders == if msg.AddOrderMsg? || msg.AddOrderMpidMsg? then Add64(old(addOrders), 1)
                           else old(addOrders)
      ensures executions == if msg.OrderExecutedMsg? || msg.OrderExecutedWithPriceMsg?
                            then Add64(old(executions), 1) else old(executions)
      ensures cancels == if msg.OrderCancelMsg? then Add64(old(cancels), 1) else old(cancels)
      ensures deletes == if msg.OrderDeleteMsg? then Add64(old(deletes), 1) else old(deletes)
      ensures orderReplaces == if msg.OrderReplaceMsg? then Add64(old(orderReplaces), 1) else old(orderReplaces)
      ensures trades == if msg.TradeNonCrossMsg? then Add64(old(trades), 1) else old(trades)
      ensures parseErrors == old(parseErrors)
    {
      totalMessages := Add64(totalMessages, 1);
      match msg
      case SystemEventMsg(_) => systemEvents := Add64(systemEvents, 1);
      case AddOrderMsg(_) => addOrders := Add64(addOrders, 1);
      case AddOrderMpidMsg(_) => addOrders := Add64(addOrders, 1);
      case OrderExecutedMsg(_) => executions := Add64(executions, 1);
      case OrderExecutedWithPriceMsg(_) => executions := Add64(executions, 1);
      case OrderCancelMsg(_) => cancels := Add64(cancels, 1);
      case OrderDeleteMsg(_) => deletes := Add64(deletes, 1);
      case OrderReplaceMsg(_) => orderReplaces := Add64(orderReplaces, 1);
      case TradeNonCrossMsg(_) => trades := Add64(trades, 1);
      case _ =>
    }

    method RecordError()
      modifies this
      ensures parseErrors == Add64(old(parseErrors), 1)
      ensures totalMessages == old(totalMessages) && systemEvents == old(systemEvents)
      ensures addOrders == old(addOrders) && executions == old(executions)
      ensures cancels == old(cancels) && deletes == old(deletes)
      ensures orderReplaces == old(orderReplaces) && trades == old(trades)
    {
      parseErrors := Add64(parseErrors, 1);
    }
  }
}
