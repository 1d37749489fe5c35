/**
 * Encoders for the ITCH 5.0 messages, written the way a feed producer lays
 * the fields out (big-endian integers, right-padded text), and the two
 * round trips that pin each decoder down: decoding an encoded message gives
 * the message back, and a buffer a decoder accepts is exactly the encoding
 * of what it decoded, so no byte of an accepted message is ignored.
 */
module ItchCodec {
  import opened FixedWidth
  import opened Wrappers
  import opened ItchWire
  import opened ItchMessages

  function EncodeSystemEvent(m: SystemEvent): (buf: seq<byte>)
    ensures |buf| == SYSTEM_EVENT_SIZE && buf[0] == SYSTEM_EVENT_TYPE
  {
    [SYSTEM_EVENT_TYPE] + ToBE(m.stockLocate, 2) + ToBE(m.trackingNumber, 2) + ToBE(m.timestamp, 6)
    + [m.eventCode as int]
  }

  lemma SystemEventRoundTrip(m: SystemEvent)
    ensures ParseSystemEvent(EncodeSystemEvent(m)) == Some(m)
  {
    var buf := EncodeSystemEvent(m);
    assert buf[1..3] == ToBE(m.stockLocate, 2);
    assert buf[3..5] == ToBE(m.trackingNumber, 2);
    assert buf[5..11] == ToBE(m.timestamp, 6);
    BERoundTrip(m.stockLocate, 2);
    ReadU16IsBE(buf, 1);
    BERoundTrip(m.trackingNumber, 2);
    ReadU16IsBE(buf, 3);
    BERoundTrip(m.timestamp, 6);
    ReadU48IsBE(buf, 5);
  }

  lemma SystemEventParseSound(buf: seq<byte>, m: SystemEvent)
    requires ParseSystemEvent(buf) == Some(m)
    ensures EncodeSystemEvent(m) == buf
  {
    var acc := [SYSTEM_EVENT_TYPE];
    assert acc == buf[..1];
    ReadU16IsBE(buf, 1);
    ToBEOfBE(buf[1..3]);
    PrefixExtend(buf, 1, 3);
    acc := acc + ToBE(m.stockLocate, 2);
    assert acc == buf[..3];
    ReadU16IsBE(buf, 3);
    ToBEOfBE(buf[3..5]);
    PrefixExtend(buf, 3, 5);
    acc := acc + ToBE(m.trackingNumber, 2);
    assert acc == buf[..5];
    ReadU48IsBE(buf, 5);
    ToBEOfBE(buf[5..11]);
    PrefixExtend(buf, 5, 11);
    acc := acc + ToBE(m.timestamp, 6);
    assert acc == buf[..11];
    PrefixExtend(buf, 11, 12);
    acc := acc + [m.eventCode as int];
    assert acc == buf[..12];
    assert buf[..|buf|] == buf;
  }

  function EncodeStockDirectory(m: StockDirectory): (buf: seq<byte>)
    ensures |buf| == STOCK_DIRECTORY_SIZE && buf[0] == STOCK_DIRECTORY_TYPE
  {
    [STOCK_DIRECTORY_TYPE] + ToBE(m.stockLocate, 2) + ToBE(m.trackingNumber, 2)
    + ToBE(m.timestamp, 6) + Bytes(m.symbol) + [m.marketCategory as int]
    + [m.financialStatus as int] + ToBE(m.roundLotSize, 4) + [m.roundLotsOnly as int]
    + [m.issueClassification as int] + Bytes(m.issueSubtype) + [m.authenticity as int]
    + [m.shortSaleThreshold as int] + [m.ipoFlag as int] + [m.luldPriceTier as int]
    + [m.etpFlag as int] + ToBE(m.etpLeverageFactor, 4) + [m.inverseIndicator as int]
  }

  lemma StockDirectoryRoundTrip(m: StockDirectory)
    ensures ParseStockDirectory(EncodeStockDirectory(m)) == Some(m)
  {
    var buf := EncodeStockDirectory(m);
    assert buf[1..3] == ToBE(m.stockLocate, 2);
    assert buf[3..5] == ToBE(m.trackingNumber, 2);
    assert buf[5..11] == ToBE(m.timestamp, 6);
    assert buf[11..19] == Bytes(m.symbol);
    assert buf[21..25] == ToBE(m.roundLotSize, 4);
    assert buf[27..29] == Bytes(m.issueSubtype);
    assert buf[34..38] == ToBE(m.etpLeverageFactor, 4);
    BERoundTrip(m.stockLocate, 2);
    ReadU16IsBE(buf, 1);
    BERoundTrip(m.trackingNumber, 2);
    ReadU16IsBE(buf, 3);
    BERoundTrip(m.timestamp, 6);
    ReadU48IsBE(buf, 5);
    CharsOfBytes(m.symbol);
    BERoundTrip(m.roundLotSize, 4);
    ReadU32IsBE(buf, 21);
    CharsOfBytes(m.issueSubtype);
    BERoundTrip(m.etpLeverageFactor, 4);
    ReadU32IsBE(buf, 34);
  }

  lemma StockDirectoryParseSound(buf: seq<byte>, m: StockDirectory)
    requires ParseStockDirectory(buf) == Some(m)
    ensures EncodeStockDirectory(m) == buf
  {
    var acc := [STOCK_DIRECTORY_TYPE];
    assert acc == buf[..1];
    ReadU16IsBE(buf, 1);
    ToBEOfBE(buf[1..3]);
    PrefixExtend(buf, 1, 3);
    acc := acc + ToBE(m.stockLocate, 2);
    assert acc == buf[..3];
    ReadU16IsBE(buf, 3);
    ToBEOfBE(buf[3..5]);
    PrefixExtend(buf, 3, 5);
    acc := acc + ToBE(m.trackingNumber, 2);
    assert acc == buf[..5];
    ReadU48IsBE(buf, 5);
    ToBEOfBE(buf[5..11]);
    PrefixExtend(buf, 5, 11);
    acc := acc + ToBE(m.timestamp, 6);
    assert acc == buf[..11];
    BytesOfChars(buf[11..19]);
    PrefixExtend(buf, 11, 19);
    acc := acc + Bytes(m.symbol);
    assert acc == buf[..19];
    PrefixExtend(buf, 19, 20);
    acc := acc + [m.marketCategory as int];
    assert acc == buf[..20];
    PrefixExtend(buf, 20, 21);
    acc := acc + [m.financialStatus as int];
    assert acc == buf[..21];
    ReadU32IsBE(buf, 21);
    ToBEOfBE(buf[21..25]);
    PrefixExtend(buf, 21, 25);
    acc := acc + ToBE(m.roundLotSize, 4);
    assert acc == buf[..25];
    PrefixExtend(buf, 25, 26);
    acc := acc + [m.roundLotsOnly as int];
    assert acc == buf[..26];
    PrefixExtend(buf, 26, 27);
    acc := acc + [m.issueClassification as int];
    assert acc == buf[..27];
    BytesOfChars(buf[27..29]);
    PrefixExtend(buf, 27, 29);
    acc := acc + Bytes(m.issueSubtype);
    assert acc == buf[..29];
    PrefixExtend(buf, 29, 30);
    acc := acc + [m.authenticity as int];
    assert acc == buf[..30];
    PrefixExtend(buf, 30, 31);
    acc := acc + [m.shortSaleThreshold as int];
    assert acc == buf[..31];
    PrefixExtend(buf, 31, 32);
    acc := acc + [m.ipoFlag as int];
    assert acc == buf[..32];
    PrefixExtend(buf, 32, 33);
    acc := acc + [m.luldPriceTier as int];
    assert acc == buf[..33];
    PrefixExtend(buf, 33, 34);
    acc := acc + [m.etpFlag as int];
    assert acc == buf[..34];
    ReadU32IsBE(buf, 34);
    ToBEOfBE(buf[34..38]);
    PrefixExtend(buf, 34, 38);
    acc := acc + ToBE(m.etpLeverageFactor, 4);
    assert acc == buf[..38];
    PrefixExtend(buf, 38, 39);
    acc := acc + [m.inverseIndicator as int];
    assert acc == buf[..39];
    assert buf[..|buf|] == buf;
  }

  function EncodeStockTradingAction(m: StockTradingAction): (buf: seq<byte>)
    ensures |buf| == STOCK_TRADING_ACTION_SIZE && buf[0] == STOCK_TRADING_ACTION_TYPE
  {
    [STOCK_TRADING_ACTION_TYPE] + ToBE(m.stockLocate, 2) + ToBE(m.trackingNumber, 2)
    + ToBE(m.timestamp, 6) + Bytes(m.symbol) + [m.tradingState as int] + [m.reserved as int]
    + Bytes(m.reason)
  }

  lemma StockTradingActionRoundTrip(m: StockTradingAction)
    ensures ParseStockTradingAction(EncodeStockTradingAction(m)) == Some(m)
  {
    var buf := EncodeStockTradingAction(m);
    assert buf[1..3] == ToBE(m.stockLocate, 2);
    assert buf[3..5] == ToBE(m.trackingNumber, 2);
    assert buf[5..11] == ToBE(m.timestamp, 6);
    assert buf[11..19] == Bytes(m.symbol);
    assert buf[21..25] == Bytes(m.reason);
    BERoundTrip(m.stockLocate, 2);
    ReadU16IsBE(buf, 1);
    BERoundTrip(m.trackingNumber, 2);
    ReadU16IsBE(buf, 3);
    BERoundTrip(m.timestamp, 6);
    ReadU48IsBE(buf, 5);
    CharsOfBytes(m.symbol);
    CharsOfBytes(m.reason);
  }

  lemma StockTradingActionParseSound(buf: seq<byte>, m: StockTradingAction)
    requires ParseStockTradingAction(buf) == Some(m)
    ensures EncodeStockTradingAction(m) == buf
  {
    var acc := [STOCK_TRADING_ACTION_TYPE];
    assert acc == buf[..1];
    ReadU16IsBE(buf, 1);
    ToBEOfBE(buf[1..3]);
    PrefixExtend(buf, 1, 3);
    acc := acc + ToBE(m.stockLocate, 2);
    assert acc == buf[..3];
    ReadU16IsBE(buf, 3);
    ToBEOfBE(buf[3..5]);
    PrefixExtend(buf, 3, 5);
    acc := acc + ToBE(m.trackingNumber, 2);
    assert acc == buf[..5];
    ReadU48IsBE(buf, 5);
    ToBEOfBE(buf[5..11]);
    PrefixExtend(buf, 5, 11);
    acc := acc + ToBE(m.timestamp, 6);
    assert acc == buf[..11];
    BytesOfChars(buf[11..19]);
    PrefixExtend(buf, 11, 19);
    acc := acc + Bytes(m.symbol);
    assert acc == buf[..19];
    PrefixExtend(buf, 19, 20);
    acc := acc + [m.tradingState as int];
    assert acc == buf[..20];
    PrefixExtend(buf, 20, 21);
    acc := acc + [m.reserved as int];
    assert acc == buf[..21];
    BytesOfChars(buf[21..25]);
    PrefixExtend(buf, 21, 25);
    acc := acc + Bytes(m.reason);
    assert acc == buf[..25];
    assert buf[..|buf|] == buf;
  }

  function EncodeRegShoRestriction(m: RegShoRestriction): (buf: seq<byte>)
    ensures |buf| == REG_SHO_RESTRICTION_SIZE && buf[0] == REG_SHO_RESTRICTION_TYPE
  {
    [REG_SHO_RESTRICTION_TYPE] + ToBE(m.stockLocate, 2) + ToBE(m.trackingNumber, 2)
    + ToBE(m.timestamp, 6) + Bytes(m.symbol) + [m.regShoAction as int]
  }

  lemma RegShoRestrictionRoundTrip(m: RegShoRestriction)
    ensures ParseRegShoRestriction(EncodeRegShoRestriction(m)) == Some(m)
  {
    var buf := EncodeRegShoRestriction(m);
    assert buf[1..3] == ToBE(m.stockLocate, 2);
    assert buf[3..5] == ToBE(m.trackingNumber, 2);
    assert buf[5..11] == ToBE(m.timestamp, 6);
    assert buf[11..19] == Bytes(m.symbol);
    BERoundTrip(m.stockLocate, 2);
    ReadU16IsBE(buf, 1);
    BERoundTrip(m.trackingNumber, 2);
    ReadU16IsBE(buf, 3);
    BERoundTrip(m.timestamp, 6);
    ReadU48IsBE(buf, 5);
    CharsOfBytes(m.symbol);
  }

  lemma RegShoRestrictionParseSound(buf: seq<byte>, m: RegShoRestriction)
    requires ParseRegShoRestriction(buf) == Some(m)
    ensures EncodeRegShoRestriction(m) == buf
  {
    var acc := [REG_SHO_RESTRICTION_TYPE];
    assert acc == buf[..1];
    ReadU16IsBE(buf, 1);
    ToBEOfBE(buf[1..3]);
    PrefixExtend(buf, 1, 3);
    acc := acc + ToBE(m.stockLocate, 2);
    assert acc == buf[..3];
    ReadU16IsBE(buf, 3);
    ToBEOfBE(buf[3..5]);
    PrefixExtend(buf, 3, 5);
    acc := acc + ToBE(m.trackingNumber, 2);
    assert acc == buf[..5];
    ReadU48IsBE(buf, 5);
    ToBEOfBE(buf[5..11]);
    PrefixExtend(buf, 5, 11);
    acc := acc + ToBE(m.timestamp, 6);
    assert acc == buf[..11];
    BytesOfChars(buf[11..19]);
    PrefixExtend(buf, 11, 19);
    acc := acc + Bytes(m.symbol);
    assert acc == buf[..19];
    PrefixExtend(buf, 19, 20);
    acc := acc + [m.regShoAction as int];
    assert acc == buf[..20];
    assert buf[..|buf|] == buf;
  }

  function EncodeMarketParticipantPosition(m: MarketParticipantPosition): (buf: seq<byte>)
    ensures |buf| == MARKET_PARTICIPANT_POSITION_SIZE && buf[0] == MARKET_PARTICIPANT_POSITION_TYPE
  {
    [MARKET_PARTICIPANT_POSITION_TYPE] + ToBE(m.stockLocate, 2) + ToBE(m.trackingNumber, 2)
    + ToBE(m.timestamp, 6) + Bytes(m.mpid) + Bytes(m.symbol) + [m.primaryMarketMaker as int]
    + [m.marketMakerMode as int] + [m.marketParticipantState as int]
  }

  lemma MarketParticipantPositionRoundTrip(m: MarketParticipantPosition)
    ensures ParseMarketParticipantPosition(EncodeMarketParticipantPosition(m)) == Some(m)
  {
    var buf := EncodeMarketParticipantPosition(m);
    assert buf[1..3] == ToBE(m.stockLocate, 2);
    assert buf[3..5] == ToBE(m.trackingNumber, 2);
    assert buf[5..11] == ToBE(m.timestamp, 6);
    assert buf[11..15] == Bytes(m.mpid);
    assert buf[15..23] == Bytes(m.symbol);
    BERoundTrip(m.stockLocate, 2);
    ReadU16IsBE(buf, 1);
    BERoundTrip(m.trackingNumber, 2);
    ReadU16IsBE(buf, 3);
    BERoundTrip(m.timestamp, 6);
    ReadU48IsBE(buf, 5);
    CharsOfBytes(m.mpid);
    CharsOfBytes(m.symbol);
  }

  lemma MarketParticipantPositionParseSound(buf: seq<byte>, m: MarketParticipantPosition)
    requires ParseMarketParticipantPosition(buf) == Some(m)
    ensures EncodeMarketParticipantPosition(m) == buf
  {
    var acc := [MARKET_PARTICIPANT_POSITION_TYPE];
    assert acc == buf[..1];
    ReadU16IsBE(buf, 1);
    ToBEOfBE(buf[1..3]);
    PrefixExtend(buf, 1, 3);
    acc := acc + ToBE(m.stockLocate, 2);
    assert acc == buf[..3];
    ReadU16IsBE(buf, 3);
    ToBEOfBE(buf[3..5]);
    PrefixExtend(buf, 3, 5);
    acc := acc + ToBE(m.trackingNumber, 2);
    assert acc == buf[..5];
    ReadU48IsBE(buf, 5);
    ToBEOfBE(buf[5..11]);
    PrefixExtend(buf, 5, 11);
    acc := acc + ToBE(m.timestamp, 6);
    assert acc == buf[..11];
    BytesOfChars(buf[11..15]);
    PrefixExtend(buf, 11, 15);
    acc := acc + Bytes(m.mpid);
    assert acc == buf[..15];
    BytesOfChars(buf[15..23]);
    PrefixExtend(buf, 15, 23);
    acc := acc + Bytes(m.symbol);
    assert acc == buf[..23];
    PrefixExtend(buf, 23, 24);
    acc := acc + [m.primaryMarketMaker as int];
    assert acc == buf[..24];
    PrefixExtend(buf, 24, 25);
    acc := acc + [m.marketMakerMode as int];
    assert acc == buf[..25];
    PrefixExtend(buf, 25, 26);
    acc := acc + [m.marketParticipantState as int];
    assert acc == buf[..26];
    assert buf[..|buf|] == buf;
  }

  function EncodeMwcbDeclineLevel(m: MwcbDeclineLevel): (buf: seq<byte>)
    ensures |buf| == MWCB_DECLINE_LEVEL_SIZE && buf[0] == MWCB_DECLINE_LEVEL_TYPE
  {
    [MWCB_DECLINE_LEVEL_TYPE] + ToBE(m.stockLocate, 2) + ToBE(m.trackingNumber, 2)
    + ToBE(m.timestamp, 6) + ToBE(m.level1, 8) + ToBE(m.level2, 8) + ToBE(m.level3, 8)
  }

  lemma MwcbDeclineLevelRoundTrip(m: MwcbDeclineLevel)
    ensures ParseMwcbDeclineLevel(EncodeMwcbDeclineLevel(m)) == Some(m)
  {
    var buf := EncodeMwcbDeclineLevel(m);
    assert buf[1..3] == ToBE(m.stockLocate, 2);
    assert buf[3..5] == ToBE(m.trackingNumber, 2);
    assert buf[5..11] == ToBE(m.timestamp, 6);
    assert buf[11..19] == ToBE(m.level1, 8);
    assert buf[19..27] == ToBE(m.level2, 8);
    assert buf[27..35] == ToBE(m.level3, 8);
    BERoundTrip(m.stockLocate, 2);
    ReadU16IsBE(buf, 1);
    BERoundTrip(m.trackingNumber, 2);
    ReadU16IsBE(buf, 3);
    BERoundTrip(m.timestamp, 6);
    ReadU48IsBE(buf, 5);
    BERoundTrip(m.level1, 8);
    ReadU64IsBE(buf, 11);
    BERoundTrip(m.level2, 8);
    ReadU64IsBE(buf, 19);
    BERoundTrip(m.level3, 8);
    ReadU64IsBE(buf, 27);
  }

  lemma MwcbDeclineLevelParseSound(buf: seq<byte>, m: MwcbDeclineLevel)
    requires ParseMwcbDeclineLevel(buf) == Some(m)
    ensures EncodeMwcbDeclineLevel(m) == buf
  {
    var acc := [MWCB_DECLINE_LEVEL_TYPE];
    assert acc == buf[..1];
    ReadU16IsBE(buf, 1);
    ToBEOfBE(buf[1..3]);
    PrefixExtend(buf, 1, 3);
    acc := acc + ToBE(m.stockLocate, 2);
    assert acc == buf[..3];
    ReadU16IsBE(buf, 3);
    ToBEOfBE(buf[3..5]);
    PrefixExtend(buf, 3, 5);
    acc := acc + ToBE(m.trackingNumber, 2);
    assert acc == buf[..5];
    ReadU48IsBE(buf, 5);
    ToBEOfBE(buf[5..11]);
    PrefixExtend(buf, 5, 11);
    acc := acc + ToBE(m.timestamp, 6);
    assert acc == buf[..11];
    ReadU64IsBE(buf, 11);
    ToBEOfBE(buf[11..19]);
    PrefixExtend(buf, 11, 19);
    acc := acc + ToBE(m.level1, 8);
    assert acc == buf[..19];
    ReadU64IsBE(buf, 19);
    ToBEOfBE(buf[19..27]);
    PrefixExtend(buf, 19, 27);
    acc := acc + ToBE(m.level2, 8);
    assert acc == buf[..27];
    ReadU64IsBE(buf, 27);
    ToBEOfBE(buf[27..35]);
    PrefixExtend(buf, 27, 35);
    acc := acc + ToBE(m.level3, 8);
    assert acc == buf[..35];
    assert buf[..|buf|] == buf;
  }

  function EncodeMwcbStatus(m: MwcbStatus): (buf: seq<byte>)
    ensures |buf| == MWCB_STATUS_SIZE && buf[0] == MWCB_STATUS_TYPE
  {
    [MWCB_STATUS_TYPE] + ToBE(m.stockLocate, 2) + ToBE(m.trackingNumber, 2) + ToBE(m.timestamp, 6)
    + [m.breachedLevel as int]
  }

  lemma MwcbStatusRoundTrip(m: MwcbStatus)
    ensures ParseMwcbStatus(EncodeMwcbStatus(m)) == Some(m)
  {
    var buf := EncodeMwcbStatus(m);
    assert buf[1..3] == ToBE(m.stockLocate, 2);
    assert buf[3..5] == ToBE(m.trackingNumber, 2);
    assert buf[5..11] == ToBE(m.timestamp, 6);
    BERoundTrip(m.stockLocate, 2);
    ReadU16IsBE(buf, 1);
    BERoundTrip(m.trackingNumber, 2);
    ReadU16IsBE(buf, 3);
    BERoundTrip(m.timestamp, 6);
    ReadU48IsBE(buf, 5);
  }

  lemma MwcbStatusParseSound(buf: seq<byte>, m: MwcbStatus)
    requires ParseMwcbStatus(buf) == Some(m)
    ensures EncodeMwcbStatus(m) == buf
  {
    var acc := [MWCB_STATUS_TYPE];
    assert acc == buf[..1];
    ReadU16IsBE(buf, 1);
    ToBEOfBE(buf[1..3]);
    PrefixExtend(buf, 1, 3);
    acc := acc + ToBE(m.stockLocate, 2);
    assert acc == buf[..3];
    ReadU16IsBE(buf, 3);
    ToBEOfBE(buf[3..5]);
    PrefixExtend(buf, 3, 5);
    acc := acc + ToBE(m.trackingNumber, 2);
    assert acc == buf[..5];
    ReadU48IsBE(buf, 5);
    ToBEOfBE(buf[5..11]);
    PrefixExtend(buf, 5, 11);
    acc := acc + ToBE(m.timestamp, 6);
    assert acc == buf[..11];
    PrefixExtend(buf, 11, 12);
    acc := acc + [m.breachedLevel as int];
    assert acc == buf[..12];
    assert buf[..|buf|] == buf;
  }

  function EncodeIpoQuotingPeriodUpdate(m: IpoQuotingPeriodUpdate): (buf: seq<byte>)
    ensures |buf| == IPO_QUOTING_PERIOD_UPDATE_SIZE && buf[0] == IPO_QUOTING_PERIOD_UPDATE_TYPE
  {
    [IPO_QUOTING_PERIOD_UPDATE_TYPE] + ToBE(m.stockLocate, 2) + ToBE(m.trackingNumber, 2)
    + ToBE(m.timestamp, 6) + Bytes(m.symbol) + ToBE(m.ipoQuotationReleaseTime, 4)
    + [m.ipoQuotationReleaseQualifier as int] + ToBE(m.ipoPrice, 4)
  }

  lemma IpoQuotingPeriodUpdateRoundTrip(m: IpoQuotingPeriodUpdate)
    ensures ParseIpoQuotingPeriodUpdate(EncodeIpoQuotingPeriodUpdate(m)) == Some(m)
  {
    var buf := EncodeIpoQuotingPeriodUpdate(m);
    assert buf[1..3] == ToBE(m.stockLocate, 2);
    assert buf[3..5] == ToBE(m.trackingNumber, 2);
    assert buf[5..11] == ToBE(m.timestamp, 6);
    assert buf[11..19] == Bytes(m.symbol);
    assert buf[19..23] == ToBE(m.ipoQuotationReleaseTime, 4);
    assert buf[24..28] == ToBE(m.ipoPrice, 4);
    BERoundTrip(m.stockLocate, 2);
    ReadU16IsBE(buf, 1);
    BERoundTrip(m.trackingNumber, 2);
    ReadU16IsBE(buf, 3);
    BERoundTrip(m.timestamp, 6);
    ReadU48IsBE(buf, 5);
    CharsOfBytes(m.symbol);
    BERoundTrip(m.ipoQuotationReleaseTime, 4);
    ReadU32IsBE(buf, 19);
    BERoundTrip(m.ipoPrice, 4);
    ReadU32IsBE(buf, 24);
  }

  lemma IpoQuotingPeriodUpdateParseSound(buf: seq<byte>, m: IpoQuotingPeriodUpdate)
    requires ParseIpoQuotingPeriodUpdate(buf) == Some(m)
    ensures EncodeIpoQuotingPeriodUpdate(m) == buf
  {
    var acc := [IPO_QUOTING_PERIOD_UPDATE_TYPE];
    assert acc == buf[..1];
    ReadU16IsBE(buf, 1);
    ToBEOfBE(buf[1..3]);
    PrefixExtend(buf, 1, 3);
    acc := acc + ToBE(m.stockLocate, 2);
    assert acc == buf[..3];
    ReadU16IsBE(buf, 3);
    ToBEOfBE(buf[3..5]);
    PrefixExtend(buf, 3, 5);
    acc := acc + ToBE(m.trackingNumber, 2);
    assert acc == buf[..5];
    ReadU48IsBE(buf, 5);
    ToBEOfBE(buf[5..11]);
    PrefixExtend(buf, 5, 11);
    acc := acc + ToBE(m.timestamp, 6);
    assert acc == buf[..11];
    BytesOfChars(buf[11..19]);
    PrefixExtend(buf, 11, 19);
    acc := acc + Bytes(m.symbol);
    assert acc == buf[..19];
    ReadU32IsBE(buf, 19);
    ToBEOfBE(buf[19..23]);
    PrefixExtend(buf, 19, 23);
    acc := acc + ToBE(m.ipoQuotationReleaseTime, 4);
    assert acc == buf[..23];
    PrefixExtend(buf, 23, 24);
    acc := acc + [m.ipoQuotationReleaseQualifier as int];
    assert acc == buf[..24];
    ReadU32IsBE(buf, 24);
    ToBEOfBE(buf[24..28]);
    PrefixExtend(buf, 24, 28);
    acc := acc + ToBE(m.ipoPrice, 4);
    assert acc == buf[..28];
    assert buf[..|buf|] == buf;
  }

  function EncodeLuldAuctionCollar(m: LuldAuctionCollar): (buf: seq<byte>)
    ensures |buf| == LULD_AUCTION_COLLAR_SIZE && buf[0] == LULD_AUCTION_COLLAR_TYPE
  {
    [LULD_AUCTION_COLLAR_TYPE] + ToBE(m.stockLocate, 2) + ToBE(m.trackingNumber, 2)
    + ToBE(m.timestamp, 6) + Bytes(m.symbol) + ToBE(m.auctionCollarReferencePrice, 4)
    + ToBE(m.upperCollarPrice, 4) + ToBE(m.lowerCollarPrice, 4) + ToBE(m.auctionCollarExtension, 4)
  }

  lemma LuldAuctionCollarRoundTrip(m: LuldAuctionCollar)
    ensures ParseLuldAuctionCollar(EncodeLuldAuctionCollar(m)) == Some(m)
  {
    var buf := EncodeLuldAuctionCollar(m);
    assert buf[1..3] == ToBE(m.stockLocate, 2);
    assert buf[3..5] == ToBE(m.trackingNumber, 2);
    assert buf[5..11] == ToBE(m.timestamp, 6);
    assert buf[11..19] == Bytes(m.symbol);
    assert buf[19..23] == ToBE(m.auctionCollarReferencePrice, 4);
    assert buf[23..27] == ToBE(m.upperCollarPrice, 4);
    assert buf[27..31] == ToBE(m.lowerCollarPrice, 4);
    assert buf[31..35] == ToBE(m.auctionCollarExtension, 4);
    BERoundTrip(m.stockLocate, 2);
    ReadU16IsBE(buf, 1);
    BERoundTrip(m.trackingNumber, 2);
    ReadU16IsBE(buf, 3);
    BERoundTrip(m.timestamp, 6);
    ReadU48IsBE(buf, 5);
    CharsOfBytes(m.symbol);
    BERoundTrip(m.auctionCollarReferencePrice, 4);
    ReadU32IsBE(buf, 19);
    BERoundTrip(m.upperCollarPrice, 4);
    ReadU32IsBE(buf, 23);
    BERoundTrip(m.lowerCollarPrice, 4);
    ReadU32IsBE(buf, 27);
    BERoundTrip(m.auctionCollarExtension, 4);
    ReadU32IsBE(buf, 31);
  }

  lemma LuldAuctionCollarParseSound(buf: seq<byte>, m: LuldAuctionCollar)
    requires ParseLuldAuctionCollar(buf) == Some(m)
    ensures EncodeLuldAuctionCollar(m) == buf
  {
    var acc := [LULD_AUCTION_COLLAR_TYPE];
    assert acc == buf[..1];
    ReadU16IsBE(buf, 1);
    ToBEOfBE(buf[1..3]);
    PrefixExtend(buf, 1, 3);
    acc := acc + ToBE(m.stockLocate, 2);
    assert acc == buf[..3];
    ReadU16IsBE(buf, 3);
    ToBEOfBE(buf[3..5]);
    PrefixExtend(buf, 3, 5);
    acc := acc + ToBE(m.trackingNumber, 2);
    assert acc == buf[..5];
    ReadU48IsBE(buf, 5);
    ToBEOfBE(buf[5..11]);
    PrefixExtend(buf, 5, 11);
    acc := acc + ToBE(m.timestamp, 6);
    assert acc == buf[..11];
    BytesOfChars(buf[11..19]);
    PrefixExtend(buf, 11, 19);
    acc := acc + Bytes(m.symbol);
    assert acc == buf[..19];
    ReadU32IsBE(buf, 19);
    ToBEOfBE(buf[19..23]);
    PrefixExtend(buf, 19, 23);
    acc := acc + ToBE(m.auctionCollarReferencePrice, 4);
    assert acc == buf[..23];
    ReadU32IsBE(buf, 23);
    ToBEOfBE(buf[23..27]);
    PrefixExtend(buf, 23, 27);
    acc := acc + ToBE(m.upperCollarPrice, 4);
    assert acc == buf[..27];
    ReadU32IsBE(buf, 27);
    ToBEOfBE(buf[27..31]);
    PrefixExtend(buf, 27, 31);
    acc := acc + ToBE(m.lowerCollarPrice, 4);
    assert acc == buf[..31];
    ReadU32IsBE(buf, 31);
    ToBEOfBE(buf[31..35]);
    PrefixExtend(buf, 31, 35);
    acc := acc + ToBE(m.auctionCollarExtension, 4);
    assert acc == buf[..35];
    assert buf[..|buf|] == buf;
  }

  function EncodeOperationalHalt(m: OperationalHalt): (buf: seq<byte>)
    ensures |buf| == OPERATIONAL_HALT_SIZE && buf[0] == OPERATIONAL_HALT_TYPE
  {
    [OPERATIONAL_HALT_TYPE] + ToBE(m.stockLocate, 2) + ToBE(m.trackingNumber, 2)
    + ToBE(m.timestamp, 6) + Bytes(m.symbol) + [m.marketCode as int]
    + [m.operationalHaltAction as int]
  }

  lemma OperationalHaltRoundTrip(m: OperationalHalt)
    ensures ParseOperationalHalt(EncodeOperationalHalt(m)) == Some(m)
  {
    var buf := EncodeOperationalHalt(m);
    assert buf[1..3] == ToBE(m.stockLocate, 2);
    assert buf[3..5] == ToBE(m.trackingNumber, 2);
    assert buf[5..11] == ToBE(m.timestamp, 6);
    assert buf[11..19] == Bytes(m.symbol);
    BERoundTrip(m.stockLocate, 2);
    ReadU16IsBE(buf, 1);
    BERoundTrip(m.trackingNumber, 2);
    ReadU16IsBE(buf, 3);
    BERoundTrip(m.timestamp, 6);
    ReadU48IsBE(buf, 5);
    CharsOfBytes(m.symbol);
  }

  lemma OperationalHaltParseSound(buf: seq<byte>, m: OperationalHalt)
    requires ParseOperationalHalt(buf) == Some(m)
    ensures EncodeOperationalHalt(m) == buf
  {
    var acc := [OPERATIONAL_HALT_TYPE];
    assert acc == buf[..1];
    ReadU16IsBE(buf, 1);
    ToBEOfBE(buf[1..3]);
    PrefixExtend(buf, 1, 3);
    acc := acc + ToBE(m.stockLocate, 2);
    assert acc == buf[..3];
    ReadU16IsBE(buf, 3);
    ToBEOfBE(buf[3..5]);
    PrefixExtend(buf, 3, 5);
    acc := acc + ToBE(m.trackingNumber, 2);
    assert acc == buf[..5];
    ReadU48IsBE(buf, 5);
    ToBEOfBE(buf[5..11]);
    PrefixExtend(buf, 5, 11);
    acc := acc + ToBE(m.timestamp, 6);
    assert acc == buf[..11];
    BytesOfChars(buf[11..19]);
    PrefixExtend(buf, 11, 19);
    acc := acc + Bytes(m.symbol);
    assert acc == buf[..19];
    PrefixExtend(buf, 19, 20);
    acc := acc + [m.marketCode as int];
    assert acc == buf[..20];
    PrefixExtend(buf, 20, 21);
    acc := acc + [m.operationalHaltAction as int];
    assert acc == buf[..21];
    assert buf[..|buf|] == buf;
  }

  function EncodeAddOrder(m: AddOrder): (buf: seq<byte>)
    ensures |buf| == ADD_ORDER_SIZE && buf[0] == ADD_ORDER_TYPE
  {
    [ADD_ORDER_TYPE] + ToBE(m.stockLocate, 2) + ToBE(m.trackingNumber, 2) + ToBE(m.timestamp, 6)
    + ToBE(m.orderReference, 8) + [m.buySellIndicator as int] + ToBE(m.shares, 4) + Bytes(m.symbol)
    + ToBE(m.price, 4)
  }

  lemma AddOrderRoundTrip(m: AddOrder)
    ensures ParseAddOrder(EncodeAddOrder(m)) == Some(m)
  {
    var buf := EncodeAddOrder(m);
    assert buf[1..3] == ToBE(m.stockLocate, 2);
    assert buf[3..5] == ToBE(m.trackingNumber, 2);
    assert buf[5..11] == ToBE(m.timestamp, 6);
    assert buf[11..19] == ToBE(m.orderReference, 8);
    assert buf[20..24] == ToBE(m.shares, 4);
    assert buf[24..32] == Bytes(m.symbol);
    assert buf[32..36] == ToBE(m.price, 4);
    BERoundTrip(m.stockLocate, 2);
    ReadU16IsBE(buf, 1);
    BERoundTrip(m.trackingNumber, 2);
    ReadU16IsBE(buf, 3);
    BERoundTrip(m.timestamp, 6);
    ReadU48IsBE(buf, 5);
    BERoundTrip(m.orderReference, 8);
    ReadU64IsBE(buf, 11);
    BERoundTrip(m.shares, 4);
    ReadU32IsBE(buf, 20);
    CharsOfBytes(m.symbol);
    BERoundTrip(m.price, 4);
    ReadU32IsBE(buf, 32);
  }

  lemma AddOrderParseSound(buf: seq<byte>, m: AddOrder)
    requires ParseAddOrder(buf) == Some(m)
    ensures EncodeAddOrder(m) == buf
  {
    var acc := [ADD_ORDER_TYPE];
    assert acc == buf[..1];
    ReadU16IsBE(buf, 1);
    ToBEOfBE(buf[1..3]);
    PrefixExtend(buf, 1, 3);
    acc := acc + ToBE(m.stockLocate, 2);
    assert acc == buf[..3];
    ReadU16IsBE(buf, 3);
    ToBEOfBE(buf[3..5]);
    PrefixExtend(buf, 3, 5);
    acc := acc + ToBE(m.trackingNumber, 2);
    assert acc == buf[..5];
    ReadU48IsBE(buf, 5);
    ToBEOfBE(buf[5..11]);
    PrefixExtend(buf, 5, 11);
    acc := acc + ToBE(m.timestamp, 6);
    assert acc == buf[..11];
    ReadU64IsBE(buf, 11);
    ToBEOfBE(buf[11..19]);
    PrefixExtend(buf, 11, 19);
    acc := acc + ToBE(m.orderReference, 8);
    assert acc == buf[..19];
    PrefixExtend(buf, 19, 20);
    acc := acc + [m.buySellIndicator as int];
    assert acc == buf[..20];
    ReadU32IsBE(buf, 20);
    ToBEOfBE(buf[20..24]);
    PrefixExtend(buf, 20, 24);
    acc := acc + ToBE(m.shares, 4);
    assert acc == buf[..24];
    BytesOfChars(buf[24..32]);
    PrefixExtend(buf, 24, 32);
    acc := acc + Bytes(m.symbol);
    assert acc == buf[..32];
    ReadU32IsBE(buf, 32);
    ToBEOfBE(buf[32..36]);
    PrefixExtend(buf, 32, 36);
    acc := acc + ToBE(m.price, 4);
    assert acc == buf[..36];
    assert buf[..|buf|] == buf;
  }

  function EncodeAddOrderMpid(m: AddOrderMpid): (buf: seq<byte>)
    ensures |buf| == ADD_ORDER_MPID_SIZE && buf[0] == ADD_ORDER_MPID_TYPE
  {
    [ADD_ORDER_MPID_TYPE] + ToBE(m.stockLocate, 2) + ToBE(m.trackingNumber, 2)
    + ToBE(m.timestamp, 6) + ToBE(m.orderReference, 8) + [m.buySellIndicator as int]
    + ToBE(m.shares, 4) + Bytes(m.symbol) + ToBE(m.price, 4) + Bytes(m.attribution)
  }

  lemma AddOrderMpidRoundTrip(m: AddOrderMpid)
    ensures ParseAddOrderMpid(EncodeAddOrderMpid(m)) == Some(m)
  {
    var buf := EncodeAddOrderMpid(m);
    assert buf[1..3] == ToBE(m.stockLocate, 2);
    assert buf[3..5] == ToBE(m.trackingNumber, 2);
    assert buf[5..11] == ToBE(m.timestamp, 6);
    assert buf[11..19] == ToBE(m.orderReference, 8);
    assert buf[20..24] == ToBE(m.shares, 4);
    assert buf[24..32] == Bytes(m.symbol);
    assert buf[32..36] == ToBE(m.price, 4);
    assert buf[36..40] == Bytes(m.attribution);
    BERoundTrip(m.stockLocate, 2);
    ReadU16IsBE(buf, 1);
    BERoundTrip(m.trackingNumber, 2);
    ReadU16IsBE(buf, 3);
    BERoundTrip(m.timestamp, 6);
    ReadU48IsBE(buf, 5);
    BERoundTrip(m.orderReference, 8);
    ReadU64IsBE(buf, 11);
    BERoundTrip(m.shares, 4);
    ReadU32IsBE(buf, 20);
    CharsOfBytes(m.symbol);
    BERoundTrip(m.price, 4);
    ReadU32IsBE(buf, 32);
    CharsOfBytes(m.attribution);
  }

  lemma AddOrderMpidParseSound(buf: seq<byte>, m: AddOrderMpid)
    requires ParseAddOrderMpid(buf) == Some(m)
    ensures EncodeAddOrderMpid(m) == buf
  {
    var acc := [ADD_ORDER_MPID_TYPE];
    assert acc == buf[..1];
    ReadU16IsBE(buf, 1);
    ToBEOfBE(buf[1..3]);
    PrefixExtend(buf, 1, 3);
    acc := acc + ToBE(m.stockLocate, 2);
    assert acc == buf[..3];
    ReadU16IsBE(buf, 3);
    ToBEOfBE(buf[3..5]);
    PrefixExtend(buf, 3, 5);
    acc := acc + ToBE(m.trackingNumber, 2);
    assert acc == buf[..5];
    ReadU48IsBE(buf, 5);
    ToBEOfBE(buf[5..11]);
    PrefixExtend(buf, 5, 11);
    acc := acc + ToBE(m.timestamp, 6);
    assert acc == buf[..11];
    ReadU64IsBE(buf, 11);
    ToBEOfBE(buf[11..19]);
    PrefixExtend(buf, 11, 19);
    acc := acc + ToBE(m.orderReference, 8);
    assert acc == buf[..19];
    PrefixExtend(buf, 19, 20);
    acc := acc + [m.buySellIndicator as int];
    assert acc == buf[..20];
    ReadU32IsBE(buf, 20);
    ToBEOfBE(buf[20..24]);
    PrefixExtend(buf, 20, 24);
    acc := acc + ToBE(m.shares, 4);
    assert acc == buf[..24];
    BytesOfChars(buf[24..32]);
    PrefixExtend(buf, 24, 32);
    acc := acc + Bytes(m.symbol);
    assert acc == buf[..32];
    ReadU32IsBE(buf, 32);
    ToBEOfBE(buf[32..36]);
    PrefixExtend(buf, 32, 36);
    acc := acc + ToBE(m.price, 4);
    assert acc == buf[..36];
    BytesOfChars(buf[36..40]);
    PrefixExtend(buf, 36, 40);
    acc := acc + Bytes(m.attribution);
    assert acc == buf[..40];
    assert buf[..|buf|] == buf;
  }

  function EncodeOrderExecuted(m: OrderExecuted): (buf: seq<byte>)
    ensures |buf| == ORDER_EXECUTED_SIZE && buf[0] == ORDER_EXECUTED_TYPE
  {
    [ORDER_EXECUTED_TYPE] + ToBE(m.stockLocate, 2) + ToBE(m.trackingNumber, 2)
    + ToBE(m.timestamp, 6) + ToBE(m.orderReference, 8) + ToBE(m.executedShares, 4)
    + ToBE(m.matchNumber, 8)
  }

  lemma OrderExecutedRoundTrip(m: OrderExecuted)
    ensures ParseOrderExecuted(EncodeOrderExecuted(m)) == Some(m)
  {
    var buf := EncodeOrderExecuted(m);
    assert buf[1..3] == ToBE(m.stockLocate, 2);
    assert buf[3..5] == ToBE(m.trackingNumber, 2);
    assert buf[5..11] == ToBE(m.timestamp, 6);
    assert buf[11..19] == ToBE(m.orderReference, 8);
    assert buf[19..23] == ToBE(m.executedShares, 4);
    assert buf[23..31] == ToBE(m.matchNumber, 8);
    BERoundTrip(m.stockLocate, 2);
    ReadU16IsBE(buf, 1);
    BERoundTrip(m.trackingNumber, 2);
    ReadU16IsBE(buf, 3);
    BERoundTrip(m.timestamp, 6);
    ReadU48IsBE(buf, 5);
    BERoundTrip(m.orderReference, 8);
    ReadU64IsBE(buf, 11);
    BERoundTrip(m.executedShares, 4);
    ReadU32IsBE(buf, 19);
    BERoundTrip(m.matchNumber, 8);
    ReadU64IsBE(buf, 23);
  }

  lemma OrderExecutedParseSound(buf: seq<byte>, m: OrderExecuted)
    requires ParseOrderExecuted(buf) == Some(m)
    ensures EncodeOrderExecuted(m) == buf
  {
    var acc := [ORDER_EXECUTED_TYPE];
    assert acc == buf[..1];
    ReadU16IsBE(buf, 1);
    ToBEOfBE(buf[1..3]);
    PrefixExtend(buf, 1, 3);
    acc := acc + ToBE(m.stockLocate, 2);
    assert acc == buf[..3];
    ReadU16IsBE(buf, 3);
    ToBEOfBE(buf[3..5]);
    PrefixExtend(buf, 3, 5);
    acc := acc + ToBE(m.trackingNumber, 2);
    assert acc == buf[..5];
    ReadU48IsBE(buf, 5);
    ToBEOfBE(buf[5..11]);
    PrefixExtend(buf, 5, 11);
    acc := acc + ToBE(m.timestamp, 6);
    assert acc == buf[..11];
    ReadU64IsBE(buf, 11);
    ToBEOfBE(buf[11..19]);
    PrefixExtend(buf, 11, 19);
    acc := acc + ToBE(m.orderReference, 8);
    assert acc == buf[..19];
    ReadU32IsBE(buf, 19);
    ToBEOfBE(buf[19..23]);
    PrefixExtend(buf, 19, 23);
    acc := acc + ToBE(m.executedShares, 4);
    assert acc == buf[..23];
    ReadU64IsBE(buf, 23);
    ToBEOfBE(buf[23..31]);
    PrefixExtend(buf, 23, 31);
    acc := acc + ToBE(m.matchNumber, 8);
    assert acc == buf[..31];
    assert buf[..|buf|] == buf;
  }

  function EncodeOrderExecutedWithPrice(m: OrderExecutedWithPrice): (buf: seq<byte>)
    ensures |buf| == ORDER_EXECUTED_WITH_PRICE_SIZE && buf[0] == ORDER_EXECUTED_WITH_PRICE_TYPE
  {
    [ORDER_EXECUTED_WITH_PRICE_TYPE] + ToBE(m.stockLocate, 2) + ToBE(m.trackingNumber, 2)
    + ToBE(m.timestamp, 6) + ToBE(m.orderReference, 8) + ToBE(m.executedShares, 4)
    + ToBE(m.matchNumber, 8) + [m.printable as int] + ToBE(m.executionPrice, 4)
  }

  lemma OrderExecutedWithPriceRoundTrip(m: OrderExecutedWithPrice)
    ensures ParseOrderExecutedWithPrice(EncodeOrderExecutedWithPrice(m)) == Some(m)
  {
    var buf := EncodeOrderExecutedWithPrice(m);
    assert buf[1..3] == ToBE(m.stockLocate, 2);
    assert buf[3..5] == ToBE(m.trackingNumber, 2);
    assert buf[5..11] == ToBE(m.timestamp, 6);
    assert buf[11..19] == ToBE(m.orderReference, 8);
    assert buf[19..23] == ToBE(m.executedShares, 4);
    assert buf[23..31] == ToBE(m.matchNumber, 8);
    assert buf[32..36] == ToBE(m.executionPrice, 4);
    BERoundTrip(m.stockLocate, 2);
    ReadU16IsBE(buf, 1);
    BERoundTrip(m.trackingNumber, 2);
    ReadU16IsBE(buf, 3);
    BERoundTrip(m.timestamp, 6);
    ReadU48IsBE(buf, 5);
    BERoundTrip(m.orderReference, 8);
    ReadU64IsBE(buf, 11);
    BERoundTrip(m.executedShares, 4);
    ReadU32IsBE(buf, 19);
    BERoundTrip(m.matchNumber, 8);
    ReadU64IsBE(buf, 23);
    BERoundTrip(m.executionPrice, 4);
    ReadU32IsBE(buf, 32);
  }

  lemma OrderExecutedWithPriceParseSound(buf: seq<byte>, m: OrderExecutedWithPrice)
    requires ParseOrderExecutedWithPrice(buf) == Some(m)
    ensures EncodeOrderExecutedWithPrice(m) == buf
  {
    var acc := [ORDER_EXECUTED_WITH_PRICE_TYPE];
    assert acc == buf[..1];
    ReadU16IsBE(buf, 1);
    ToBEOfBE(buf[1..3]);
    PrefixExtend(buf, 1, 3);
    acc := acc + ToBE(m.stockLocate, 2);
    assert acc == buf[..3];
    ReadU16IsBE(buf, 3);
    ToBEOfBE(buf[3..5]);
    PrefixExtend(buf, 3, 5);
    acc := acc + ToBE(m.trackingNumber, 2);
    assert acc == buf[..5];
    ReadU48IsBE(buf, 5);
    ToBEOfBE(buf[5..11]);
    PrefixExtend(buf, 5, 11);
    acc := acc + ToBE(m.timestamp, 6);
    assert acc == buf[..11];
    ReadU64IsBE(buf, 11);
    ToBEOfBE(buf[11..19]);
    PrefixExtend(buf, 11, 19);
    acc := acc + ToBE(m.orderReference, 8);
    assert acc == buf[..19];
    ReadU32IsBE(buf, 19);
    ToBEOfBE(buf[19..23]);
    PrefixExtend(buf, 19, 23);
    acc := acc + ToBE(m.executedShares, 4);
    assert acc == buf[..23];
    ReadU64IsBE(buf, 23);
    ToBEOfBE(buf[23..31]);
    PrefixExtend(buf, 23, 31);
    acc := acc + ToBE(m.matchNumber, 8);
    assert acc == buf[..31];
    PrefixExtend(buf, 31, 32);
    acc := acc + [m.printable as int];
    assert acc == buf[..32];
    ReadU32IsBE(buf, 32);
    ToBEOfBE(buf[32..36]);
    PrefixExtend(buf, 32, 36);
    acc := acc + ToBE(m.executionPrice, 4);
    assert acc == buf[..36];
    assert buf[..|buf|] == buf;
  }

  function EncodeOrderCancel(m: OrderCancel): (buf: seq<byte>)
    ensures |buf| == ORDER_CANCEL_SIZE && buf[0] == ORDER_CANCEL_TYPE
  {
    [ORDER_CANCEL_TYPE] + ToBE(m.stockLocate, 2) + ToBE(m.trackingNumber, 2) + ToBE(m.timestamp, 6)
    + ToBE(m.orderReference, 8) + ToBE(m.cancelledShares, 4)
  }

  lemma OrderCancelRoundTrip(m: OrderCancel)
    ensures ParseOrderCancel(EncodeOrderCancel(m)) == Some(m)
  {
    var buf := EncodeOrderCancel(m);
    assert buf[1..3] == ToBE(m.stockLocate, 2);
    assert buf[3..5] == ToBE(m.trackingNumber, 2);
    assert buf[5..11] == ToBE(m.timestamp, 6);
    assert buf[11..19] == ToBE(m.orderReference, 8);
    assert buf[19..23] == ToBE(m.cancelledShares, 4);
    BERoundTrip(m.stockLocate, 2);
    ReadU16IsBE(buf, 1);
    BERoundTrip(m.trackingNumber, 2);
    ReadU16IsBE(buf, 3);
    BERoundTrip(m.timestamp, 6);
    ReadU48IsBE(buf, 5);
    BERoundTrip(m.orderReference, 8);
    ReadU64IsBE(buf, 11);
    BERoundTrip(m.cancelledShares, 4);
    ReadU32IsBE(buf, 19);
  }

  lemma OrderCancelParseSound(buf: seq<byte>, m: OrderCancel)
    requires ParseOrderCancel(buf) == Some(m)
    ensures EncodeOrderCancel(m) == buf
  {
    var acc := [ORDER_CANCEL_TYPE];
    assert acc == buf[..1];
    ReadU16IsBE(buf, 1);
    ToBEOfBE(buf[1..3]);
    PrefixExtend(buf, 1, 3);
    acc := acc + ToBE(m.stockLocate, 2);
    assert acc == buf[..3];
    ReadU16IsBE(buf, 3);
    ToBEOfBE(buf[3..5]);
    PrefixExtend(buf, 3, 5);
    acc := acc + ToBE(m.trackingNumber, 2);
    assert acc == buf[..5];
    ReadU48IsBE(buf, 5);
    ToBEOfBE(buf[5..11]);
    PrefixExtend(buf, 5, 11);
    acc := acc + ToBE(m.timestamp, 6);
    assert acc == buf[..11];
    ReadU64IsBE(buf, 11);
    ToBEOfBE(buf[11..19]);
    PrefixExtend(buf, 11, 19);
    acc := acc + ToBE(m.orderReference, 8);
    assert acc == buf[..19];
    ReadU32IsBE(buf, 19);
    ToBEOfBE(buf[19..23]);
    PrefixExtend(buf, 19, 23);
    acc := acc + ToBE(m.cancelledShares, 4);
    assert acc == buf[..23];
    assert buf[..|buf|] == buf;
  }

  function EncodeOrderDelete(m: OrderDelete): (buf: seq<byte>)
    ensures |buf| == ORDER_DELETE_SIZE && buf[0] == ORDER_DELETE_TYPE
  {
    [ORDER_DELETE_TYPE] + ToBE(m.stockLocate, 2) + ToBE(m.trackingNumber, 2) + ToBE(m.timestamp, 6)
    + ToBE(m.orderReference, 8)
  }

  lemma OrderDeleteRoundTrip(m: OrderDelete)
    ensures ParseOrderDelete(EncodeOrderDelete(m)) == Some(m)
  {
    var buf := EncodeOrderDelete(m);
    assert buf[1..3] == ToBE(m.stockLocate, 2);
    assert buf[3..5] == ToBE(m.trackingNumber, 2);
    assert buf[5..11] == ToBE(m.timestamp, 6);
    assert buf[11..19] == ToBE(m.orderReference, 8);
    BERoundTrip(m.stockLocate, 2);
    ReadU16IsBE(buf, 1);
    BERoundTrip(m.trackingNumber, 2);
    ReadU16IsBE(buf, 3);
    BERoundTrip(m.timestamp, 6);
    ReadU48IsBE(buf, 5);
    BERoundTrip(m.orderReference, 8);
    ReadU64IsBE(buf, 11);
  }

  lemma OrderDeleteParseSound(buf: seq<byte>, m: OrderDelete)
    requires ParseOrderDelete(buf) == Some(m)
    ensures EncodeOrderDelete(m) == buf
  {
    var acc := [ORDER_DELETE_TYPE];
    assert acc == buf[..1];
    ReadU16IsBE(buf, 1);
    ToBEOfBE(buf[1..3]);
    PrefixExtend(buf, 1, 3);
    acc := acc + ToBE(m.stockLocate, 2);
    assert acc == buf[..3];
    ReadU16IsBE(buf, 3);
    ToBEOfBE(buf[3..5]);
    PrefixExtend(buf, 3, 5);
    acc := acc + ToBE(m.trackingNumber, 2);
    assert acc == buf[..5];
    ReadU48IsBE(buf, 5);
    ToBEOfBE(buf[5..11]);
    PrefixExtend(buf, 5, 11);
    acc := acc + ToBE(m.timestamp, 6);
    assert acc == buf[..11];
    ReadU64IsBE(buf, 11);
    ToBEOfBE(buf[11..19]);
    PrefixExtend(buf, 11, 19);
    acc := acc + ToBE(m.orderReference, 8);
    assert acc == buf[..19];
    assert buf[..|buf|] == buf;
  }

  function EncodeOrderReplace(m: OrderReplace): (buf: seq<byte>)
    ensures |buf| == ORDER_REPLACE_SIZE && buf[0] == ORDER_REPLACE_TYPE
  {
    [ORDER_REPLACE_TYPE] + ToBE(m.stockLocate, 2) + ToBE(m.trackingNumber, 2) + ToBE(m.timestamp, 6)
    + ToBE(m.originalOrderReference, 8) + ToBE(m.newOrderReference, 8) + ToBE(m.shares, 4)
    + ToBE(m.price, 4)
  }

  lemma OrderReplaceRoundTrip(m: OrderReplace)
    ensures ParseOrderReplace(EncodeOrderReplace(m)) == Some(m)
  {
    var buf := EncodeOrderReplace(m);
    assert buf[1..3] == ToBE(m.stockLocate, 2);
    assert buf[3..5] == ToBE(m.trackingNumber, 2);
    assert buf[5..11] == ToBE(m.timestamp, 6);
    assert buf[11..19] == ToBE(m.originalOrderReference, 8);
    assert buf[19..27] == ToBE(m.newOrderReference, 8);
    assert buf[27..31] == ToBE(m.shares, 4);
    assert buf[31..35] == ToBE(m.price, 4);
    BERoundTrip(m.stockLocate, 2);
    ReadU16IsBE(buf, 1);
    BERoundTrip(m.trackingNumber, 2);
    ReadU16IsBE(buf, 3);
    BERoundTrip(m.timestamp, 6);
    ReadU48IsBE(buf, 5);
    BERoundTrip(m.originalOrderReference, 8);
    ReadU64IsBE(buf, 11);
    BERoundTrip(m.newOrderReference, 8);
    ReadU64IsBE(buf, 19);
    BERoundTrip(m.shares, 4);
    ReadU32IsBE(buf, 27);
    BERoundTrip(m.price, 4);
    ReadU32IsBE(buf, 31);
  }

  lemma OrderReplaceParseSound(buf: seq<byte>, m: OrderReplace)
    requires ParseOrderReplace(buf) == Some(m)
    ensures EncodeOrderReplace(m) == buf
  {
    var acc := [ORDER_REPLACE_TYPE];
    assert acc == buf[..1];
    ReadU16IsBE(buf, 1);
    ToBEOfBE(buf[1..3]);
    PrefixExtend(buf, 1, 3);
    acc := acc + ToBE(m.stockLocate, 2);
    assert acc == buf[..3];
    ReadU16IsBE(buf, 3);
    ToBEOfBE(buf[3..5]);
    PrefixExtend(buf, 3, 5);
    acc := acc + ToBE(m.trackingNumber, 2);
    assert acc == buf[..5];
    ReadU48IsBE(buf, 5);
    ToBEOfBE(buf[5..11]);
    PrefixExtend(buf, 5, 11);
    acc := acc + ToBE(m.timestamp, 6);
    assert acc == buf[..11];
    ReadU64IsBE(buf, 11);
    ToBEOfBE(buf[11..19]);
    PrefixExtend(buf, 11, 19);
    acc := acc + ToBE(m.originalOrderReference, 8);
    assert acc == buf[..19];
    ReadU64IsBE(buf, 19);
    ToBEOfBE(buf[19..27]);
    PrefixExtend(buf, 19, 27);
    acc := acc + ToBE(m.newOrderReference, 8);
    assert acc == buf[..27];
    ReadU32IsBE(buf, 27);
    ToBEOfBE(buf[27..31]);
    PrefixExtend(buf, 27, 31);
    acc := acc + ToBE(m.shares, 4);
    assert acc == buf[..31];
    ReadU32IsBE(buf, 31);
    ToBEOfBE(buf[31..35]);
    PrefixExtend(buf, 31, 35);
    acc := acc + ToBE(m.price, 4);
    assert acc == buf[..35];
    assert buf[..|buf|] == buf;
  }

  function EncodeTradeNonCross(m: TradeNonCross): (buf: seq<byte>)
    ensures |buf| == TRADE_NON_CROSS_SIZE && buf[0] == TRADE_NON_CROSS_TYPE
  {
    [TRADE_NON_CROSS_TYPE] + ToBE(m.stockLocate, 2) + ToBE(m.trackingNumber, 2)
    + ToBE(m.timestamp, 6) + ToBE(m.orderReference, 8) + [m.buySellIndicator as int]
    + ToBE(m.shares, 4) + Bytes(m.symbol) + ToBE(m.price, 4) + ToBE(m.matchNumber, 8)
  }

  lemma TradeNonCrossRoundTrip(m: TradeNonCross)
    ensures ParseTradeNonCross(EncodeTradeNonCross(m)) == Some(m)
  {
    var buf := EncodeTradeNonCross(m);
    assert buf[1..3] == ToBE(m.stockLocate, 2);
    assert buf[3..5] == ToBE(m.trackingNumber, 2);
    assert buf[5..11] == ToBE(m.timestamp, 6);
    assert buf[11..19] == ToBE(m.orderReference, 8);
    assert buf[20..24] == ToBE(m.shares, 4);
    assert buf[24..32] == Bytes(m.symbol);
    assert buf[32..36] == ToBE(m.price, 4);
    assert buf[36..44] == ToBE(m.matchNumber, 8);
    BERoundTrip(m.stockLocate, 2);
    ReadU16IsBE(buf, 1);
    BERoundTrip(m.trackingNumber, 2);
    ReadU16IsBE(buf, 3);
    BERoundTrip(m.timestamp, 6);
    ReadU48IsBE(buf, 5);
    BERoundTrip(m.orderReference, 8);
    ReadU64IsBE(buf, 11);
    BERoundTrip(m.shares, 4);
    ReadU32IsBE(buf, 20);
    CharsOfBytes(m.symbol);
    BERoundTrip(m.price, 4);
    ReadU32IsBE(buf, 32);
    BERoundTrip(m.matchNumber, 8);
    ReadU64IsBE(buf, 36);
  }

  lemma TradeNonCrossParseSound(buf: seq<byte>, m: TradeNonCross)
    requires ParseTradeNonCross(buf) == Some(m)
    ensures EncodeTradeNonCross(m) == buf
  {
    var acc := [TRADE_NON_CROSS_TYPE];
    assert acc == buf[..1];
    ReadU16IsBE(buf, 1);
    ToBEOfBE(buf[1..3]);
    PrefixExtend(buf, 1, 3);
    acc := acc + ToBE(m.stockLocate, 2);
    assert acc == buf[..3];
    ReadU16IsBE(buf, 3);
    ToBEOfBE(buf[3..5]);
    PrefixExtend(buf, 3, 5);
    acc := acc + ToBE(m.trackingNumber, 2);
    assert acc == buf[..5];
    ReadU48IsBE(buf, 5);
    ToBEOfBE(buf[5..11]);
    PrefixExtend(buf, 5, 11);
    acc := acc + ToBE(m.timestamp, 6);
    assert acc == buf[..11];
    ReadU64IsBE(buf, 11);
    ToBEOfBE(buf[11..19]);
    PrefixExtend(buf, 11, 19);
    acc := acc + ToBE(m.orderReference, 8);
    assert acc == buf[..19];
    PrefixExtend(buf, 19, 20);
    acc := acc + [m.buySellIndicator as int];
    assert acc == buf[..20];
    ReadU32IsBE(buf, 20);
    ToBEOfBE(buf[20..24]);
    PrefixExtend(buf, 20, 24);
    acc := acc + ToBE(m.shares, 4);
    assert acc == buf[..24];
    BytesOfChars(buf[24..32]);
    PrefixExtend(buf, 24, 32);
    acc := acc + Bytes(m.symbol);
    assert acc == buf[..32];
    ReadU32IsBE(buf, 32);
    ToBEOfBE(buf[32..36]);
    PrefixExtend(buf, 32, 36);
    acc := acc + ToBE(m.price, 4);
    assert acc == buf[..36];
    ReadU64IsBE(buf, 36);
    ToBEOfBE(buf[36..44]);
    PrefixExtend(buf, 36, 44);
    acc := acc + ToBE(m.matchNumber, 8);
    assert acc == buf[..44];
    assert buf[..|buf|] == buf;
  }

  function EncodeCrossTrade(m: CrossTrade): (buf: seq<byte>)
    ensures |buf| == CROSS_TRADE_SIZE && buf[0] == CROSS_TRADE_TYPE
  {
    [CROSS_TRADE_TYPE] + ToBE(m.stockLocate, 2) + ToBE(m.trackingNumber, 2) + ToBE(m.timestamp, 6)
    + ToBE(m.shares, 8) + Bytes(m.symbol) + ToBE(m.crossPrice, 4) + ToBE(m.matchNumber, 8)
    + [m.crossType as int]
  }

  lemma CrossTradeRoundTrip(m: CrossTrade)
    ensures ParseCrossTrade(EncodeCrossTrade(m)) == Some(m)
  {
    var buf := EncodeCrossTrade(m);
    assert buf[1..3] == ToBE(m.stockLocate, 2);
    assert buf[3..5] == ToBE(m.trackingNumber, 2);
    assert buf[5..11] == ToBE(m.timestamp, 6);
    assert buf[11..19] == ToBE(m.shares, 8);
    assert buf[19..27] == Bytes(m.symbol);
    assert buf[27..31] == ToBE(m.crossPrice, 4);
    assert buf[31..39] == ToBE(m.matchNumber, 8);
    BERoundTrip(m.stockLocate, 2);
    ReadU16IsBE(buf, 1);
    BERoundTrip(m.trackingNumber, 2);
    ReadU16IsBE(buf, 3);
    BERoundTrip(m.timestamp, 6);
    ReadU48IsBE(buf, 5);
    BERoundTrip(m.shares, 8);
    ReadU64IsBE(buf, 11);
    CharsOfBytes(m.symbol);
    BERoundTrip(m.crossPrice, 4);
    ReadU32IsBE(buf, 27);
    BERoundTrip(m.matchNumber, 8);
    ReadU64IsBE(buf, 31);
  }

  lemma CrossTradeParseSound(buf: seq<byte>, m: CrossTrade)
    requires ParseCrossTrade(buf) == Some(m)
    ensures EncodeCrossTrade(m) == buf
  {
    var acc := [CROSS_TRADE_TYPE];
    assert acc == buf[..1];
    ReadU16IsBE(buf, 1);
    ToBEOfBE(buf[1..3]);
    PrefixExtend(buf, 1, 3);
    acc := acc + ToBE(m.stockLocate, 2);
    assert acc == buf[..3];
    ReadU16IsBE(buf, 3);
    ToBEOfBE(buf[3..5]);
    PrefixExtend(buf, 3, 5);
    acc := acc + ToBE(m.trackingNumber, 2);
    assert acc == buf[..5];
    ReadU48IsBE(buf, 5);
    ToBEOfBE(buf[5..11]);
    PrefixExtend(buf, 5, 11);
    acc := acc + ToBE(m.timestamp, 6);
    assert acc == buf[..11];
    ReadU64IsBE(buf, 11);
    ToBEOfBE(buf[11..19]);
    PrefixExtend(buf, 11, 19);
    acc := acc + ToBE(m.shares, 8);
    assert acc == buf[..19];
    BytesOfChars(buf[19..27]);
    PrefixExtend(buf, 19, 27);
    acc := acc + Bytes(m.symbol);
    assert acc == buf[..27];
    ReadU32IsBE(buf, 27);
    ToBEOfBE(buf[27..31]);
    PrefixExtend(buf, 27, 31);
    acc := acc + ToBE(m.crossPrice, 4);
    assert acc == buf[..31];
    ReadU64IsBE(buf, 31);
    ToBEOfBE(buf[31..39]);
    PrefixExtend(buf, 31, 39);
    acc := acc + ToBE(m.matchNumber, 8);
    assert acc == buf[..39];
    PrefixExtend(buf, 39, 40);
    acc := acc + [m.crossType as int];
    assert acc == buf[..40];
    assert buf[..|buf|] == buf;
  }

  function EncodeBrokenTrade(m: BrokenTrade): (buf: seq<byte>)
    ensures |buf| == BROKEN_TRADE_SIZE && buf[0] == BROKEN_TRADE_TYPE
  {
    [BROKEN_TRADE_TYPE] + ToBE(m.stockLocate, 2) + ToBE(m.trackingNumber, 2) + ToBE(m.timestamp, 6)
    + ToBE(m.matchNumber, 8)
  }

  lemma BrokenTradeRoundTrip(m: BrokenTrade)
    ensures ParseBrokenTrade(EncodeBrokenTrade(m)) == Some(m)
  {
    var buf := EncodeBrokenTrade(m);
    assert buf[1..3] == ToBE(m.stockLocate, 2);
    assert buf[3..5] == ToBE(m.trackingNumber, 2);
    assert buf[5..11] == ToBE(m.timestamp, 6);
    assert buf[11..19] == ToBE(m.matchNumber, 8);
    BERoundTrip(m.stockLocate, 2);
    ReadU16IsBE(buf, 1);
    BERoundTrip(m.trackingNumber, 2);
    ReadU16IsBE(buf, 3);
    BERoundTrip(m.timestamp, 6);
    ReadU48IsBE(buf, 5);
    BERoundTrip(m.matchNumber, 8);
    ReadU64IsBE(buf, 11);
  }

  lemma BrokenTradeParseSound(buf: seq<byte>, m: BrokenTrade)
    requires ParseBrokenTrade(buf) == Some(m)
    ensures EncodeBrokenTrade(m) == buf
  {
    var acc := [BROKEN_TRADE_TYPE];
    assert acc == buf[..1];
    ReadU16IsBE(buf, 1);
    ToBEOfBE(buf[1..3]);
    PrefixExtend(buf, 1, 3);
    acc := acc + ToBE(m.stockLocate, 2);
    assert acc == buf[..3];
    ReadU16IsBE(buf, 3);
    ToBEOfBE(buf[3..5]);
    PrefixExtend(buf, 3, 5);
    acc := acc + ToBE(m.trackingNumber, 2);
    assert acc == buf[..5];
    ReadU48IsBE(buf, 5);
    ToBEOfBE(buf[5..11]);
    PrefixExtend(buf, 5, 11);
    acc := acc + ToBE(m.timestamp, 6);
    assert acc == buf[..11];
    ReadU64IsBE(buf, 11);
    ToBEOfBE(buf[11..19]);
    PrefixExtend(buf, 11, 19);
    acc := acc + ToBE(m.matchNumber, 8);
    assert acc == buf[..19];
    assert buf[..|buf|] == buf;
  }

  function EncodeNoii(m: Noii): (buf: seq<byte>)
    ensures |buf| == NOII_SIZE && buf[0] == NOII_TYPE
  {
    [NOII_TYPE] + ToBE(m.stockLocate, 2) + ToBE(m.trackingNumber, 2) + ToBE(m.timestamp, 6)
    + ToBE(m.pairedShares, 8) + ToBE(m.imbalanceShares, 8) + [m.imbalanceDirection as int]
    + Bytes(m.symbol) + ToBE(m.farPrice, 4) + ToBE(m.nearPrice, 4)
    + ToBE(m.currentReferencePrice, 4) + [m.crossType as int] + [m.priceVariationIndicator as int]
  }

  lemma NoiiRoundTrip(m: Noii)
    ensures ParseNoii(EncodeNoii(m)) == Some(m)
  {
    var buf := EncodeNoii(m);
    assert buf[1..3] == ToBE(m.stockLocate, 2);
    assert buf[3..5] == ToBE(m.trackingNumber, 2);
    assert buf[5..11] == ToBE(m.timestamp, 6);
    assert buf[11..19] == ToBE(m.pairedShares, 8);
    assert buf[19..27] == ToBE(m.imbalanceShares, 8);
    assert buf[28..36] == Bytes(m.symbol);
    assert buf[36..40] == ToBE(m.farPrice, 4);
    assert buf[40..44] == ToBE(m.nearPrice, 4);
    assert buf[44..48] == ToBE(m.currentReferencePrice, 4);
    BERoundTrip(m.stockLocate, 2);
    ReadU16IsBE(buf, 1);
    BERoundTrip(m.trackingNumber, 2);
    ReadU16IsBE(buf, 3);
    BERoundTrip(m.timestamp, 6);
    ReadU48IsBE(buf, 5);
    BERoundTrip(m.pairedShares, 8);
    ReadU64IsBE(buf, 11);
    BERoundTrip(m.imbalanceShares, 8);
    ReadU64IsBE(buf, 19);
    CharsOfBytes(m.symbol);
    BERoundTrip(m.farPrice, 4);
    ReadU32IsBE(buf, 36);
    BERoundTrip(m.nearPrice, 4);
    ReadU32IsBE(buf, 40);
    BERoundTrip(m.currentReferencePrice, 4);
    ReadU32IsBE(buf, 44);
  }

  lemma NoiiParseSound(buf: seq<byte>, m: Noii)
    requires ParseNoii(buf) == Some(m)
    ensures EncodeNoii(m) == buf
  {
    var acc := [NOII_TYPE];
    assert acc == buf[..1];
    ReadU16IsBE(buf, 1);
    ToBEOfBE(buf[1..3]);
    PrefixExtend(buf, 1, 3);
    acc := acc + ToBE(m.stockLocate, 2);
    assert acc == buf[..3];
    ReadU16IsBE(buf, 3);
    ToBEOfBE(buf[3..5]);
    PrefixExtend(buf, 3, 5);
    acc := acc + ToBE(m.trackingNumber, 2);
    assert acc == buf[..5];
    ReadU48IsBE(buf, 5);
    ToBEOfBE(buf[5..11]);
    PrefixExtend(buf, 5, 11);
    acc := acc + ToBE(m.timestamp, 6);
    assert acc == buf[..11];
    ReadU64IsBE(buf, 11);
    ToBEOfBE(buf[11..19]);
    PrefixExtend(buf, 11, 19);
    acc := acc + ToBE(m.pairedShares, 8);
    assert acc == buf[..19];
    ReadU64IsBE(buf, 19);
    ToBEOfBE(buf[19..27]);
    PrefixExtend(buf, 19, 27);
    acc := acc + ToBE(m.imbalanceShares, 8);
    assert acc == buf[..27];
    PrefixExtend(buf, 27, 28);
    acc := acc + [m.imbalanceDirection as int];
    assert acc == buf[..28];
    BytesOfChars(buf[28..36]);
    PrefixExtend(buf, 28, 36);
    acc := acc + Bytes(m.symbol);
    assert acc == buf[..36];
    ReadU32IsBE(buf, 36);
    ToBEOfBE(buf[36..40]);
    PrefixExtend(buf, 36, 40);
    acc := acc + ToBE(m.farPrice, 4);
    assert acc == buf[..40];
    ReadU32IsBE(buf, 40);
    ToBEOfBE(buf[40..44]);
    PrefixExtend(buf, 40, 44);
    acc := acc + ToBE(m.nearPrice, 4);
    assert acc == buf[..44];
    ReadU32IsBE(buf, 44);
    ToBEOfBE(buf[44..48]);
    PrefixExtend(buf, 44, 48);
    acc := acc + ToBE(m.currentReferencePrice, 4);
    assert acc == buf[..48];
    PrefixExtend(buf, 48, 49);
    acc := acc + [m.crossType as int];
    assert acc == buf[..49];
    PrefixExtend(buf, 49, 50);
    acc := acc + [m.priceVariationIndicator as int];
    assert acc == buf[..50];
    assert buf[..|buf|] == buf;
  }

  function EncodeRpii(m: Rpii): (buf: seq<byte>)
    ensures |buf| == RPII_SIZE && buf[0] == RPII_TYPE
  {
    [RPII_TYPE] + ToBE(m.stockLocate, 2) + ToBE(m.trackingNumber, 2) + ToBE(m.timestamp, 6)
    + Bytes(m.symbol) + [m.interestFlag as int]
  }

  lemma RpiiRoundTrip(m: Rpii)
    ensures ParseRpii(EncodeRpii(m)) == Some(m)
  {
    var buf := EncodeRpii(m);
    assert buf[1..3] == ToBE(m.stockLocate, 2);
    assert buf[3..5] == ToBE(m.trackingNumber, 2);
    assert buf[5..11] == ToBE(m.timestamp, 6);
    assert buf[11..19] == Bytes(m.symbol);
    BERoundTrip(m.stockLocate, 2);
    ReadU16IsBE(buf, 1);
    BERoundTrip(m.trackingNumber, 2);
    ReadU16IsBE(buf, 3);
    BERoundTrip(m.timestamp, 6);
    ReadU48IsBE(buf, 5);
    CharsOfBytes(m.symbol);
  }

  lemma RpiiParseSound(buf: seq<byte>, m: Rpii)
    requires ParseRpii(buf) == Some(m)
    ensures EncodeRpii(m) == buf
  {
    var acc := [RPII_TYPE];
    assert acc == buf[..1];
    ReadU16IsBE(buf, 1);
    ToBEOfBE(buf[1..3]);
    PrefixExtend(buf, 1, 3);
    acc := acc + ToBE(m.stockLocate, 2);
    assert acc == buf[..3];
    ReadU16IsBE(buf, 3);
    ToBEOfBE(buf[3..5]);
    PrefixExtend(buf, 3, 5);
    acc := acc + ToBE(m.trackingNumber, 2);
    assert acc == buf[..5];
    ReadU48IsBE(buf, 5);
    ToBEOfBE(buf[5..11]);
    PrefixExtend(buf, 5, 11);
    acc := acc + ToBE(m.timestamp, 6);
    assert acc == buf[..11];
    BytesOfChars(buf[11..19]);
    PrefixExtend(buf, 11, 19);
    acc := acc + Bytes(m.symbol);
    assert acc == buf[..19];
    PrefixExtend(buf, 19, 20);
    acc := acc + [m.interestFlag as int];
    assert acc == buf[..20];
    assert buf[..|buf|] == buf;
  }

  function EncodeDlcr(m: Dlcr): (buf: seq<byte>)
    ensures |buf| == DLCR_SIZE && buf[0] == DLCR_TYPE
  {
    [DLCR_TYPE] + ToBE(m.stockLocate, 2) + ToBE(m.trackingNumber, 2) + ToBE(m.timestamp, 6)
    + Bytes(m.symbol) + [m.openEligibilityStatus as int] + ToBE(m.minAllowablePrice, 4)
    + ToBE(m.maxAllowablePrice, 4) + ToBE(m.nearExecutionPrice, 4) + ToBE(m.nearExecutionTime, 8)
    + ToBE(m.lowerPriceRangeCollar, 4) + ToBE(m.upperPriceRangeCollar, 4)
  }

  lemma DlcrRoundTrip(m: Dlcr)
    ensures ParseDlcr(EncodeDlcr(m)) == Some(m)
  {
    var buf := EncodeDlcr(m);
    assert buf[1..3] == ToBE(m.stockLocate, 2);
    assert buf[3..5] == ToBE(m.trackingNumber, 2);
    assert buf[5..11] == ToBE(m.timestamp, 6);
    assert buf[11..19] == Bytes(m.symbol);
    assert buf[20..24] == ToBE(m.minAllowablePrice, 4);
    assert buf[24..28] == ToBE(m.maxAllowablePrice, 4);
    assert buf[28..32] == ToBE(m.nearExecutionPrice, 4);
    assert buf[32..40] == ToBE(m.nearExecutionTime, 8);
    assert buf[40..44] == ToBE(m.lowerPriceRangeCollar, 4);
    assert buf[44..48] == ToBE(m.upperPriceRangeCollar, 4);
    BERoundTrip(m.stockLocate, 2);
    ReadU16IsBE(buf, 1);
    BERoundTrip(m.trackingNumber, 2);
    ReadU16IsBE(buf, 3);
    BERoundTrip(m.timestamp, 6);
    ReadU48IsBE(buf, 5);
    CharsOfBytes(m.symbol);
    BERoundTrip(m.minAllowablePrice, 4);
    ReadU32IsBE(buf, 20);
    BERoundTrip(m.maxAllowablePrice, 4);
    ReadU32IsBE(buf, 24);
    BERoundTrip(m.nearExecutionPrice, 4);
    ReadU32IsBE(buf, 28);
    BERoundTrip(m.nearExecutionTime, 8);
    ReadU64IsBE(buf, 32);
    BERoundTrip(m.lowerPriceRangeCollar, 4);
    ReadU32IsBE(buf, 40);
    BERoundTrip(m.upperPriceRangeCollar, 4);
    ReadU32IsBE(buf, 44);
  }

  lemma DlcrParseSound(buf: seq<byte>, m: Dlcr)
    requires ParseDlcr(buf) == Some(m)
    ensures EncodeDlcr(m) == buf
  {
    var acc := [DLCR_TYPE];
    assert acc == buf[..1];
    ReadU16IsBE(buf, 1);
    ToBEOfBE(buf[1..3]);
    PrefixExtend(buf, 1, 3);
    acc := acc + ToBE(m.stockLocate, 2);
    assert acc == buf[..3];
    ReadU16IsBE(buf, 3);
    ToBEOfBE(buf[3..5]);
    PrefixExtend(buf, 3, 5);
    acc := acc + ToBE(m.trackingNumber, 2);
    assert acc == buf[..5];
    ReadU48IsBE(buf, 5);
    ToBEOfBE(buf[5..11]);
    PrefixExtend(buf, 5, 11);
    acc := acc + ToBE(m.timestamp, 6);
    assert acc == buf[..11];
    BytesOfChars(buf[11..19]);
    PrefixExtend(buf, 11, 19);
    acc := acc + Bytes(m.symbol);
    assert acc == buf[..19];
    PrefixExtend(buf, 19, 20);
    acc := acc + [m.openEligibilityStatus as int];
    assert acc == buf[..20];
    ReadU32IsBE(buf, 20);
    ToBEOfBE(buf[20..24]);
    PrefixExtend(buf, 20, 24);
    acc := acc + ToBE(m.minAllowablePrice, 4);
    assert acc == buf[..24];
    ReadU32IsBE(buf, 24);
    ToBEOfBE(buf[24..28]);
    PrefixExtend(buf, 24, 28);
    acc := acc + ToBE(m.maxAllowablePrice, 4);
    assert acc == buf[..28];
    ReadU32IsBE(buf, 28);
    ToBEOfBE(buf[28..32]);
    PrefixExtend(buf, 28, 32);
    acc := acc + ToBE(m.nearExecutionPrice, 4);
    assert acc == buf[..32];
    ReadU64IsBE(buf, 32);
    ToBEOfBE(buf[32..40]);
    PrefixExtend(buf, 32, 40);
    acc := acc + ToBE(m.nearExecutionTime, 8);
    assert acc == buf[..40];
    ReadU32IsBE(buf, 40);
    ToBEOfBE(buf[40..44]);
    PrefixExtend(buf, 40, 44);
    acc := acc + ToBE(m.lowerPriceRangeCollar, 4);
    assert acc == buf[..44];
    ReadU32IsBE(buf, 44);
    ToBEOfBE(buf[44..48]);
    PrefixExtend(buf, 44, 48);
    acc := acc + ToBE(m.upperPriceRangeCollar, 4);
    assert acc == buf[..48];
    assert buf[..|buf|] == buf;
  }

  /**
   * The as-written Cross Trade decoder depends on memory past the length it
   * checked: two memories that agree on all 35 bytes of the message decode
   * to different Cross Type values when byte 39 differs.
   */
  lemma CrossTradeReadsPastItsLength()
    ensures var mem1 := [CROSS_TRADE_TYPE] + seq(39, _ => 0);
            var mem2 := mem1[39 := 1];
            mem1[..CROSS_TRADE_SIZE_AS_WRITTEN] == mem2[..CROSS_TRADE_SIZE_AS_WRITTEN]
            && ParseCrossTradeAsWritten(mem1, CROSS_TRADE_SIZE_AS_WRITTEN).Some?
            && ParseCrossTradeAsWritten(mem2, CROSS_TRADE_SIZE_AS_WRITTEN).Some?
            && ParseCrossTradeAsWritten(mem1, CROSS_TRADE_SIZE_AS_WRITTEN)
               != ParseCrossTradeAsWritten(mem2, CROSS_TRADE_SIZE_AS_WRITTEN)
  {
    var mem1: seq<byte> := [CROSS_TRADE_TYPE] + seq(39, _ => 0);
    var mem2 := mem1[39 := 1];
    var r1 := ParseCrossTradeAsWritten(mem1, CROSS_TRADE_SIZE_AS_WRITTEN);
    var r2 := ParseCrossTradeAsWritten(mem2, CROSS_TRADE_SIZE_AS_WRITTEN);
    assert r1.value.crossType as int == 0;
    assert r2.value.crossType as int == 1;
  }

  /**
   * The corrected 40-byte layout decodes every Cross Trade from the bytes of
   * its own message, while the as-written decoder turns a well-formed
   * 40-byte Cross Trade away.
   */
  lemma CrossTradeCorrectedLayout(m: CrossTrade, after: seq<byte>)
    ensures ParseCrossTrade(EncodeCrossTrade(m)) == Some(m)
    ensures ParseCrossTradeAsWritten(EncodeCrossTrade(m) + after, CROSS_TRADE_SIZE) == None
  {
    CrossTradeRoundTrip(m);
  }
}
