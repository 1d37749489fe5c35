# A verified model of the hft-lowlatency-cpp market-data core

This Dafny project models the core of a low-latency trading codebase, and
proves properties of that model. The core has six parts:

- **ITCH 5.0 decoder** (`itch_wire.dfy`, `itch_messages.dfy`, `itch_codec.dfy`, `itch_dispatch.dfy`).
  - One datatype and one decoder per message type. Each decoder accepts a buffer exactly when it has the type's size and tag byte.
  - An encoder per type, for the round-trip lemmas in both directions.
  - The `parse_message` dispatcher with its two error codes.
  - The common-header accessors, the three message categories, and the `MessageStats` counters.
- **MoldUDP64** (`moldudp64.dfy`).
  - Session normalisation, and header and packet framing. Every rejection path of the packet parser is modelled.
  - A packet encoder, with the round trip for 1 to 100 blocks.
  - The `SequenceTracker` class. Its `process_packet` is proved to perform a pure transition function. Lemmas about that function cover first packet, session rollover, gap, out-of-order and in-order packets, and whole contiguous streams.
- **Order book** (`book_state.dfy`, `order_book.dfy`, `order_book_scenarios.dfy`).
  - The dense price ladder as a value `Book`, with one transition per ITCH handler.
  - The invariant that every level holds the shares and the order count of the orders resting at it. The source's counters are `uint32_t`, so this holds modulo 2^32.
  - The `OrderBook` class, whose handlers are proved to perform those transitions and to republish the best bid and ask.
  - The three walkthroughs of the repository's unit tests, step by step.
- **Shared types** (`common_types.dfy`, `trimming.dfy`, `fixed_width.dfy`).
  - The top-of-book arithmetic and the tick table.
  - The order's remaining quantity, `trim`, `copy_padded` and `format_quantity`.
  - Explicit 32- and 64-bit wrap-around, C++ truncating division, and big-endian fields.
- **SPSC ring buffer** (`ring_buffer.dfy`) and **fixed-size memory pool** (`memory_pool.dfy`).
  - Both are classes over arrays, specified by the queue that their indices describe or by the free list that their links spell out.
  - The pool's slot is the union of an object and a free-list link.
- **Templates walkthrough** (`templates.dfy`): `max_value`, `clamp`, the integral `safe_divide`, `FixedStack` and the circular `MessageBuffer`.

The ITCH decoders follow the code. The exception is Cross Trade, whose
decoder as written reads beyond the length it accepts. The model keeps that
version, and a dispatcher `ParseMessageAsWritten` that uses it, beside the
40-byte layout of ITCH 5.0, which the corrected dispatcher `ParseMessage`
uses (see Findings).

`MoldUdp64.GapScenario` and `MoldUdp64.RolloverScenario` state the
results of tracker walkthroughs in the style of the gap-detection,
heartbeat, end-of-session and session-rollover tests in
`itch_ouch_system/tests/test_moldudp64.cpp`.

The `ItchDispatch.DispatchesTo*` lemmas each unfold one case of the
`parse_message` switch. They are helpers for the per-type round trips
(`ItchDispatch.*MessageRoundTrip`), and their rows say which case they
unfold.

## Model

| member | source | states |
|---|---|---|
| FixedWidth.Add32 | itch_ouch_system/src/book/order_book.cpp:49-50 | uint32 `+=`: the sum when it fits in 32 bits, otherwise the sum less 2^32 |
| FixedWidth.Sub32 | itch_ouch_system/src/book/order_book.cpp:73-79 | uint32 `-=`: the difference when it is not negative, otherwise the difference plus 2^32 |
| FixedWidth.Add64 | itch_ouch_system/include/itch/messages.hpp:1480 | uint64 `++` of a counter: the sum, or the sum less 2^64 once it overflows |
| FixedWidth.TruncRem | 01_modern_cpp_basics/templates.cpp:393-396 | C++ `/` and `%`: a == q * b + r, the remainder has the dividend's sign and is smaller than the divisor in magnitude |
| ItchWire.ReadU16IsBE | itch_ouch_system/include/itch/messages.hpp:110-126 | the 2-byte read at an offset is the big-endian value of those two bytes |
| ItchWire.ReadU32IsBE | itch_ouch_system/include/itch/messages.hpp:110-126 | the 4-byte read at an offset is the big-endian value of those four bytes |
| ItchWire.ReadU48IsBE | itch_ouch_system/include/itch/messages.hpp:97-108 | the 48-bit timestamp read is the big-endian value of its six bytes |
| ItchWire.ReadU64IsBE | itch_ouch_system/include/itch/messages.hpp:110-126 | the 8-byte read at an offset is the big-endian value of those eight bytes |
| ItchWire.ReadBe48 | itch_ouch_system/include/itch/messages.hpp:99-108 | read_be48: the six shifts and ors give exactly the big-endian value of the six bytes |
| ItchWire.ReadChar | itch_ouch_system/include/itch/messages.hpp:260 | a one-byte field is that byte, as a character |
| ItchWire.ReadText | itch_ouch_system/include/itch/messages.hpp:323 | an 8-byte text field copies exactly those bytes, in order |
| ItchWire.ViewTrimmed | itch_ouch_system/include/itch/messages.hpp:130-138 | view_trimmed: the loop drops exactly the trailing spaces, keeping every other character in place |
| ItchWire.SymbolView | itch_ouch_system/include/itch/messages.hpp:708-710 | get_symbol: a prefix of the symbol field with only trailing spaces cut off, ending in a character other than a space when not empty |
| Trimming.StripTrailing | itch_ouch_system/include/itch/messages.hpp:132-137 | the result is a prefix of the input, everything dropped is padding, and the last character kept is not padding |
| Trimming.StripTrailingUnique | itch_ouch_system/include/itch/messages.hpp:132-137 | any prefix whose suffix is all padding and whose last character is not padding is the trimmed result |
| Trimming.StripTrailingOfPrefix | itch_ouch_system/include/network/moldudp64.hpp:72-78 | cutting off trailing padding first does not change what trimming gives |
| Trimming.StripTrailingIdempotent | itch_ouch_system/include/itch/messages.hpp:132-137 | trimming twice is trimming once |
| ItchMessages.ParseSystemEvent | itch_ouch_system/include/itch/messages.hpp:251-263 | System Event decoder: a message exactly when the length is 12 and the first byte is 'S'; the fields are read at the source's offsets |
| ItchCodec.EncodeSystemEvent | itch_ouch_system/include/itch/messages.hpp:221-264 | System Event wire layout: 12 bytes starting with 'S' |
| ItchCodec.SystemEventRoundTrip | itch_ouch_system/include/itch/messages.hpp:251-263 | decoding the encoding of any System Event gives that message back |
| ItchCodec.SystemEventParseSound | itch_ouch_system/include/itch/messages.hpp:251-263 | a buffer the System Event decoder accepts is the encoding of what it returns, so no byte of the message is ignored |
| ItchDispatch.DispatchesToSystemEvent | itch_ouch_system/include/itch/messages.hpp:1317-1319 | a non-empty buffer starting with 'S' is decided by the System Event decoder alone, and its refusal is reported as an invalid size |
| ItchDispatch.SystemEventMessageRoundTrip | itch_ouch_system/include/itch/messages.hpp:1317-1319 | parse_message gives back any encoded System Event |
| ItchMessages.ParseStockDirectory | itch_ouch_system/include/itch/messages.hpp:314-339 | Stock Directory decoder: a message exactly when the length is 39 and the first byte is 'R'; the fields are read at the source's offsets |
| ItchCodec.EncodeStockDirectory | itch_ouch_system/include/itch/messages.hpp:267-340 | Stock Directory wire layout: 39 bytes starting with 'R' |
| ItchCodec.StockDirectoryRoundTrip | itch_ouch_system/include/itch/messages.hpp:314-339 | decoding the encoding of any Stock Directory gives that message back |
| ItchCodec.StockDirectoryParseSound | itch_ouch_system/include/itch/messages.hpp:314-339 | a buffer the Stock Directory decoder accepts is the encoding of what it returns, so no byte of the message is ignored |
| ItchDispatch.DispatchesToStockDirectory | itch_ouch_system/include/itch/messages.hpp:1320-1322 | a non-empty buffer starting with 'R' is decided by the Stock Directory decoder alone, and its refusal is reported as an invalid size |
| ItchDispatch.StockDirectoryMessageRoundTrip | itch_ouch_system/include/itch/messages.hpp:1320-1322 | parse_message gives back any encoded Stock Directory |
| ItchMessages.ParseStockTradingAction | itch_ouch_system/include/itch/messages.hpp:380-395 | Stock Trading Action decoder: a message exactly when the length is 25 and the first byte is 'H'; the fields are read at the source's offsets |
| ItchCodec.EncodeStockTradingAction | itch_ouch_system/include/itch/messages.hpp:343-396 | Stock Trading Action wire layout: 25 bytes starting with 'H' |
| ItchCodec.StockTradingActionRoundTrip | itch_ouch_system/include/itch/messages.hpp:380-395 | decoding the encoding of any Stock Trading Action gives that message back |
| ItchCodec.StockTradingActionParseSound | itch_ouch_system/include/itch/messages.hpp:380-395 | a buffer the Stock Trading Action decoder accepts is the encoding of what it returns, so no byte of the message is ignored |
| ItchDispatch.DispatchesToStockTradingAction | itch_ouch_system/include/itch/messages.hpp:1323-1325 | a non-empty buffer starting with 'H' is decided by the Stock Trading Action decoder alone, and its refusal is reported as an invalid size |
| ItchDispatch.StockTradingActionMessageRoundTrip | itch_ouch_system/include/itch/messages.hpp:1323-1325 | parse_message gives back any encoded Stock Trading Action |
| ItchMessages.ParseRegShoRestriction | itch_ouch_system/include/itch/messages.hpp:429-442 | Reg SHO Restriction decoder: a message exactly when the length is 20 and the first byte is 'Y'; the fields are read at the source's offsets |
| ItchCodec.EncodeRegShoRestriction | itch_ouch_system/include/itch/messages.hpp:399-443 | Reg SHO Restriction wire layout: 20 bytes starting with 'Y' |
| ItchCodec.RegShoRestrictionRoundTrip | itch_ouch_system/include/itch/messages.hpp:429-442 | decoding the encoding of any Reg SHO Restriction gives that message back |
| ItchCodec.RegShoRestrictionParseSound | itch_ouch_system/include/itch/messages.hpp:429-442 | a buffer the Reg SHO Restriction decoder accepts is the encoding of what it returns, so no byte of the message is ignored |
| ItchDispatch.DispatchesToRegShoRestriction | itch_ouch_system/include/itch/messages.hpp:1326-1328 | a non-empty buffer starting with 'Y' is decided by the Reg SHO Restriction decoder alone, and its refusal is reported as an invalid size |
| ItchDispatch.RegShoRestrictionMessageRoundTrip | itch_ouch_system/include/itch/messages.hpp:1326-1328 | parse_message gives back any encoded Reg SHO Restriction |
| ItchMessages.ParseMarketParticipantPosition | itch_ouch_system/include/itch/messages.hpp:471-486 | Market Participant Position decoder: a message exactly when the length is 26 and the first byte is 'L'; the fields are read at the source's offsets |
| ItchCodec.EncodeMarketParticipantPosition | itch_ouch_system/include/itch/messages.hpp:446-487 | Market Participant Position wire layout: 26 bytes starting with 'L' |
| ItchCodec.MarketParticipantPositionRoundTrip | itch_ouch_system/include/itch/messages.hpp:471-486 | decoding the encoding of any Market Participant Position gives that message back |
| ItchCodec.MarketParticipantPositionParseSound | itch_ouch_system/include/itch/messages.hpp:471-486 | a buffer the Market Participant Position decoder accepts is the encoding of what it returns, so no byte of the message is ignored |
| ItchDispatch.DispatchesToMarketParticipantPosition | itch_ouch_system/include/itch/messages.hpp:1329-1331 | a non-empty buffer starting with 'L' is decided by the Market Participant Position decoder alone, and its refusal is reported as an invalid size |
| ItchDispatch.MarketParticipantPositionMessageRoundTrip | itch_ouch_system/include/itch/messages.hpp:1329-1331 | parse_message gives back any encoded Market Participant Position |
| ItchMessages.ParseMwcbDeclineLevel | itch_ouch_system/include/itch/messages.hpp:508-521 | MWCB Decline Level decoder: a message exactly when the length is 35 and the first byte is 'V'; the fields are read at the source's offsets |
| ItchCodec.EncodeMwcbDeclineLevel | itch_ouch_system/include/itch/messages.hpp:490-522 | MWCB Decline Level wire layout: 35 bytes starting with 'V' |
| ItchCodec.MwcbDeclineLevelRoundTrip | itch_ouch_system/include/itch/messages.hpp:508-521 | decoding the encoding of any MWCB Decline Level gives that message back |
| ItchCodec.MwcbDeclineLevelParseSound | itch_ouch_system/include/itch/messages.hpp:508-521 | a buffer the MWCB Decline Level decoder accepts is the encoding of what it returns, so no byte of the message is ignored |
| ItchDispatch.DispatchesToMwcbDeclineLevel | itch_ouch_system/include/itch/messages.hpp:1332-1334 | a non-empty buffer starting with 'V' is decided by the MWCB Decline Level decoder alone, and its refusal is reported as an invalid size |
| ItchDispatch.MwcbDeclineLevelMessageRoundTrip | itch_ouch_system/include/itch/messages.hpp:1332-1334 | parse_message gives back any encoded MWCB Decline Level |
| ItchMessages.ParseMwcbStatus | itch_ouch_system/include/itch/messages.hpp:539-550 | MWCB Status decoder: a message exactly when the length is 12 and the first byte is 'W'; the fields are read at the source's offsets |
| ItchCodec.EncodeMwcbStatus | itch_ouch_system/include/itch/messages.hpp:525-551 | MWCB Status wire layout: 12 bytes starting with 'W' |
| ItchCodec.MwcbStatusRoundTrip | itch_ouch_system/include/itch/messages.hpp:539-550 | decoding the encoding of any MWCB Status gives that message back |
| ItchCodec.MwcbStatusParseSound | itch_ouch_system/include/itch/messages.hpp:539-550 | a buffer the MWCB Status decoder accepts is the encoding of what it returns, so no byte of the message is ignored |
| ItchDispatch.DispatchesToMwcbStatus | itch_ouch_system/include/itch/messages.hpp:1335-1337 | a non-empty buffer starting with 'W' is decided by the MWCB Status decoder alone, and its refusal is reported as an invalid size |
| ItchDispatch.MwcbStatusMessageRoundTrip | itch_ouch_system/include/itch/messages.hpp:1335-1337 | parse_message gives back any encoded MWCB Status |
| ItchMessages.ParseIpoQuotingPeriodUpdate | itch_ouch_system/include/itch/messages.hpp:576-590 | IPO Quoting Period Update decoder: a message exactly when the length is 28 and the first byte is 'K'; the fields are read at the source's offsets |
| ItchCodec.EncodeIpoQuotingPeriodUpdate | itch_ouch_system/include/itch/messages.hpp:554-591 | IPO Quoting Period Update wire layout: 28 bytes starting with 'K' |
| ItchCodec.IpoQuotingPeriodUpdateRoundTrip | itch_ouch_system/include/itch/messages.hpp:576-590 | decoding the encoding of any IPO Quoting Period Update gives that message back |
| ItchCodec.IpoQuotingPeriodUpdateParseSound | itch_ouch_system/include/itch/messages.hpp:576-590 | a buffer the IPO Quoting Period Update decoder accepts is the encoding of what it returns, so no byte of the message is ignored |
| ItchDispatch.DispatchesToIpoQuotingPeriodUpdate | itch_ouch_system/include/itch/messages.hpp:1338-1340 | a non-empty buffer starting with 'K' is decided by the IPO Quoting Period Update decoder alone, and its refusal is reported as an invalid size |
| ItchDispatch.IpoQuotingPeriodUpdateMessageRoundTrip | itch_ouch_system/include/itch/messages.hpp:1338-1340 | parse_message gives back any encoded IPO Quoting Period Update |
| ItchMessages.ParseLuldAuctionCollar | itch_ouch_system/include/itch/messages.hpp:618-633 | LULD Auction Collar decoder: a message exactly when the length is 35 and the first byte is 'J'; the fields are read at the source's offsets |
| ItchCodec.EncodeLuldAuctionCollar | itch_ouch_system/include/itch/messages.hpp:594-634 | LULD Auction Collar wire layout: 35 bytes starting with 'J' |
| ItchCodec.LuldAuctionCollarRoundTrip | itch_ouch_system/include/itch/messages.hpp:618-633 | decoding the encoding of any LULD Auction Collar gives that message back |
| ItchCodec.LuldAuctionCollarParseSound | itch_ouch_system/include/itch/messages.hpp:618-633 | a buffer the LULD Auction Collar decoder accepts is the encoding of what it returns, so no byte of the message is ignored |
| ItchDispatch.DispatchesToLuldAuctionCollar | itch_ouch_system/include/itch/messages.hpp:1341-1343 | a non-empty buffer starting with 'J' is decided by the LULD Auction Collar decoder alone, and its refusal is reported as an invalid size |
| ItchDispatch.LuldAuctionCollarMessageRoundTrip | itch_ouch_system/include/itch/messages.hpp:1341-1343 | parse_message gives back any encoded LULD Auction Collar |
| ItchMessages.ParseOperationalHalt | itch_ouch_system/include/itch/messages.hpp:657-670 | Operational Halt decoder: a message exactly when the length is 21 and the first byte is 'h'; the fields are read at the source's offsets |
| ItchCodec.EncodeOperationalHalt | itch_ouch_system/include/itch/messages.hpp:637-671 | Operational Halt wire layout: 21 bytes starting with 'h' |
| ItchCodec.OperationalHaltRoundTrip | itch_ouch_system/include/itch/messages.hpp:657-670 | decoding the encoding of any Operational Halt gives that message back |
| ItchCodec.OperationalHaltParseSound | itch_ouch_system/include/itch/messages.hpp:657-670 | a buffer the Operational Halt decoder accepts is the encoding of what it returns, so no byte of the message is ignored |
| ItchMessages.ParseAddOrder | itch_ouch_system/include/itch/messages.hpp:712-728 | Add Order decoder: a message exactly when the length is 36 and the first byte is 'A'; the fields are read at the source's offsets |
| ItchCodec.EncodeAddOrder | itch_ouch_system/include/itch/messages.hpp:678-729 | Add Order wire layout: 36 bytes starting with 'A' |
| ItchCodec.AddOrderRoundTrip | itch_ouch_system/include/itch/messages.hpp:712-728 | decoding the encoding of any Add Order gives that message back |
| ItchCodec.AddOrderParseSound | itch_ouch_system/include/itch/messages.hpp:712-728 | a buffer the Add Order decoder accepts is the encoding of what it returns, so no byte of the message is ignored |
| ItchDispatch.DispatchesToAddOrder | itch_ouch_system/include/itch/messages.hpp:1344-1346 | a non-empty buffer starting with 'A' is decided by the Add Order decoder alone, and its refusal is reported as an invalid size |
| ItchDispatch.AddOrderMessageRoundTrip | itch_ouch_system/include/itch/messages.hpp:1344-1346 | parse_message gives back any encoded Add Order |
| ItchMessages.ParseAddOrderMpid | itch_ouch_system/include/itch/messages.hpp:771-788 | Add Order with MPID decoder: a message exactly when the length is 40 and the first byte is 'F'; the fields are read at the source's offsets |
| ItchCodec.EncodeAddOrderMpid | itch_ouch_system/include/itch/messages.hpp:732-789 | Add Order with MPID wire layout: 40 bytes starting with 'F' |
| ItchCodec.AddOrderMpidRoundTrip | itch_ouch_system/include/itch/messages.hpp:771-788 | decoding the encoding of any Add Order with MPID gives that message back |
| ItchCodec.AddOrderMpidParseSound | itch_ouch_system/include/itch/messages.hpp:771-788 | a buffer the Add Order with MPID decoder accepts is the encoding of what it returns, so no byte of the message is ignored |
| ItchDispatch.DispatchesToAddOrderMpid | itch_ouch_system/include/itch/messages.hpp:1347-1349 | a non-empty buffer starting with 'F' is decided by the Add Order with MPID decoder alone, and its refusal is reported as an invalid size |
| ItchDispatch.AddOrderMpidMessageRoundTrip | itch_ouch_system/include/itch/messages.hpp:1347-1349 | parse_message gives back any encoded Add Order with MPID |
| ItchMessages.ParseOrderExecuted | itch_ouch_system/include/itch/messages.hpp:814-828 | Order Executed decoder: a message exactly when the length is 31 and the first byte is 'E'; the fields are read at the source's offsets |
| ItchCodec.EncodeOrderExecuted | itch_ouch_system/include/itch/messages.hpp:796-829 | Order Executed wire layout: 31 bytes starting with 'E' |
| ItchCodec.OrderExecutedRoundTrip | itch_ouch_system/include/itch/messages.hpp:814-828 | decoding the encoding of any Order Executed gives that message back |
| ItchCodec.OrderExecutedParseSound | itch_ouch_system/include/itch/messages.hpp:814-828 | a buffer the Order Executed decoder accepts is the encoding of what it returns, so no byte of the message is ignored |
| ItchDispatch.DispatchesToOrderExecuted | itch_ouch_system/include/itch/messages.hpp:1350-1352 | a non-empty buffer starting with 'E' is decided by the Order Executed decoder alone, and its refusal is reported as an invalid size |
| ItchDispatch.OrderExecutedMessageRoundTrip | itch_ouch_system/include/itch/messages.hpp:1350-1352 | parse_message gives back any encoded Order Executed |
| ItchMessages.ParseOrderExecutedWithPrice | itch_ouch_system/include/itch/messages.hpp:858-874 | Order Executed with Price decoder: a message exactly when the length is 36 and the first byte is 'C'; the fields are read at the source's offsets |
| ItchCodec.EncodeOrderExecutedWithPrice | itch_ouch_system/include/itch/messages.hpp:832-875 | Order Executed with Price wire layout: 36 bytes starting with 'C' |
| ItchCodec.OrderExecutedWithPriceRoundTrip | itch_ouch_system/include/itch/messages.hpp:858-874 | decoding the encoding of any Order Executed with Price gives that message back |
| ItchCodec.OrderExecutedWithPriceParseSound | itch_ouch_system/include/itch/messages.hpp:858-874 | a buffer the Order Executed with Price decoder accepts is the encoding of what it returns, so no byte of the message is ignored |
| ItchDispatch.DispatchesToOrderExecutedWithPrice | itch_ouch_system/include/itch/messages.hpp:1353-1355 | a non-empty buffer starting with 'C' is decided by the Order Executed with Price decoder alone, and its refusal is reported as an invalid size |
| ItchDispatch.OrderExecutedWithPriceMessageRoundTrip | itch_ouch_system/include/itch/messages.hpp:1353-1355 | parse_message gives back any encoded Order Executed with Price |
| ItchMessages.ParseOrderCancel | itch_ouch_system/include/itch/messages.hpp:894-907 | Order Cancel decoder: a message exactly when the length is 23 and the first byte is 'X'; the fields are read at the source's offsets |
| ItchCodec.EncodeOrderCancel | itch_ouch_system/include/itch/messages.hpp:878-908 | Order Cancel wire layout: 23 bytes starting with 'X' |
| ItchCodec.OrderCancelRoundTrip | itch_ouch_system/include/itch/messages.hpp:894-907 | decoding the encoding of any Order Cancel gives that message back |
| ItchCodec.OrderCancelParseSound | itch_ouch_system/include/itch/messages.hpp:894-907 | a buffer the Order Cancel decoder accepts is the encoding of what it returns, so no byte of the message is ignored |
| ItchDispatch.DispatchesToOrderCancel | itch_ouch_system/include/itch/messages.hpp:1356-1358 | a non-empty buffer starting with 'X' is decided by the Order Cancel decoder alone, and its refusal is reported as an invalid size |
| ItchDispatch.OrderCancelMessageRoundTrip | itch_ouch_system/include/itch/messages.hpp:1356-1358 | parse_message gives back any encoded Order Cancel |
| ItchMessages.ParseOrderDelete | itch_ouch_system/include/itch/messages.hpp:925-937 | Order Delete decoder: a message exactly when the length is 19 and the first byte is 'D'; the fields are read at the source's offsets |
| ItchCodec.EncodeOrderDelete | itch_ouch_system/include/itch/messages.hpp:911-938 | Order Delete wire layout: 19 bytes starting with 'D' |
| ItchCodec.OrderDeleteRoundTrip | itch_ouch_system/include/itch/messages.hpp:925-937 | decoding the encoding of any Order Delete gives that message back |
| ItchCodec.OrderDeleteParseSound | itch_ouch_system/include/itch/messages.hpp:925-937 | a buffer the Order Delete decoder accepts is the encoding of what it returns, so no byte of the message is ignored |
| ItchDispatch.DispatchesToOrderDelete | itch_ouch_system/include/itch/messages.hpp:1359-1361 | a non-empty buffer starting with 'D' is decided by the Order Delete decoder alone, and its refusal is reported as an invalid size |
| ItchDispatch.OrderDeleteMessageRoundTrip | itch_ouch_system/include/itch/messages.hpp:1359-1361 | parse_message gives back any encoded Order Delete |
| ItchMessages.ParseOrderReplace | itch_ouch_system/include/itch/messages.hpp:965-980 | Order Replace decoder: a message exactly when the length is 35 and the first byte is 'U'; the fields are read at the source's offsets |
| ItchCodec.EncodeOrderReplace | itch_ouch_system/include/itch/messages.hpp:941-981 | Order Replace wire layout: 35 bytes starting with 'U' |
| ItchCodec.OrderReplaceRoundTrip | itch_ouch_system/include/itch/messages.hpp:965-980 | decoding the encoding of any Order Replace gives that message back |
| ItchCodec.OrderReplaceParseSound | itch_ouch_system/include/itch/messages.hpp:965-980 | a buffer the Order Replace decoder accepts is the encoding of what it returns, so no byte of the message is ignored |
| ItchDispatch.DispatchesToOrderReplace | itch_ouch_system/include/itch/messages.hpp:1362-1364 | a non-empty buffer starting with 'U' is decided by the Order Replace decoder alone, and its refusal is reported as an invalid size |
| ItchDispatch.OrderReplaceMessageRoundTrip | itch_ouch_system/include/itch/messages.hpp:1362-1364 | parse_message gives back any encoded Order Replace |
| ItchMessages.ParseTradeNonCross | itch_ouch_system/include/itch/messages.hpp:1024-1041 | Trade (non-cross) decoder: a message exactly when the length is 44 and the first byte is 'P'; the fields are read at the source's offsets |
| ItchCodec.EncodeTradeNonCross | itch_ouch_system/include/itch/messages.hpp:988-1042 | Trade (non-cross) wire layout: 44 bytes starting with 'P' |
| ItchCodec.TradeNonCrossRoundTrip | itch_ouch_system/include/itch/messages.hpp:1024-1041 | decoding the encoding of any Trade (non-cross) gives that message back |
| ItchCodec.TradeNonCrossParseSound | itch_ouch_system/include/itch/messages.hpp:1024-1041 | a buffer the Trade (non-cross) decoder accepts is the encoding of what it returns, so no byte of the message is ignored |
| ItchDispatch.DispatchesToTradeNonCross | itch_ouch_system/include/itch/messages.hpp:1365-1367 | a non-empty buffer starting with 'P' is decided by the Trade (non-cross) decoder alone, and its refusal is reported as an invalid size |
| ItchDispatch.TradeNonCrossMessageRoundTrip | itch_ouch_system/include/itch/messages.hpp:1365-1367 | parse_message gives back any encoded Trade (non-cross) |
| ItchMessages.ParseCrossTrade | itch_ouch_system/include/itch/messages.hpp:1069-1084 | Cross Trade decoder, corrected to the 40-byte layout of ITCH 5.0: a message exactly when the length is 40 and the first byte is 'Q'; the fields at the source's offsets |
| ItchCodec.EncodeCrossTrade | itch_ouch_system/include/itch/messages.hpp:1045-1085 | Cross Trade wire layout: 40 bytes starting with 'Q' |
| ItchCodec.CrossTradeRoundTrip | itch_ouch_system/include/itch/messages.hpp:1069-1084 | decoding the encoding of any Cross Trade gives that message back |
| ItchCodec.CrossTradeParseSound | itch_ouch_system/include/itch/messages.hpp:1069-1084 | a buffer the Cross Trade decoder accepts is the encoding of what it returns, so no byte of the message is ignored |
| ItchDispatch.DispatchesToCrossTrade | itch_ouch_system/include/itch/messages.hpp:1368-1370 | in the corrected dispatcher, a non-empty buffer starting with 'Q' is decided by the 40-byte Cross Trade decoder alone, and its refusal is reported as an invalid size |
| ItchDispatch.CrossTradeMessageRoundTrip | itch_ouch_system/include/itch/messages.hpp:1368-1370 | the corrected dispatcher gives back any Cross Trade in its 40-byte encoding |
| ItchMessages.ParseBrokenTrade | itch_ouch_system/include/itch/messages.hpp:1102-1114 | Broken Trade decoder: a message exactly when the length is 19 and the first byte is 'B'; the fields are read at the source's offsets |
| ItchCodec.EncodeBrokenTrade | itch_ouch_system/include/itch/messages.hpp:1088-1115 | Broken Trade wire layout: 19 bytes starting with 'B' |
| ItchCodec.BrokenTradeRoundTrip | itch_ouch_system/include/itch/messages.hpp:1102-1114 | decoding the encoding of any Broken Trade gives that message back |
| ItchCodec.BrokenTradeParseSound | itch_ouch_system/include/itch/messages.hpp:1102-1114 | a buffer the Broken Trade decoder accepts is the encoding of what it returns, so no byte of the message is ignored |
| ItchDispatch.DispatchesToBrokenTrade | itch_ouch_system/include/itch/messages.hpp:1371-1373 | a non-empty buffer starting with 'B' is decided by the Broken Trade decoder alone, and its refusal is reported as an invalid size |
| ItchDispatch.BrokenTradeMessageRoundTrip | itch_ouch_system/include/itch/messages.hpp:1371-1373 | parse_message gives back any encoded Broken Trade |
| ItchMessages.ParseNoii | itch_ouch_system/include/itch/messages.hpp:1150-1169 | NOII decoder: a message exactly when the length is 50 and the first byte is 'I'; the fields are read at the source's offsets |
| ItchCodec.EncodeNoii | itch_ouch_system/include/itch/messages.hpp:1118-1170 | NOII wire layout: 50 bytes starting with 'I' |
| ItchCodec.NoiiRoundTrip | itch_ouch_system/include/itch/messages.hpp:1150-1169 | decoding the encoding of any NOII gives that message back |
| ItchCodec.NoiiParseSound | itch_ouch_system/include/itch/messages.hpp:1150-1169 | a buffer the NOII decoder accepts is the encoding of what it returns, so no byte of the message is ignored |
| ItchDispatch.DispatchesToNoii | itch_ouch_system/include/itch/messages.hpp:1374-1376 | a non-empty buffer starting with 'I' is decided by the NOII decoder alone, and its refusal is reported as an invalid size |
| ItchDispatch.NoiiMessageRoundTrip | itch_ouch_system/include/itch/messages.hpp:1374-1376 | parse_message gives back any encoded NOII |
| ItchMessages.ParseRpii | itch_ouch_system/include/itch/messages.hpp:1191-1203 | RPII decoder: a message exactly when the length is 20 and the first byte is 'N'; the fields are read at the source's offsets |
| ItchCodec.EncodeRpii | itch_ouch_system/include/itch/messages.hpp:1173-1204 | RPII wire layout: 20 bytes starting with 'N' |
| ItchCodec.RpiiRoundTrip | itch_ouch_system/include/itch/messages.hpp:1191-1203 | decoding the encoding of any RPII gives that message back |
| ItchCodec.RpiiParseSound | itch_ouch_system/include/itch/messages.hpp:1191-1203 | a buffer the RPII decoder accepts is the encoding of what it returns, so no byte of the message is ignored |
| ItchDispatch.DispatchesToRpii | itch_ouch_system/include/itch/messages.hpp:1377-1379 | a non-empty buffer starting with 'N' is decided by the RPII decoder alone, and its refusal is reported as an invalid size |
| ItchDispatch.RpiiMessageRoundTrip | itch_ouch_system/include/itch/messages.hpp:1377-1379 | parse_message gives back any encoded RPII |
| ItchMessages.ParseDlcr | itch_ouch_system/include/itch/messages.hpp:1237-1255 | DLCR decoder: a message exactly when the length is 48 and the first byte is 'O'; the fields are read at the source's offsets |
| ItchCodec.EncodeDlcr | itch_ouch_system/include/itch/messages.hpp:1207-1256 | DLCR wire layout: 48 bytes starting with 'O' |
| ItchCodec.DlcrRoundTrip | itch_ouch_system/include/itch/messages.hpp:1237-1255 | decoding the encoding of any DLCR gives that message back |
| ItchCodec.DlcrParseSound | itch_ouch_system/include/itch/messages.hpp:1237-1255 | a buffer the DLCR decoder accepts is the encoding of what it returns, so no byte of the message is ignored |
| ItchDispatch.DispatchesToDlcr | itch_ouch_system/include/itch/messages.hpp:1380-1382 | a non-empty buffer starting with 'O' is decided by the DLCR decoder alone, and its refusal is reported as an invalid size |
| ItchDispatch.DlcrMessageRoundTrip | itch_ouch_system/include/itch/messages.hpp:1380-1382 | parse_message gives back any encoded DLCR |
| ItchMessages.ParseCrossTradeAsWritten | itch_ouch_system/include/itch/messages.hpp:1047-1084 | Cross Trade as written: accepts exactly 35 bytes starting with 'Q', yet reads the fields out to byte 39 of the memory |
| ItchCodec.CrossTradeReadsPastItsLength | itch_ouch_system/include/itch/messages.hpp:1069-1084 | two memories equal in the 35 accepted bytes decode to different messages: the result depends on bytes past the length |
| ItchCodec.CrossTradeCorrectedLayout | itch_ouch_system/include/itch/messages.hpp:1047-1084 | the 40-byte decoder round-trips every Cross Trade, while the as-written one refuses that 40-byte encoding |
| ItchDispatch.ErrorCodeOf | itch_ouch_system/include/common/types.hpp:284-285 | PARSE_INVALID_SIZE is 100 and PARSE_INVALID_TYPE is 101 |
| ItchDispatch.ParseMessage | itch_ouch_system/include/itch/messages.hpp:1305-1391 | parse_message with the corrected 40-byte Cross Trade: empty input is an invalid size; an unknown type byte is an invalid type; a known one parses exactly when the length is that type's size, otherwise an invalid size; a parsed message has the buffer's type byte |
| ItchDispatch.ParseMessageRoundTrip | itch_ouch_system/include/itch/messages.hpp:1305-1391 | the corrected dispatcher gives back the encoding of every one of the 22 dispatched messages |
| ItchDispatch.ParseMessageSound | itch_ouch_system/include/itch/messages.hpp:1305-1391 | whatever the corrected dispatcher accepts is exactly the encoding of the message it returns |
| ItchDispatch.ParseMessageInjective | itch_ouch_system/include/itch/messages.hpp:1305-1391 | two buffers that parse to the same message are the same buffer |
| ItchDispatch.OperationalHaltIsNotDispatched | itch_ouch_system/include/itch/messages.hpp:1383-1385 | an encoded Operational Halt has its own decoder, yet parse_message reports it as an unknown type, since the variant has no case for it |
| ItchDispatch.ParseMessageAsWritten | itch_ouch_system/include/itch/messages.hpp:1305-1391 | parse_message as written, on a length and the memory behind it: empty input is an invalid size, an unknown type byte an invalid type; 'Q' parses exactly when the length is 35; every other known type parses exactly when the length is its size; failures of a known type are invalid sizes; a parsed message has the type byte of the memory |
| ItchDispatch.AsWrittenAgreesAwayFromCrossTrade | itch_ouch_system/include/itch/messages.hpp:1305-1391 | away from 'Q', the as-written dispatcher and the corrected one give the same result on the first `length` bytes |
| ItchDispatch.CrossTradeDispatchAsWritten | itch_ouch_system/include/itch/messages.hpp:1368-1369 | the as-written dispatcher refuses the 40-byte Cross Trade encoding that the corrected one gives back, and accepts 35 bytes of 'Q' message that the corrected one refuses |
| ItchDispatch.Timestamp | itch_ouch_system/include/itch/messages.hpp:1398-1404 | get_timestamp of a parsed message is the 48-bit field at byte 5 of its buffer |
| ItchDispatch.StockLocate | itch_ouch_system/include/itch/messages.hpp:1406-1412 | get_stock_locate of a parsed message is the 16-bit field at byte 1 of its buffer |
| ItchDispatch.IsOrderBookMessage | itch_ouch_system/include/itch/messages.hpp:1421-1433 | is_order_book_message holds exactly for the types A, F, E, C, X, D and U |
| ItchDispatch.IsTradeMessage | itch_ouch_system/include/itch/messages.hpp:1435-1443 | is_trade_message holds exactly for the types P, Q and B |
| ItchDispatch.IsSystemMessage | itch_ouch_system/include/itch/messages.hpp:1445-1460 | is_system_message holds exactly for the types S, R, H, Y, L, V, W, K, J, I, N and O |
| ItchDispatch.HeaderOfParsedMessage | itch_ouch_system/include/itch/messages.hpp:1398-1412 | get_timestamp and get_stock_locate of a parsed message are the 48-bit field at byte 5 and the 16-bit field at byte 1 |
| ItchDispatch.CategoriesPartition | itch_ouch_system/include/itch/messages.hpp:1421-1461 | every message is exactly one of order-book, trade or system |
| ItchDispatch.MessageStats.constructor | itch_ouch_system/include/itch/messages.hpp:1468-1477 | all counters start at zero |
| ItchDispatch.MessageStats.RecordMessage | itch_ouch_system/include/itch/messages.hpp:1479-1508 | total and the counter of the message's category go up by one (uint64, wrapping); Cross Trade, Broken Trade and the system messages other than System Event only count in the total |
| ItchDispatch.MessageStats.RecordError | itch_ouch_system/include/itch/messages.hpp:1510-1512 | only the error counter goes up |
| MoldUdp64.NormalizeSession | itch_ouch_system/include/network/moldudp64.hpp:72-78 | normalize_session: the loop drops exactly the trailing spaces and NULs |
| MoldUdp64.InnerSpaceKept | itch_ouch_system/include/network/moldudp64.hpp:70-78 | a space inside the session id is kept: "ABCD 1234 " becomes "ABCD 1234" |
| MoldUdp64.PaddingIsIgnored | itch_ouch_system/include/network/moldudp64.hpp:72-78 | space padding and NUL padding give the same session |
| MoldUdp64.ParseHeader | itch_ouch_system/include/network/moldudp64.hpp:182-200 | no header exactly when fewer than 20 bytes; otherwise the 10 session bytes, the big-endian sequence at 10..17 and count at 18..19 |
| MoldUdp64.EncodeHeader | itch_ouch_system/include/network/moldudp64.hpp:165-174 | a header is 20 bytes on the wire |
| MoldUdp64.HeaderRoundTrip | itch_ouch_system/include/network/moldudp64.hpp:182-200 | parsing an encoded header, whatever follows it, gives the header back |
| MoldUdp64.LastSequence | itch_ouch_system/include/network/moldudp64.hpp:355-361 | last_sequence: the first sequence for heartbeats and end-of-session, otherwise first + count - 1 in uint64 |
| MoldUdp64.FirstSequenceOnTheWire | itch_ouch_system/include/network/moldudp64.hpp:350-352 | first_sequence of a parsed packet is the big-endian sequence number at bytes 10..17, and the first block carries it |
| MoldUdp64.IsHeartbeat | itch_ouch_system/include/network/moldudp64.hpp:334-336 | is_heartbeat holds exactly when the message count is 0 |
| MoldUdp64.IsEndOfSession | itch_ouch_system/include/network/moldudp64.hpp:339-341 | is_end_of_session holds exactly when the message count is 0xFFFF, so it is never a heartbeat |
| MoldUdp64.ParsePacket | itch_ouch_system/include/network/moldudp64.hpp:248-331 | parse: the loop gives exactly the packet the framing function describes, counting every error path (short header, count over 100, truncated length, zero or over-long block, truncated block) |
| MoldUdp64.FrameBlocksShape | itch_ouch_system/include/network/moldudp64.hpp:276-314 | every framed block is valid, lies inside the buffer after its 2-byte length, follows the previous block, and carries the next sequence number |
| MoldUdp64.ParsedBlocksAreValid | itch_ouch_system/include/network/moldudp64.hpp:224-226 | every block of a parsed packet passes is_valid: its length is from 1 to 256 |
| MoldUdp64.DataPacketFramed | itch_ouch_system/include/network/moldudp64.hpp:259-314 | a parsed data packet has a count from 1 to 100 and its blocks are the framing of the buffer after the header |
| MoldUdp64.ParsedDataPacketShape | itch_ouch_system/include/network/moldudp64.hpp:248-331 | a parsed data packet has one block per counted message, back to back from byte 22, numbered from the first sequence, the last one numbered last_sequence |
| MoldUdp64.ControlPacketsHaveNoBlocks | itch_ouch_system/include/network/moldudp64.hpp:259-267 | a heartbeat or end-of-session header is a packet with no blocks, whose first and last sequence are the header's |
| MoldUdp64.ExcessiveCountRejected | itch_ouch_system/include/network/moldudp64.hpp:269-273 | a count above 100 that is not the end-of-session marker rejects the packet |
| MoldUdp64.FrameOneEncoded | itch_ouch_system/include/network/moldudp64.hpp:288-313 | a block written as its big-endian length and its bytes is read back as that length and those bytes |
| MoldUdp64.FrameEncodedBlocks | itch_ouch_system/include/network/moldudp64.hpp:282-314 | framing length-prefixed messages written back to back gives one block per message |
| MoldUdp64.LaidOutCarries | itch_ouch_system/include/network/moldudp64.hpp:305-311 | each framed block points at exactly its message's bytes and carries base + its index as sequence |
| MoldUdp64.EncodedPacketFrames | itch_ouch_system/include/network/moldudp64.hpp:248-331 | an encoded data packet parses to its header and the laid-out blocks |
| MoldUdp64.PacketRoundTrip | itch_ouch_system/include/network/moldudp64.hpp:248-331 | any encoding of 1 to 100 messages of 1 to 256 bytes, with any trailing bytes, parses to the same header and one block per message carrying exactly its bytes and sequence + k |
| MoldUdp64.SequenceTracker.constructor | itch_ouch_system/include/network/moldudp64.hpp:406-411 | the tracker starts uninitialized, expecting 0, not at end of session, with a NUL session |
| MoldUdp64.SequenceTracker.ProcessPacket | itch_ouch_system/include/network/moldudp64.hpp:427-498 | process_packet: the new state and the report are those of the transition function on the old state |
| MoldUdp64.SequenceTracker.CurrentSession | itch_ouch_system/include/network/moldudp64.hpp:506-508 | current_session is the normalized stored session |
| MoldUdp64.SequenceTracker.Reset | itch_ouch_system/include/network/moldudp64.hpp:521-526 | reset returns to the initial state |
| MoldUdp64.Track | itch_ouch_system/include/network/moldudp64.hpp:427-498 | after any packet the tracker is initialized; out-of-order is reported exactly when the tracker was initialized in the same session and the packet starts before the expected sequence, and then nothing changes; otherwise the next expected sequence is the one after the packet |
| MoldUdp64.TrackFirstPacket | itch_ouch_system/include/network/moldudp64.hpp:432-447 | the first packet reports no gap, stores its session and sets the expected sequence from the packet |
| MoldUdp64.TrackSessionChange | itch_ouch_system/include/network/moldudp64.hpp:450-469 | a different normalized session reports a rollover and no gap, and restarts expectations from the new packet |
| MoldUdp64.SessionChangedExactly | itch_ouch_system/include/network/moldudp64.hpp:428-469 | a rollover is reported if and only if the tracker is initialized and the normalized session differs |
| MoldUdp64.TrackGap | itch_ouch_system/include/network/moldudp64.hpp:472-497 | a first sequence beyond the expected one reports the gap from the expected sequence up to the packet's first, then moves on past the packet |
| MoldUdp64.TrackOutOfOrder | itch_ouch_system/include/network/moldudp64.hpp:476-481 | a first sequence before the expected one reports out-of-order and changes nothing |
| MoldUdp64.TrackInOrder | itch_ouch_system/include/network/moldudp64.hpp:472-497 | the expected first sequence reports nothing and moves the expectation past the packet |
| MoldUdp64.ReportsAreExclusive | itch_ouch_system/include/network/moldudp64.hpp:369-396 | gap, out-of-order and rollover are never reported together, and a gap is reported exactly when its count is positive |
| MoldUdp64.ContiguousStreamHasNoGaps | itch_ouch_system/include/network/moldudp64.hpp:472-497 | a stream of packets in one session where each starts where the last left off reports no gap and ends expecting the sequence after the last packet |
| MoldUdp64.GapScenario | itch_ouch_system/tests/test_moldudp64.cpp:238-365 | 100 then 105 reports the gap [101, 105); a heartbeat at 110 reports [106, 110); end of session at 110 reports nothing and marks the session ended; the expected sequence runs 101, 106, 110, 110 |
| MoldUdp64.RolloverScenario | itch_ouch_system/tests/test_moldudp64.cpp:397-428 | a new session starting at 1 after one at 100 reports the rollover and expects 2; repeating the packet reports out-of-order |
| CommonTypes.MidPrice | itch_ouch_system/include/common/types.hpp:186-189 | mid_price: 0 when either side is 0, otherwise (bid + ask) / 2 rounded toward zero as C++ does |
| CommonTypes.Spread | itch_ouch_system/include/common/types.hpp:191-195 | spread: 0 when either side is 0, otherwise the amount by which the ask exceeds the bid |
| CommonTypes.IsCrossed | itch_ouch_system/include/common/types.hpp:204-207 | is_crossed holds exactly when both sides are present and the spread is not positive |
| CommonTypes.IsEmpty | itch_ouch_system/include/common/types.hpp:209-212 | is_empty holds exactly when neither side has any quantity |
| CommonTypes.MidPriceBetween | itch_ouch_system/include/common/types.hpp:186-195 | for an uncrossed book the mid price lies between bid and ask and is bid + spread / 2 |
| CommonTypes.IsValidPrice | itch_ouch_system/include/common/types.hpp:231-235 | is_valid_price holds exactly when the price is within the limits and a multiple of the tick |
| CommonTypes.DefaultSpecPrices | itch_ouch_system/include/common/types.hpp:223-235 | with the default members (tick 1, prices 0 to 999,999,999) a price is valid exactly when it lies in that range, and rounding leaves every price unchanged |
| CommonTypes.RoundToTick | itch_ouch_system/include/common/types.hpp:237-240 | round_to_tick gives a multiple of the tick, less than one tick from the price, on the price's side of zero and no farther from zero: C++ division rounds toward zero, not to the nearest tick as the comment at line 237 says |
| CommonTypes.ValidIffOnTick | itch_ouch_system/include/common/types.hpp:232-240 | is_valid_price holds exactly when the price is within the limits and round_to_tick leaves it unchanged |
| CommonTypes.RoundToTickIdempotent | itch_ouch_system/include/common/types.hpp:238-240 | rounding a non-negative price never raises it, and rounding twice is rounding once |
| CommonTypes.RemainingOfUnfilled | itch_ouch_system/include/common/types.hpp:158-165 | an unfilled order has remaining > 0 with remaining + filled == quantity; an overfilled one wraps in uint32 |
| CommonTypes.Remaining | itch_ouch_system/include/common/types.hpp:157-160 | remaining: quantity less the filled quantity in uint32, so remaining + filled is the quantity, or the quantity plus 2^32 when overfilled |
| CommonTypes.IsFilled | itch_ouch_system/include/common/types.hpp:162-165 | an order is not filled exactly when its remaining quantity is positive and adds up with the filled quantity to the order's quantity |
| CommonTypes.FirstNotIn | itch_ouch_system/include/common/types.hpp:409-415 | find_first_not_of: the first position from `from` that is not whitespace, or the end |
| CommonTypes.Trim | itch_ouch_system/include/common/types.hpp:409-415 | trim is empty exactly when the input is all whitespace, and otherwise starts and ends with a character that is not whitespace |
| CommonTypes.TrimShape | itch_ouch_system/include/common/types.hpp:409-415 | trim is empty exactly when the input is all whitespace; otherwise it is the slice between the surrounding whitespace and starts and ends with a non-whitespace character |
| CommonTypes.TrimIdempotent | itch_ouch_system/include/common/types.hpp:409-415 | trimming twice is trimming once |
| CommonTypes.TrimExample | itch_ouch_system/include/common/types.hpp:409-415 | " \tAAPL \r\n" trims to "AAPL", all-whitespace trims to "" |
| CommonTypes.CopyPadded | itch_ouch_system/include/common/types.hpp:418-428 | copy_padded: the destination holds the source cut to its size, then the pad character to its end |
| CommonTypes.PaddedThenTrimmed | itch_ouch_system/include/common/types.hpp:418-428 | a symbol padded with spaces and then trimmed comes back, if it does not itself end in a space |
| CommonTypes.DecimalString | itch_ouch_system/include/common/types.hpp:364-366 | std::to_string of a quantity: at least one character, every one a decimal digit, at most three below 1000 |
| CommonTypes.DecimalStringValue | itch_ouch_system/include/common/types.hpp:364-366 | the digits of std::to_string read back as the number |
| CommonTypes.GroupedRoundTrip | itch_ouch_system/include/common/types.hpp:368-377 | removing the commas from a grouped number gives the digits back |
| CommonTypes.ShortGroupedIsPlain | itch_ouch_system/include/common/types.hpp:364 | three digits or fewer get no comma |
| CommonTypes.GroupedLength | itch_ouch_system/include/common/types.hpp:368-377 | grouping n digits inserts (n - 1) / 3 commas |
| CommonTypes.FormatQuantity | itch_ouch_system/include/common/types.hpp:363-380 | format_quantity: the loop from the last digit gives the grouped decimal string, and below 1000 the plain one |
| CommonTypes.FormatQuantityExample | itch_ouch_system/include/common/types.hpp:363-380 | 1234567 is formatted as "1,234,567" |
| BookState.Add | itch_ouch_system/src/book/order_book.cpp:45-60 | adding keeps both ladders the same length |
| BookState.Take | itch_ouch_system/src/book/order_book.cpp:70-89 | executing keeps both ladders the same length |
| BookState.Delete | itch_ouch_system/src/book/order_book.cpp:174-185 | deleting keeps both ladders the same length |
| BookState.CancelAmount | itch_ouch_system/src/book/order_book.cpp:141-144 | the shares cancelled are the request cut to the order's shares |
| BookState.Replace | itch_ouch_system/src/book/order_book.cpp:192-245 | replacing keeps both ladders the same length |
| BookState.AddAt | itch_ouch_system/src/book/order_book.cpp:45-60 | after an add of a new reference, each level again holds the total shares and number of live orders at that side and price (mod 2^32) |
| BookState.AddKeepsConsistent | itch_ouch_system/src/book/order_book.cpp:31-62 | adding an order with a new reference keeps every level equal to the orders resting at it |
| BookState.TakeLevel | itch_ouch_system/src/book/order_book.cpp:73-89 | an execution lowers only the order's own level, by the shares taken, and its order count by one when the order is used up |
| BookState.TakeAllAt | itch_ouch_system/src/book/order_book.cpp:82-89 | taking all of an order's shares leaves each level equal to the orders other than it |
| BookState.TakePartAt | itch_ouch_system/src/book/order_book.cpp:73-80 | taking part of an order's shares leaves each level equal to the orders with that one reduced |
| BookState.TakeAt | itch_ouch_system/src/book/order_book.cpp:64-95 | after taking at most an order's shares, each level again equals the orders resting at it |
| BookState.TakeKeepsConsistent | itch_ouch_system/src/book/order_book.cpp:64-95 | executing or cancelling no more than an order holds keeps the book consistent |
| BookState.DeleteIsTakeAll | itch_ouch_system/src/book/order_book.cpp:168-190 | delete is the same as executing all of the order's shares |
| BookState.DeleteKeepsConsistent | itch_ouch_system/src/book/order_book.cpp:168-190 | delete keeps the book consistent |
| BookState.ReplaceKeepsConsistent | itch_ouch_system/src/book/order_book.cpp:192-245 | replace, with a new reference that is fresh or the original one, keeps the book consistent |
| BookState.EmptyBookConsistent | itch_ouch_system/src/book/order_book.cpp:13-19 | the empty ladders with no orders are consistent |
| BookState.AddOutcome | itch_ouch_system/src/book/order_book.cpp:45-60 | add stores the order under its reference, leaves the other orders, raises only its own level by its shares (uint32) and leaves the other side alone |
| BookState.AddOverwriteDoubleCounts | itch_ouch_system/src/book/order_book.cpp:46-50 | an add that reuses a live reference overwrites the order but counts its shares and order again at the level |
| BookState.TakeOutcome | itch_ouch_system/src/book/order_book.cpp:64-95 | an execution removes the order exactly when all its shares are taken, otherwise lowers them (wrapping in uint32 when too many are taken), and changes only the order's own level |
| BookState.CancelOutcome | itch_ouch_system/src/book/order_book.cpp:133-166 | a cancel removes the order exactly when at least its shares are requested, otherwise lowers them by the request |
| BookState.ReplaceOutcome | itch_ouch_system/src/book/order_book.cpp:192-245 | replace stores the new order at the new price with the original side; an out-of-range price only deletes the original |
| BookState.BestBid | itch_ouch_system/src/book/order_book.cpp:253-259 | the bid scan gives the highest level with shares, or 0 when there is none |
| BookState.FirstPositive | itch_ouch_system/src/book/order_book.cpp:263-269 | the ask scan gives the first level with shares from the start, or the end |
| BookState.BestAsk | itch_ouch_system/src/book/order_book.cpp:262-269 | the best ask is a level of the ladder with no shares below it, and a level without shares only when it is the top level |
| BookState.TopOf | itch_ouch_system/src/book/order_book.cpp:271-276 | the published top's prices are levels of the ladders and its quantities are the quantities at those levels |
| BookState.TopOfBookIsBest | itch_ouch_system/src/book/order_book.cpp:251-277 | the published top holds the highest bid level with shares and the lowest ask level with shares, with their quantities; an empty side gives price 0 or the top level and quantity 0 |
| BookState.EmptyTopIffNoShares | itch_ouch_system/src/book/order_book.cpp:251-277 | the published top is empty exactly when neither side has shares at any level |
| BookState.BestBidAt | itch_ouch_system/src/book/order_book.cpp:253-259 | a level with shares and none above it is the best bid |
| BookState.BestAskAt | itch_ouch_system/src/book/order_book.cpp:263-269 | a level with shares and none below it is the best ask |
| LimitOrderBook.BlankSymbolMatchesNothing | itch_ouch_system/src/book/order_book.cpp:21-25 | an all-space symbol is kept untrimmed, and no trimmed message symbol equals it |
| LimitOrderBook.PaddedSymbolsMatch | itch_ouch_system/src/book/order_book.cpp:21-36 | the book's "MSFT    " and a message's "MSFT    " both trim to "MSFT" |
| LimitOrderBook.SideOf | itch_ouch_system/include/itch/messages.hpp:700-702 | side(): a buy exactly when the indicator is 'B', otherwise a sell |
| LimitOrderBook.BookSymbol | itch_ouch_system/src/book/order_book.cpp:21-25 | the stored symbol is a prefix of the given one with only spaces cut off, and either the whole symbol or one not ending in a space |
| LimitOrderBook.OrderBook.constructor | itch_ouch_system/src/book/order_book.cpp:13-29 | empty ladders, no orders, the trimmed symbol, and a published top of bid 0 and ask at the top level |
| LimitOrderBook.OrderBook.GetTopOfBook | itch_ouch_system/src/book/order_book.cpp:247-249 | the returned top is the top of book of the current ladders |
| LimitOrderBook.OrderBook.UpdateTopOfBook | itch_ouch_system/src/book/order_book.cpp:251-277 | the two scans publish the top of book of the ladders and change nothing else |
| LimitOrderBook.OrderBook.AddOrder | itch_ouch_system/src/book/order_book.cpp:31-62 | add_order: a message for another symbol or beyond the ladder changes nothing; otherwise the book becomes Add of the old book, and consistency is kept for a new reference |
| LimitOrderBook.OrderBook.PlaceOrder | itch_ouch_system/src/book/order_book.cpp:45-60 | the book becomes Add of the old book |
| LimitOrderBook.OrderBook.TakeShares | itch_ouch_system/src/book/order_book.cpp:70-89 | the book becomes Take of the old book |
| LimitOrderBook.OrderBook.ExecuteOrder | itch_ouch_system/src/book/order_book.cpp:64-95 | execute_order: an unknown reference changes nothing; otherwise the book becomes Take of the old one, and stays consistent when no more than the order's shares are executed |
| LimitOrderBook.OrderBook.ExecuteOrderWithPrice | itch_ouch_system/src/book/order_book.cpp:97-131 | execute_order_with_price: as execute_order, ignoring the execution price |
| LimitOrderBook.OrderBook.CancelOrder | itch_ouch_system/src/book/order_book.cpp:133-166 | cancel_order: an unknown reference changes nothing; otherwise the request is cut to the order's shares and taken, so the book stays consistent |
| LimitOrderBook.OrderBook.RemoveOrder | itch_ouch_system/src/book/order_book.cpp:174-185 | the book becomes Delete of the old book |
| LimitOrderBook.OrderBook.DeleteOrder | itch_ouch_system/src/book/order_book.cpp:168-190 | delete_order: an unknown reference changes nothing; otherwise the book becomes Delete of the old one and stays consistent |
| LimitOrderBook.OrderBook.ReplaceOrder | itch_ouch_system/src/book/order_book.cpp:192-245 | replace_order: an unknown original changes nothing; otherwise the book becomes Replace of the old one, consistent when the new reference is fresh |
| OrderBookScenarios.AddsStepByStep | itch_ouch_system/tests/test_order_book.cpp:20-76 | the five adds of the first walkthrough lead through the written-out books |
| OrderBookScenarios.TopAfterFirstBid | itch_ouch_system/tests/test_order_book.cpp:20-76 | after the first bid the top is bid 150.0000 for 100, no ask |
| OrderBookScenarios.TopAfterHigherBid | itch_ouch_system/tests/test_order_book.cpp:20-76 | a higher bid becomes the best bid |
| OrderBookScenarios.TopAfterFirstAsk | itch_ouch_system/tests/test_order_book.cpp:20-76 | the first ask is the best ask |
| OrderBookScenarios.TopAfterLowerAsk | itch_ouch_system/tests/test_order_book.cpp:20-76 | a lower ask becomes the best ask |
| OrderBookScenarios.TopAfterJoiningBid | itch_ouch_system/tests/test_order_book.cpp:20-76 | a bid joining the best level adds its shares to it |
| OrderBookScenarios.ExecutesStepByStep | itch_ouch_system/tests/test_order_book.cpp:78-126 | partial execution, delete and full execution lead through the written-out books |
| OrderBookScenarios.TopAfterPartialExecution | itch_ouch_system/tests/test_order_book.cpp:78-126 | a partial execution lowers the best bid quantity |
| OrderBookScenarios.TopAfterDeletingBestAsk | itch_ouch_system/tests/test_order_book.cpp:78-126 | deleting the best ask makes the next ask the best |
| OrderBookScenarios.TopAfterFullExecution | itch_ouch_system/tests/test_order_book.cpp:78-126 | executing the rest of the best bid makes the next bid the best |
| OrderBookScenarios.AmendsStepByStep | itch_ouch_system/tests/test_order_book.cpp:128-168 | a partial cancel and a replace lead through the written-out books |
| OrderBookScenarios.TopAfterPartialCancel | itch_ouch_system/tests/test_order_book.cpp:128-168 | a partial cancel below the best bid leaves the top alone |
| OrderBookScenarios.TopAfterReplace | itch_ouch_system/tests/test_order_book.cpp:128-168 | replacing the best ask at a lower price makes the new order the best ask |
| OrderBookScenarios.FirstBidsScenario | itch_ouch_system/tests/test_order_book.cpp:20-76 | driving an OrderBook through the first two adds reads back the expected tops |
| RingBuffers.RingBuffer.constructor | 02_ring_buffer/include/ring_buffer.hpp:29 | head and tail start at 0 and the buffer is empty |
| RingBuffers.RingBuffer.NextIndex | 02_ring_buffer/include/ring_buffer.hpp:119-121 | next_index: one slot on, and back to 0 after the last |
| RingBuffers.RingBuffer.Size | 02_ring_buffer/include/ring_buffer.hpp:104-108 | size is the number of queued items, always below the capacity |
| RingBuffers.RingBuffer.IsEmpty | 02_ring_buffer/include/ring_buffer.hpp:86-89 | empty exactly when nothing is queued |
| RingBuffers.RingBuffer.IsFull | 02_ring_buffer/include/ring_buffer.hpp:95-98 | full exactly when capacity - 1 items are queued |
| RingBuffers.RingBuffer.TryPush | 02_ring_buffer/include/ring_buffer.hpp:43-59 | try_push: refused exactly when capacity - 1 items are queued; otherwise the item joins the back and head moves on |
| RingBuffers.RingBuffer.TryPop | 02_ring_buffer/include/ring_buffer.hpp:65-80 | try_pop: none exactly when empty; otherwise the oldest item, which leaves the queue, and tail moves on |
| RingBuffers.FifoScenario | 02_ring_buffer/include/ring_buffer.hpp:43-80 | a 3-slot buffer takes two items, refuses a third, and gives them back in order |
| RingBuffers.EmptyAtLastSlot | 02_ring_buffer/include/ring_buffer.hpp:43-80 | two pushes and two pops leave a 3-slot buffer empty with both indices at the last slot |
| RingBuffers.WrapScenario | 02_ring_buffer/include/ring_buffer.hpp:43-80 | pushing past the last slot wraps to slot 0 and the order is kept |
| MemoryPools.AllSlots | 03_memory_pool/include/memory_pool.hpp:58-83 | the slot indices of a pool: exactly those below its size |
| MemoryPools.PigeonHole | 03_memory_pool/include/memory_pool.hpp:178-180 | a free list of distinct slots holds at most the pool size, and all slots once it has that many |
| MemoryPools.SlotsCovered | 03_memory_pool/include/memory_pool.hpp:202-204 | a free list holding every slot has at least the pool size |
| MemoryPools.PopKeepsLinked | 03_memory_pool/include/memory_pool.hpp:126-145 | taking the head off the free list and building an object there leaves the rest linked |
| MemoryPools.PushKeepsLinked | 03_memory_pool/include/memory_pool.hpp:159-172 | a slot linked to the old head becomes the head of a linked free list |
| MemoryPools.MemoryPool.constructor | 03_memory_pool/include/memory_pool.hpp:58-83 | every slot links to the next, the last to null, the head is slot 0 and all slots are available |
| MemoryPools.MemoryPool.Available | 03_memory_pool/include/memory_pool.hpp:178-180 | available is the free-list length, never above the pool size |
| MemoryPools.MemoryPool.Capacity | 03_memory_pool/include/memory_pool.hpp:186-188 | capacity is the pool size |
| MemoryPools.MemoryPool.IsEmpty | 03_memory_pool/include/memory_pool.hpp:194-196 | empty exactly when the free list is empty |
| MemoryPools.MemoryPool.IsFull | 03_memory_pool/include/memory_pool.hpp:202-204 | full exactly when every slot is on the free list |
| MemoryPools.MemoryPool.Allocate | 03_memory_pool/include/memory_pool.hpp:126-145 | allocate: null exactly when no slot is free, changing nothing; otherwise the head slot, taken off the list, holding the new object |
| MemoryPools.MemoryPool.Deallocate | 03_memory_pool/include/memory_pool.hpp:159-172 | deallocate: null is ignored; a slot handed out is linked to the old head and becomes the head |
| MemoryPools.ExhaustionScenario | 03_memory_pool/src/memory_pool_example.cpp:89-118 | a pool of three hands out slots 0, 1, 2 and then null twice |
| MemoryPools.ReuseScenario | 03_memory_pool/src/memory_pool_example.cpp:121-138 | the slot given back is the one handed out next |
| Templates.MaxValue | 01_modern_cpp_basics/templates.cpp:18-21 | max_value is at least both arguments and is one of them |
| Templates.Clamp | 01_modern_cpp_basics/templates.cpp:407-412 | clamp lies in a proper range, and a value already in it is returned unchanged |
| Templates.ClampIsNearest | 01_modern_cpp_basics/templates.cpp:407-412 | over a proper range, clamp gives the point of the range nearest the value |
| Templates.ClampIdempotent | 01_modern_cpp_basics/templates.cpp:407-412 | clamping twice is clamping once |
| Templates.ClampOnEmptyRange | 01_modern_cpp_basics/templates.cpp:407-412 | when min > max the lower-bound test comes first |
| Templates.SafeDivide | 01_modern_cpp_basics/templates.cpp:390-396 | safe_divide and safe_divide_concept on integers: 0 for a zero divisor, otherwise the quotient rounded toward zero |
| Templates.SafeDivideTruncates | 01_modern_cpp_basics/templates.cpp:464-470 | safe_divide(10, 0) is 0 and -7 / 2 is -3 as in C++ |
| Templates.FixedStack.constructor | 01_modern_cpp_basics/templates.cpp:115-120 | a stack of the capacity, empty |
| Templates.FixedStack.Push | 01_modern_cpp_basics/templates.cpp:123-127 | push: refused exactly when full; otherwise the item goes on top |
| Templates.FixedStack.Pop | 01_modern_cpp_basics/templates.cpp:135-139 | pop: refused exactly when empty, leaving the caller's item; otherwise the top item, which leaves the stack |
| Templates.FixedStack.IsEmpty | 01_modern_cpp_basics/templates.cpp:141 | empty exactly when the stack holds nothing |
| Templates.FixedStack.Size | 01_modern_cpp_basics/templates.cpp:142 | size is the number of items, never above the capacity |
| Templates.MessageBuffer.WritePosIsModulo | 01_modern_cpp_basics/templates.cpp:661-667 | the write position is always (read position + count) mod capacity |
| Templates.MessageBuffer.Advance | 01_modern_cpp_basics/templates.cpp:664 | (pos + 1) % Capacity is one slot on, and 0 after the last |
| Templates.MessageBuffer.constructor | 01_modern_cpp_basics/templates.cpp:652-658 | all positions and the count start at 0: the buffer is empty |
| Templates.MessageBuffer.Push | 01_modern_cpp_basics/templates.cpp:661-667 | push: refused exactly when full; otherwise the message joins the back and the write position moves on |
| Templates.MessageBuffer.Pop | 01_modern_cpp_basics/templates.cpp:669-675 | pop: refused exactly when empty, leaving the caller's msg; otherwise the oldest message, and the read position moves on |
| Templates.MessageBuffer.IsEmpty | 01_modern_cpp_basics/templates.cpp:677 | empty exactly when nothing is queued |
| Templates.MessageBuffer.IsFull | 01_modern_cpp_basics/templates.cpp:678 | full exactly when every slot is in use |
| Templates.MessageBuffer.Size | 01_modern_cpp_basics/templates.cpp:679 | size is the number of queued messages, never above the capacity |
| Templates.StackScenario | 01_modern_cpp_basics/templates.cpp:123-139 | a stack of two takes two items, refuses a third, and gives them back last one first |
| Templates.MessageBufferScenario | 01_modern_cpp_basics/templates.cpp:698-714 | a buffer of two takes two messages, refuses a third, and gives them back oldest first |
| Templates.OneLeftInLastSlot | 01_modern_cpp_basics/templates.cpp:661-675 | two pushes and a pop leave one message in the last slot with the write position wrapped to 0 |
| Templates.MessageBufferWraps | 01_modern_cpp_basics/templates.cpp:661-675 | a message written past the last slot wraps to slot 0 and comes out after the older one |

## Left out

- SeqLock (`itch_ouch_system/include/book/seqlock.hpp`) is not part of this model. The book publishes its top of book into the plain field `published`. The seqlock's reader holds the sequence in a 32-bit variable (seqlock.hpp:38) while the counter is 64-bit (seqlock.hpp:80). Once the counter passes 2^32 the reader's comparison mixes widths; that is not modelled.
- Atomics and memory orders of the ring buffer, and concurrency in general. Each operation is one sequential step.
- Endianness detection and byte swapping (`be16toh` and friends, `read_be64` in MoldUDP64). Fields are defined directly as big-endian values of their bytes.
- Floating point: `to_price`, `to_dollars`, `spread_bps`, `format_price` and the floating-point overloads of `safe_divide`.
- `format_timestamp`, the cache-alignment helpers, printing (`print_book`, `print_summary`, the logging in the handlers) and all I/O.
- The name and string helpers: `message_type_to_string`, `get_message_type_name`, `side_to_string`, `status_to_string`, `error_to_string`, `Order::is_active`, and the `error_detail` text of a parse result. Only the error code is modelled.
- `replay_feed.cpp`, the benchmarks and demos, the smart pointers, `PooledPtr` and `make_pooled`, and the templates of `templates.cpp` other than those named above.
- CommonTypes.MidPrice: computed on unbounded integers, so the int64 overflow of `bid_price + ask_price` is not modelled.
- CommonTypes.Spread, CommonTypes.RoundToTick, CommonTypes.IsValidPrice: computed on unbounded integers, so the int64 overflow of `ask_price - bid_price` (for example ask INT64_MAX with bid -1) and of `INT64_MIN / -1` and `INT64_MIN % -1` with a tick of -1 is not modelled.
- ItchDispatch.ParseMessage, ItchDispatch.ParseMessageRoundTrip, ItchDispatch.ParseMessageSound, ItchDispatch.CrossTradeMessageRoundTrip: these describe the dispatcher with the corrected 40-byte Cross Trade. parse_message as written accepts a 'Q' message of exactly 35 bytes and refuses the 40-byte one (messages.hpp:1047, 1070, 1368-1369). That behaviour is ItchDispatch.ParseMessageAsWritten, and ItchDispatch.CrossTradeDispatchAsWritten states the difference.
- ItchDispatch.ParseMessageAsWritten: the source reads bytes 35 to 39 of a 35-byte 'Q' buffer, beyond its length, which is undefined behaviour. The model requires those bytes to be readable memory.
- MoldUdp64.ParsePacket: the check after the loop that the number of blocks equals the count (moldudp64.hpp:317-320) cannot fail, so it is absent. The trailing-bytes check (moldudp64.hpp:324-328) has an empty body, so trailing bytes are accepted.
- Blocks point into the packet by position rather than by a raw pointer. MessageBlock keeps its offset, length and sequence.
- The getters `expected_sequence`, `is_initialized` and `is_end_of_session` are the tracker's fields, read directly.
- PriceLevel: the `price` member of the source's level is never read or written by the book, so it is left out.
- LimitOrderBook.OrderBook.constructor: the ladder length is a parameter. `MAX_PRICE_LEVELS` (2000 * 10000) is the value the source and the walkthroughs use.
- OrderBookScenarios.FirstBidsScenario: only the opening two adds are driven through the class. The remaining steps of the three walkthroughs are proved on `Book` values.
- BookState.Add, BookState.Take, BookState.Delete, BookState.Replace: their own contracts state only well-formedness. What each one does to orders and levels is stated by BookState.AddOutcome, TakeOutcome, CancelOutcome, ReplaceOutcome and the Keeps-Consistent lemmas.
- MemoryPools.MemoryPool.Deallocate: handing back a slot that is not allocated, one from another pool, or one deallocated twice is undefined behaviour in the source (memory_pool.hpp:156-157). It is a precondition here.
- MemoryPools.MemoryPool.Allocate: constructor arguments are a single value, and the destructor calls that deallocate makes are not modelled.
- MemoryPools.MemoryPool.constructor: the pool's storage is a fresh array, not raw operator new.
- Templates.SafeDivide and Templates.Clamp: the function templates are instantiated at the mathematical integers, so `INT_MIN / -1` and the other fixed-width overflow cases are not modelled.
- Templates.FixedStack.constructor and Templates.MessageBuffer.constructor: the compile-time `Capacity` is a constructor argument, and `capacity()` is the `capacity` constant.
- Templates.FixedStack.Pop: the moved-from state of the popped slot is not modelled. The slot keeps its value until overwritten.
- Templates.FixedStack.Push: the copy and move overloads are one method.

## Findings

| source | as written | input that shows it | evidently intended | confidence | as-written member | corrected member |
|---|---|---|---|---|---|---|
| itch_ouch_system/include/itch/messages.hpp:1047-1084 | Cross Trade `SIZE` is 35 and `parse` accepts exactly 35 bytes. It then reads Match Number from bytes 31..38 and Cross Type from byte 39, up to 5 bytes beyond the buffer. | A 35-byte buffer starting with 'Q'. Two memories that agree on those 35 bytes but differ at byte 39 decode to different messages. | The 40-byte Cross Trade message of Nasdaq TotalView-ITCH 5.0: `SIZE` 40, with the same offsets. | not executed | ItchMessages.ParseCrossTradeAsWritten, ItchCodec.CrossTradeReadsPastItsLength, ItchDispatch.ParseMessageAsWritten, ItchDispatch.CrossTradeDispatchAsWritten | ItchMessages.ParseCrossTrade, ItchCodec.CrossTradeCorrectedLayout, ItchDispatch.ParseMessage, ItchDispatch.ParseMessageRoundTrip |
