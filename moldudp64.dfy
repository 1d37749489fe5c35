/**
 * MoldUDP64 downstream packets: a 20-byte header (ten-character session,
 * 64-bit sequence number of the first message, 16-bit message count)
 * followed by length-prefixed message blocks, and the tracker that watches
 * the sequence numbers of consecutive packets for gaps.
 *
 * A block is kept as the position of its data in the received bytes, its
 * length and its absolute sequence number, instead of a pointer into the
 * receive buffer.
 */
module MoldUdp64 {
  import opened FixedWidth
  import opened Wrappers
  import opened Trimming
  import opened ItchWire

  const SESSION_ID_LENGTH: nat := 10
  const HEADER_SIZE: nat := 20
  const MAX_MESSAGES_PER_PACKET: nat := 100
  const MAX_MESSAGE_LENGTH: nat := 256
  const HEARTBEAT_COUNT: u16 := 0
  const END_OF_SESSION: u16 := 0xFFFF

  type SessionId = s: seq<char8> | |s| == SESSION_ID_LENGTH witness "          "

  /** Session names are compared without their trailing spaces and NULs. */
  const SESSION_PADS: set<char8> := {' ', '\0'}

  /** The normalized session: trailing spaces and NULs removed, nothing else. */
  function SessionKey(raw: SessionId): seq<char8>
  {
    StripTrailing(raw, SESSION_PADS)
  }

  method NormalizeSession(raw: SessionId) returns (view: seq<char8>)
    ensures view == SessionKey(raw)
  {
    var len := |raw|;
    while len > 0 && (raw[len - 1] == ' ' || raw[len - 1] == '\0')
      invariant 0 <= len <= |raw|
      invariant forall i :: len <= i < |raw| ==> raw[i] in SESSION_PADS
      decreases len
    {
      len := len - 1;
    }
    StripTrailingUnique(raw, SESSION_PADS, len);
    view := raw[..len];
  }

  /** The session "ABCD 1234 " keeps its inner space. */
  lemma InnerSpaceKept()
    ensures SessionKey("ABCD 1234 ") == "ABCD 1234"
  {
    var a: SessionId := "ABCD 1234 ";
    StripTrailingUnique(a, SESSION_PADS, 9);
    assert a[..9] == "ABCD 1234";
  }

  /** Space padding and NUL padding name the same session. */
  lemma PaddingIsIgnored()
    ensures SessionKey("ABCDEF    ") == SessionKey("ABCDEF\0\0\0\0") == "ABCDEF"
  {
    var b: SessionId := "ABCDEF    ";
    StripTrailingUnique(b, SESSION_PADS, 6);
    assert b[..6] == "ABCDEF";
    var c: SessionId := "ABCDEF\0\0\0\0";
    StripTrailingUnique(c, SESSION_PADS, 6);
    assert c[..6] == "ABCDEF";
  }

  // ---------------------------------------------------------------- header

  datatype Header = Header(session: SessionId, sequenceNumber: u64, messageCount: u16)

  function ParseHeader(buf: seq<byte>): (r: Option<Header>)
    ensures r.None? <==> |buf| < HEADER_SIZE
    ensures r.Some? ==>
      && Bytes(r.value.session) == buf[..SESSION_ID_LENGTH]
      && r.value.sequenceNumber == BE(buf[10..18])
      && r.value.messageCount == BE(buf[18..20])
  {
    if |buf| < HEADER_SIZE then None
    else
      ReadU64IsBE(buf, 10);
      ReadU16IsBE(buf, 18);
      BytesOfChars(buf[..SESSION_ID_LENGTH]);
      Some(Header(Chars(buf[..SESSION_ID_LENGTH]), ReadU64(buf, 10), ReadU16(buf, 18)))
  }

  /** The header bytes a sender writes. */
  function EncodeHeader(h: Header): (buf: seq<byte>)
    ensures |buf| == HEADER_SIZE
  {
    Bytes(h.session) + ToBE(h.sequenceNumber, 8) + ToBE(h.messageCount, 2)
  }

  lemma HeaderRoundTrip(h: Header, rest: seq<byte>)
    ensures ParseHeader(EncodeHeader(h) + rest) == Some(h)
  {
    var buf := EncodeHeader(h) + rest;
    Pow256Widths();
    assert buf[..SESSION_ID_LENGTH] == Bytes(h.session);
    assert buf[10..18] == ToBE(h.sequenceNumber, 8);
    assert buf[18..20] == ToBE(h.messageCount, 2);
    BERoundTrip(h.sequenceNumber, 8);
    BERoundTrip(h.messageCount, 2);
    CharsOfBytes(h.session);
  }

  // ---------------------------------------------------------------- blocks

  /** One message: its data is `buf[offset..offset + length]`. */
  datatype MessageBlock = MessageBlock(offset: nat, length: u16, sequence: u64)

  predicate IsValid(b: MessageBlock)
  {
    0 < b.length <= MAX_MESSAGE_LENGTH
  }

  datatype Packet = Packet(header: Header, messages: seq<MessageBlock>)

  /** A heartbeat carries a message count of zero. */
  predicate IsHeartbeat(p: Packet)
    ensures IsHeartbeat(p) <==> p.header.messageCount == 0
  {
    p.header.messageCount == HEARTBEAT_COUNT
  }

  /** End of session is the all-ones message count 0xFFFF, which is never a heartbeat. */
  predicate IsEndOfSession(p: Packet)
    ensures IsEndOfSession(p) <==> p.header.messageCount == 0xFFFF
    ensures IsEndOfSession(p) ==> !IsHeartbeat(p)
  {
    p.header.messageCount == END_OF_SESSION
  }

  predicate CarriesData(p: Packet)
  {
    !(IsHeartbeat(p) || IsEndOfSession(p))
  }

  /** For a heartbeat or end-of-session packet this is the next expected sequence. */
  function FirstSequence(p: Packet): u64
  {
    p.header.sequenceNumber
  }

  /** The sequence of the last message carried, with `uint64_t` wrap-around. */
  function LastSequence(p: Packet): (r: u64)
    ensures !CarriesData(p) ==> r == FirstSequence(p)
    ensures CarriesData(p) ==> r == (FirstSequence(p) + p.header.messageCount - 1) % TWO_64
  {
    if p.header.messageCount == 0 || p.header.messageCount == END_OF_SESSION then p.header.sequenceNumber
    else (p.header.sequenceNumber + p.header.messageCount - 1) % TWO_64
  }

  /**
   * The blocks `i`, `i + 1`, ... up to `count` starting at byte `offset`:
   * each is a 2-byte big-endian length in 1..256 followed by that many
   * bytes, all inside `buf`; block `i` gets sequence `base + i`.
   */
  function FrameBlocks(buf: seq<byte>, offset: nat, i: nat, count: nat, base: u64): Option<seq<MessageBlock>>
    decreases count - i
  {
    if i >= count then Some([])
    else if offset + 2 > |buf| then None
    else
      var len := ReadU16(buf, offset);
      if len == 0 || len > MAX_MESSAGE_LENGTH then None
      else if offset + 2 + len > |buf| then None
      else Prepend([MessageBlock(offset + 2, len, (base + i) % TWO_64)],
                   FrameBlocks(buf, offset + 2 + len, i + 1, count, base))
  }

  function Prepend(front: seq<MessageBlock>, r: Option<seq<MessageBlock>>): Option<seq<MessageBlock>>
  {
    match r
    case None => None
    case Some(rest) => Some(front + rest)
  }

  /** The packet a payload frames to, if it is well formed. */
  function PacketOf(buf: seq<byte>): Option<Packet>
  {
    match ParseHeader(buf)
    case None => None
    case Some(h) =>
      if h.messageCount == HEARTBEAT_COUNT || h.messageCount == END_OF_SESSION then Some(Packet(h, []))
      else if h.messageCount > MAX_MESSAGES_PER_PACKET then None
      else
        match FrameBlocks(buf, HEADER_SIZE, 0, h.messageCount, h.sequenceNumber)
        case None => None
        case Some(blocks) => Some(Packet(h, blocks))
  }

  method ParsePacket(buf: seq<byte>) returns (r: Option<Packet>)
    ensures r == PacketOf(buf)
  {
    var headerOpt := ParseHeader(buf);
    if headerOpt.None? {
      return None;
    }
    var header := headerOpt.value;
    if header.messageCount == HEARTBEAT_COUNT {
      return Some(Packet(header, []));
    }
    if header.messageCount == END_OF_SESSION {
      return Some(Packet(header, []));
    }
    if header.messageCount > MAX_MESSAGES_PER_PACKET {
      return None;
    }
    var count := header.messageCount;
    var baseSeq := header.sequenceNumber;
    var offset: nat := HEADER_SIZE;
    var messages: seq<MessageBlock> := [];
    var i: nat := 0;
    PrependNothing(FrameBlocks(buf, offset, i, count, baseSeq));
    while i < count
      invariant 0 <= i <= count
      invariant |messages| == i
      invariant FrameBlocks(buf, HEADER_SIZE, 0, count, baseSeq)
             == Prepend(messages, FrameBlocks(buf, offset, i, count, baseSeq))
    {
      if offset + 2 > |buf| {
        return None;
      }
      var msgLength := ReadU16(buf, offset);
      offset := offset + 2;
      if msgLength == 0 || msgLength > MAX_MESSAGE_LENGTH as int {
        return None;
      }
      if offset + msgLength > |buf| {
        return None;
      }
      var block := MessageBlock(offset, msgLength, (baseSeq + i) % TWO_64);
      PrependAssoc(messages, [block], FrameBlocks(buf, offset + msgLength, i + 1, count, baseSeq));
      messages := messages + [block];
      offset := offset + msgLength;
      i := i + 1;
    }
    // The loop adds exactly one block per iteration, so the count check of
    // the source after the loop always passes; trailing bytes are accepted.
    assert messages + [] == messages;
    assert PacketOf(buf) == Some(Packet(header, messages));
    return Some(Packet(header, messages));
  }

  lemma PrependNothing(r: Option<seq<MessageBlock>>)
    ensures Prepend([], r) == r
  {
    if r.Some? {
      assert [] + r.value == r.value;
    }
  }

  lemma PrependAssoc(a: seq<MessageBlock>, b: seq<MessageBlock>, r: Option<seq<MessageBlock>>)
    ensures Prepend(a, Prepend(b, r)) == Prepend(a + b, r)
  {
    if r.Some? {
      assert a + (b + r.value) == (a + b) + r.value;
    }
  }

  /** What a successful framing of blocks `i..count` looks like. */
  lemma {:induction false} FrameBlocksShape(buf: seq<byte>, offset: nat, i: nat, count: nat, base: u64)
    requires i <= count
    requires FrameBlocks(buf, offset, i, count, base).Some?
    ensures var bs := FrameBlocks(buf, offset, i, count, base).value;
      && |bs| == count - i
      && (|bs| > 0 ==> bs[0].offset == offset + 2)
      && (forall k :: 0 <= k < |bs| ==>
            && IsValid(bs[k])
            && 2 <= bs[k].offset
            && bs[k].offset + bs[k].length <= |buf|
            && bs[k].length == ReadU16(buf, bs[k].offset - 2)
            && bs[k].sequence == (base + i + k) % TWO_64)
      && (forall k :: 0 <= k < |bs| - 1 ==> bs[k + 1].offset == bs[k].offset + bs[k].length + 2)
    decreases count - i
  {
    if i < count {
      var len := ReadU16(buf, offset);
      FrameBlocksShape(buf, offset + 2 + len, i + 1, count, base);
    }
  }

  /** A data packet that parses holds the blocks framed from just after its header. */
  lemma DataPacketFramed(buf: seq<byte>)
    requires PacketOf(buf).Some? && CarriesData(PacketOf(buf).value)
    ensures var p := PacketOf(buf).value;
      && p.header == ParseHeader(buf).value
      && 1 <= p.header.messageCount <= MAX_MESSAGES_PER_PACKET
      && FrameBlocks(buf, HEADER_SIZE, 0, p.header.messageCount, p.header.sequenceNumber) == Some(p.messages)
  {
  }

  /**
   * A data packet that parses carries exactly `count` valid blocks, one after
   * the other inside the payload, numbered from the header's sequence.
   */
  lemma ParsedDataPacketShape(buf: seq<byte>)
    requires PacketOf(buf).Some? && CarriesData(PacketOf(buf).value)
    ensures var p := PacketOf(buf).value;
      && 1 <= p.header.messageCount <= MAX_MESSAGES_PER_PACKET
      && |p.messages| == p.header.messageCount
      && p.messages[0].offset == HEADER_SIZE + 2
      && (forall k :: 0 <= k < |p.messages| ==>
            && IsValid(p.messages[k])
            && p.messages[k].offset + p.messages[k].length <= |buf|
            && p.messages[k].sequence == (FirstSequence(p) + k) % TWO_64)
      && (forall k :: 0 <= k < |p.messages| - 1 ==>
            p.messages[k + 1].offset == p.messages[k].offset + p.messages[k].length + 2)
      && p.messages[|p.messages| - 1].sequence == LastSequence(p)
  {
    var p := PacketOf(buf).value;
    DataPacketFramed(buf);
    FrameBlocksShape(buf, HEADER_SIZE, 0, p.header.messageCount, p.header.sequenceNumber);
  }

  /** Every block of a parsed packet passes is_valid: its length is from 1 to 256. */
  lemma ParsedBlocksAreValid(buf: seq<byte>)
    requires PacketOf(buf).Some?
    ensures var p := PacketOf(buf).value;
      forall k :: 0 <= k < |p.messages| ==> IsValid(p.messages[k])
  {
    if CarriesData(PacketOf(buf).value) {
      ParsedDataPacketShape(buf);
    }
  }

  /**
   * The first sequence of a parsed packet is the big-endian sequence number at
   * bytes 10..17 of the buffer, and its first block, when it has one, carries it.
   */
  lemma FirstSequenceOnTheWire(buf: seq<byte>)
    requires PacketOf(buf).Some?
    ensures var p := PacketOf(buf).value;
      && FirstSequence(p) == BE(buf[10..18])
      && (|p.messages| > 0 ==> p.messages[0].sequence == FirstSequence(p))
  {
    if CarriesData(PacketOf(buf).value) {
      ParsedDataPacketShape(buf);
    }
  }

  /** Heartbeats and end-of-session markers parse whenever the header does, with no blocks. */
  lemma ControlPacketsHaveNoBlocks(buf: seq<byte>)
    requires |buf| >= HEADER_SIZE
    requires ParseHeader(buf).value.messageCount in {HEARTBEAT_COUNT, END_OF_SESSION}
    ensures PacketOf(buf).Some? && PacketOf(buf).value.messages == []
    ensures !CarriesData(PacketOf(buf).value)
    ensures LastSequence(PacketOf(buf).value) == FirstSequence(PacketOf(buf).value) == BE(buf[10..18])
  {
  }

  /** A count above 100 that is not the end-of-session marker rejects the packet. */
  lemma ExcessiveCountRejected(buf: seq<byte>)
    requires |buf| >= HEADER_SIZE
    requires MAX_MESSAGES_PER_PACKET < ParseHeader(buf).value.messageCount < END_OF_SESSION
    ensures PacketOf(buf).None?
  {
  }

  // ------------------------------------------------------------- encoding

  /** A block on the wire: its 2-byte length, then its bytes. */
  function EncodeBlocks(msgs: seq<seq<byte>>): (buf: seq<byte>)
    requires forall k :: 0 <= k < |msgs| ==> |msgs[k]| < 0x1_0000
  {
    if |msgs| == 0 then [] else LengthPrefix(|msgs[0]|) + msgs[0] + EncodeBlocks(msgs[1..])
  }

  /** The 2-byte big-endian length in front of each block. */
  function LengthPrefix(n: u16): seq<byte>
  {
    [n / 0x100, n % 0x100]
  }

  predicate Sendable(msgs: seq<seq<byte>>)
  {
    forall k :: 0 <= k < |msgs| ==> 0 < |msgs[k]| <= MAX_MESSAGE_LENGTH
  }

  /** Block `b` selects exactly the bytes `m` of `buf`. */
  predicate Carries(buf: seq<byte>, b: MessageBlock, m: seq<byte>)
  {
    b.offset + b.length <= |buf| && buf[b.offset..b.offset + b.length] == m
  }

  /** One encoded block at `offset`: its prefix reads back as its length. */
  lemma FrameOneEncoded(buf: seq<byte>, offset: nat, m: seq<byte>, tail: seq<byte>)
    requires 0 < |m| <= MAX_MESSAGE_LENGTH
    requires offset + 2 + |m| + |tail| <= |buf|
    requires buf[offset..offset + 2 + |m| + |tail|] == LengthPrefix(|m|) + m + tail
    ensures ReadU16(buf, offset) == |m|
    ensures buf[offset + 2..offset + 2 + |m|] == m
    ensures buf[offset + 2 + |m|..offset + 2 + |m| + |tail|] == tail
  {
    var e := buf[offset..offset + 2 + |m| + |tail|];
    var lp := LengthPrefix(|m|);
    assert e == lp + (m + tail);
    assert buf[offset] == e[0] == |m| / 0x100;
    assert buf[offset + 1] == e[1] == |m| % 0x100;
    assert e[2..] == m + tail;
    assert buf[offset + 2..offset + 2 + |m|] == e[2..][..|m|] == m;
    assert buf[offset + 2 + |m|..offset + 2 + |m| + |tail|] == e[2..][|m|..] == tail;
  }

  /** The blocks a sender lays out for `msgs` from `offset`, numbered on from `i`. */
  function LaidOut(offset: nat, msgs: seq<seq<byte>>, i: nat, base: u64): (bs: seq<MessageBlock>)
    requires Sendable(msgs)
    ensures |bs| == |msgs|
    decreases |msgs|
  {
    if |msgs| == 0 then []
    else [MessageBlock(offset + 2, |msgs[0]|, (base + i) % TWO_64)]
         + LaidOut(offset + 2 + |msgs[0]|, msgs[1..], i + 1, base)
  }

  /** Framing the encoding of `msgs`, found in `buf` at `offset`, finds the laid-out blocks. */
  lemma {:induction false} FrameEncodedBlocks(buf: seq<byte>, offset: nat, msgs: seq<seq<byte>>, i: nat, base: u64)
    requires Sendable(msgs)
    requires offset + |EncodeBlocks(msgs)| <= |buf|
    requires buf[offset..offset + |EncodeBlocks(msgs)|] == EncodeBlocks(msgs)
    ensures FrameBlocks(buf, offset, i, i + |msgs|, base) == Some(LaidOut(offset, msgs, i, base))
    decreases |msgs|
  {
    if |msgs| > 0 {
      var m := msgs[0];
      var tail := EncodeBlocks(msgs[1..]);
      assert EncodeBlocks(msgs) == LengthPrefix(|m|) + m + tail;
      FrameOneEncoded(buf, offset, m, tail);
      FrameEncodedBlocks(buf, offset + 2 + |m|, msgs[1..], i + 1, base);
    }
  }

  /** Each laid-out block selects its message and carries its sequence number. */
  lemma {:induction false} LaidOutCarries(buf: seq<byte>, offset: nat, msgs: seq<seq<byte>>, i: nat, base: u64)
    requires Sendable(msgs)
    requires offset + |EncodeBlocks(msgs)| <= |buf|
    requires buf[offset..offset + |EncodeBlocks(msgs)|] == EncodeBlocks(msgs)
    ensures forall k :: 0 <= k < |msgs| ==>
      Carries(buf, LaidOut(offset, msgs, i, base)[k], msgs[k])
      && LaidOut(offset, msgs, i, base)[k].sequence == (base + i + k) % TWO_64
    decreases |msgs|
  {
    if |msgs| > 0 {
      var m := msgs[0];
      var tail := EncodeBlocks(msgs[1..]);
      assert EncodeBlocks(msgs) == LengthPrefix(|m|) + m + tail;
      FrameOneEncoded(buf, offset, m, tail);
      var next := offset + 2 + |m|;
      LaidOutCarries(buf, next, msgs[1..], i + 1, base);
      var bs := LaidOut(offset, msgs, i, base);
      var rest := LaidOut(next, msgs[1..], i + 1, base);
      forall k | 0 < k < |msgs|
        ensures Carries(buf, bs[k], msgs[k]) && bs[k].sequence == (base + i + k) % TWO_64
      {
        assert bs[k] == rest[k - 1];
        assert msgs[k] == msgs[1..][k - 1];
      }
    }
  }

  /** The packet a sender builds: a header counting `msgs`, the blocks, then padding. */
  function EncodePacket(session: SessionId, sequence: u64, msgs: seq<seq<byte>>, after: seq<byte>): seq<byte>
    requires Sendable(msgs) && |msgs| <= MAX_MESSAGES_PER_PACKET
  {
    EncodeHeader(Header(session, sequence, |msgs|)) + EncodeBlocks(msgs) + after
  }

  /** A sent data packet frames to its header and the blocks its sender laid out. */
  lemma EncodedPacketFrames(session: SessionId, sequence: u64, msgs: seq<seq<byte>>, after: seq<byte>)
    requires Sendable(msgs) && 1 <= |msgs| <= MAX_MESSAGES_PER_PACKET
    ensures var buf := EncodePacket(session, sequence, msgs, after);
      && buf[HEADER_SIZE..HEADER_SIZE + |EncodeBlocks(msgs)|] == EncodeBlocks(msgs)
      && PacketOf(buf) == Some(Packet(Header(session, sequence, |msgs|), LaidOut(HEADER_SIZE, msgs, 0, sequence)))
  {
    var h := Header(session, sequence, |msgs|);
    var buf := EncodePacket(session, sequence, msgs, after);
    EncodedPayload(h, EncodeBlocks(msgs), after);
    FrameEncodedBlocks(buf, HEADER_SIZE, msgs, 0, sequence);
  }

  /** After an encoded header, the payload sits at byte 20 and the header parses back. */
  lemma EncodedPayload(h: Header, payload: seq<byte>, after: seq<byte>)
    ensures var buf := EncodeHeader(h) + payload + after;
      && ParseHeader(buf) == Some(h)
      && HEADER_SIZE + |payload| <= |buf|
      && buf[HEADER_SIZE..HEADER_SIZE + |payload|] == payload
  {
    var buf := EncodeHeader(h) + payload + after;
    HeaderRoundTrip(h, payload + after);
    assert buf == EncodeHeader(h) + (payload + after);
  }

  /** Parsing a sent data packet gives back its header and each of its messages. */
  lemma PacketRoundTrip(session: SessionId, sequence: u64, msgs: seq<seq<byte>>, after: seq<byte>)
    requires Sendable(msgs) && 1 <= |msgs| <= MAX_MESSAGES_PER_PACKET
    ensures var buf := EncodePacket(session, sequence, msgs, after);
      var p := PacketOf(buf);
      && p.Some? && p.value.header == Header(session, sequence, |msgs|)
      && |p.value.messages| == |msgs|
      && forall k :: 0 <= k < |msgs| ==>
           Carries(buf, p.value.messages[k], msgs[k]) && p.value.messages[k].sequence == (sequence + k) % TWO_64
  {
    var buf := EncodePacket(session, sequence, msgs, after);
    var blocks := LaidOut(HEADER_SIZE, msgs, 0, sequence);
    EncodedPacketFrames(session, sequence, msgs, after);
    assert PacketOf(buf) == Some(Packet(Header(session, sequence, |msgs|), blocks));
    LaidOutCarries(buf, HEADER_SIZE, msgs, 0, sequence);
  }

  // -------------------------------------------------------------- tracker

  /** What the tracker reports about one packet. */
  datatype GapInfo = GapInfo(hasGap: bool, outOfOrder: bool, sessionChanged: bool, gapStart: u64, gapCount: u64)

  const NO_GAP: GapInfo := GapInfo(false, false, false, 0, 0)
  const OUT_OF_ORDER_PACKET: GapInfo := NO_GAP.(outOfOrder := true)
  const SESSION_ROLLOVER: GapInfo := NO_GAP.(sessionChanged := true)

  function Gap(start: u64, count: u64): GapInfo
  {
    GapInfo(true, false, false, start, count)
  }

  /** The sequence number the next packet should start at. */
  function NextExpected(p: Packet): u64
  {
    if IsHeartbeat(p) || IsEndOfSession(p) then FirstSequence(p) else Add64(LastSequence(p), 1)
  }

  datatype TrackerState = TrackerState(expectedSequence: u64, initialized: bool, endOfSession: bool, currentSession: SessionId)

  datatype Outcome = Outcome(state: TrackerState, info: GapInfo)

  /**
   * One packet's effect on the tracker and what is reported. After any
   * packet the tracker is initialized; a packet reported out of order
   * changes nothing, and every other one sets the next expected sequence
   * from the packet.
   */
  function Track(s: TrackerState, p: Packet): (o: Outcome)
    ensures o.state.initialized
    ensures o.info.outOfOrder <==> o.state == s && s.initialized && !o.info.sessionChanged
                                   && FirstSequence(p) < s.expectedSequence
    ensures !o.info.outOfOrder ==> o.state.expectedSequence == NextExpected(p)
  {
    var first := FirstSequence(p);
    if !s.initialized then
      var eos := if IsHeartbeat(p) || IsEndOfSession(p) then IsEndOfSession(p) else s.endOfSession;
      Outcome(TrackerState(NextExpected(p), true, eos, p.header.session), NO_GAP)
    else if SessionKey(p.header.session) != SessionKey(s.currentSession) then
      Outcome(TrackerState(NextExpected(p), true, IsEndOfSession(p), p.header.session), SESSION_ROLLOVER)
    else if first < s.expectedSequence then
      Outcome(s, OUT_OF_ORDER_PACKET)
    else
      var info := if first > s.expectedSequence then Gap(s.expectedSequence, first - s.expectedSequence) else NO_GAP;
      Outcome(s.(expectedSequence := NextExpected(p), endOfSession := s.endOfSession || IsEndOfSession(p)), info)
  }

  const INITIAL_TRACKER: TrackerState := TrackerState(0, false, false, "\0\0\0\0\0\0\0\0\0\0")

  class SequenceTracker {
    var expectedSequence: u64
    var initialized: bool
    var endOfSession: bool
    var currentSession: SessionId

    function State(): TrackerState
      reads this
    {
      TrackerState(expectedSequence, initialized, endOfSession, currentSession)
    }

    constructor()
      ensures State() == INITIAL_TRACKER
    {
      expectedSequence := 0;
      initialized := false;
      endOfSession := false;
      currentSession := "\0\0\0\0\0\0\0\0\0\0";
    }

    method ProcessPacket(packet: Packet) returns (info: GapInfo)
      modifies this
      ensures State() == Track(old(State()), packet).state
      ensures info == Track(old(State()), packet).info
    {
      var firstSeq := FirstSequence(packet);
      var newSession := NormalizeSession(packet.header.session);
      if !initialized {
        currentSession := packet.header.session;
        initialized := true;
        if IsHeartbeat(packet) || IsEndOfSession(packet) {
          expectedSequence := firstSeq;
          endOfSession := IsEndOfSession(packet);
        } else {
          expectedSequence := Add64(LastSequence(packet), 1);
        }
        return NO_GAP;
      }
      var curSession := NormalizeSession(currentSession);
      if newSession != curSession {
        currentSession := packet.header.session;
        endOfSession := false;
        if IsHeartbeat(packet) || IsEndOfSession(packet) {
          expectedSequence := firstSeq;
          endOfSession := IsEndOfSession(packet);
        } else {
          expectedSequence := Add64(LastSequence(packet), 1);
        }
        return SESSION_ROLLOVER;
      }
      var gapInfo := NO_GAP;
      if firstSeq > expectedSequence {
        gapInfo := Gap(expectedSequence, firstSeq - expectedSequence);
      } else if firstSeq < expectedSequence {
        return OUT_OF_ORDER_PACKET;
      }
      if IsHeartbeat(packet) {
        expectedSequence := firstSeq;
      } else if IsEndOfSession(packet) {
        expectedSequence := firstSeq;
        endOfSession := true;
      } else {
        expectedSequence := Add64(LastSequence(packet), 1);
      }
      return gapInfo;
    }

    method CurrentSession() returns (s: seq<char8>)
      ensures s == SessionKey(currentSession)
    {
      s := NormalizeSession(currentSession);
    }

    method Reset()
      modifies this
      ensures State() == INITIAL_TRACKER
    {
      expectedSequence := 0;
      initialized := false;
      endOfSession := false;
      currentSession := "\0\0\0\0\0\0\0\0\0\0";
    }
  }

  // ------------------------------------------------- properties of Track

  /** The first packet initializes the tracker and never reports a gap. */
  lemma TrackFirstPacket(s: TrackerState, p: Packet)
    requires !s.initialized
    ensures Track(s, p).info == NO_GAP
    ensures Track(s, p).state.initialized
    ensures Track(s, p).state.currentSession == p.header.session
    ensures Track(s, p).state.expectedSequence == NextExpected(p)
  {
  }

  /** A change of normalized session resets the sequence and reports only the change. */
  lemma TrackSessionChange(s: TrackerState, p: Packet)
    requires s.initialized && SessionKey(p.header.session) != SessionKey(s.currentSession)
    ensures var o := Track(s, p);
      && o.info.sessionChanged && !o.info.hasGap && !o.info.outOfOrder
      && o.state.expectedSequence == NextExpected(p)
      && o.state.endOfSession == IsEndOfSession(p)
      && o.state.currentSession == p.header.session
  {
  }

  /** `sessionChanged` is reported exactly when an initialized tracker sees a new session. */
  lemma SessionChangedExactly(s: TrackerState, p: Packet)
    ensures Track(s, p).info.sessionChanged
        <==> s.initialized && SessionKey(p.header.session) != SessionKey(s.currentSession)
  {
  }

  /** Within a session, a packet starting beyond the expected sequence reports the missing range. */
  lemma TrackGap(s: TrackerState, p: Packet)
    requires s.initialized && SessionKey(p.header.session) == SessionKey(s.currentSession)
    requires FirstSequence(p) > s.expectedSequence
    ensures var o := Track(s, p);
      && o.info.hasGap && !o.info.outOfOrder && !o.info.sessionChanged
      && o.info.gapStart == s.expectedSequence
      && o.info.gapStart + o.info.gapCount == FirstSequence(p)
      && o.state.expectedSequence == NextExpected(p)
      && o.state.endOfSession == (s.endOfSession || IsEndOfSession(p))
  {
  }

  /** A packet starting before the expected sequence is reported and changes nothing. */
  lemma TrackOutOfOrder(s: TrackerState, p: Packet)
    requires s.initialized && SessionKey(p.header.session) == SessionKey(s.currentSession)
    requires FirstSequence(p) < s.expectedSequence
    ensures Track(s, p) == Outcome(s, OUT_OF_ORDER_PACKET)
  {
  }

  /** A packet starting at the expected sequence is in order and advances the tracker. */
  lemma TrackInOrder(s: TrackerState, p: Packet)
    requires s.initialized && SessionKey(p.header.session) == SessionKey(s.currentSession)
    requires FirstSequence(p) == s.expectedSequence
    ensures Track(s, p).info == NO_GAP
    ensures Track(s, p).state == s.(expectedSequence := NextExpected(p), endOfSession := s.endOfSession || IsEndOfSession(p))
  {
  }

  /** At most one kind of event is reported, and a gap is never empty. */
  lemma ReportsAreExclusive(s: TrackerState, p: Packet)
    ensures var i := Track(s, p).info;
      && !(i.hasGap && i.outOfOrder) && !(i.hasGap && i.sessionChanged) && !(i.outOfOrder && i.sessionChanged)
      && (i.hasGap <==> i.gapCount > 0)
  {
  }

  /** The reports for a run of packets fed one after the other. */
  function TrackAll(s: TrackerState, ps: seq<Packet>): (r: seq<GapInfo>)
    ensures |r| == |ps|
    decreases |ps|
  {
    if |ps| == 0 then [] else [Track(s, ps[0]).info] + TrackAll(Track(s, ps[0]).state, ps[1..])
  }

  function FinalState(s: TrackerState, ps: seq<Packet>): TrackerState
    decreases |ps|
  {
    if |ps| == 0 then s else FinalState(Track(s, ps[0]).state, ps[1..])
  }

  /** Each packet starts where the one before it said the next would. */
  predicate Contiguous(s: TrackerState, ps: seq<Packet>)
  {
    && (forall k :: 0 <= k < |ps| ==> SessionKey(ps[k].header.session) == SessionKey(s.currentSession))
    && (|ps| > 0 ==> FirstSequence(ps[0]) == s.expectedSequence)
    && (forall k :: 0 <= k < |ps| - 1 ==> FirstSequence(ps[k + 1]) == NextExpected(ps[k]))
  }

  /**
   * An initialized tracker fed contiguous packets of its own session reports
   * no gap, no reordering and no session change, and ends up expecting what
   * the last packet announced.
   */
  lemma {:induction false} ContiguousStreamHasNoGaps(s: TrackerState, ps: seq<Packet>)
    requires s.initialized && Contiguous(s, ps)
    ensures forall k :: 0 <= k < |ps| ==> TrackAll(s, ps)[k] == NO_GAP
    ensures |ps| > 0 ==> FinalState(s, ps).expectedSequence == NextExpected(ps[|ps| - 1])
    ensures SessionKey(FinalState(s, ps).currentSession) == SessionKey(s.currentSession)
    decreases |ps|
  {
    if |ps| > 0 {
      var s' := Track(s, ps[0]).state;
      TrackInOrder(s, ps[0]);
      var rest := ps[1..];
      assert Contiguous(s', rest) by {
        forall k | 0 <= k < |rest| ensures SessionKey(rest[k].header.session) == SessionKey(s'.currentSession) {
          assert rest[k] == ps[k + 1];
        }
        forall k | 0 <= k < |rest| - 1 ensures FirstSequence(rest[k + 1]) == NextExpected(rest[k]) {
          assert rest[k] == ps[k + 1] && rest[k + 1] == ps[k + 2];
        }
        if |rest| > 0 {
          assert rest[0] == ps[1];
        }
      }
      ContiguousStreamHasNoGaps(s', rest);
      forall k | 0 < k < |ps| ensures TrackAll(s, ps)[k] == NO_GAP {
        assert TrackAll(s, ps)[k] == TrackAll(s', rest)[k - 1];
      }
      if |rest| > 0 {
        assert rest[|rest| - 1] == ps[|ps| - 1];
      }
    }
  }

  // ------------------------------------------------------------- scenarios

  /** A one-message packet from session `name` at `sequence`. */
  function OneMessage(name: SessionId, sequence: u64): Packet
  {
    Packet(Header(name, sequence, 1), [MessageBlock(22, 3, sequence)])
  }

  /** Gap detection: 100 then 105 in one session reports [101, 105). */
  method GapScenario() returns (infos: seq<GapInfo>, expected: seq<u64>, ended: bool)
    ensures infos == [NO_GAP, Gap(101, 4), Gap(106, 4), NO_GAP]
    ensures expected == [101, 106, 110, 110]
    ensures ended
  {
    var tracker := new SequenceTracker();
    var a := tracker.ProcessPacket(OneMessage("GAP0000001", 100));
    var e1 := tracker.expectedSequence;
    var b := tracker.ProcessPacket(OneMessage("GAP0000001", 105));
    var e2 := tracker.expectedSequence;
    var heartbeat := Packet(Header("GAP0000001", 110, HEARTBEAT_COUNT), []);
    var c := tracker.ProcessPacket(heartbeat);
    var e3 := tracker.expectedSequence;
    var eos := Packet(Header("GAP0000001", 110, END_OF_SESSION), []);
    var d := tracker.ProcessPacket(eos);
    infos := [a, b, c, d];
    expected := [e1, e2, e3, tracker.expectedSequence];
    ended := tracker.endOfSession;
  }

  /** Session rollover: a new session starting at 1 reports the change and no gap. */
  method RolloverScenario() returns (infos: seq<GapInfo>, expected: seq<u64>)
    ensures infos == [NO_GAP, SESSION_ROLLOVER, OUT_OF_ORDER_PACKET]
    ensures expected == [101, 2, 2]
  {
    var tracker := new SequenceTracker();
    var a := tracker.ProcessPacket(OneMessage("SESSION001", 100));
    var e1 := tracker.expectedSequence;
    var s1: SessionId := "SESSION001";
    var s2: SessionId := "SESSION002";
    StripTrailingUnique(s1, SESSION_PADS, 10);
    StripTrailingUnique(s2, SESSION_PADS, 10);
    assert s1[..10] != s2[..10] by { assert s1[9] != s2[9]; }
    var b := tracker.ProcessPacket(OneMessage("SESSION002", 1));
    var e2 := tracker.expectedSequence;
    var c := tracker.ProcessPacket(OneMessage("SESSION002", 1));
    infos := [a, b, c];
    expected := [e1, e2, tracker.expectedSequence];
  }
}
