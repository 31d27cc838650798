/** The fetch-messages batch decoder.  The message header's byte layout is
    not part of this model: it is a codec of some positive size whose parse
    function may fail.  s2 decompression is a partial function parameter;
    where it fails the Go code panics, and the model returns
    `DecompressionFailed`. */
module FetchMessages {
  import opened Wrappers
  import opened Errors
  import opened Bytes
  import opened Contracts
  import opened WireEncoding

  datatype HeaderCodec = HeaderCodec(size: nat, parse: seq<byte> -> Result<MessageHeader, Error>)

  type Decompressor = seq<byte> -> Option<seq<byte>>

  /** The batch preamble: partition id u32, current offset u64, message count u32. */
  const PREAMBLE_SIZE: nat := 16

  /** The payload as handed to the caller: decompressed only for the s2
      variants and only when the whole response is at least 32 bytes long. */
  function Unpack(s2: Decompressor, compression: Compression, total: nat, raw: seq<byte>): (r: Result<seq<byte>, Error>)
    ensures compression == NoCompression || total < 32 ==> r == Success(raw)
    ensures compression != NoCompression && total >= 32 ==>
      (r.Success? <==> s2(raw).Some?) && (r.Success? ==> r.value == s2(raw).value)
    ensures r.Failure? ==> r.error == DecompressionFailed
  {
    if compression != NoCompression && total >= 32 then
      match s2(raw)
      case Some(p) => Success(p)
      case None => Failure(DecompressionFailed)
    else
      Success(raw)
  }

  /** The user headers after the payload; absent when the length is 0. */
  function UserHeadersAt(buf: seq<byte>, pos: nat, n: nat): (r: Result<Option<seq<byte>>, Error>)
    ensures r.Success? <==> n == 0 || pos + n <= |buf|
    ensures r.Success? ==> (r.value.None? <==> n == 0)
    ensures r.Success? && r.value.Some? ==> r.value.value == buf[pos..pos + n]
    ensures r.Failure? ==> r.error == Truncated
  {
    if n == 0 then Success(None)
    else
      var bs :- Slice(buf, pos, n);
      Success(Some(bs))
  }

  /** User headers are present exactly when the header announces some, and
      then have the announced length. */
  predicate UserHeadersMatch(m: Message) {
    && (m.userHeaders.None? <==> m.header.userHeaderLength == 0)
    && (m.userHeaders.Some? ==> |m.userHeaders.value| == m.header.userHeaderLength)
  }

  /** One turn of the message loop at `pos`: `None` where the loop stops
      without error (no byte follows a full header, or the payload would run
      past the end), otherwise the message and where the next one starts. */
  function MessageAt(codec: HeaderCodec, s2: Decompressor, compression: Compression,
                     buf: seq<byte>, pos: nat): (r: Result<Option<(Message, nat)>, Error>)
    requires codec.size > 0
    ensures pos + codec.size >= |buf| ==> r == Success(None)
    ensures r.Success? && r.value.Some? ==>
              && pos < r.value.value.1 <= |buf|
              && UserHeadersMatch(r.value.value.0)
              && r.value.value.0.header.payloadLength + r.value.value.0.header.userHeaderLength
                 == r.value.value.1 - pos - codec.size
  {
    if pos >= |buf| || pos + codec.size >= |buf| then
      Success(None)
    else
      var header :- codec.parse(buf[pos..pos + codec.size]);
      var start := pos + codec.size;
      var payloadEnd := start + header.payloadLength;
      if payloadEnd > |buf| then
        Success(None)
      else
        var userHeaders :- UserHeadersAt(buf, payloadEnd, header.userHeaderLength);
        var payload :- Unpack(s2, compression, |buf|, buf[start..payloadEnd]);
        Success(Some((Message(header, payload, userHeaders), payloadEnd + header.userHeaderLength)))
  }

  /** The message loop from `pos`. */
  function DecodeMessages(codec: HeaderCodec, s2: Decompressor, compression: Compression,
                          buf: seq<byte>, pos: nat): (r: Result<seq<Message>, Error>)
    requires codec.size > 0
    ensures pos + codec.size >= |buf| ==> r == Success([])
    ensures r.Success? ==> forall i :: 0 <= i < |r.value| ==> UserHeadersMatch(r.value[i])
    ensures r.Success? && pos <= |buf| ==> |r.value| <= |buf| - pos
    decreases |buf| - pos
  {
    var step :- MessageAt(codec, s2, compression, buf, pos);
    match step
    case None => Success([])
    case Some((m, next)) =>
      var rest :- DecodeMessages(codec, s2, compression, buf, next);
      Success([m] + rest)
  }

  /** `DeserializeFetchMessagesResponse`. */
  function DeserializeFetchMessages(codec: HeaderCodec, s2: Decompressor, compression: Compression,
                                    payload: seq<byte>): (r: Result<FetchMessagesResponse, Error>)
    requires codec.size > 0
    ensures |payload| == 0 ==> r == Success(FetchMessagesResponse(0, 0, [], 0))
    ensures 0 < |payload| < PREAMBLE_SIZE ==> r == Failure(Truncated)
    ensures r.Success? && |payload| > 0 ==>
              && r.value.partitionId == LeValue(payload[0..4])
              && r.value.currentOffset == LeValue(payload[4..12])
              && r.value.messageCount == LeValue(payload[12..16])
    ensures r.Success? ==> forall i :: 0 <= i < |r.value.messages| ==> UserHeadersMatch(r.value.messages[i])
  {
    if |payload| == 0 then
      Success(FetchMessagesResponse(0, 0, [], 0))
    else
      var partitionId :- U32At(payload, 0);
      var currentOffset :- U64At(payload, 4);
      var messageCount :- U32At(payload, 12);
      var messages :- DecodeMessages(codec, s2, compression, payload, PREAMBLE_SIZE);
      Success(FetchMessagesResponse(partitionId, currentOffset, messages, messageCount))
  }

  // ----- the sending side -----

  function UserHeaderBytes(u: Option<seq<byte>>): seq<byte> {
    if u.Some? then u.value else []
  }

  /** A message on the wire: header, payload as sent (`wire` is the identity
      without compression, an s2 compressor with it), user headers. */
  function EncodeMessage(enc: MessageHeader -> seq<byte>, wire: seq<byte> -> seq<byte>, m: Message): seq<byte> {
    enc(m.header) + wire(m.payload) + UserHeaderBytes(m.userHeaders)
  }

  /** The header announces the lengths that follow it, and the body after the
      header is not empty. */
  predicate WellFormed(wire: seq<byte> -> seq<byte>, m: Message) {
    && m.header.payloadLength == |wire(m.payload)|
    && m.header.userHeaderLength == |UserHeaderBytes(m.userHeaders)|
    && (m.userHeaders.None? <==> m.header.userHeaderLength == 0)
    && m.header.payloadLength + m.header.userHeaderLength >= 1
  }

  /** Bytes at the end the loop drops: an incomplete header, nothing after a
      header, or a header whose payload runs past the end. */
  predicate IgnoredTail(codec: HeaderCodec, tail: seq<byte>) {
    || |tail| <= codec.size
    || (codec.parse(tail[..codec.size]).Success?
        && codec.size + codec.parse(tail[..codec.size]).value.payloadLength > |tail|)
  }

  function MessageBytes(enc: MessageHeader -> seq<byte>, wire: seq<byte> -> seq<byte>, ms: seq<Message>): seq<byte> {
    Flatten(ms, m => EncodeMessage(enc, wire, m))
  }

  lemma MessageBytesUnfold(enc: MessageHeader -> seq<byte>, wire: seq<byte> -> seq<byte>, ms: seq<Message>)
    requires |ms| > 0
    ensures MessageBytes(enc, wire, ms) == EncodeMessage(enc, wire, ms[0]) + MessageBytes(enc, wire, ms[1..])
  {
  }

  /** What a message needs so that the loop gives it back: a header the codec
      reads back, lengths that match, and a payload that unpacks to itself. */
  predicate Sendable(codec: HeaderCodec, s2: Decompressor, compression: Compression,
                     enc: MessageHeader -> seq<byte>, wire: seq<byte> -> seq<byte>, total: nat, m: Message) {
    && |enc(m.header)| == codec.size
    && codec.parse(enc(m.header)) == Success(m.header)
    && WellFormed(wire, m)
    && Unpack(s2, compression, total, wire(m.payload)) == Success(m.payload)
  }

  /** Every message of `ms` is sendable. */
  predicate AllSendable(codec: HeaderCodec, s2: Decompressor, compression: Compression,
                        enc: MessageHeader -> seq<byte>, wire: seq<byte> -> seq<byte>, total: nat, ms: seq<Message>) {
    |ms| == 0 || (Sendable(codec, s2, compression, enc, wire, total, ms[0])
                  && AllSendable(codec, s2, compression, enc, wire, total, ms[1..]))
  }

  lemma {:induction false} AllSendableOf(codec: HeaderCodec, s2: Decompressor, compression: Compression,
                                         enc: MessageHeader -> seq<byte>, wire: seq<byte> -> seq<byte>,
                                         total: nat, ms: seq<Message>)
    requires forall i :: 0 <= i < |ms| ==> Sendable(codec, s2, compression, enc, wire, total, ms[i])
    ensures AllSendable(codec, s2, compression, enc, wire, total, ms)
    decreases |ms|
  {
    if |ms| > 0 {
      assert forall i :: 0 <= i < |ms[1..]| ==> ms[1..][i] == ms[i + 1];
      AllSendableOf(codec, s2, compression, enc, wire, total, ms[1..]);
    }
  }

  /** One sendable message at `pos` is read back whole, and the loop goes on
      right after it. */
  lemma MessageStep(
    codec: HeaderCodec, s2: Decompressor, compression: Compression,
    enc: MessageHeader -> seq<byte>, wire: seq<byte> -> seq<byte>,
    m: Message, buf: seq<byte>, pos: nat)
    requires codec.size > 0 && Sendable(codec, s2, compression, enc, wire, |buf|, m)
    requires Holds(buf, pos, EncodeMessage(enc, wire, m))
    ensures MessageAt(codec, s2, compression, buf, pos) == Success(Some((m, pos + |EncodeMessage(enc, wire, m)|)))
  {
    var h, p, u := enc(m.header), wire(m.payload), UserHeaderBytes(m.userHeaders);
    HoldsSplit(buf, pos, h + p, u);
    HoldsSplit(buf, pos, h, p);
    var start := pos + codec.size;
    var payloadEnd := start + |p|;
    HoldsIff(buf, pos, h);
    HoldsIff(buf, start, p);
    HoldsSlice(buf, payloadEnd, u);
    assert UserHeadersAt(buf, payloadEnd, m.header.userHeaderLength) == Success(m.userHeaders);
  }

  /** The loop decodes nothing from a tail it drops. */
  lemma TailDecodesEmpty(codec: HeaderCodec, s2: Decompressor, compression: Compression,
                         tail: seq<byte>, buf: seq<byte>, pos: nat)
    requires codec.size > 0 && IgnoredTail(codec, tail)
    requires pos <= |buf| && buf[pos..] == tail
    ensures DecodeMessages(codec, s2, compression, buf, pos) == Success([])
  {
    if pos + codec.size < |buf| {
      assert buf[pos..pos + codec.size] == tail[..codec.size];
      assert MessageAt(codec, s2, compression, buf, pos) == Success(None);
    }
  }

  /** The first message of a run sits at `pos`, and the rest follows it. */
  lemma SplitFirstMessage(enc: MessageHeader -> seq<byte>, wire: seq<byte> -> seq<byte>,
                          ms: seq<Message>, tail: seq<byte>, buf: seq<byte>, pos: nat)
    requires |ms| > 0 && pos <= |buf| && buf[pos..] == MessageBytes(enc, wire, ms) + tail
    ensures Holds(buf, pos, EncodeMessage(enc, wire, ms[0]))
    ensures buf[pos + |EncodeMessage(enc, wire, ms[0])|..] == MessageBytes(enc, wire, ms[1..]) + tail
  {
    var e := EncodeMessage(enc, wire, ms[0]);
    var rest := MessageBytes(enc, wire, ms[1..]) + tail;
    MessageBytesUnfold(enc, wire, ms);
    assert buf[pos..] == e + rest;
    assert buf[pos..pos + |e|] == buf[pos..][..|e|];
    assert buf[pos + |e|..] == buf[pos..][|e|..];
    HoldsIff(buf, pos, e);
  }

  /** A message read at `pos` goes in front of what the loop reads after it. */
  lemma DecodeMessagesStep(codec: HeaderCodec, s2: Decompressor, compression: Compression,
                           buf: seq<byte>, pos: nat, m: Message, next: nat, rest: seq<Message>)
    requires codec.size > 0
    requires MessageAt(codec, s2, compression, buf, pos) == Success(Some((m, next)))
    requires DecodeMessages(codec, s2, compression, buf, next) == Success(rest)
    ensures DecodeMessages(codec, s2, compression, buf, pos) == Success([m] + rest)
  {
  }

  /** The first message of a run is read back whole at `pos`, and the rest of
      the run follows it. */
  lemma FirstMessageAt(
    codec: HeaderCodec, s2: Decompressor, compression: Compression,
    enc: MessageHeader -> seq<byte>, wire: seq<byte> -> seq<byte>,
    ms: seq<Message>, tail: seq<byte>, buf: seq<byte>, pos: nat, next: nat)
    requires codec.size > 0 && |ms| > 0
    requires Sendable(codec, s2, compression, enc, wire, |buf|, ms[0])
    requires pos <= |buf| && buf[pos..] == MessageBytes(enc, wire, ms) + tail
    requires next == pos + |EncodeMessage(enc, wire, ms[0])|
    ensures MessageAt(codec, s2, compression, buf, pos) == Success(Some((ms[0], next)))
    ensures next <= |buf| && buf[next..] == MessageBytes(enc, wire, ms[1..]) + tail
  {
    SplitFirstMessage(enc, wire, ms, tail, buf, pos);
    MessageStep(codec, s2, compression, enc, wire, ms[0], buf, pos);
  }

  /** Messages laid end to end, followed by a tail the loop drops, decode to
      those messages in order. */
  lemma {:induction false} MessagesRoundTrip(
    codec: HeaderCodec, s2: Decompressor, compression: Compression,
    enc: MessageHeader -> seq<byte>, wire: seq<byte> -> seq<byte>,
    ms: seq<Message>, tail: seq<byte>, buf: seq<byte>, pos: nat)
    requires codec.size > 0
    requires AllSendable(codec, s2, compression, enc, wire, |buf|, ms)
    requires IgnoredTail(codec, tail)
    requires pos <= |buf| && buf[pos..] == MessageBytes(enc, wire, ms) + tail
    ensures DecodeMessages(codec, s2, compression, buf, pos) == Success(ms)
    decreases |ms|
  {
    if |ms| == 0 {
      TailDecodesEmpty(codec, s2, compression, tail, buf, pos);
    } else {
      var next := pos + |EncodeMessage(enc, wire, ms[0])|;
      FirstMessageAt(codec, s2, compression, enc, wire, ms, tail, buf, pos, next);
      MessagesRoundTrip(codec, s2, compression, enc, wire, ms[1..], tail, buf, next);
      DecodeMessagesStep(codec, s2, compression, buf, pos, ms[0], next, ms[1..]);
      assert [ms[0]] + ms[1..] == ms;
    }
  }

  /** A whole batch without compression: the preamble's values come back as
      sent, the messages come back in order, and the message count is the
      preamble's, not the number of messages decoded. */
  lemma FetchRoundTrip(codec: HeaderCodec, s2: Decompressor, enc: MessageHeader -> seq<byte>,
                       partitionId: nat, currentOffset: nat, count: nat, ms: seq<Message>, tail: seq<byte>)
    requires codec.size > 0
    requires partitionId < U32_LIMIT && currentOffset < U64_LIMIT && count < U32_LIMIT
    requires forall i :: 0 <= i < |ms| ==>
               && |enc(ms[i].header)| == codec.size
               && codec.parse(enc(ms[i].header)) == Success(ms[i].header)
               && WellFormed(p => p, ms[i])
    requires IgnoredTail(codec, tail)
    ensures DeserializeFetchMessages(codec, s2, NoCompression,
              U32Bytes(partitionId) + U64Bytes(currentOffset) + U32Bytes(count) + MessageBytes(enc, p => p, ms) + tail)
            == Success(FetchMessagesResponse(partitionId, currentOffset, ms, count))
  {
    var a, b, c := U32Bytes(partitionId), U64Bytes(currentOffset), U32Bytes(count);
    var body := MessageBytes(enc, p => p, ms) + tail;
    var buf := a + b + c + body;
    assert buf == a + b + c + MessageBytes(enc, p => p, ms) + tail;
    HoldsPrefix(a + b + c, body);
    HoldsSplit(buf, 0, a + b, c);
    HoldsSplit(buf, 0, a, b);
    HoldsU32(buf, 0, partitionId);
    HoldsU64(buf, 4, currentOffset);
    HoldsU32(buf, 12, count);
    assert buf[PREAMBLE_SIZE..] == body;
    AllSendableOf(codec, s2, NoCompression, enc, p => p, |buf|, ms);
    MessagesRoundTrip(codec, s2, NoCompression, enc, p => p, ms, tail, buf, PREAMBLE_SIZE);
  }

  /** With an s2 setting, a response shorter than 32 bytes decodes exactly as
      if it were uncompressed. */
  lemma {:induction false} ShortBatchIsNotDecompressed(
    codec: HeaderCodec, s2: Decompressor, compression: Compression, buf: seq<byte>, pos: nat)
    requires codec.size > 0 && |buf| < 32
    ensures DecodeMessages(codec, s2, compression, buf, pos) == DecodeMessages(codec, s2, NoCompression, buf, pos)
    decreases |buf| - pos
  {
    var step := MessageAt(codec, s2, NoCompression, buf, pos);
    assert MessageAt(codec, s2, compression, buf, pos) == step;
    if step.Success? && step.value.Some? {
      ShortBatchIsNotDecompressed(codec, s2, compression, buf, step.value.value.1);
    }
  }

  /** A batch whose single message has no body after its header yields no
      messages: the loop wants at least one byte after a header. */
  lemma EmptyBodyIsDropped(codec: HeaderCodec, s2: Decompressor, compression: Compression,
                           preamble: seq<byte>, header: seq<byte>)
    requires codec.size > 0 && |preamble| == PREAMBLE_SIZE && |header| == codec.size
    ensures var r := DeserializeFetchMessages(codec, s2, compression, preamble + header);
            r.Success? && r.value.messages == []
  {
    var buf := preamble + header;
    assert U32At(buf, 0).Success? && U64At(buf, 4).Success? && U32At(buf, 12).Success?;
  }
}
