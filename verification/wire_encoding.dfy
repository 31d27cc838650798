/** The server's side of each response layout, written by hand from the
    decoders' offsets, and the proofs that decoding what was encoded gives
    back the records.  A listing is its records' encodings laid end to end. */
module WireEncoding {
  import opened Wrappers
  import opened Errors
  import opened Bytes
  import opened Contracts
  import opened PermissionTree
  import opened PermissionTreeEncoding
  import opened Deserializer

  // ----- field ranges a record must respect to be encodable -----

  predicate ValidStream(s: Stream) {
    && s.id < U32_LIMIT && s.createdAt < U64_LIMIT && s.topicsCount < U32_LIMIT
    && s.sizeBytes < U64_LIMIT && s.messagesCount < U64_LIMIT && |s.name| < 256
  }

  predicate ValidTopic(t: Topic) {
    && t.id < U32_LIMIT && t.createdAt < U64_LIMIT && t.partitionsCount < U32_LIMIT
    && t.messageExpiry < U64_LIMIT && t.maxTopicSize < U64_LIMIT
    && t.sizeBytes < U64_LIMIT && t.messagesCount < U64_LIMIT && |t.name| < 256
  }

  predicate ValidPartition(p: Partition) {
    && p.id < U32_LIMIT && p.createdAt < U64_LIMIT && p.segmentsCount < U32_LIMIT
    && p.currentOffset < U64_LIMIT && p.sizeBytes < U64_LIMIT && p.messagesCount < U64_LIMIT
  }

  predicate ValidConsumerGroup(g: ConsumerGroup) {
    g.id < U32_LIMIT && g.partitionsCount < U32_LIMIT && g.membersCount < U32_LIMIT && |g.name| < 256
  }

  /** A user as it appears in a listing: no permission block. */
  predicate ValidUserRecord(u: User) {
    u.id < U32_LIMIT && u.createdAt < U64_LIMIT && |u.username| < 256 && u.permissions.None?
  }

  predicate ValidClientInfo(c: Client) {
    && c.id < U32_LIMIT && c.userId < U32_LIMIT && |c.address| < U32_LIMIT
    && c.consumerGroupsCount < U32_LIMIT && c.consumerGroups == []
  }

  /** A listed token whose expiry bytes are present. */
  predicate ValidAccessTokenInfo(t: AccessTokenInfo) {
    |t.name| < 256 && t.expiry.Some? && t.expiry.value < U64_LIMIT
  }

  predicate ValidInt32(v: int) {
    -0x8000_0000 <= v < 0x8000_0000
  }

  predicate ValidGroupInfo(g: ConsumerGroupInfo) {
    ValidInt32(g.streamId) && ValidInt32(g.topicId) && ValidInt32(g.consumerGroupId)
  }

  // ----- encoders -----

  function LengthByte(n: nat): seq<byte> {
    [(n % 256) as byte]
  }

  function EncodeStream(s: Stream): seq<byte> {
    U32Bytes(s.id) + U64Bytes(s.createdAt) + U32Bytes(s.topicsCount) + U64Bytes(s.sizeBytes)
      + U64Bytes(s.messagesCount) + LengthByte(|s.name|) + s.name
  }

  /** The topic record up to and including the compression byte (25 bytes). */
  function TopicHead(t: Topic): seq<byte> {
    U32Bytes(t.id) + U64Bytes(t.createdAt) + U32Bytes(t.partitionsCount) + U64Bytes(t.messageExpiry)
      + [t.compressionAlgorithm]
  }

  /** The rest of the topic record, from the maximum size on. */
  function TopicTail(t: Topic): seq<byte> {
    U64Bytes(t.maxTopicSize) + [t.replicationFactor] + U64Bytes(t.sizeBytes)
      + U64Bytes(t.messagesCount) + LengthByte(|t.name|) + t.name
  }

  function EncodeTopic(t: Topic): seq<byte> {
    TopicHead(t) + TopicTail(t)
  }

  function EncodePartition(p: Partition): seq<byte> {
    U32Bytes(p.id) + U64Bytes(p.createdAt) + U32Bytes(p.segmentsCount) + U64Bytes(p.currentOffset)
      + U64Bytes(p.sizeBytes) + U64Bytes(p.messagesCount)
  }

  function EncodeConsumerGroup(g: ConsumerGroup): seq<byte> {
    U32Bytes(g.id) + U32Bytes(g.partitionsCount) + U32Bytes(g.membersCount)
      + LengthByte(|g.name|) + g.name
  }

  function StatusByte(s: UserStatus): byte {
    if s == Active then 1 else 2
  }

  function EncodeUserRecord(u: User): seq<byte> {
    U32Bytes(u.id) + U64Bytes(u.createdAt) + [StatusByte(u.status)] + LengthByte(|u.username|) + u.username
  }

  /** Unknown is written as 0; any byte other than 1 and 2 reads as Unknown. */
  function TransportByte(t: Transport): byte {
    match t
    case Tcp => 1
    case Quic => 2
    case Unknown => 0
  }

  function EncodeClientInfo(c: Client): seq<byte> {
    U32Bytes(c.id) + U32Bytes(c.userId) + [TransportByte(c.transport)]
      + U32Bytes(|c.address|) + c.address + U32Bytes(c.consumerGroupsCount)
  }

  function EncodeAccessTokenInfo(t: AccessTokenInfo): seq<byte> {
    LengthByte(|t.name|) + t.name + (if t.expiry.Some? then U64Bytes(t.expiry.value) else [])
  }

  /** An int32 as the u32 with the same bits. */
  function Int32Bytes(v: int): seq<byte> {
    U32Bytes(v % U32_LIMIT)
  }

  function EncodeGroupInfo(g: ConsumerGroupInfo): seq<byte> {
    Int32Bytes(g.streamId) + Int32Bytes(g.topicId) + Int32Bytes(g.consumerGroupId)
  }

  /** Records laid end to end. */
  function Flatten<T>(rs: seq<T>, encode: T -> seq<byte>): seq<byte>
  {
    if |rs| == 0 then [] else encode(rs[0]) + Flatten(rs[1..], encode)
  }

  // ----- one record at a position -----

  lemma StreamRecordRoundTrip(buf: seq<byte>, pos: nat, s: Stream)
    requires ValidStream(s) && Holds(buf, pos, EncodeStream(s))
    ensures DecodeToStream(buf, pos) == Success((s, |EncodeStream(s)|))
  {
    var a, b, c, d, e := U32Bytes(s.id), U64Bytes(s.createdAt), U32Bytes(s.topicsCount),
                         U64Bytes(s.sizeBytes), U64Bytes(s.messagesCount);
    var f := LengthByte(|s.name|);
    HoldsSplit(buf, pos, a + b + c + d + e + f, s.name);
    HoldsSplit(buf, pos, a + b + c + d + e, f);
    HoldsSplit(buf, pos, a + b + c + d, e);
    HoldsSplit(buf, pos, a + b + c, d);
    HoldsSplit(buf, pos, a + b, c);
    HoldsSplit(buf, pos, a, b);
    HoldsU32(buf, pos, s.id);
    HoldsU64(buf, pos + 4, s.createdAt);
    HoldsU32(buf, pos + 12, s.topicsCount);
    HoldsU64(buf, pos + 16, s.sizeBytes);
    HoldsU64(buf, pos + 24, s.messagesCount);
    HoldsU8(buf, pos + 32, |s.name|);
    HoldsSlice(buf, pos + 33, s.name);
  }

  lemma TopicHeadFields(buf: seq<byte>, pos: nat, t: Topic)
    requires ValidTopic(t) && Holds(buf, pos, TopicHead(t))
    ensures U32At(buf, pos) == Success(t.id) && U64At(buf, pos + 4) == Success(t.createdAt)
    ensures U32At(buf, pos + 12) == Success(t.partitionsCount) && U64At(buf, pos + 16) == Success(t.messageExpiry)
    ensures U8At(buf, pos + 24) == Success(t.compressionAlgorithm)
  {
    var a, b, c, d := U32Bytes(t.id), U64Bytes(t.createdAt), U32Bytes(t.partitionsCount), U64Bytes(t.messageExpiry);
    HoldsSplit(buf, pos, a + b + c + d, [t.compressionAlgorithm]);
    HoldsSplit(buf, pos, a + b + c, d);
    HoldsSplit(buf, pos, a + b, c);
    HoldsSplit(buf, pos, a, b);
    HoldsU32(buf, pos, t.id);
    HoldsU64(buf, pos + 4, t.createdAt);
    HoldsU32(buf, pos + 12, t.partitionsCount);
    HoldsU64(buf, pos + 16, t.messageExpiry);
    HoldsU8(buf, pos + 24, t.compressionAlgorithm);
  }

  lemma TopicTailFields(buf: seq<byte>, pos: nat, t: Topic)
    requires ValidTopic(t) && Holds(buf, pos, TopicTail(t))
    ensures U64At(buf, pos) == Success(t.maxTopicSize) && U8At(buf, pos + 8) == Success(t.replicationFactor)
    ensures U64At(buf, pos + 9) == Success(t.sizeBytes) && U64At(buf, pos + 17) == Success(t.messagesCount)
    ensures U8At(buf, pos + 25) == Success(|t.name|) && Slice(buf, pos + 26, |t.name|) == Success(t.name)
  {
    var f, g: seq<byte>, h, i, j := U64Bytes(t.maxTopicSize), [t.replicationFactor], U64Bytes(t.sizeBytes),
                                    U64Bytes(t.messagesCount), LengthByte(|t.name|);
    HoldsSplit(buf, pos, f + g + h + i + j, t.name);
    HoldsSplit(buf, pos, f + g + h + i, j);
    HoldsSplit(buf, pos, f + g + h, i);
    HoldsSplit(buf, pos, f + g, h);
    HoldsSplit(buf, pos, f, g);
    HoldsU64(buf, pos, t.maxTopicSize);
    HoldsU8(buf, pos + 8, t.replicationFactor);
    HoldsU64(buf, pos + 9, t.sizeBytes);
    HoldsU64(buf, pos + 17, t.messagesCount);
    HoldsU8(buf, pos + 25, |t.name|);
    HoldsSlice(buf, pos + 26, t.name);
  }

  lemma TopicRecordRoundTrip(buf: seq<byte>, pos: nat, t: Topic)
    requires ValidTopic(t) && Holds(buf, pos, EncodeTopic(t))
    ensures DecodeToTopic(buf, pos) == Success((t, |EncodeTopic(t)|))
  {
    HoldsSplit(buf, pos, TopicHead(t), TopicTail(t));
    TopicHeadFields(buf, pos, t);
    TopicTailFields(buf, pos + 25, t);
  }

  lemma PartitionRecordRoundTrip(buf: seq<byte>, pos: nat, p: Partition)
    requires ValidPartition(p) && Holds(buf, pos, EncodePartition(p))
    ensures DecodePartition(buf, pos) == Success((p, |EncodePartition(p)|))
  {
    var a, b, c := U32Bytes(p.id), U64Bytes(p.createdAt), U32Bytes(p.segmentsCount);
    var d, e, f := U64Bytes(p.currentOffset), U64Bytes(p.sizeBytes), U64Bytes(p.messagesCount);
    HoldsSplit(buf, pos, a + b + c + d + e, f);
    HoldsSplit(buf, pos, a + b + c + d, e);
    HoldsSplit(buf, pos, a + b + c, d);
    HoldsSplit(buf, pos, a + b, c);
    HoldsSplit(buf, pos, a, b);
    HoldsU32(buf, pos, p.id);
    HoldsU64(buf, pos + 4, p.createdAt);
    HoldsU32(buf, pos + 12, p.segmentsCount);
    HoldsU64(buf, pos + 16, p.currentOffset);
    HoldsU64(buf, pos + 24, p.sizeBytes);
    HoldsU64(buf, pos + 32, p.messagesCount);
  }

  lemma ConsumerGroupRecordRoundTrip(buf: seq<byte>, pos: nat, g: ConsumerGroup)
    requires ValidConsumerGroup(g) && Holds(buf, pos, EncodeConsumerGroup(g))
    ensures DecodeToConsumerGroup(buf, pos) == Success((g, |EncodeConsumerGroup(g)|))
  {
    var a, b, c, d := U32Bytes(g.id), U32Bytes(g.partitionsCount), U32Bytes(g.membersCount), LengthByte(|g.name|);
    HoldsSplit(buf, pos, a + b + c + d, g.name);
    HoldsSplit(buf, pos, a + b + c, d);
    HoldsSplit(buf, pos, a + b, c);
    HoldsSplit(buf, pos, a, b);
    HoldsU32(buf, pos, g.id);
    HoldsU32(buf, pos + 4, g.partitionsCount);
    HoldsU32(buf, pos + 8, g.membersCount);
    HoldsU8(buf, pos + 12, |g.name|);
    HoldsSlice(buf, pos + 13, g.name);
  }

  lemma UserRecordRoundTrip(buf: seq<byte>, pos: nat, u: User)
    requires ValidUserRecord(u) && Holds(buf, pos, EncodeUserRecord(u))
    ensures DecodeUserRecord(buf, pos) == Success((u, |EncodeUserRecord(u)|))
  {
    var a, b, c, d := U32Bytes(u.id), U64Bytes(u.createdAt), [StatusByte(u.status)], LengthByte(|u.username|);
    HoldsSplit(buf, pos, a + b + c + d, u.username);
    HoldsSplit(buf, pos, a + b + c, d);
    HoldsSplit(buf, pos, a + b, c);
    HoldsSplit(buf, pos, a, b);
    HoldsU32(buf, pos, u.id);
    HoldsU64(buf, pos + 4, u.createdAt);
    HoldsU8(buf, pos + 12, StatusByte(u.status));
    HoldsU8(buf, pos + 13, |u.username|);
    HoldsSlice(buf, pos + 14, u.username);
  }

  /** Where each field of an encoded client record sits. */
  lemma ClientInfoPieces(buf: seq<byte>, pos: nat, c: Client)
    requires Holds(buf, pos, EncodeClientInfo(c))
    ensures Holds(buf, pos, U32Bytes(c.id))
    ensures Holds(buf, pos + 4, U32Bytes(c.userId))
    ensures Holds(buf, pos + 8, [TransportByte(c.transport)])
    ensures Holds(buf, pos + 9, U32Bytes(|c.address|))
    ensures Holds(buf, pos + 13, c.address)
    ensures Holds(buf, pos + 13 + |c.address|, U32Bytes(c.consumerGroupsCount))
  {
    var a, b, t, d := U32Bytes(c.id), U32Bytes(c.userId), [TransportByte(c.transport)], U32Bytes(|c.address|);
    var f := U32Bytes(c.consumerGroupsCount);
    HoldsSplit(buf, pos, a + b + t + d + c.address, f);
    HoldsSplit(buf, pos, a + b + t + d, c.address);
    HoldsSplit(buf, pos, a + b + t, d);
    HoldsSplit(buf, pos, a + b, t);
    HoldsSplit(buf, pos, a, b);
  }

  lemma ClientInfoRoundTrip(buf: seq<byte>, pos: nat, c: Client)
    requires ValidClientInfo(c) && Holds(buf, pos, EncodeClientInfo(c))
    ensures MapClientInfo(buf, pos) == Success((c, |EncodeClientInfo(c)|))
  {
    ClientInfoPieces(buf, pos, c);
    HoldsU32(buf, pos, c.id);
    HoldsU32(buf, pos + 4, c.userId);
    HoldsU8(buf, pos + 8, TransportByte(c.transport));
    HoldsU32(buf, pos + 9, |c.address|);
    HoldsSlice(buf, pos + 13, c.address);
    HoldsU32(buf, pos + 13 + |c.address|, c.consumerGroupsCount);
  }

  lemma AccessTokenInfoRoundTrip(buf: seq<byte>, pos: nat, t: AccessTokenInfo)
    requires ValidAccessTokenInfo(t) && Holds(buf, pos, EncodeAccessTokenInfo(t))
    ensures DecodeAccessTokenInfo(buf, pos) == Success((t, |EncodeAccessTokenInfo(t)|))
  {
    var a, e := LengthByte(|t.name|), U64Bytes(t.expiry.value);
    HoldsSplit(buf, pos, a + t.name, e);
    HoldsSplit(buf, pos, a, t.name);
    HoldsU8(buf, pos, |t.name|);
    HoldsSlice(buf, pos + 1, t.name);
    HoldsIff(buf, pos + 1 + |t.name|, e);
    Pow256Values();
    LeValueOfLeBytes(t.expiry.value, 8);
  }

  // ----- listings -----

  /** Every record of `rs`, wherever it is encoded, decodes to itself and
      takes exactly its encoding's bytes. */
  ghost predicate ReadsBack<T>(decode: RecordDecoder<T>, encode: T -> seq<byte>, rs: seq<T>) {
    forall i, buf, pos :: 0 <= i < |rs| && Holds(buf, pos, encode(rs[i])) ==>
      decode(buf, pos) == Success((rs[i], |encode(rs[i])|))
  }

  /** The first record of `rs`, encoded at `pos`, is read back there. */
  lemma ReadsFirst<T>(decode: RecordDecoder<T>, encode: T -> seq<byte>, rs: seq<T>, buf: seq<byte>, pos: nat)
    requires AdvancesAtLeast(decode, 1) && ReadsBack(decode, encode, rs)
    requires |rs| > 0 && Holds(buf, pos, encode(rs[0]))
    ensures decode(buf, pos) == Success((rs[0], |encode(rs[0])|))
    ensures 1 <= |encode(rs[0])| && pos < |buf|
  {
    assert decode(buf, pos).value.1 >= 1;
  }

  /** Records laid end to end from `pos`: the first one whole, the rest after it. */
  lemma FlattenFirst<T>(encode: T -> seq<byte>, rs: seq<T>, buf: seq<byte>, pos: nat)
    requires |rs| > 0 && pos <= |buf| && buf[pos..] == Flatten(rs, encode)
    ensures Holds(buf, pos, encode(rs[0]))
    ensures pos + |encode(rs[0])| <= |buf| && buf[pos + |encode(rs[0])|..] == Flatten(rs[1..], encode)
  {
    var e := encode(rs[0]);
    var rest := Flatten(rs[1..], encode);
    assert buf[pos..] == e + rest;
    assert buf[pos..pos + |e|] == (e + rest)[..|e|];
    assert buf[pos + |e|..] == buf[pos..][|e|..];
    HoldsIff(buf, pos, e);
  }

  /** One turn of the listing loop: a record read at `pos`, then the rest. */
  lemma DecodeAllStep<T>(decode: RecordDecoder<T>, buf: seq<byte>, pos: nat, x: T, n: nat, xs: seq<T>)
    requires AdvancesAtLeast(decode, 1) && pos < |buf|
    requires decode(buf, pos) == Success((x, n)) && DecodeAll(decode, buf, pos + n) == Success(xs)
    ensures DecodeAll(decode, buf, pos) == Success([x] + xs)
  {
  }

  /** The listing loop over records laid end to end yields those records in
      order. */
  lemma {:induction false} DecodeAllFlatten<T>(
    decode: RecordDecoder<T>, encode: T -> seq<byte>, rs: seq<T>, buf: seq<byte>, pos: nat)
    requires AdvancesAtLeast(decode, 1) && ReadsBack(decode, encode, rs)
    requires pos <= |buf| && buf[pos..] == Flatten(rs, encode)
    ensures DecodeAll(decode, buf, pos) == Success(rs)
    decreases |rs|
  {
    if |rs| == 0 {
      assert pos >= |buf|;
    } else {
      var n := |encode(rs[0])|;
      FlattenFirst(encode, rs, buf, pos);
      ReadsFirst(decode, encode, rs, buf, pos);
      ReadsBackTail(decode, encode, rs);
      DecodeAllFlatten(decode, encode, rs[1..], buf, pos + n);
      DecodeAllStep(decode, buf, pos, rs[0], n, rs[1..]);
      assert [rs[0]] + rs[1..] == rs;
    }
  }

  /** A strict, non-empty prefix of any record's encoding at the end of the
      buffer is refused. */
  ghost predicate RejectsPrefixes<T>(decode: RecordDecoder<T>, encode: T -> seq<byte>, rs: seq<T>) {
    forall i: int, buf: seq<byte>, pos: nat ::
      (0 <= i < |rs| && pos < |buf| < pos + |encode(rs[i])| && buf[pos..] == encode(rs[i])[..|buf| - pos])
      ==> decode(buf, pos).Failure?
  }

  lemma ReadsBackTail<T>(decode: RecordDecoder<T>, encode: T -> seq<byte>, rs: seq<T>)
    requires |rs| > 0 && ReadsBack(decode, encode, rs)
    ensures ReadsBack(decode, encode, rs[1..])
  {
    forall i, b, p | 0 <= i < |rs[1..]| && Holds(b, p, encode(rs[1..][i]))
      ensures decode(b, p) == Success((rs[1..][i], |encode(rs[1..][i])|))
    {
      assert rs[1..][i] == rs[i + 1];
    }
  }

  lemma RejectsPrefixesTail<T>(decode: RecordDecoder<T>, encode: T -> seq<byte>, rs: seq<T>)
    requires |rs| > 0 && RejectsPrefixes(decode, encode, rs)
    ensures RejectsPrefixes(decode, encode, rs[1..])
  {
    forall i: int, b: seq<byte>, p: nat | 0 <= i < |rs[1..]| && p < |b| < p + |encode(rs[1..][i])|
                                        && b[p..] == encode(rs[1..][i])[..|b| - p]
      ensures decode(b, p).Failure?
    {
      assert rs[1..][i] == rs[i + 1];
    }
  }

  /** A short read, the refusal of the decoders that do not check their bounds. */
  predicate IsTruncated(e: Error) {
    e == Truncated
  }

  /** A message error, the refusal of the user decoder. */
  predicate IsPlain(e: Error) {
    e.Plain?
  }

  /** Every failure of the decoder is one that `allowed` admits. */
  ghost predicate FailsWithin<T>(decode: RecordDecoder<T>, allowed: Error -> bool) {
    forall buf, pos :: decode(buf, pos).Failure? ==> allowed(decode(buf, pos).error)
  }

  /** The records before some cut, or a refusal that `allowed` admits. */
  ghost predicate PrefixOrRefused<T>(r: Result<seq<T>, Error>, rs: seq<T>, allowed: Error -> bool) {
    && (r.Success? ==> exists j :: 0 <= j <= |rs| && r.value == rs[..j])
    && (r.Failure? ==> allowed(r.error))
  }

  /** A listing cut off at any byte decodes to the records before the cut, or
      is refused with one of the record decoder's own errors; it never yields
      a record that was not sent. */
  lemma {:induction false} DecodeAllTruncated<T>(
    decode: RecordDecoder<T>, encode: T -> seq<byte>, rs: seq<T>, buf: seq<byte>, pos: nat, k: nat,
    allowed: Error -> bool)
    requires AdvancesAtLeast(decode, 1) && ReadsBack(decode, encode, rs)
    requires RejectsPrefixes(decode, encode, rs) && FailsWithin(decode, allowed)
    requires k <= |Flatten(rs, encode)|
    requires pos <= |buf| && buf[pos..] == Flatten(rs, encode)[..k]
    ensures PrefixOrRefused(DecodeAll(decode, buf, pos), rs, allowed)
    decreases |rs|
  {
    if k == 0 {
      assert pos >= |buf|;
      assert DecodeAll(decode, buf, pos).value == rs[..0];
    } else if k < |encode(rs[0])| {
      CutInsideFirst(decode, encode, rs, buf, pos, k, allowed);
    } else {
      var n := |encode(rs[0])|;
      CutAfterFirst(encode, rs, buf, pos, k);
      ReadsFirst(decode, encode, rs, buf, pos);
      ReadsBackTail(decode, encode, rs);
      RejectsPrefixesTail(decode, encode, rs);
      DecodeAllTruncated(decode, encode, rs[1..], buf, pos + n, k - n, allowed);
      PrependFirst(decode, rs, buf, pos, n, allowed);
    }
  }

  lemma CutInsideFirst<T>(
    decode: RecordDecoder<T>, encode: T -> seq<byte>, rs: seq<T>, buf: seq<byte>, pos: nat, k: nat,
    allowed: Error -> bool)
    requires AdvancesAtLeast(decode, 1) && RejectsPrefixes(decode, encode, rs) && FailsWithin(decode, allowed)
    requires |rs| > 0 && 0 < k < |encode(rs[0])|
    requires pos <= |buf| && buf[pos..] == Flatten(rs, encode)[..k]
    ensures DecodeAll(decode, buf, pos) == Failure(decode(buf, pos).error)
    ensures allowed(DecodeAll(decode, buf, pos).error)
  {
    var e := encode(rs[0]);
    assert Flatten(rs, encode) == e + Flatten(rs[1..], encode);
    assert buf[pos..] == e[..k];
    assert |buf| == pos + k;
    assert decode(buf, pos).Failure?;
  }

  lemma PrependFirst<T>(decode: RecordDecoder<T>, rs: seq<T>, buf: seq<byte>, pos: nat, n: nat,
                        allowed: Error -> bool)
    requires AdvancesAtLeast(decode, 1) && |rs| > 0
    requires pos < |buf| && decode(buf, pos) == Success((rs[0], n))
    requires PrefixOrRefused(DecodeAll(decode, buf, pos + n), rs[1..], allowed)
    ensures PrefixOrRefused(DecodeAll(decode, buf, pos), rs, allowed)
  {
    var tail := DecodeAll(decode, buf, pos + n);
    if tail.Success? {
      var j :| 0 <= j <= |rs[1..]| && tail.value == rs[1..][..j];
      assert DecodeAll(decode, buf, pos).value == [rs[0]] + rs[1..][..j] == rs[..j + 1];
    }
  }

  /** A cut past the first record leaves that record whole and the rest cut. */
  lemma CutAfterFirst<T>(encode: T -> seq<byte>, rs: seq<T>, buf: seq<byte>, pos: nat, k: nat)
    requires |rs| > 0 && |encode(rs[0])| <= k <= |Flatten(rs, encode)|
    requires pos <= |buf| && buf[pos..] == Flatten(rs, encode)[..k]
    ensures Holds(buf, pos, encode(rs[0]))
    ensures buf[pos + |encode(rs[0])|..] == Flatten(rs[1..], encode)[..k - |encode(rs[0])|]
  {
    var e := encode(rs[0]);
    var rest := Flatten(rs[1..], encode);
    assert Flatten(rs, encode) == e + rest;
    assert buf[pos..pos + |e|] == buf[pos..][..|e|];
    assert (e + rest)[..k][..|e|] == e;
    assert buf[pos + |e|..] == buf[pos..][|e|..];
    assert (e + rest)[..k][|e|..] == rest[..k - |e|];
    HoldsIff(buf, pos, e);
  }

  lemma StreamPrefixRejected(buf: seq<byte>, pos: nat, s: Stream)
    requires ValidStream(s) && pos < |buf| < pos + |EncodeStream(s)|
    requires buf[pos..] == EncodeStream(s)[..|buf| - pos]
    ensures DecodeToStream(buf, pos).Failure?
  {
    if pos + 33 <= |buf| {
      var e := EncodeStream(s);
      assert e[32] == |s.name|;
      assert buf[pos + 32] == buf[pos..][32] == e[32];
    }
  }

  lemma TopicPrefixRejected(buf: seq<byte>, pos: nat, t: Topic)
    requires ValidTopic(t) && pos < |buf| < pos + |EncodeTopic(t)|
    requires buf[pos..] == EncodeTopic(t)[..|buf| - pos]
    ensures DecodeToTopic(buf, pos).Failure?
  {
    if pos + 51 <= |buf| {
      var e := EncodeTopic(t);
      assert e[50] == TopicTail(t)[25] == |t.name|;
      assert buf[pos + 50] == buf[pos..][50] == e[50];
    }
  }

  lemma ConsumerGroupPrefixRejected(buf: seq<byte>, pos: nat, g: ConsumerGroup)
    requires ValidConsumerGroup(g) && pos < |buf| < pos + |EncodeConsumerGroup(g)|
    requires buf[pos..] == EncodeConsumerGroup(g)[..|buf| - pos]
    ensures DecodeToConsumerGroup(buf, pos).Failure?
  {
    if pos + 13 <= |buf| {
      var e := EncodeConsumerGroup(g);
      assert e[12] == |g.name|;
      assert buf[pos + 12] == buf[pos..][12] == e[12];
    }
  }

  lemma UserPrefixRejected(buf: seq<byte>, pos: nat, u: User)
    requires ValidUserRecord(u) && pos < |buf| < pos + |EncodeUserRecord(u)|
    requires buf[pos..] == EncodeUserRecord(u)[..|buf| - pos]
    ensures DecodeUserRecord(buf, pos).Failure?
  {
    if pos + 14 <= |buf| {
      var e := EncodeUserRecord(u);
      assert e[12] == StatusByte(u.status) && e[13] == |u.username|;
      assert buf[pos + 12] == buf[pos..][12] == e[12];
      assert buf[pos + 13] == buf[pos..][13] == e[13];
    }
  }

  lemma ClientPrefixRejected(buf: seq<byte>, pos: nat, c: Client)
    requires ValidClientInfo(c) && pos < |buf| < pos + |EncodeClientInfo(c)|
    requires buf[pos..] == EncodeClientInfo(c)[..|buf| - pos]
    ensures MapClientInfo(buf, pos).Failure?
  {
    if pos + 13 <= |buf| {
      var e := EncodeClientInfo(c);
      assert e[9..13] == U32Bytes(|c.address|);
      assert buf[pos + 9..pos + 13] == buf[pos..][9..13] == e[9..13];
      Pow256Values();
      LeValueOfLeBytes(|c.address|, 4);
      assert AddressLengthAt(buf, pos) == |c.address|;
    }
  }

  /** A stream listing cut off anywhere gives the streams before the cut or
      `Truncated`. */
  lemma StreamsTruncated(ss: seq<Stream>, k: nat)
    requires forall i :: 0 <= i < |ss| ==> ValidStream(ss[i])
    requires k <= |Flatten(ss, EncodeStream)|
    ensures PrefixOrRefused(DeserializeStreams(Flatten(ss, EncodeStream)[..k]), ss, IsTruncated)
  {
    forall i, buf, pos | 0 <= i < |ss| && Holds(buf, pos, EncodeStream(ss[i]))
      ensures DecodeToStream(buf, pos) == Success((ss[i], |EncodeStream(ss[i])|))
    {
      StreamRecordRoundTrip(buf, pos, ss[i]);
    }
    forall i: int, buf: seq<byte>, pos: nat | 0 <= i < |ss| && pos < |buf| < pos + |EncodeStream(ss[i])|
                         && buf[pos..] == EncodeStream(ss[i])[..|buf| - pos]
      ensures DecodeToStream(buf, pos).Failure?
    {
      StreamPrefixRejected(buf, pos, ss[i]);
    }
    var buf := Flatten(ss, EncodeStream)[..k];
    assert buf[0..] == buf;
    DecodeAllTruncated(DecodeToStream, EncodeStream, ss, buf, 0, k, IsTruncated);
  }

  /** The same for topics. */
  lemma TopicsTruncated(ts: seq<Topic>, k: nat)
    requires forall i :: 0 <= i < |ts| ==> ValidTopic(ts[i])
    requires k <= |Flatten(ts, EncodeTopic)|
    ensures PrefixOrRefused(DeserializeTopics(Flatten(ts, EncodeTopic)[..k]), ts, IsTruncated)
  {
    forall i, buf, pos | 0 <= i < |ts| && Holds(buf, pos, EncodeTopic(ts[i]))
      ensures DecodeToTopic(buf, pos) == Success((ts[i], |EncodeTopic(ts[i])|))
    {
      TopicRecordRoundTrip(buf, pos, ts[i]);
    }
    forall i: int, buf: seq<byte>, pos: nat | 0 <= i < |ts| && pos < |buf| < pos + |EncodeTopic(ts[i])|
                         && buf[pos..] == EncodeTopic(ts[i])[..|buf| - pos]
      ensures DecodeToTopic(buf, pos).Failure?
    {
      TopicPrefixRejected(buf, pos, ts[i]);
    }
    var buf := Flatten(ts, EncodeTopic)[..k];
    assert buf[0..] == buf;
    DecodeAllTruncated(DecodeToTopic, EncodeTopic, ts, buf, 0, k, IsTruncated);
  }

  /** The same for consumer groups. */
  lemma ConsumerGroupsTruncated(gs: seq<ConsumerGroup>, k: nat)
    requires forall i :: 0 <= i < |gs| ==> ValidConsumerGroup(gs[i])
    requires k <= |Flatten(gs, EncodeConsumerGroup)|
    ensures PrefixOrRefused(DeserializeConsumerGroups(Flatten(gs, EncodeConsumerGroup)[..k]), gs, IsTruncated)
  {
    forall i, buf, pos | 0 <= i < |gs| && Holds(buf, pos, EncodeConsumerGroup(gs[i]))
      ensures DecodeToConsumerGroup(buf, pos) == Success((gs[i], |EncodeConsumerGroup(gs[i])|))
    {
      ConsumerGroupRecordRoundTrip(buf, pos, gs[i]);
    }
    forall i: int, buf: seq<byte>, pos: nat | 0 <= i < |gs| && pos < |buf| < pos + |EncodeConsumerGroup(gs[i])|
                         && buf[pos..] == EncodeConsumerGroup(gs[i])[..|buf| - pos]
      ensures DecodeToConsumerGroup(buf, pos).Failure?
    {
      ConsumerGroupPrefixRejected(buf, pos, gs[i]);
    }
    var buf := Flatten(gs, EncodeConsumerGroup)[..k];
    assert buf[0..] == buf;
    DecodeAllTruncated(DecodeToConsumerGroup, EncodeConsumerGroup, gs, buf, 0, k, IsTruncated);
  }

  /** The same for clients. */
  lemma ClientsTruncated(cs: seq<Client>, k: nat)
    requires forall i :: 0 <= i < |cs| ==> ValidClientInfo(cs[i])
    requires k <= |Flatten(cs, EncodeClientInfo)|
    ensures PrefixOrRefused(DeserializeClients(Flatten(cs, EncodeClientInfo)[..k]), cs, IsTruncated)
  {
    forall i, buf, pos | 0 <= i < |cs| && Holds(buf, pos, EncodeClientInfo(cs[i]))
      ensures MapClientInfo(buf, pos) == Success((cs[i], |EncodeClientInfo(cs[i])|))
    {
      ClientInfoRoundTrip(buf, pos, cs[i]);
    }
    forall i: int, buf: seq<byte>, pos: nat | 0 <= i < |cs| && pos < |buf| < pos + |EncodeClientInfo(cs[i])|
                         && buf[pos..] == EncodeClientInfo(cs[i])[..|buf| - pos]
      ensures MapClientInfo(buf, pos).Failure?
    {
      ClientPrefixRejected(buf, pos, cs[i]);
    }
    var buf := Flatten(cs, EncodeClientInfo)[..k];
    assert buf[0..] == buf;
    if k > 0 {
      DecodeAllTruncated(MapClientInfo, EncodeClientInfo, cs, buf, 0, k, IsTruncated);
    } else {
      assert DeserializeClients(buf).value == cs[..0];
    }
  }

  /** A user listing cut off anywhere gives the users before the cut or one
      of the user decoder's message errors; an empty cut is the listing's own
      "empty payload" error. */
  lemma UsersTruncated(us: seq<User>, k: nat)
    requires forall i :: 0 <= i < |us| ==> ValidUserRecord(us[i])
    requires k <= |Flatten(us, EncodeUserRecord)|
    ensures PrefixOrRefused(DeserializeUsers(Flatten(us, EncodeUserRecord)[..k]), us, IsPlain)
  {
    forall i, buf, pos | 0 <= i < |us| && Holds(buf, pos, EncodeUserRecord(us[i]))
      ensures DecodeUserRecord(buf, pos) == Success((us[i], |EncodeUserRecord(us[i])|))
    {
      UserRecordRoundTrip(buf, pos, us[i]);
    }
    forall i: int, buf: seq<byte>, pos: nat | 0 <= i < |us| && pos < |buf| < pos + |EncodeUserRecord(us[i])|
                         && buf[pos..] == EncodeUserRecord(us[i])[..|buf| - pos]
      ensures DecodeUserRecord(buf, pos).Failure?
    {
      UserPrefixRejected(buf, pos, us[i]);
    }
    var buf := Flatten(us, EncodeUserRecord)[..k];
    assert buf[0..] == buf;
    if k > 0 {
      DecodeAllTruncated(DecodeUserRecord, EncodeUserRecord, us, buf, 0, k, IsPlain);
    }
  }

  lemma StreamsRoundTrip(ss: seq<Stream>)
    requires forall i :: 0 <= i < |ss| ==> ValidStream(ss[i])
    ensures DeserializeStreams(Flatten(ss, EncodeStream)) == Success(ss)
  {
    forall i, buf, pos | 0 <= i < |ss| && Holds(buf, pos, EncodeStream(ss[i]))
      ensures DecodeToStream(buf, pos) == Success((ss[i], |EncodeStream(ss[i])|))
    {
      StreamRecordRoundTrip(buf, pos, ss[i]);
    }
    DecodeAllFlatten(DecodeToStream, EncodeStream, ss, Flatten(ss, EncodeStream), 0);
  }

  lemma TopicsListingRoundTrip(buf: seq<byte>, pos: nat, ts: seq<Topic>)
    requires forall i :: 0 <= i < |ts| ==> ValidTopic(ts[i])
    requires pos <= |buf| && buf[pos..] == Flatten(ts, EncodeTopic)
    ensures DecodeAll(DecodeToTopic, buf, pos) == Success(ts)
  {
    forall i, b, p | 0 <= i < |ts| && Holds(b, p, EncodeTopic(ts[i]))
      ensures DecodeToTopic(b, p) == Success((ts[i], |EncodeTopic(ts[i])|))
    {
      TopicRecordRoundTrip(b, p, ts[i]);
    }
    DecodeAllFlatten(DecodeToTopic, EncodeTopic, ts, buf, pos);
  }

  lemma TopicsRoundTrip(ts: seq<Topic>)
    requires forall i :: 0 <= i < |ts| ==> ValidTopic(ts[i])
    ensures DeserializeTopics(Flatten(ts, EncodeTopic)) == Success(ts)
  {
    TopicsListingRoundTrip(Flatten(ts, EncodeTopic), 0, ts);
  }

  lemma ConsumerGroupsRoundTrip(gs: seq<ConsumerGroup>)
    requires forall i :: 0 <= i < |gs| ==> ValidConsumerGroup(gs[i])
    ensures DeserializeConsumerGroups(Flatten(gs, EncodeConsumerGroup)) == Success(gs)
  {
    forall i, buf, pos | 0 <= i < |gs| && Holds(buf, pos, EncodeConsumerGroup(gs[i]))
      ensures DecodeToConsumerGroup(buf, pos) == Success((gs[i], |EncodeConsumerGroup(gs[i])|))
    {
      ConsumerGroupRecordRoundTrip(buf, pos, gs[i]);
    }
    DecodeAllFlatten(DecodeToConsumerGroup, EncodeConsumerGroup, gs, Flatten(gs, EncodeConsumerGroup), 0);
  }

  lemma UsersRoundTrip(us: seq<User>)
    requires |us| >= 1
    requires forall i :: 0 <= i < |us| ==> ValidUserRecord(us[i])
    ensures DeserializeUsers(Flatten(us, EncodeUserRecord)) == Success(us)
  {
    forall i, buf, pos | 0 <= i < |us| && Holds(buf, pos, EncodeUserRecord(us[i]))
      ensures DecodeUserRecord(buf, pos) == Success((us[i], |EncodeUserRecord(us[i])|))
    {
      UserRecordRoundTrip(buf, pos, us[i]);
    }
    DecodeAllFlatten(DecodeUserRecord, EncodeUserRecord, us, Flatten(us, EncodeUserRecord), 0);
  }

  lemma ClientsRoundTrip(cs: seq<Client>)
    requires forall i :: 0 <= i < |cs| ==> ValidClientInfo(cs[i])
    ensures DeserializeClients(Flatten(cs, EncodeClientInfo)) == Success(cs)
  {
    forall i, buf, pos | 0 <= i < |cs| && Holds(buf, pos, EncodeClientInfo(cs[i]))
      ensures MapClientInfo(buf, pos) == Success((cs[i], |EncodeClientInfo(cs[i])|))
    {
      ClientInfoRoundTrip(buf, pos, cs[i]);
    }
    DecodeAllFlatten(MapClientInfo, EncodeClientInfo, cs, Flatten(cs, EncodeClientInfo), 0);
  }

  lemma AccessTokensRoundTrip(ts: seq<AccessTokenInfo>)
    requires |ts| >= 1
    requires forall i :: 0 <= i < |ts| ==> ValidAccessTokenInfo(ts[i])
    ensures DeserializeAccessTokens(Flatten(ts, EncodeAccessTokenInfo)) == Success(ts)
  {
    forall i, buf, pos | 0 <= i < |ts| && Holds(buf, pos, EncodeAccessTokenInfo(ts[i]))
      ensures DecodeAccessTokenInfo(buf, pos) == Success((ts[i], |EncodeAccessTokenInfo(ts[i])|))
    {
      AccessTokenInfoRoundTrip(buf, pos, ts[i]);
    }
    DecodeAllFlatten(DecodeAccessTokenInfo, EncodeAccessTokenInfo, ts, Flatten(ts, EncodeAccessTokenInfo), 0);
  }

  /** A token without its expiry bytes, last in the payload, is still listed;
      its expiry is absent and the position moves past the end. */
  lemma TruncatedTokenAtEnd(prefix: seq<byte>, name: seq<byte>)
    requires |name| < 256
    ensures DecodeAccessTokenInfo(prefix + LengthByte(|name|) + name, |prefix|)
              == Success((AccessTokenInfo(name, None), 9 + |name|))
  {
    var buf := prefix + LengthByte(|name|) + name;
    assert buf[|prefix|] == |name|;
    assert buf[|prefix| + 1..|prefix| + 1 + |name|] == name;
  }

  // ----- single-object responses -----

  lemma StreamDetailsRoundTrip(s: Stream, ts: seq<Topic>)
    requires ValidStream(s) && forall i :: 0 <= i < |ts| ==> ValidTopic(ts[i])
    ensures DeserializeStream(EncodeStream(s) + Flatten(ts, EncodeTopic)) == Success(StreamDetails(s, ts))
  {
    var e := EncodeStream(s);
    var buf := e + Flatten(ts, EncodeTopic);
    HoldsPrefix(e, Flatten(ts, EncodeTopic));
    StreamRecordRoundTrip(buf, 0, s);
    assert buf[|e|..] == Flatten(ts, EncodeTopic);
    TopicsListingRoundTrip(buf, |e|, ts);
  }

  lemma TopicDetailsRoundTrip(t: Topic, ps: seq<Partition>)
    requires ValidTopic(t) && forall i :: 0 <= i < |ps| ==> ValidPartition(ps[i])
    ensures DeserializeTopic(EncodeTopic(t) + Flatten(ps, EncodePartition)) == Success(TopicDetails(t, ps))
  {
    var e := EncodeTopic(t);
    var buf := e + Flatten(ps, EncodePartition);
    HoldsPrefix(e, Flatten(ps, EncodePartition));
    TopicRecordRoundTrip(buf, 0, t);
    assert buf[|e|..] == Flatten(ps, EncodePartition);
    forall i, b, p | 0 <= i < |ps| && Holds(b, p, EncodePartition(ps[i]))
      ensures DecodePartition(b, p) == Success((ps[i], |EncodePartition(ps[i])|))
    {
      PartitionRecordRoundTrip(b, p, ps[i]);
    }
    DecodeAllFlatten(DecodePartition, EncodePartition, ps, buf, |e|);
  }

  lemma ConsumerGroupRoundTrip(g: ConsumerGroup, rest: seq<byte>)
    requires ValidConsumerGroup(g)
    ensures DeserializeConsumerGroup(EncodeConsumerGroup(g) + rest) == Success(g)
  {
    HoldsPrefix(EncodeConsumerGroup(g), rest);
    ConsumerGroupRecordRoundTrip(EncodeConsumerGroup(g) + rest, 0, g);
  }

  /** The permissions branch of `DeserializeUser`, one step at a time. */
  lemma UserWithBlockUnfold(payload: seq<byte>, u: User, n: nat, len: nat, block: seq<byte>, p: Permissions)
    requires DecodeUserRecord(payload, 0) == Success((u, n))
    requires U8At(payload, n) == Success(1)
    requires U32At(payload, n + 1) == Success(len)
    requires Slice(payload, n + 5, len) == Success(block)
    requires DeserializePermissions(block) == Success(p)
    ensures DeserializeUser(payload) == Success(u.(permissions := Some(p)))
  {
  }

  /** Where the pieces sit in a user record followed by presence byte 1, the
      block's length and the block. */
  lemma UserWithBlockLayout(buf: seq<byte>, e: seq<byte>, block: seq<byte>)
    requires |block| < U32_LIMIT && buf == e + [1] + U32Bytes(|block|) + block
    ensures Holds(buf, 0, e)
    ensures U8At(buf, |e|) == Success(1)
    ensures U32At(buf, |e| + 1) == Success(|block|)
    ensures Slice(buf, |e| + 5, |block|) == Success(block)
  {
    HoldsWhole(buf);
    HoldsSplit(buf, 0, e + [1] + U32Bytes(|block|), block);
    HoldsSplit(buf, 0, e + [1], U32Bytes(|block|));
    HoldsSplit(buf, 0, e, [1]);
    HoldsU8(buf, |e|, 1);
    HoldsU32(buf, |e| + 1, |block|);
    HoldsSlice(buf, |e| + 5, block);
  }

  /** A user followed by a permission block decodes to the user carrying the
      block's tree. */
  lemma UserWithPermissionsRoundTrip(u: User, g: GlobalPermissions, ss: seq<StreamEntry>)
    requires ValidUserRecord(u) && ValidStreamEntries(ss)
    requires |EncodePermissions(g, ss)| < U32_LIMIT
    ensures var block := EncodePermissions(g, ss);
            DeserializeUser(EncodeUserRecord(u) + [1] + U32Bytes(|block|) + block)
              == Success(u.(permissions := Some(Permissions(g, StreamMap(ss, map[])))))
  {
    var block := EncodePermissions(g, ss);
    var e := EncodeUserRecord(u);
    var buf := e + [1] + U32Bytes(|block|) + block;
    UserWithBlockLayout(buf, e, block);
    UserRecordRoundTrip(buf, 0, u);
    HoldsWhole(block);
    PermissionsRoundTrip(block, g, ss);
    UserWithBlockUnfold(buf, u, |e|, |block|, block, Permissions(g, StreamMap(ss, map[])));
  }

  /** A presence byte other than 1 means no permissions, whatever follows. */
  lemma UserWithoutPermissionsRoundTrip(u: User, flag: byte, rest: seq<byte>)
    requires ValidUserRecord(u) && flag != 1
    ensures DeserializeUser(EncodeUserRecord(u) + [flag] + rest) == Success(u)
  {
    var e := EncodeUserRecord(u);
    var buf := e + [flag] + rest;
    HoldsPrefix(e, [flag] + rest);
    assert e + ([flag] + rest) == buf;
    UserRecordRoundTrip(buf, 0, u);
    assert buf[|e|] == flag;
  }

  lemma Int32RoundTrip(v: int)
    requires ValidInt32(v)
    ensures v % U32_LIMIT < U32_LIMIT && ToInt32(v % U32_LIMIT) == v
  {
  }

  lemma {:induction false} TriplesRoundTrip(buf: seq<byte>, pos: nat, gs: seq<ConsumerGroupInfo>)
    requires forall i :: 0 <= i < |gs| ==> ValidGroupInfo(gs[i])
    requires Holds(buf, pos, Flatten(gs, EncodeGroupInfo))
    ensures ConsumerGroupTriples(buf, pos, |gs|) == Success(gs)
    decreases |gs|
  {
    if |gs| > 0 {
      var g := gs[0];
      var a, b, c := Int32Bytes(g.streamId), Int32Bytes(g.topicId), Int32Bytes(g.consumerGroupId);
      HoldsSplit(buf, pos, a + b + c, Flatten(gs[1..], EncodeGroupInfo));
      HoldsSplit(buf, pos, a + b, c);
      HoldsSplit(buf, pos, a, b);
      Int32RoundTrip(g.streamId);
      Int32RoundTrip(g.topicId);
      Int32RoundTrip(g.consumerGroupId);
      HoldsU32(buf, pos, g.streamId % U32_LIMIT);
      HoldsU32(buf, pos + 4, g.topicId % U32_LIMIT);
      HoldsU32(buf, pos + 8, g.consumerGroupId % U32_LIMIT);
      TriplesRoundTrip(buf, pos + 12, gs[1..]);
      assert [ConsumerGroupInfo(g.streamId, g.topicId, g.consumerGroupId)] + gs[1..] == gs;
    }
  }

  /** The decoder's path through a client record announcing `|gs| > 0`
      groups, one round of exactly those triples, and nothing after them. */
  lemma ClientDetailsUnfold(payload: seq<byte>, c: Client, n: nat, gs: seq<ConsumerGroupInfo>)
    requires MapClientInfo(payload, 0) == Success((c, n))
    requires c.consumerGroupsCount == |gs| >= 1
    requires ConsumerGroupTriples(payload, n, |gs|) == Success(gs)
    requires n + 12 * |gs| == |payload|
    ensures DeserializeClient(payload) == Success(c.(consumerGroups := ZeroGroups(|gs|) + gs))
  {
    assert ConsumerGroupRounds(payload, n + 12 * |gs|, |gs|) == Success([]);
    assert gs + [] == gs;
  }

  /** A client record announcing `n > 0` consumer groups and followed by
      exactly `n` triples decodes to `n` zero entries and then the triples. */
  lemma ClientDetailsRoundTrip(c: Client, gs: seq<ConsumerGroupInfo>)
    requires ValidClientInfo(c) && |gs| == c.consumerGroupsCount >= 1
    requires forall i :: 0 <= i < |gs| ==> ValidGroupInfo(gs[i])
    ensures DeserializeClient(EncodeClientInfo(c) + Flatten(gs, EncodeGroupInfo))
              == Success(c.(consumerGroups := ZeroGroups(|gs|) + gs))
  {
    var e := EncodeClientInfo(c);
    var t := Flatten(gs, EncodeGroupInfo);
    var buf := e + t;
    HoldsWhole(buf);
    HoldsSplit(buf, 0, e, t);
    ClientInfoRoundTrip(buf, 0, c);
    TriplesRoundTrip(buf, |e|, gs);
    FlattenGroupLength(gs);
    ClientDetailsUnfold(buf, c, |e|, gs);
  }

  lemma {:induction false} FlattenGroupLength(gs: seq<ConsumerGroupInfo>)
    ensures |Flatten(gs, EncodeGroupInfo)| == 12 * |gs|
    decreases |gs|
  {
    if |gs| > 0 {
      FlattenGroupLength(gs[1..]);
    }
  }

  /** A client announcing no consumer groups but followed by more bytes is
      where the Go code spins forever. */
  lemma ClientWithZeroCountDiverges(c: Client, trailing: seq<byte>)
    requires ValidClientInfo(c) && c.consumerGroupsCount == 0 && |trailing| > 0
    ensures DeserializeClient(EncodeClientInfo(c) + trailing) == Failure(NonTerminating)
  {
    HoldsPrefix(EncodeClientInfo(c), trailing);
    ClientInfoRoundTrip(EncodeClientInfo(c) + trailing, 0, c);
  }

  /** The intended client decoder returns exactly the triples sent, for any
      count including 0. */
  lemma ClientDetailsIntendedRoundTrip(c: Client, gs: seq<ConsumerGroupInfo>, trailing: seq<byte>)
    requires ValidClientInfo(c) && |gs| == c.consumerGroupsCount
    requires forall i :: 0 <= i < |gs| ==> ValidGroupInfo(gs[i])
    ensures DeserializeClientIntended(EncodeClientInfo(c) + Flatten(gs, EncodeGroupInfo) + trailing)
              == Success(c.(consumerGroups := gs))
  {
    var e := EncodeClientInfo(c);
    var t := Flatten(gs, EncodeGroupInfo);
    var buf := e + t + trailing;
    HoldsPrefix(e + t, trailing);
    HoldsSplit(buf, 0, e, t);
    ClientInfoRoundTrip(buf, 0, c);
    TriplesRoundTrip(buf, |e|, gs);
  }

  lemma LogInRoundTrip(userId: nat)
    requires userId < U32_LIMIT
    ensures DeserializeLogInResponse(U32Bytes(userId)) == Success(LogInResponse(userId))
  {
    HoldsPrefix(U32Bytes(userId), []);
    assert U32Bytes(userId) + [] == U32Bytes(userId);
    HoldsU32(U32Bytes(userId), 0, userId);
  }

  lemma OffsetRoundTrip(o: OffsetResponse)
    requires o.partitionId < U32_LIMIT && o.currentOffset < U64_LIMIT && o.storedOffset < U64_LIMIT
    ensures DeserializeOffset(U32Bytes(o.partitionId) + U64Bytes(o.currentOffset) + U64Bytes(o.storedOffset))
              == Success(o)
  {
    var a, b, c := U32Bytes(o.partitionId), U64Bytes(o.currentOffset), U64Bytes(o.storedOffset);
    var buf := a + b + c;
    HoldsPrefix(buf, []);
    assert buf + [] == buf;
    HoldsSplit(buf, 0, a + b, c);
    HoldsSplit(buf, 0, a, b);
    HoldsU32(buf, 0, o.partitionId);
    HoldsU64(buf, 4, o.currentOffset);
    HoldsU64(buf, 12, o.storedOffset);
  }

  lemma AccessTokenRoundTrip(token: seq<byte>, rest: seq<byte>)
    requires |token| < 256
    ensures DeserializeAccessToken(LengthByte(|token|) + token + rest) == Success(AccessToken(token))
  {
    var buf := LengthByte(|token|) + token + rest;
    assert buf[0] == |token|;
    assert buf[1..1 + |token|] == token;
  }
}
