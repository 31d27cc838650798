/** The positional decoders for the broker's response payloads.  Each record
    decoder reads at an absolute position and returns the record together
    with the number of bytes the record occupies; the listing decoders start
    at position 0 and advance by that count until the position reaches the
    end of the payload.  No listing carries a record count. */
module Deserializer {
  import opened Wrappers
  import opened Errors
  import opened Bytes
  import opened Contracts
  import opened PermissionTree
  import Decimal

  /** A decoder of one record at a position: the record and its size. */
  type RecordDecoder<T> = (seq<byte>, nat) -> Result<(T, nat), Error>

  /** Every record the decoder returns occupies at least `k` bytes. */
  ghost predicate AdvancesAtLeast<T>(decode: RecordDecoder<T>, k: nat) {
    forall buf, pos :: decode(buf, pos).Success? ==> decode(buf, pos).value.1 >= k
  }

  /** The listing loop: while the position is before the end, decode a record
      there, keep it, and advance past it.  A failing record fails the listing. */
  function DecodeAll<T>(decode: RecordDecoder<T>, buf: seq<byte>, pos: nat): (r: Result<seq<T>, Error>)
    requires AdvancesAtLeast(decode, 1)
    ensures pos >= |buf| ==> r == Success([])
    ensures r.Success? && pos < |buf| ==> 1 <= |r.value| <= |buf| - pos
    ensures r.Success? && pos < |buf| ==> decode(buf, pos).Success? && decode(buf, pos).value.0 == r.value[0]
    decreases |buf| - pos
  {
    if pos >= |buf| then
      Success([])
    else
      var first :- decode(buf, pos);
      var rest :- DecodeAll(decode, buf, pos + first.1);
      Success([first.0] + rest)
  }

  // ----- fixed-layout records -----

  /** `DeserializeToStream`: id u32 at +0, createdAt u64 at +4, topicsCount
      u32 at +12, sizeBytes u64 at +16, messagesCount u64 at +24, a u8 name
      length at +32 and the name from +33. */
  function DecodeToStream(buf: seq<byte>, pos: nat): (r: Result<(Stream, nat), Error>)
    ensures r.Success? <==> pos + 33 <= |buf| && pos + 33 + buf[pos + 32] as int <= |buf|
    ensures r.Success? ==> r.value.1 == 33 + buf[pos + 32] as int == 33 + |r.value.0.name|
    ensures r.Failure? ==> r.error == Truncated
  {
    var id :- U32At(buf, pos);
    var createdAt :- U64At(buf, pos + 4);
    var topicsCount :- U32At(buf, pos + 12);
    var sizeBytes :- U64At(buf, pos + 16);
    var messagesCount :- U64At(buf, pos + 24);
    var nameLength :- U8At(buf, pos + 32);
    var name :- Slice(buf, pos + 33, nameLength);
    Success((Stream(id, createdAt, topicsCount, sizeBytes, messagesCount, name),
             4 + 8 + 4 + 8 + 8 + 1 + nameLength))
  }

  /** `DeserializeToTopic`: id u32 at +0, createdAt u64 at +4, partitionsCount
      u32 at +12, messageExpiry u64 at +16, compression u8 at +24, maxTopicSize
      u64 at +25, replicationFactor u8 at +33, sizeBytes u64 at +34,
      messagesCount u64 at +42, a u8 name length at +50 and the name from +51. */
  function DecodeToTopic(buf: seq<byte>, pos: nat): (r: Result<(Topic, nat), Error>)
    ensures r.Success? <==> pos + 51 <= |buf| && pos + 51 + buf[pos + 50] as int <= |buf|
    ensures r.Success? ==> r.value.1 == 51 + buf[pos + 50] as int == 51 + |r.value.0.name|
    ensures r.Success? ==> r.value.0.compressionAlgorithm == buf[pos + 24]
    ensures r.Success? ==> r.value.0.replicationFactor == buf[pos + 33]
    ensures r.Failure? ==> r.error == Truncated
  {
    var id :- U32At(buf, pos);
    var createdAt :- U64At(buf, pos + 4);
    var partitionsCount :- U32At(buf, pos + 12);
    var messageExpiry :- U64At(buf, pos + 16);
    var compression :- U8At(buf, pos + 24);
    var maxTopicSize :- U64At(buf, pos + 25);
    var replicationFactor :- U8At(buf, pos + 33);
    var sizeBytes :- U64At(buf, pos + 34);
    var messagesCount :- U64At(buf, pos + 42);
    var nameLength :- U8At(buf, pos + 50);
    var name :- Slice(buf, pos + 51, nameLength);
    Success((Topic(id, createdAt, partitionsCount, messageExpiry, compression, maxTopicSize,
                   replicationFactor, sizeBytes, messagesCount, name),
             4 + 8 + 4 + 8 + 8 + 8 + 8 + 1 + 1 + 1 + nameLength))
  }

  /** `DeserializePartition`: a fixed 40-byte record. */
  function DecodePartition(buf: seq<byte>, pos: nat): (r: Result<(Partition, nat), Error>)
    ensures r.Success? <==> pos + 40 <= |buf|
    ensures r.Success? ==> r.value.1 == 40
    ensures r.Failure? ==> r.error == Truncated
  {
    var id :- U32At(buf, pos);
    var createdAt :- U64At(buf, pos + 4);
    var segmentsCount :- U32At(buf, pos + 12);
    var currentOffset :- U64At(buf, pos + 16);
    var sizeBytes :- U64At(buf, pos + 24);
    var messagesCount :- U64At(buf, pos + 32);
    Success((Partition(id, createdAt, segmentsCount, currentOffset, sizeBytes, messagesCount),
             4 + 4 + 8 + 8 + 8 + 8))
  }

  /** `DeserializeToConsumerGroup`: id, partitionsCount and membersCount as
      u32 at +0, +4, +8, a u8 name length at +12 and the name from +13. */
  function DecodeToConsumerGroup(buf: seq<byte>, pos: nat): (r: Result<(ConsumerGroup, nat), Error>)
    ensures r.Success? <==> pos + 13 <= |buf| && pos + 13 + buf[pos + 12] as int <= |buf|
    ensures r.Success? ==> r.value.1 == 13 + buf[pos + 12] as int == 13 + |r.value.0.name|
    ensures r.Failure? ==> r.error == Truncated
  {
    var id :- U32At(buf, pos);
    var partitionsCount :- U32At(buf, pos + 4);
    var membersCount :- U32At(buf, pos + 8);
    var nameLength :- U8At(buf, pos + 12);
    var name :- Slice(buf, pos + 13, nameLength);
    Success((ConsumerGroup(id, partitionsCount, membersCount, name), 12 + 1 + nameLength))
  }

  function StatusOf(b: byte): Option<UserStatus> {
    if b == 1 then Some(Active) else if b == 2 then Some(Inactive) else None
  }

  /** `deserializeUserResponse`, the one decoder that checks its bounds in the
      Go code: id u32 at +0, createdAt u64 at +4, a status byte at +12 and a
      u8 username length at +13, then the username. */
  function DecodeUserRecord(buf: seq<byte>, pos: nat): (r: Result<(User, nat), Error>)
    ensures |buf| < pos + 14 ==> r == Failure(Plain("not enough data to map UserResponse"))
    ensures |buf| >= pos + 14 && buf[pos + 12] != 1 && buf[pos + 12] != 2 ==>
              r == Failure(Plain("invalid user status: " + Decimal.IntString(buf[pos + 12])))
    ensures |buf| >= pos + 14 && (buf[pos + 12] == 1 || buf[pos + 12] == 2) && |buf| < pos + 14 + buf[pos + 13] as int ==>
              r == Failure(Plain("not enough data to map username"))
    ensures r.Success? ==> r.value.1 == 14 + buf[pos + 13] as int == 14 + |r.value.0.username|
    ensures r.Success? ==> (r.value.0.status == Active <==> buf[pos + 12] == 1)
    ensures r.Success? ==> r.value.0.permissions.None?
  {
    if |buf| < pos + 14 then
      Failure(Plain("not enough data to map UserResponse"))
    else
      var id := LeValue(buf[pos..pos + 4]);
      var createdAt := LeValue(buf[pos + 4..pos + 12]);
      var status := buf[pos + 12];
      match StatusOf(status)
      case None => Failure(Plain("invalid user status: " + Decimal.IntString(status)))
      case Some(userStatus) =>
        var usernameLength: nat := buf[pos + 13];
        if |buf| < pos + 14 + usernameLength then
          Failure(Plain("not enough data to map username"))
        else
          var username := buf[pos + 14..pos + 14 + usernameLength];
          Success((User(id, createdAt, userStatus, username, None), 4 + 8 + 1 + 1 + usernameLength))
  }

  function TransportOf(b: byte): (t: Transport)
    ensures t == Tcp <==> b == 1
    ensures t == Quic <==> b == 2
  {
    if b == 1 then Tcp else if b == 2 then Quic else Unknown
  }

  /** The address length of the client record at `pos`, a u32 at +9. */
  function AddressLengthAt(buf: seq<byte>, pos: nat): nat
    requires pos + 13 <= |buf|
  {
    LeValue(buf[pos + 9..pos + 13])
  }

  /** `MapClientInfo`: id u32 at +0, userId u32 at +4, a transport byte at +8,
      a u32 address length at +9, the address from +13, then a u32 count of
      consumer groups.  The consumer groups themselves are not read here. */
  function MapClientInfo(buf: seq<byte>, pos: nat): (r: Result<(Client, nat), Error>)
    ensures r.Success? <==> pos + 13 <= |buf| && pos + 17 + AddressLengthAt(buf, pos) <= |buf|
    ensures r.Success? ==> r.value.1 == 17 + AddressLengthAt(buf, pos) == 17 + |r.value.0.address|
    ensures r.Success? ==> r.value.0.transport == TransportOf(buf[pos + 8])
    ensures r.Success? ==> r.value.0.consumerGroups == []
    ensures r.Failure? ==> r.error == Truncated
  {
    var id :- U32At(buf, pos);
    var userId :- U32At(buf, pos + 4);
    var transportByte :- U8At(buf, pos + 8);
    var addressLength :- U32At(buf, pos + 9);
    var address :- Slice(buf, pos + 13, addressLength);
    var consumerGroupsCount :- U32At(buf, pos + 13 + addressLength);
    Success((Client(id, userId, TransportOf(transportByte), address, consumerGroupsCount, []),
             4 + 1 + 4 + 4 + addressLength + 4))
  }

  /** `deserializeToPersonalAccessTokenResponse`: a u8 name length, the name,
      then a u64 expiry when at least eight bytes follow the name.  The record
      is taken to occupy the eight expiry bytes whether or not they were there. */
  function DecodeAccessTokenInfo(buf: seq<byte>, pos: nat): (r: Result<(AccessTokenInfo, nat), Error>)
    ensures r.Success? <==> pos < |buf| && pos + 1 + buf[pos] as int <= |buf|
    ensures r.Success? ==> r.value.1 == 1 + buf[pos] as int + 8 == 9 + |r.value.0.name|
    ensures r.Success? ==> (r.value.0.expiry.Some? <==> pos + 1 + buf[pos] as int + 8 <= |buf|)
    ensures r.Failure? ==> r.error == Truncated
  {
    var nameLength :- U8At(buf, pos);
    var name :- Slice(buf, pos + 1, nameLength);
    var expiryStart := pos + 1 + nameLength;
    var expiry := if |buf| - expiryStart >= 8 then Some(LeValue(buf[expiryStart..expiryStart + 8])) else None;
    Success((AccessTokenInfo(name, expiry), 1 + nameLength + 8))
  }

  /** Each record decoder moves the position forward by at least its fixed
      part, so every listing loop ends. */
  lemma RecordsAdvance()
    ensures AdvancesAtLeast(DecodeToStream, 33) && AdvancesAtLeast(DecodeToTopic, 51)
    ensures AdvancesAtLeast(DecodePartition, 40) && AdvancesAtLeast(DecodeToConsumerGroup, 13)
    ensures AdvancesAtLeast(DecodeUserRecord, 14) && AdvancesAtLeast(MapClientInfo, 17)
    ensures AdvancesAtLeast(DecodeAccessTokenInfo, 9)
  {
  }

  // ----- listings -----

  function DeserializeStreams(payload: seq<byte>): (r: Result<seq<Stream>, Error>)
    ensures |payload| == 0 ==> r == Success([])
  {
    DecodeAll(DecodeToStream, payload, 0)
  }

  function DeserializeTopics(payload: seq<byte>): (r: Result<seq<Topic>, Error>)
    ensures |payload| == 0 ==> r == Success([])
  {
    DecodeAll(DecodeToTopic, payload, 0)
  }

  function DeserializeConsumerGroups(payload: seq<byte>): (r: Result<seq<ConsumerGroup>, Error>)
    ensures |payload| == 0 ==> r == Success([])
  {
    DecodeAll(DecodeToConsumerGroup, payload, 0)
  }

  /** Unlike the other listings, an empty user listing is an error. */
  function DeserializeUsers(payload: seq<byte>): (r: Result<seq<User>, Error>)
    ensures |payload| == 0 ==> r == Failure(Plain("empty payload"))
    ensures r.Success? ==> |r.value| >= 1
  {
    if |payload| == 0 then Failure(Plain("empty payload")) else DecodeAll(DecodeUserRecord, payload, 0)
  }

  function DeserializeClients(payload: seq<byte>): (r: Result<seq<Client>, Error>)
    ensures |payload| == 0 ==> r == Success([])
  {
    if |payload| == 0 then Success([]) else DecodeAll(MapClientInfo, payload, 0)
  }

  /** An empty token listing is the custom error "Empty payload". */
  function DeserializeAccessTokens(payload: seq<byte>): (r: Result<seq<AccessTokenInfo>, Error>)
    ensures |payload| == 0 ==> r == Failure(Coded(IggyError(9999, "Empty payload")))
  {
    if |payload| == 0 then Failure(Coded(CustomError("Empty payload")))
    else DecodeAll(DecodeAccessTokenInfo, payload, 0)
  }

  // ----- single-object responses -----

  function DeserializeLogInResponse(payload: seq<byte>): (r: Result<LogInResponse, Error>)
    ensures r.Success? <==> 4 <= |payload|
  {
    var userId :- U32At(payload, 0);
    Success(LogInResponse(userId))
  }

  function DeserializeOffset(payload: seq<byte>): (r: Result<OffsetResponse, Error>)
    ensures r.Success? <==> 20 <= |payload|
  {
    var partitionId :- U32At(payload, 0);
    var currentOffset :- U64At(payload, 4);
    var storedOffset :- U64At(payload, 12);
    Success(OffsetResponse(partitionId, currentOffset, storedOffset))
  }

  /** `DeserializerStream`: a stream record, then topic records to the end. */
  function DeserializeStream(payload: seq<byte>): (r: Result<StreamDetails, Error>)
    ensures r.Success? ==> 33 + |r.value.stream.name| <= |payload|
  {
    var stream :- DecodeToStream(payload, 0);
    var topics :- DecodeAll(DecodeToTopic, payload, stream.1);
    Success(StreamDetails(stream.0, topics))
  }

  /** `DeserializeTopic`: a topic record, then 40-byte partition records to
      the end. */
  function DeserializeTopic(payload: seq<byte>): (r: Result<TopicDetails, Error>)
    ensures r.Success? ==> 51 + |r.value.topic.name| <= |payload|
  {
    var topic :- DecodeToTopic(payload, 0);
    var partitions :- DecodeAll(DecodePartition, payload, topic.1);
    Success(TopicDetails(topic.0, partitions))
  }

  /** `DeserializeConsumerGroup`: one record at 0; any bytes after it are
      ignored. */
  function DeserializeConsumerGroup(payload: seq<byte>): (r: Result<ConsumerGroup, Error>)
    ensures r.Success? <==> 13 <= |payload| && 13 + payload[12] as int <= |payload|
  {
    var group :- DecodeToConsumerGroup(payload, 0);
    Success(group.0)
  }

  /** `DeserializeUser`: a user record, then a presence byte; when it is 1, a
      u32 length and a permission block of that length follow. */
  function DeserializeUser(payload: seq<byte>): (r: Result<User, Error>)
    ensures r.Success? ==> 14 + |r.value.username| < |payload|
    ensures r.Success? ==> (r.value.permissions.Some? <==> payload[14 + |r.value.username|] == 1)
  {
    var record :- DecodeUserRecord(payload, 0);
    var position := record.1;
    var hasPermissions :- U8At(payload, position);
    if hasPermissions == 1 then
      var permissionLength :- U32At(payload, position + 1);
      var block :- Slice(payload, position + 5, permissionLength);
      var permissions :- DeserializePermissions(block);
      Success(record.0.(permissions := Some(permissions)))
    else
      Success(record.0)
  }

  /** Go's conversion of a u32 to `int32`: values from 2^31 up wrap to
      negative. */
  function ToInt32(v: nat): (r: int)
    requires v < U32_LIMIT
    ensures -0x8000_0000 <= r < 0x8000_0000
    ensures r % U32_LIMIT == v
  {
    if v < 0x8000_0000 then v else v - U32_LIMIT
  }

  /** `count` consecutive (streamId, topicId, consumerGroupId) triples. */
  function ConsumerGroupTriples(buf: seq<byte>, pos: nat, count: nat): (r: Result<seq<ConsumerGroupInfo>, Error>)
    ensures r.Success? <==> count == 0 || pos + 12 * count <= |buf|
    ensures r.Success? ==> |r.value| == count
    ensures r.Failure? ==> r.error == Truncated
    decreases count
  {
    if count == 0 then
      Success([])
    else
      var streamId :- U32At(buf, pos);
      var topicId :- U32At(buf, pos + 4);
      var consumerGroupId :- U32At(buf, pos + 8);
      var rest :- ConsumerGroupTriples(buf, pos + 12, count - 1);
      Success([ConsumerGroupInfo(ToInt32(streamId), ToInt32(topicId), ToInt32(consumerGroupId))] + rest)
  }

  /** The outer loop of `DeserializeClient`: while the position is before the
      end, read a full round of `count` triples.  With a count of 0 the
      Go code never leaves this loop. */
  function ConsumerGroupRounds(buf: seq<byte>, pos: nat, count: nat): (r: Result<seq<ConsumerGroupInfo>, Error>)
    ensures pos >= |buf| ==> r == Success([])
    ensures pos < |buf| && count == 0 ==> r == Failure(NonTerminating)
    decreases |buf| - pos
  {
    if pos >= |buf| then
      Success([])
    else if count == 0 then
      Failure(NonTerminating)
    else
      var round :- ConsumerGroupTriples(buf, pos, count);
      var rest :- ConsumerGroupRounds(buf, pos + 12 * count, count);
      Success(round + rest)
  }

  function ZeroGroups(count: nat): (r: seq<ConsumerGroupInfo>)
    ensures |r| == count
    ensures forall i :: 0 <= i < count ==> r[i] == ConsumerGroupInfo(0, 0, 0)
  {
    seq(count, _ => ConsumerGroupInfo(0, 0, 0))
  }

  /** `DeserializeClient`: the client record, then rounds of consumer-group
      triples.  The result list starts with `count` zero entries, because the
      Go code pre-sizes the slice and then appends to it. */
  function DeserializeClient(payload: seq<byte>): (r: Result<Client, Error>)
    ensures r.Success? ==> |r.value.consumerGroups| >= r.value.consumerGroupsCount
    ensures r.Success? ==> r.value.consumerGroups[..r.value.consumerGroupsCount] == ZeroGroups(r.value.consumerGroupsCount)
  {
    var info :- MapClientInfo(payload, 0);
    var count := info.0.consumerGroupsCount;
    var groups :- ConsumerGroupRounds(payload, info.1, count);
    assert (ZeroGroups(count) + groups)[..count] == ZeroGroups(count);
    Success(info.0.(consumerGroups := ZeroGroups(count) + groups))
  }

  /** `DeserializeClient` as its layout evidently intends: exactly the
      announced number of triples after the client record, and nothing in
      front of them. */
  function DeserializeClientIntended(payload: seq<byte>): (r: Result<Client, Error>)
    ensures r.Success? ==> |r.value.consumerGroups| == r.value.consumerGroupsCount
    ensures r.Success? <==>
              (&& MapClientInfo(payload, 0).Success?
               && var info := MapClientInfo(payload, 0).value;
                  info.0.consumerGroupsCount == 0 || info.1 + 12 * info.0.consumerGroupsCount <= |payload|)
  {
    var info :- MapClientInfo(payload, 0);
    var groups :- ConsumerGroupTriples(payload, info.1, info.0.consumerGroupsCount);
    Success(info.0.(consumerGroups := groups))
  }

  /** `DeserializeAccessToken`: a u8 length and the token. */
  function DeserializeAccessToken(payload: seq<byte>): (r: Result<AccessToken, Error>)
    ensures r.Success? <==> 1 <= |payload| && 1 + payload[0] as int <= |payload|
    ensures r.Success? ==> r.value.token == payload[1..1 + payload[0] as int]
  {
    var tokenLength :- U8At(payload, 0);
    var token :- Slice(payload, 1, tokenLength);
    Success(AccessToken(token))
  }
}
