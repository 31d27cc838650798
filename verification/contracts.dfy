/** The response records the SDK decodes.  Integer fields are unbounded
    naturals holding what the wire carried (u32 or u64); timestamps and the
    topic's message expiry stay raw microsecond counts.  Names are the raw
    bytes from the wire: the Go code turns them into Go strings without
    validating them as UTF-8. */
module Contracts {
  import opened Wrappers
  import opened Bytes

  datatype Stream = Stream(
    id: nat,
    createdAt: nat,
    topicsCount: nat,
    sizeBytes: nat,
    messagesCount: nat,
    name: seq<byte>)

  /** A stream followed by the topics the server listed after it. */
  datatype StreamDetails = StreamDetails(stream: Stream, topics: seq<Topic>)

  datatype Topic = Topic(
    id: nat,
    createdAt: nat,
    partitionsCount: nat,
    messageExpiry: nat,
    compressionAlgorithm: byte,
    maxTopicSize: nat,
    replicationFactor: byte,
    sizeBytes: nat,
    messagesCount: nat,
    name: seq<byte>)

  /** A topic followed by the partition records the server listed after it. */
  datatype TopicDetails = TopicDetails(topic: Topic, partitions: seq<Partition>)

  datatype Partition = Partition(
    id: nat,
    createdAt: nat,
    segmentsCount: nat,
    currentOffset: nat,
    sizeBytes: nat,
    messagesCount: nat)

  datatype ConsumerGroup = ConsumerGroup(
    id: nat,
    partitionsCount: nat,
    membersCount: nat,
    name: seq<byte>)

  datatype UserStatus = Active | Inactive

  /** A user; `permissions` is only ever present on the single-user response. */
  datatype User = User(
    id: nat,
    createdAt: nat,
    status: UserStatus,
    username: seq<byte>,
    permissions: Option<Permissions>)

  datatype GlobalPermissions = GlobalPermissions(
    manageServers: bool,
    readServers: bool,
    manageUsers: bool,
    readUsers: bool,
    manageStreams: bool,
    readStreams: bool,
    manageTopics: bool,
    readTopics: bool,
    pollMessages: bool,
    sendMessages: bool)

  datatype TopicPermissions = TopicPermissions(
    manageTopic: bool,
    readTopic: bool,
    pollMessages: bool,
    sendMessages: bool)

  datatype StreamPermissions = StreamPermissions(
    manageStream: bool,
    readStream: bool,
    manageTopics: bool,
    readTopics: bool,
    pollMessages: bool,
    sendMessages: bool,
    topics: map<nat, TopicPermissions>)

  datatype Permissions = Permissions(
    global: GlobalPermissions,
    streams: map<nat, StreamPermissions>)

  datatype Transport = Tcp | Quic | Unknown

  /** One (stream, topic, consumer group) membership of a client; the wire
      carries each id as a u32 that the Go code reinterprets as an int32. */
  datatype ConsumerGroupInfo = ConsumerGroupInfo(streamId: int, topicId: int, consumerGroupId: int)

  datatype Client = Client(
    id: nat,
    userId: nat,
    transport: Transport,
    address: seq<byte>,
    consumerGroupsCount: nat,
    consumerGroups: seq<ConsumerGroupInfo>)

  /** A personal access token listing entry; `expiry` is raw microseconds. */
  datatype AccessTokenInfo = AccessTokenInfo(name: seq<byte>, expiry: Option<nat>)

  /** The token returned when one is created. */
  datatype AccessToken = AccessToken(token: seq<byte>)

  datatype LogInResponse = LogInResponse(userId: nat)

  datatype OffsetResponse = OffsetResponse(partitionId: nat, currentOffset: nat, storedOffset: nat)

  datatype Compression = NoCompression | S2 | S2Better | S2Best

  /** The fields of a message header the batch decoder acts on; the header's
      other fields are kept as the bytes they came from. */
  datatype MessageHeader = MessageHeader(payloadLength: nat, userHeaderLength: nat, otherFields: seq<byte>)

  /** A fetched message; `userHeaders` is `None` where the Go code leaves the
      slice nil. */
  datatype Message = Message(header: MessageHeader, payload: seq<byte>, userHeaders: Option<seq<byte>>)

  datatype FetchMessagesResponse = FetchMessagesResponse(
    partitionId: nat,
    currentOffset: nat,
    messages: seq<Message>,
    messageCount: nat)
}
