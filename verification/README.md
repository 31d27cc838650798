# iggy Go SDK wire protocol, modelled in Dafny

This project models the core of the iggy Go client's TCP protocol. It has three parts:

- **Response decoders** (`binary_response_deserializer.go`):
  - positional little-endian decoders for every record the server returns: stream, topic, partition, consumer group, user, client and access token;
  - the listing loops, which have no count prefix and read until the buffer is exhausted;
  - the depth-2 permission tree, driven by continuation bytes;
  - the fetch-messages batch decoder.
- **Framing** (`tcp_core.go`):
  - the request frame `u32 length ++ u32 command ++ message`;
  - the 8-byte response preamble (`u32 code ++ u32 length`);
  - the read-exact and write-all loops over a connection, written as tail recursion with one connection call per step; `ReadRun` and `WriteRun` say how far a script of call outcomes gets;
  - the decision logic that splits a response into success, "soft" error codes (the preamble is returned with the error) and hard errors.
- **Error table** (`errors.go`):
  - the code-to-message table;
  - the small error constructors;
  - the `<code>: '<message>'` rendering.

Every decoder is a pure function over `seq<byte>` that returns a `Result`. The Go code slices without checking and panics when a field runs past the end. The model returns `Failure(Truncated)` at exactly those reads. The user decoder is the only one that checks its own bounds, and its three error messages are kept word for word.

Next to the decoders are hand-written encoders (`WireEncoding`, `PermissionTreeEncoding`) for the server's side of each layout. Lemmas prove that decoding what was encoded gives back the records, in order, with the consumed byte counts the decoders report.

Files:

| file | module | contents |
|---|---|---|
| `wrappers.dfy` | `Wrappers` | `Option` and `Result` |
| `decimal.dfy` | `Decimal` | decimal rendering of integers, and its inverse |
| `errors.dfy` | `Errors` | `IggyError`, the model's `Error`, the translation table, the constructors, the rendering |
| `bytes.dfy` | `Bytes` | bytes, little-endian values, bounds-checked reads, `Holds` (an encoding sits in a buffer at a position) |
| `contracts.dfy` | `Contracts` | the response records |
| `permission_tree.dfy` | `PermissionTree`, `PermissionTreeEncoding` | the permission block decoder, its encoder and round trip |
| `deserializer.dfy` | `Deserializer` | record decoders, the listing loop, single-object responses, the client decoder |
| `wire_encoding.dfy` | `WireEncoding` | record encoders and the round trips for records, listings and single objects; truncated listings |
| `fetch_messages.dfy` | `FetchMessages` | the message batch decoder and its round trip |
| `tcp_core.dfy` | `TcpCore` | frame, preamble, the scripted connection, `Read`, `Write`, `SendAndFetch` |

Behaviour of the Go code that the model keeps as it is:

- **Truncated records in listings.** A partial trailing record is never dropped in silence. The stream, topic, consumer-group, client and access-token decoders slice past the end and panic, and the model returns `Truncated` at those reads. `WireEncoding.StreamsTruncated`, `WireEncoding.TopicsTruncated`, `WireEncoding.ConsumerGroupsTruncated` and `WireEncoding.ClientsTruncated` state what a cut listing gives. The user decoder checks its own bounds, so a cut user listing ends in one of its message errors (`WireEncoding.UsersTruncated`).
- **Empty access-token listing.** An empty payload is not an empty listing. The code returns the custom error "Empty payload" with code 9999, and so does the model.
- **End of the message loop.** The loop stops as soon as no byte follows a full header (`position + MessageHeaderSize >= length`), so a header with nothing after it is dropped.
- **When s2 runs.** The code decompresses only when the whole response is at least 32 bytes long.

## Model

Paths are relative to the repository root. `D` below is `foreign/go/binary_serialization/binary_response_deserializer.go`.

| member | source | states |
|---|---|---|
| Errors.Render | foreign/go/errors/errors.go:27-29 | the text `<code>: '<message>'` reads back as the same code and message, whatever characters the message holds |
| Errors.CustomError | foreign/go/errors/errors.go:31-36 | code 9999 with the message unchanged; it shows as `9999: '<message>'`, and that text reads back as code 9999 with the same message |
| Errors.TextTooLong | foreign/go/errors/errors.go:38-43 | code 9999; the message is the given text followed by exactly `_too_long` |
| Errors.MapFromCode | foreign/go/errors/errors.go:45-50 | the code is kept and the message is the table's entry for it, which is "error" exactly for code 1 and for the codes without an entry of their own |
| Errors.TranslateErrorCode | foreign/go/errors/errors.go:52-306 | the message is "error" exactly for code 1 and for every code without its own entry |
| Errors.GeneralMessage | foreign/go/errors/errors.go:54-135 | below 1000, the message is "error" exactly for code 1 and the codes without an entry of their own |
| Errors.StreamMessage | foreign/go/errors/errors.go:136-167 | from 1000 to 1999, the message is "error" exactly for the codes without an entry |
| Errors.TopicMessage | foreign/go/errors/errors.go:168-203 | from 2000 to 2999, the message is "error" exactly for the codes without an entry |
| Errors.PartitionMessage | foreign/go/errors/errors.go:204-221 | from 3000 to 3999, the message is "error" exactly for the codes without an entry |
| Errors.SegmentMessage | foreign/go/errors/errors.go:222-287 | from 4000 to 4999, the message is "error" exactly for the codes without an entry |
| Errors.ConsumerGroupMessage | foreign/go/errors/errors.go:288-305 | from 5000 up, the message is "error" exactly for the codes without an entry, the default case included |
| Errors.MessageDoesNotIdentifyCode | foreign/go/errors/errors.go:52-306 | code 1 and the unlisted code 46 both read "error", so the message does not identify the code |
| Errors.TableEntries | foreign/go/errors/errors.go:80-161 | 40 reads "unauthenticated", 51 "not_connected", 1012 "stream_name_already_exists" |
| Deserializer.DecodeAll | foreign/go/binary_serialization/binary_response_deserializer.go:50-63 | the listing loop: no records at or past the end; otherwise at least one record, its first from the current position, and never more records than bytes |
| Deserializer.RecordsAdvance | foreign/go/binary_serialization/binary_response_deserializer.go:56-60 | every record decoder advances by at least its fixed part (33, 51, 40, 13, 14, 17, 9 bytes), so each listing loop ends |
| Deserializer.DecodeToStream | foreign/go/binary_serialization/binary_response_deserializer.go:87-108 | succeeds exactly when the 33 fixed bytes and the u8-length name at +32 fit; consumes 33 + name length; otherwise Truncated |
| Deserializer.DecodeToTopic | foreign/go/binary_serialization/binary_response_deserializer.go:215-232 | succeeds exactly when the 51 fixed bytes and the name (length at +50) fit; consumes 51 + name length; compression is byte +24 and replication byte +33 |
| Deserializer.DecodePartition | foreign/go/binary_serialization/binary_response_deserializer.go:234-253 | a partition occupies exactly 40 bytes and needs all of them |
| Deserializer.DecodeToConsumerGroup | foreign/go/binary_serialization/binary_response_deserializer.go:275-292 | succeeds exactly when 13 fixed bytes and the name (length at +12) fit; consumes 13 + name length |
| Deserializer.DecodeUserRecord | foreign/go/binary_serialization/binary_response_deserializer.go:424-456 | fewer than 14 bytes, a status other than 1 or 2, and a username past the end each give their own error message; status 1 is Active; a record consumes 14 + username length; no permissions |
| Deserializer.MapClientInfo | foreign/go/binary_serialization/binary_response_deserializer.go:476-503 | transport byte 1 is Tcp, 2 is Quic, anything else Unknown; the address has a u32 length at +9; the record consumes 17 + address length and needs all of it |
| Deserializer.DecodeAccessTokenInfo | foreign/go/binary_serialization/binary_response_deserializer.go:555-573 | the expiry is present exactly when eight bytes follow the name; the record is counted as 9 + name length either way |
| Deserializer.DeserializeStreams | foreign/go/binary_serialization/binary_response_deserializer.go:50-63 | an empty payload is an empty listing |
| Deserializer.DeserializeTopics | foreign/go/binary_serialization/binary_response_deserializer.go:175-190 | an empty payload is an empty listing |
| Deserializer.DeserializeConsumerGroups | foreign/go/binary_serialization/binary_response_deserializer.go:255-268 | an empty payload is an empty listing |
| Deserializer.DeserializeUsers | foreign/go/binary_serialization/binary_response_deserializer.go:294-313 | an empty payload is the error "empty payload"; a success holds at least one user |
| Deserializer.DeserializeClients | foreign/go/binary_serialization/binary_response_deserializer.go:458-474 | an empty payload is an empty listing |
| Deserializer.DeserializeAccessTokens | foreign/go/binary_serialization/binary_response_deserializer.go:537-553 | an empty payload is the custom error "Empty payload" with code 9999 |
| Deserializer.DeserializeLogInResponse | foreign/go/binary_serialization/binary_response_deserializer.go:31-36 | succeeds exactly when 4 bytes are present |
| Deserializer.DeserializeOffset | foreign/go/binary_serialization/binary_response_deserializer.go:38-48 | succeeds exactly when 20 bytes are present |
| Deserializer.DeserializeStream | foreign/go/binary_serialization/binary_response_deserializer.go:65-85 | a success holds a whole stream record at the start |
| Deserializer.DeserializeTopic | foreign/go/binary_serialization/binary_response_deserializer.go:192-213 | a success holds a whole topic record at the start |
| Deserializer.DeserializeConsumerGroup | foreign/go/binary_serialization/binary_response_deserializer.go:270-273 | succeeds exactly when one whole consumer-group record is at the start |
| Deserializer.DeserializeUser | foreign/go/binary_serialization/binary_response_deserializer.go:315-337 | a byte follows the record, and the user has permissions exactly when that byte is 1 |
| Deserializer.ToInt32 | foreign/go/binary_serialization/binary_response_deserializer.go:512-514 | the int32 reading of a u32 lies in the int32 range and has the same low 32 bits |
| Deserializer.ConsumerGroupTriples | foreign/go/binary_serialization/binary_response_deserializer.go:511-523 | `count` triples succeed exactly when 12 × count bytes are there, and give count entries |
| Deserializer.ConsumerGroupRounds | foreign/go/binary_serialization/binary_response_deserializer.go:510-524 | nothing is read at or past the end; with count 0 and bytes left the loop never ends (NonTerminating) |
| Deserializer.DeserializeClient | foreign/go/binary_serialization/binary_response_deserializer.go:505-527 | the consumer-group list starts with `count` zero entries and has at least `count` entries |
| Deserializer.DeserializeClientIntended | foreign/go/binary_serialization/binary_response_deserializer.go:505-527 | the corrected decoder: exactly `count` entries, and it succeeds exactly when the record and 12 × count bytes fit |
| Deserializer.DeserializeAccessToken | foreign/go/binary_serialization/binary_response_deserializer.go:529-535 | succeeds exactly when the u8 length and the token fit; the token is those bytes |
| PermissionTree.DecodeGlobal | foreign/go/binary_serialization/binary_response_deserializer.go:343-354 | ten flag bytes are needed; which byte values set a flag is stated by `GlobalFlagRule` |
| PermissionTree.DecodeTopicEntries | foreign/go/binary_serialization/binary_response_deserializer.go:374-397 | a run of 9-byte topic entries ends on a continuation byte 0; earlier keys are kept; the rule for every flag and continuation byte value is `TopicEntryRule` |
| PermissionTree.DecodeTopicsAfterGate | foreign/go/binary_serialization/binary_response_deserializer.go:374-398 | topics are read only when the gate byte is 1; otherwise the map is empty and one byte is consumed |
| PermissionTree.DecodeStreamBody | foreign/go/binary_serialization/binary_response_deserializer.go:360-408 | a stream entry occupies at least 11 bytes before its continuation byte; its flag rule is `StreamFlagRule` |
| PermissionTree.DecodeStreamEntries | foreign/go/binary_serialization/binary_response_deserializer.go:358-416 | a run of stream entries needs at least 12 bytes; earlier keys are kept; the rule for every continuation byte value is `StreamRunRule` |
| PermissionTree.DeserializePermissions | foreign/go/binary_serialization/binary_response_deserializer.go:339-422 | at least 11 bytes are needed; streams are read only when byte 10 is 1 |
| PermissionTreeEncoding.GlobalRoundTrip | foreign/go/binary_serialization/binary_response_deserializer.go:343-354 | the ten encoded global flag bytes read back as the flags they encode |
| PermissionTreeEncoding.TopicEntriesRoundTrip | foreign/go/binary_serialization/binary_response_deserializer.go:374-397 | encoded topic entries decode to their map in wire order, consuming 9 bytes each |
| PermissionTreeEncoding.TopicsAfterGateRoundTrip | foreign/go/binary_serialization/binary_response_deserializer.go:374-398 | a gate byte and encoded topics decode to the topic map |
| PermissionTreeEncoding.StreamBodyRoundTrip | foreign/go/binary_serialization/binary_response_deserializer.go:360-408 | an encoded stream entry decodes to its id, flags and topic map |
| PermissionTreeEncoding.StreamEntriesRoundTrip | foreign/go/binary_serialization/binary_response_deserializer.go:358-416 | stream entries laid out one after another, each body followed by its continuation byte (0 on the last), decode to their map in wire order |
| PermissionTreeEncoding.PermissionsRoundTrip | foreign/go/binary_serialization/binary_response_deserializer.go:339-422 | an encoded permission block, whatever follows it, decodes to its global flags and its entries folded into maps |
| PermissionTreeEncoding.LastStreamEntryWins | foreign/go/binary_serialization/binary_response_deserializer.go:400-408 | of several stream entries with the same id, the last one is kept |
| PermissionTreeEncoding.StreamMapKeys | foreign/go/binary_serialization/binary_response_deserializer.go:400-408 | the decoded stream map has exactly the ids of the entries |
| PermissionTreeEncoding.GlobalFlagsSpelled | foreign/go/binary_serialization/binary_response_deserializer.go:343-354 | ten bytes in which each flag is set exactly when its byte is 1 decode to those flags, whatever the other bytes hold |
| PermissionTreeEncoding.GlobalFlagsRead | foreign/go/binary_serialization/binary_response_deserializer.go:343-354 | decoded global flags are set exactly where the first ten bytes are 1; a 0, a 2 or any other value is unset |
| PermissionTreeEncoding.GlobalFlagRule | foreign/go/binary_serialization/binary_response_deserializer.go:343-354 | the global flags decode to `g` if and only if each of the first ten bytes is 1 exactly when its flag in `g` is set |
| PermissionTreeEncoding.TopicEntryRule | foreign/go/binary_serialization/binary_response_deserializer.go:375-397 | a topic entry's four flags are set exactly where their bytes are 1; a continuation byte 0 ends the run, and any other value goes on to the next entry |
| PermissionTreeEncoding.StreamFlagRule | foreign/go/binary_serialization/binary_response_deserializer.go:361-369 | the six flags of a decoded stream entry are set exactly where their bytes after the id are 1 |
| PermissionTreeEncoding.StreamRunRule | foreign/go/binary_serialization/binary_response_deserializer.go:400-415 | after a stream entry, a continuation byte 0 ends the run, and any other value goes on to the next entry |
| WireEncoding.StreamRecordRoundTrip | foreign/go/binary_serialization/binary_response_deserializer.go:87-108 | an encoded stream at any position decodes to itself and consumes its encoding |
| WireEncoding.TopicRecordRoundTrip | foreign/go/binary_serialization/binary_response_deserializer.go:215-232 | an encoded topic at any position decodes to itself and consumes its encoding |
| WireEncoding.TopicHeadFields | foreign/go/binary_serialization/binary_response_deserializer.go:217-221 | the first 25 bytes of a topic hold id, createdAt, partitionsCount, messageExpiry and compression at their offsets |
| WireEncoding.TopicTailFields | foreign/go/binary_serialization/binary_response_deserializer.go:222-228 | the rest holds maxTopicSize, replication, size, message count and name at their offsets |
| WireEncoding.PartitionRecordRoundTrip | foreign/go/binary_serialization/binary_response_deserializer.go:234-253 | an encoded partition decodes to itself |
| WireEncoding.ConsumerGroupRecordRoundTrip | foreign/go/binary_serialization/binary_response_deserializer.go:275-292 | an encoded consumer group decodes to itself |
| WireEncoding.UserRecordRoundTrip | foreign/go/binary_serialization/binary_response_deserializer.go:424-456 | an encoded user decodes to itself |
| WireEncoding.ClientInfoRoundTrip | foreign/go/binary_serialization/binary_response_deserializer.go:476-503 | an encoded client record decodes to itself |
| WireEncoding.AccessTokenInfoRoundTrip | foreign/go/binary_serialization/binary_response_deserializer.go:555-573 | an encoded token with its expiry decodes to itself |
| WireEncoding.DecodeAllFlatten | foreign/go/binary_serialization/binary_response_deserializer.go:50-63 | the listing loop over records laid end to end yields those records in order |
| WireEncoding.StreamsRoundTrip | foreign/go/binary_serialization/binary_response_deserializer.go:50-63 | a stream listing decodes to its streams in order |
| WireEncoding.TopicsListingRoundTrip | foreign/go/binary_serialization/binary_response_deserializer.go:180-187 | topics laid end to end from any position decode in order |
| WireEncoding.TopicsRoundTrip | foreign/go/binary_serialization/binary_response_deserializer.go:175-190 | a topic listing decodes to its topics in order |
| WireEncoding.ConsumerGroupsRoundTrip | foreign/go/binary_serialization/binary_response_deserializer.go:255-268 | a consumer-group listing decodes to its groups in order |
| WireEncoding.UsersRoundTrip | foreign/go/binary_serialization/binary_response_deserializer.go:294-313 | a non-empty user listing decodes to its users in order |
| WireEncoding.ClientsRoundTrip | foreign/go/binary_serialization/binary_response_deserializer.go:458-474 | a client listing decodes to its clients in order |
| WireEncoding.AccessTokensRoundTrip | foreign/go/binary_serialization/binary_response_deserializer.go:537-553 | a non-empty token listing decodes to its tokens in order |
| WireEncoding.TruncatedTokenAtEnd | foreign/go/binary_serialization/binary_response_deserializer.go:558-567 | a last token without expiry bytes is still listed, without expiry, and counted as 9 + name length |
| WireEncoding.DecodeAllTruncated | foreign/go/binary_serialization/binary_response_deserializer.go:50-63 | a listing cut at any byte gives the records before the cut or one of the record decoder's own errors, never a record that was not sent |
| WireEncoding.CutInsideFirst | foreign/go/binary_serialization/binary_response_deserializer.go:56-60 | a cut inside the first record fails the listing with that record's error |
| WireEncoding.StreamPrefixRejected | foreign/go/binary_serialization/binary_response_deserializer.go:87-98 | a stream record cut short at the end of the buffer is refused |
| WireEncoding.TopicPrefixRejected | foreign/go/binary_serialization/binary_response_deserializer.go:215-228 | a topic record cut short at the end of the buffer is refused |
| WireEncoding.ConsumerGroupPrefixRejected | foreign/go/binary_serialization/binary_response_deserializer.go:275-282 | a consumer-group record cut short is refused |
| WireEncoding.UserPrefixRejected | foreign/go/binary_serialization/binary_response_deserializer.go:424-448 | a user record cut short at the end of the buffer is refused |
| WireEncoding.ClientPrefixRejected | foreign/go/binary_serialization/binary_response_deserializer.go:476-497 | a client record cut short at the end of the buffer is refused |
| WireEncoding.StreamsTruncated | foreign/go/binary_serialization/binary_response_deserializer.go:50-63 | a stream listing cut anywhere gives a prefix of its streams or Truncated |
| WireEncoding.TopicsTruncated | foreign/go/binary_serialization/binary_response_deserializer.go:175-190 | a topic listing cut anywhere gives a prefix of its topics or Truncated |
| WireEncoding.ConsumerGroupsTruncated | foreign/go/binary_serialization/binary_response_deserializer.go:255-268 | a consumer-group listing cut anywhere gives a prefix of its groups or Truncated |
| WireEncoding.ClientsTruncated | foreign/go/binary_serialization/binary_response_deserializer.go:458-474 | a client listing cut anywhere gives a prefix of its clients or Truncated |
| WireEncoding.UsersTruncated | foreign/go/binary_serialization/binary_response_deserializer.go:294-313 | a user listing cut anywhere gives a prefix of its users or a message error, the empty cut included |
| WireEncoding.StreamDetailsRoundTrip | foreign/go/binary_serialization/binary_response_deserializer.go:65-85 | a stream followed by topics decodes to the stream with those topics |
| WireEncoding.TopicDetailsRoundTrip | foreign/go/binary_serialization/binary_response_deserializer.go:192-213 | a topic followed by 40-byte partition records decodes to the topic with those partitions |
| WireEncoding.ConsumerGroupRoundTrip | foreign/go/binary_serialization/binary_response_deserializer.go:270-273 | one consumer group, whatever follows, decodes to itself |
| WireEncoding.UserWithPermissionsRoundTrip | foreign/go/binary_serialization/binary_response_deserializer.go:315-329 | a user, presence byte 1, a u32 length and a permission block decode to the user carrying that tree |
| WireEncoding.UserWithoutPermissionsRoundTrip | foreign/go/binary_serialization/binary_response_deserializer.go:330-336 | a presence byte other than 1 gives the user without permissions, whatever follows |
| WireEncoding.Int32RoundTrip | foreign/go/binary_serialization/binary_response_deserializer.go:512-514 | an int32 sent as its u32 bits reads back as itself |
| WireEncoding.TriplesRoundTrip | foreign/go/binary_serialization/binary_response_deserializer.go:511-523 | encoded triples decode to themselves, in order |
| WireEncoding.FlattenGroupLength | foreign/go/binary_serialization/binary_response_deserializer.go:522 | each triple takes 12 bytes |
| WireEncoding.ClientDetailsRoundTrip | foreign/go/binary_serialization/binary_response_deserializer.go:505-527 | a client announcing n ≥ 1 groups followed by n triples decodes to n zero entries and then the triples |
| WireEncoding.ClientWithZeroCountDiverges | foreign/go/binary_serialization/binary_response_deserializer.go:510-524 | a client announcing 0 groups followed by any byte is where the loop never ends |
| WireEncoding.ClientDetailsIntendedRoundTrip | foreign/go/binary_serialization/binary_response_deserializer.go:505-527 | the corrected decoder returns exactly the triples sent, for any count including 0 |
| WireEncoding.LogInRoundTrip | foreign/go/binary_serialization/binary_response_deserializer.go:31-36 | the user id reads back |
| WireEncoding.OffsetRoundTrip | foreign/go/binary_serialization/binary_response_deserializer.go:38-48 | partition id, current offset and stored offset read back |
| WireEncoding.AccessTokenRoundTrip | foreign/go/binary_serialization/binary_response_deserializer.go:529-535 | a length-prefixed token, whatever follows, reads back |
| FetchMessages.Unpack | foreign/go/binary_serialization/binary_response_deserializer.go:148-157 | the payload is untouched without compression or when the whole response is shorter than 32 bytes. Otherwise it succeeds exactly when s2 decodes the payload, with s2's output; a failure is DecompressionFailed |
| FetchMessages.UserHeadersAt | foreign/go/binary_serialization/binary_response_deserializer.go:142-146 | user headers are absent exactly when their length is 0; otherwise they are the next bytes, or Truncated |
| FetchMessages.MessageAt | foreign/go/binary_serialization/binary_response_deserializer.go:126-163 | one turn of the loop stops without error once no byte follows a full header; a message it reads ends inside the buffer, past the current position, after a header, payload and user headers of the announced lengths |
| FetchMessages.DecodeMessages | foreign/go/binary_serialization/binary_response_deserializer.go:125-164 | no message once no byte follows a full header; every message's user headers match its header's length |
| FetchMessages.DeserializeFetchMessages | foreign/go/binary_serialization/binary_response_deserializer.go:110-173 | empty gives zero messages and no error; 1 to 15 bytes is Truncated; partition id, offset and count are the preamble's fields |
| FetchMessages.MessageStep | foreign/go/binary_serialization/binary_response_deserializer.go:130-163 | one sendable message encoded at any position is read back whole by a turn of the loop, which continues right after its last byte |
| FetchMessages.TailDecodesEmpty | foreign/go/binary_serialization/binary_response_deserializer.go:125-138 | a tail of an incomplete header, a header with nothing after it, or a payload running past the end decodes to no messages |
| FetchMessages.MessagesRoundTrip | foreign/go/binary_serialization/binary_response_deserializer.go:125-164 | messages laid end to end, then a tail the loop drops, decode to those messages in order |
| FetchMessages.FetchRoundTrip | foreign/go/binary_serialization/binary_response_deserializer.go:110-173 | a batch decodes to its preamble values and messages; the count is the preamble's, not the number decoded |
| FetchMessages.ShortBatchIsNotDecompressed | foreign/go/binary_serialization/binary_response_deserializer.go:148-152 | below 32 bytes an s2 setting decodes exactly as no compression |
| FetchMessages.EmptyBodyIsDropped | foreign/go/binary_serialization/binary_response_deserializer.go:126-129 | a header with nothing after it yields no message |
| TcpCore.CreatePayload | foreign/go/tcp/tcp_core.go:158-165 | the frame is 8 bytes longer than the message; bytes 0..4 hold len + 4 and bytes 4..8 the command, both as u32; then the message |
| TcpCore.ParseFrame | foreign/go/tcp/tcp_core.go:158-165 | the server's reading of a frame: it needs 8 bytes, and the message is everything after them |
| TcpCore.FrameRoundTrip | foreign/go/tcp/tcp_core.go:158-165 | parsing a built frame gives its length, command and message |
| TcpCore.FrameIsCreated | foreign/go/tcp/tcp_core.go:158-165 | every frame whose length field counts the bytes after it is a built frame |
| TcpCore.ResponseCode | foreign/go/tcp/tcp_core.go:167-169 | the u32 at bytes 0..4 |
| TcpCore.ResponseLength | foreign/go/tcp/tcp_core.go:126 | the u32 at bytes 4..8 |
| TcpCore.PreambleRoundTrip | foreign/go/tcp/tcp_core.go:126-127 | an encoded preamble reads back as its code and length |
| TcpCore.PreambleIsEncoded | foreign/go/tcp/tcp_core.go:126-127 | every 8-byte preamble is the encoding of its code and length |
| TcpCore.GetResponseLength | foreign/go/tcp/tcp_core.go:171-180 | a length of 0 or 1 is the error (0, "Received empty response."); otherwise the length |
| TcpCore.Decide | foreign/go/tcp/tcp_core.go:126-149 | a nonzero soft code, a hard code, an empty body (code 0, length ≤ 1) or a body of the announced length |
| TcpCore.DecideExamples | foreign/go/tcp/tcp_core.go:130-149 | an all-zero preamble is an empty body; 1012 is soft; 40 is hard |
| TcpCore.ConnRead | foreign/go/tcp/tcp_core.go:89 | one read call: at most the bytes asked for, taken from the front of what the peer still has; an error delivers nothing and ends the script's reading run as `ReadRun` does |
| TcpCore.Read | foreign/go/tcp/tcp_core.go:83-97 | success exactly when the read script, cut to the bytes the peer has, reaches `expected` bytes (`ReadRun`). The count and the steps used are the script's. The bytes are the next ones the peer sent; on error, the bytes read so far |
| TcpCore.ConnWrite | foreign/go/tcp/tcp_core.go:102 | one write call: the peer receives a prefix of the data; on success its length is what the script's next step accepts (`WriteRun`) |
| TcpCore.Write | foreign/go/tcp/tcp_core.go:99-110 | success exactly when the write script accepts the whole payload (`WriteRun`), with the script's count and steps used; and then the peer has received exactly the payload; on an error the peer holds a prefix of the payload at least `totalWritten` long, since a failing call may deliver bytes the loop does not count |
| TcpCore.ReadResponse | foreign/go/tcp/tcp_core.go:121-155 | a transport error happens exactly when the read script does not carry the whole response (`ResponseCompletes`): the 8-byte preamble, and the body when one is announced. When it does, the reply is the one the preamble decides (`RepliesAsDecided`). A nonzero code gives MapFromCode(code), with the raw preamble exactly for the soft codes and no body read. Code 0 gives an empty body for length ≤ 1, otherwise exactly the next `length` bytes. I/O errors give no body; nothing is written |
| TcpCore.SendAndFetch | foreign/go/tcp/tcp_core.go:112-156 | the frame is sent first, and without an I/O error the peer holds exactly the frame. A transport error happens exactly when the script does not complete (`ScriptCompletes`): the frame write, the preamble read, or the body read when a body is announced. When the script completes, the reply is the one the preamble decides (`RepliesAsDecided`): MapFromCode(code) for a nonzero code with the preamble exactly for the soft codes, an empty body for code 0 and length ≤ 1, otherwise exactly the next `length` bytes |

## Left out

- Connection set-up, the heartbeat goroutine and the mutex (foreign/go/tcp/tcp_core.go:44-81, 113-114): these are I/O and concurrency. The connection is a parameter: the bytes the peer will send, plus the outcome of each read and write call.
- An exhausted read or write script stands for the peer closing the connection (`Transport("EOF")`, `Transport("connection closed")`). Blocking is not modelled.
- TcpCore.Read: the Go `Read` can return bytes together with an error. The Go code then drops those bytes, so the model's failing read step delivers nothing.
- TcpCore.Write: a write call that delivers `n` bytes and then fails is the step `WriteFails(n, reason)`. Go does not add that call's `n` to `totalWritten`, so on an error the contract states only that the peer received a prefix of the payload at least `totalWritten` bytes long, not its exact length.
- s2 decompression is a function parameter that may fail. Where the Go code panics on a failure, the model returns `DecompressionFailed`.
- `MessageHeaderFromBytes` and `MessageHeaderSize` are not part of this model. The header is a codec of positive size whose parse may fail, and only its payload length and user-header length are interpreted.
- Go slicing is allowed up to a slice's capacity, not only its length. The model treats every read past the length as `Truncated`, as if capacity equalled length.
- Timestamps, the topic's message expiry and token expiries are kept as raw u64 counts. `time.Duration` scaling, `time.Unix` and the `int` conversions of u64 fields that go negative from 2^63 are not modelled.
- Names, addresses and tokens are kept as bytes. The Go conversion to `string` does no validation.
- A nil slice and an empty slice are not told apart. The error paths that return a value along with the error return only the error here. Examples are `DeserializeAccessTokens` on empty input and `DeserializeTopic`'s empty topic.
- Access-token listings have no cut-listing lemma. A token cut inside its expiry bytes is still listed, without expiry (`WireEncoding.TruncatedTokenAtEnd`), so a cut token listing can yield a record that was not sent; a cut inside the name is `Truncated`.
- Deserializer.DeserializeUser: when the user record itself fails, the Go code dereferences the missing record and panics. The model returns the record's error.
- Deserializer.ConsumerGroupRounds: a count of 0 with bytes left is `NonTerminating` instead of a loop that never returns.
- FetchMessages.DeserializeFetchMessages: the batch round trip is stated without compression, or with any compressor whose output the given s2 function inverts (`MessagesRoundTrip`). The s2 format itself is not modelled.
- The large-listing comment in `DeserializeStreams` (lines 54-55) names no defect that the shown code exhibits. `StreamsRoundTrip` holds for listings of any length.
- `MAX_STRING_LENGTH` is declared in `tcp_core.go` but not used in the modelled code, so it is only a constant here.
- The other files in the repository are not part of this model: the benchmark CLI, the server's polling consumer, the Rust HTTP trait, the Java HTTP client and the C# JSON converter.

## Findings

| source | as written | input that shows it | evidently intended | confidence | as-written member | corrected member |
|---|---|---|---|---|---|---|
| foreign/go/binary_serialization/binary_response_deserializer.go:505-527 | The list is created with length `ConsumerGroupsCount`, and the triples are then appended to it. So it starts with that many zero entries. With a count of 0 and bytes left, the outer loop never advances. | A client record announcing 1 group, followed by the triple (1, 2, 3), gives [(0,0,0), (1,2,3)]. A record announcing 0 groups, followed by any byte, never returns. | The list holds exactly the announced triples, and the decoder returns for every input. | not executed; high | WireEncoding.ClientDetailsRoundTrip | WireEncoding.ClientDetailsIntendedRoundTrip |
