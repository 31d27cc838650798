/** The SDK's error values: an `IggyError` is a numeric code with a message,
    and `TranslateErrorCode` is the table from server response codes to
    message identifiers. */
module Errors {
  import opened Wrappers
  import Decimal

  /** `IggyError` in the SDK: a code and a message. */
  datatype IggyError = IggyError(code: int, message: string)

  /** Every failure a model operation can return.  `Coded` is an `*IggyError`;
      `Plain` is an error built from text alone (`errors.New`, `fmt.Errorf`);
      `Truncated` is a read past the end of the input, where the Go code slices
      out of range; `Transport` is a failed socket call; `DecompressionFailed` is
      a payload the s2 decoder rejects; `NonTerminating` marks an input on which
      the Go code loops forever. */
  datatype Error =
    | Coded(err: IggyError)
    | Plain(text: string)
    | Truncated
    | Transport(reason: string)
    | DecompressionFailed
    | NonTerminating

  /** The codes that have their own line in the translation table.  Code 1 is
      among them even though its message is the same as the fallback. */
  predicate HasOwnEntry(code: int) {
    match code
    case 1 | 2 | 3 | 4 | 5 | 6 | 10 | 20 | 21 | 22
      | 23 | 24 | 25 | 40 | 41 | 42 | 43 | 44 | 51 | 52
      | 60 | 61 | 62 | 100 | 101 | 200 | 201 | 202 | 203 | 204
      | 206 | 300 | 301 | 302 | 303 | 304 | 305 | 306 | 307 | 308
      | 309 | 1000 | 1001 | 1002 | 1003 | 1004 | 1005 | 1006 | 1007 | 1008
      | 1009 | 1010 | 1011 | 1012 | 1013 | 1014 | 1015 | 2000 | 2001 | 2002
      | 2003 | 2004 | 2005 | 2006 | 2007 | 2008 | 2009 | 2010 | 2011 | 2012
      | 2013 | 2014 | 2015 | 2016 | 2017 | 3000 | 3001 | 3002 | 3003 | 3004
      | 3005 | 3006 | 3007 | 3008 | 4000 | 4001 | 4002 | 4003 | 4004 | 4005
      | 4006 | 4007 | 4008 | 4009 | 4010 | 4011 | 4012 | 4013 | 4014 | 4015
      | 4016 | 4017 | 4018 | 4019 | 4020 | 4021 | 4022 | 4023 | 4024 | 4025
      | 4026 | 4027 | 4028 | 4032 | 4036 | 4100 | 4101 | 5000 | 5001 | 5002
      | 5003 | 5004 | 5005 | 5006 | 5007
      => true
    case _ => false
  }

  /** `IggyError.Error()`: the code in decimal, a colon, a space, then the
      message between single quotes. */
  function Render(e: IggyError): (r: string)
    ensures ParseRendered(r) == Some(e)
  {
    QuotedFormReadsBack(e.code, e.message);
    Decimal.IntString(e.code) + ": '" + e.message + "'"
  }

  /** The position of the first colon at or after `from`, or `|s|` if none. */
  function FirstColon(s: string, from: nat): (i: nat)
    requires from <= |s|
    ensures from <= i <= |s|
    ensures i < |s| ==> s[i] == ':'
    ensures forall j :: from <= j < i ==> s[j] != ':'
    decreases |s| - from
  {
    if from == |s| || s[from] == ':' then from else FirstColon(s, from + 1)
  }

  /** Reads a rendered error back: the code is the text before the first
      colon, the message is what lies between ": '" and the final quote. */
  function ParseRendered(s: string): Option<IggyError>
  {
    var i := FirstColon(s, 0);
    if i + 4 <= |s| && s[i..i + 3] == ": '" && s[|s| - 1] == '\'' then
      match Decimal.ParseInt(s[..i])
      case Some(code) => Some(IggyError(code, s[i + 3..|s| - 1]))
      case None => None
    else
      None
  }

  /** A code in decimal, ": '", any message and a closing quote read back as
      that code and message, whatever characters the message holds. */
  lemma QuotedFormReadsBack(code: int, message: string)
    ensures ParseRendered(Decimal.IntString(code) + ": '" + message + "'") == Some(IggyError(code, message))
  {
    var cs := Decimal.IntString(code);
    var s := cs + ": '" + message + "'";
    assert s[|cs|] == ':';
    var i := FirstColon(s, 0);
    assert i == |cs|;
    assert s[..i] == cs;
    assert s[i..i + 3] == ": '";
    assert s[i + 3..|s| - 1] == message;
    Decimal.ParseIntString(code);
  }

  /** Code 1 and the unlisted code 46 read the same. */
  lemma MessageDoesNotIdentifyCode()
    ensures TranslateErrorCode(1) == TranslateErrorCode(46) == "error"
    ensures !HasOwnEntry(46)
  {
  }

  lemma TableEntries()
    ensures TranslateErrorCode(40) == "unauthenticated"
    ensures TranslateErrorCode(51) == "not_connected"
    ensures TranslateErrorCode(1012) == "stream_name_already_exists"
  {
  }

  /** An error with the catch-all code 9999 and the given message: it shows
      as `9999: '<message>'`, and that text reads back as code 9999 with the
      message unchanged. */
  function CustomError(message: string): (e: IggyError)
    ensures e.code == 9999 && e.message == message
    ensures Render(e) == "9999: '" + message + "'"
    ensures ParseRendered(Render(e)) == Some(IggyError(9999, message))
  {
    var e := IggyError(9999, message);
    Decimal.IntString9999();
    e
  }

  /** An error with code 9999 whose message is the given text followed by the
      suffix `_too_long`. */
  function TextTooLong(message: string): (e: IggyError)
    ensures e.code == 9999
    ensures |e.message| == |message| + 9
    ensures e.message[..|message|] == message && e.message[|message|..] == "_too_long"
  {
    IggyError(9999, message + "_too_long")
  }

  /** The error for a server response code: the code is kept, the message is
      looked up in the table. */
  function MapFromCode(code: int): (e: IggyError)
    ensures e.code == code
    ensures e.message == TranslateErrorCode(code)
    ensures e.message == "error" <==> code == 1 || !HasOwnEntry(code)
  {
    IggyError(code, TranslateErrorCode(code))
  }

  /** The message identifier of a response code.  A code without its own line
      reads "error", which is also what code 1 reads, so the message alone
      does not tell those codes apart.  The table is looked up by its
      thousands block. */
  function TranslateErrorCode(code: int): (r: string)
    ensures r == "error" <==> code == 1 || !HasOwnEntry(code)
  {
    if code < 1000 then GeneralMessage(code)
    else if code < 2000 then StreamMessage(code)
    else if code < 3000 then TopicMessage(code)
    else if code < 4000 then PartitionMessage(code)
    else if code < 5000 then SegmentMessage(code)
    else ConsumerGroupMessage(code)
  }

  /** Codes below 1000: general, resource, authentication and connection errors. */
  function GeneralMessage(code: int): (r: string)
    requires code < 1000
    ensures r == "error" <==> code == 1 || !HasOwnEntry(code)
  {
    match code
    case 1 => "error"
    case 2 => "invalid_configuration"
    case 3 => "invalid_command"
    case 4 => "invalid_format"
    case 5 => "feature_unavailable"
    case 6 => "invalid_identifier"
    case 10 => "cannot_create_base_directory"
    case 20 => "resource_not_found"
    case 21 => "cannot_load_resource"
    case 22 => "cannot_save_resource"
    case 23 => "cannot_delete_resource"
    case 24 => "cannot_serialize_resource"
    case 25 => "cannot_deserialize_resource"
    case 40 => "unauthenticated"
    case 41 => "unauthorized"
    case 42 => "invalid_credentials"
    case 43 => "invalid_username"
    case 44 => "invalid_password"
    case 51 => "not_connected"
    case 52 => "request_error"
    case 60 => "invalid_encryption_key"
    case 61 => "cannot_encrypt_data"
    case 62 => "cannot_decrypt_data"
    case 100 => "client_not_found"
    case 101 => "invalid_client_id"
    case 200 => "io_error"
    case 201 => "write_error"
    case 202 => "cannot_parse_utf8"
    case 203 => "cannot_parse_int"
    case 204 => "cannot_parse_slice"
    case 206 => "connection_closed"
    case 300 => "http_response_error"
    case 301 => "request_middleware_error"
    case 302 => "cannot_create_endpoint"
    case 303 => "cannot_parse_url"
    case 304 => "invalid_response"
    case 305 => "empty_response"
    case 306 => "cannot_parse_address"
    case 307 => "read_error"
    case 308 => "connection_error"
    case 309 => "read_to_end_error"
    case _ => "error"
  }

  /** Codes 1000 to 1999: stream errors. */
  function StreamMessage(code: int): (r: string)
    requires 1000 <= code < 2000
    ensures r == "error" <==> code == 1 || !HasOwnEntry(code)
  {
    match code
    case 1000 => "cannot_create_streams_directory"
    case 1001 => "cannot_create_stream_directory"
    case 1002 => "cannot_create_stream_info"
    case 1003 => "cannot_update_stream_info"
    case 1004 => "cannot_open_stream_info"
    case 1005 => "cannot_read_stream_info"
    case 1006 => "cannot_create_stream"
    case 1007 => "cannot_delete_stream"
    case 1008 => "cannot_delete_stream_directory"
    case 1009 => "stream_id_not_found"
    case 1010 => "stream_name_not_found"
    case 1011 => "stream_id_already_exists"
    case 1012 => "stream_name_already_exists"
    case 1013 => "invalid_stream_name"
    case 1014 => "invalid_stream_id"
    case 1015 => "cannot_read_streams"
    case _ => "error"
  }

  /** Codes 2000 to 2999: topic errors. */
  function TopicMessage(code: int): (r: string)
    requires 2000 <= code < 3000
    ensures r == "error" <==> code == 1 || !HasOwnEntry(code)
  {
    match code
    case 2000 => "cannot_create_topics_directory"
    case 2001 => "cannot_create_topic_directory"
    case 2002 => "cannot_create_topic_info"
    case 2003 => "cannot_update_topic_info"
    case 2004 => "cannot_open_topic_info"
    case 2005 => "cannot_read_topic_info"
    case 2006 => "cannot_create_topic"
    case 2007 => "cannot_delete_topic"
    case 2008 => "cannot_delete_topic_directory"
    case 2009 => "cannot_poll_topic"
    case 2010 => "topic_id_not_found"
    case 2011 => "topic_name_not_found"
    case 2012 => "topic_id_already_exists"
    case 2013 => "topic_name_already_exists"
    case 2014 => "invalid_topic_name"
    case 2015 => "too_many_partitions"
    case 2016 => "invalid_topic_id"
    case 2017 => "cannot_read_topics"
    case _ => "error"
  }

  /** Codes 3000 to 3999: partition errors. */
  function PartitionMessage(code: int): (r: string)
    requires 3000 <= code < 4000
    ensures r == "error" <==> code == 1 || !HasOwnEntry(code)
  {
    match code
    case 3000 => "cannot_create_partition"
    case 3001 => "cannot_create_partitions_directory"
    case 3002 => "cannot_create_partition_directory"
    case 3003 => "cannot_open_partition_log_file"
    case 3004 => "cannot_read_partitions"
    case 3005 => "cannot_delete_partition"
    case 3006 => "cannot_delete_partition_directory"
    case 3007 => "partition_not_found"
    case 3008 => "no_partitions"
    case _ => "error"
  }

  /** Codes 4000 to 4999: segment, message and offset errors. */
  function SegmentMessage(code: int): (r: string)
    requires 4000 <= code < 5000
    ensures r == "error" <==> code == 1 || !HasOwnEntry(code)
  {
    match code
    case 4000 => "segment_not_found"
    case 4001 => "segment_closed"
    case 4002 => "invalid_segment_size"
    case 4003 => "cannot_create_segment_log_file"
    case 4004 => "cannot_create_segment_index_file"
    case 4005 => "cannot_create_segment_time_index_file"
    case 4006 => "cannot_save_messages_to_segment"
    case 4007 => "cannot_save_index_to_segment"
    case 4008 => "cannot_save_time_index_to_segment"
    case 4009 => "invalid_messages_count"
    case 4010 => "cannot_append_message"
    case 4011 => "cannot_read_message"
    case 4012 => "cannot_read_message_id"
    case 4013 => "cannot_read_message_state"
    case 4014 => "cannot_read_message_timestamp"
    case 4015 => "cannot_read_headers_length"
    case 4016 => "cannot_read_headers_payload"
    case 4017 => "too_big_headers_payload"
    case 4018 => "invalid_header_key"
    case 4019 => "invalid_header_value"
    case 4020 => "cannot_read_message_length"
    case 4021 => "cannot_read_message_payload"
    case 4022 => "too_big_message_payload"
    case 4023 => "too_many_messages"
    case 4024 => "empty_message_payload"
    case 4025 => "invalid_message_payload_length"
    case 4026 => "cannot_read_message_checksum"
    case 4027 => "invalid_message_checksum"
    case 4028 => "invalid_key_value_length"
    case 4032 => "non_zero_timestamp"
    case 4036 => "invalid_messages_size"
    case 4100 => "invalid_offset"
    case 4101 => "cannot_read_consumer_offsets"
    case _ => "error"
  }

  /** Codes 5000 and above: consumer group errors. */
  function ConsumerGroupMessage(code: int): (r: string)
    requires 5000 <= code
    ensures r == "error" <==> code == 1 || !HasOwnEntry(code)
  {
    match code
    case 5000 => "consumer_group_not_found"
    case 5001 => "consumer_group_already_exists"
    case 5002 => "consumer_group_member_not_found"
    case 5003 => "invalid_consumer_group_id"
    case 5004 => "cannot_create_consumer_groups_directory"
    case 5005 => "cannot_read_consumer_groups"
    case 5006 => "cannot_create_consumer_group_info"
    case 5007 => "cannot_delete_consumer_group_info"
    case _ => "error"
  }
}
