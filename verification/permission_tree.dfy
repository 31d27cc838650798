/** The permission block of a user record.  Ten global flag bytes, then a
    gate byte; when the gate is 1 a run of stream entries follows.  A stream
    entry is a u32 id, six flag bytes, a topic gate byte (topic entries follow
    only when it is 1), then a continuation byte.  A topic entry is a u32 id,
    four flag bytes and a continuation byte.  Each run ends at the first
    continuation byte equal to 0; any other value continues it.  A flag is set
    exactly when its byte is 1.  Entries are stored in maps keyed by id, so a
    repeated id replaces the earlier entry. */
module PermissionTree {
  import opened Wrappers
  import opened Errors
  import opened Bytes
  import opened Contracts

  function DecodeGlobal(bytes: seq<byte>): (r: Result<GlobalPermissions, Error>)
    ensures r.Success? <==> 10 <= |bytes|
  {
    var f :- Slice(bytes, 0, 10);
    Success(GlobalPermissions(
      f[0] == 1, f[1] == 1, f[2] == 1, f[3] == 1, f[4] == 1,
      f[5] == 1, f[6] == 1, f[7] == 1, f[8] == 1, f[9] == 1))
  }

  /** A run of topic entries starting at `pos`, added to `acc`; also returns
      the position just past the run's final continuation byte. */
  function DecodeTopicEntries(bytes: seq<byte>, pos: nat, acc: map<nat, TopicPermissions>)
    : (r: Result<(map<nat, TopicPermissions>, nat), Error>)
    ensures r.Success? ==> pos + 9 <= r.value.1 <= |bytes|
    ensures r.Success? ==> (r.value.1 - pos) % 9 == 0
    ensures r.Success? ==> bytes[r.value.1 - 1] == 0
    ensures r.Success? ==> acc.Keys <= r.value.0.Keys
    ensures r.Failure? ==> r.error == Truncated
    decreases |bytes| - pos
  {
    var id :- U32At(bytes, pos);
    var f :- Slice(bytes, pos + 4, 4);
    var cont :- U8At(bytes, pos + 8);
    var acc' := acc[id := TopicPermissions(f[0] == 1, f[1] == 1, f[2] == 1, f[3] == 1)];
    if cont == 0 then Success((acc', pos + 9)) else DecodeTopicEntries(bytes, pos + 9, acc')
  }

  /** A topic gate byte at `pos` and, when it is 1, the run of topic entries
      after it; also returns the position just past what was read. */
  function DecodeTopicsAfterGate(bytes: seq<byte>, pos: nat)
    : (r: Result<(map<nat, TopicPermissions>, nat), Error>)
    ensures r.Success? ==> pos + 1 <= r.value.1 <= |bytes|
    ensures r.Success? ==> (r.value.1 == pos + 1 <==> bytes[pos] != 1)
    ensures r.Success? && bytes[pos] != 1 ==> r.value.0 == map[]
    ensures r.Failure? ==> r.error == Truncated
  {
    var gate :- U8At(bytes, pos);
    if gate == 1 then DecodeTopicEntries(bytes, pos + 1, map[]) else Success((map[], pos + 1))
  }

  /** One stream entry up to its continuation byte: the id, the stream's
      permissions with its topic map, and the position of the continuation
      byte. */
  function DecodeStreamBody(bytes: seq<byte>, pos: nat)
    : (r: Result<(nat, StreamPermissions, nat), Error>)
    ensures r.Success? ==> pos + 11 <= r.value.2 <= |bytes|
    ensures r.Failure? ==> r.error == Truncated
  {
    var id :- U32At(bytes, pos);
    var f :- Slice(bytes, pos + 4, 6);
    var topics :- DecodeTopicsAfterGate(bytes, pos + 10);
    Success((id, StreamPermissions(f[0] == 1, f[1] == 1, f[2] == 1, f[3] == 1, f[4] == 1, f[5] == 1, topics.0),
             topics.1))
  }

  /** A run of stream entries starting at `pos`, added to `acc`. */
  function DecodeStreamEntries(bytes: seq<byte>, pos: nat, acc: map<nat, StreamPermissions>)
    : (r: Result<map<nat, StreamPermissions>, Error>)
    ensures r.Success? ==> pos + 12 <= |bytes|
    ensures r.Success? ==> acc.Keys <= r.value.Keys
    ensures r.Failure? ==> r.error == Truncated
    decreases |bytes| - pos
  {
    var entry :- DecodeStreamBody(bytes, pos);
    var cont :- U8At(bytes, entry.2);
    var acc' := acc[entry.0 := entry.1];
    if cont == 0 then Success(acc') else DecodeStreamEntries(bytes, entry.2 + 1, acc')
  }

  /** `deserializePermissions`: the whole block; bytes after the final
      continuation byte are ignored. */
  function DeserializePermissions(bytes: seq<byte>): (r: Result<Permissions, Error>)
    ensures r.Success? ==> 11 <= |bytes|
    ensures r.Success? && bytes[10] != 1 ==> r.value.streams == map[]
    ensures r.Failure? ==> r.error == Truncated
  {
    var global :- DecodeGlobal(bytes);
    var gate :- U8At(bytes, 10);
    if gate == 1 then
      var streams :- DecodeStreamEntries(bytes, 11, map[]);
      Success(Permissions(global, streams))
    else
      Success(Permissions(global, map[]))
  }
}

/** The server's side of the permission block, written from entry lists in
    the order they go on the wire, and the proof that the decoder reads back
    what was written. */
module PermissionTreeEncoding {
  import opened Wrappers
  import opened Errors
  import opened Bytes
  import opened Contracts
  import opened PermissionTree

  datatype TopicEntry = TopicEntry(id: nat, permissions: TopicPermissions)

  datatype StreamEntry = StreamEntry(
    id: nat,
    manageStream: bool,
    readStream: bool,
    manageTopics: bool,
    readTopics: bool,
    pollMessages: bool,
    sendMessages: bool,
    topics: seq<TopicEntry>)

  predicate ValidStreamEntry(s: StreamEntry) {
    && s.id < U32_LIMIT
    && forall i :: 0 <= i < |s.topics| ==> s.topics[i].id < U32_LIMIT
  }

  predicate ValidStreamEntries(ss: seq<StreamEntry>) {
    forall i :: 0 <= i < |ss| ==> ValidStreamEntry(ss[i])
  }

  /** Entries applied to `acc` in wire order, later ids replacing earlier. */
  function TopicMap(ts: seq<TopicEntry>, acc: map<nat, TopicPermissions>): map<nat, TopicPermissions>
  {
    if |ts| == 0 then acc else TopicMap(ts[1..], acc[ts[0].id := ts[0].permissions])
  }

  function StreamValue(s: StreamEntry): StreamPermissions {
    StreamPermissions(s.manageStream, s.readStream, s.manageTopics, s.readTopics,
                      s.pollMessages, s.sendMessages, TopicMap(s.topics, map[]))
  }

  function StreamMap(ss: seq<StreamEntry>, acc: map<nat, StreamPermissions>): map<nat, StreamPermissions>
  {
    if |ss| == 0 then acc else StreamMap(ss[1..], acc[ss[0].id := StreamValue(ss[0])])
  }

  function FlagByte(b: bool): byte {
    if b then 1 else 0
  }

  function EncodeGlobal(g: GlobalPermissions): (r: seq<byte>)
    ensures |r| == 10
  {
    [FlagByte(g.manageServers), FlagByte(g.readServers), FlagByte(g.manageUsers),
     FlagByte(g.readUsers), FlagByte(g.manageStreams), FlagByte(g.readStreams),
     FlagByte(g.manageTopics), FlagByte(g.readTopics), FlagByte(g.pollMessages),
     FlagByte(g.sendMessages)]
  }

  /** One topic entry: id, four flags, continuation byte (0 on the last). */
  function EncodeTopic(t: TopicEntry, last: bool): (r: seq<byte>)
    ensures |r| == 9
  {
    U32Bytes(t.id)
      + [FlagByte(t.permissions.manageTopic), FlagByte(t.permissions.readTopic),
         FlagByte(t.permissions.pollMessages), FlagByte(t.permissions.sendMessages)]
      + [if last then 0 else 1]
  }

  function EncodeTopicEntries(ts: seq<TopicEntry>): (r: seq<byte>)
    ensures |r| == 9 * |ts|
  {
    if |ts| == 0 then [] else EncodeTopic(ts[0], |ts| == 1) + EncodeTopicEntries(ts[1..])
  }

  /** A stream entry up to, not including, its continuation byte. */
  function EncodeStreamBody(s: StreamEntry): seq<byte>
  {
    U32Bytes(s.id) + StreamFlags(s) + EncodeTopicsWithGate(s.topics)
  }

  function EncodeStreamEntries(ss: seq<StreamEntry>): seq<byte>
  {
    if |ss| == 0 then []
    else EncodeStreamBody(ss[0]) + [if |ss| == 1 then 0 else 1] + EncodeStreamEntries(ss[1..])
  }

  function EncodePermissions(g: GlobalPermissions, ss: seq<StreamEntry>): seq<byte>
  {
    EncodeGlobal(g) + (if |ss| == 0 then [0] else [1] + EncodeStreamEntries(ss))
  }

  lemma {:induction false} TopicEntriesRoundTrip(
    bytes: seq<byte>, pos: nat, ts: seq<TopicEntry>, acc: map<nat, TopicPermissions>)
    requires |ts| >= 1
    requires forall i :: 0 <= i < |ts| ==> ts[i].id < U32_LIMIT
    requires Holds(bytes, pos, EncodeTopicEntries(ts))
    ensures DecodeTopicEntries(bytes, pos, acc) == Success((TopicMap(ts, acc), pos + 9 * |ts|))
    decreases |ts|
  {
    var t := ts[0];
    var head := EncodeTopic(t, |ts| == 1);
    HoldsSplit(bytes, pos, head, EncodeTopicEntries(ts[1..]));
    var idBytes := U32Bytes(t.id);
    var flags := [FlagByte(t.permissions.manageTopic), FlagByte(t.permissions.readTopic),
                  FlagByte(t.permissions.pollMessages), FlagByte(t.permissions.sendMessages)];
    HoldsSplit(bytes, pos, idBytes + flags, [if |ts| == 1 then 0 else 1]);
    HoldsSplit(bytes, pos, idBytes, flags);
    HoldsU32(bytes, pos, t.id);
    HoldsSlice(bytes, pos + 4, flags);
    HoldsU8(bytes, pos + 8, if |ts| == 1 then 0 else 1);
    var acc' := acc[t.id := t.permissions];
    if |ts| > 1 {
      TopicEntriesRoundTrip(bytes, pos + 9, ts[1..], acc');
    }
  }

  function EncodeTopicsWithGate(ts: seq<TopicEntry>): seq<byte>
  {
    if |ts| == 0 then [0] else [1] + EncodeTopicEntries(ts)
  }

  lemma TopicsAfterGateRoundTrip(bytes: seq<byte>, pos: nat, ts: seq<TopicEntry>)
    requires forall i :: 0 <= i < |ts| ==> ts[i].id < U32_LIMIT
    requires Holds(bytes, pos, EncodeTopicsWithGate(ts))
    ensures DecodeTopicsAfterGate(bytes, pos) == Success((TopicMap(ts, map[]), pos + |EncodeTopicsWithGate(ts)|))
  {
    if |ts| == 0 {
      HoldsU8(bytes, pos, 0);
    } else {
      HoldsSplit(bytes, pos, [1], EncodeTopicEntries(ts));
      HoldsU8(bytes, pos, 1);
      TopicEntriesRoundTrip(bytes, pos + 1, ts, map[]);
    }
  }

  function StreamFlags(s: StreamEntry): (r: seq<byte>)
    ensures |r| == 6
  {
    [FlagByte(s.manageStream), FlagByte(s.readStream), FlagByte(s.manageTopics),
     FlagByte(s.readTopics), FlagByte(s.pollMessages), FlagByte(s.sendMessages)]
  }

  lemma StreamBodyRoundTrip(bytes: seq<byte>, pos: nat, s: StreamEntry)
    requires ValidStreamEntry(s)
    requires Holds(bytes, pos, EncodeStreamBody(s))
    ensures DecodeStreamBody(bytes, pos) == Success((s.id, StreamValue(s), pos + |EncodeStreamBody(s)|))
  {
    var idBytes := U32Bytes(s.id);
    var flags := StreamFlags(s);
    var tail := EncodeTopicsWithGate(s.topics);
    assert EncodeStreamBody(s) == idBytes + flags + tail;
    HoldsSplit(bytes, pos, idBytes + flags, tail);
    HoldsSplit(bytes, pos, idBytes, flags);
    HoldsU32(bytes, pos, s.id);
    HoldsSlice(bytes, pos + 4, flags);
    TopicsAfterGateRoundTrip(bytes, pos + 10, s.topics);
  }

  /** A non-empty run of valid stream entries laid out from `pos`: each
      entry's body, then its continuation byte, then the rest of the run. */
  predicate StreamRunAt(bytes: seq<byte>, pos: nat, ss: seq<StreamEntry>)
    decreases |ss|
  {
    && |ss| >= 1
    && ValidStreamEntry(ss[0])
    && Holds(bytes, pos, EncodeStreamBody(ss[0]))
    && Holds(bytes, pos + |EncodeStreamBody(ss[0])|, [if |ss| == 1 then 0 else 1])
    && (|ss| > 1 ==> StreamRunAt(bytes, pos + |EncodeStreamBody(ss[0])| + 1, ss[1..]))
  }

  /** The encoded run, wherever it sits, is laid out entry by entry. */
  lemma {:induction false} StreamRunOf(bytes: seq<byte>, pos: nat, ss: seq<StreamEntry>)
    requires |ss| >= 1 && ValidStreamEntries(ss)
    requires Holds(bytes, pos, EncodeStreamEntries(ss))
    ensures StreamRunAt(bytes, pos, ss)
    decreases |ss|
  {
    var body := EncodeStreamBody(ss[0]);
    var cont: byte := if |ss| == 1 then 0 else 1;
    HoldsSplit(bytes, pos, body + [cont], EncodeStreamEntries(ss[1..]));
    HoldsSplit(bytes, pos, body, [cont]);
    if |ss| > 1 {
      assert ValidStreamEntries(ss[1..]) by {
        forall i | 0 <= i < |ss[1..]| ensures ValidStreamEntry(ss[1..][i]) {
          assert ss[1..][i] == ss[i + 1];
        }
      }
      StreamRunOf(bytes, pos + |body| + 1, ss[1..]);
    }
  }

  /** A stream entry read at `pos`, then either the end of the run or the
      rest of the run read back, is the whole run read back. */
  lemma StreamEntriesStep(bytes: seq<byte>, pos: nat, acc: map<nat, StreamPermissions>,
                          ss: seq<StreamEntry>, next: nat)
    requires |ss| >= 1
    requires DecodeStreamBody(bytes, pos) == Success((ss[0].id, StreamValue(ss[0]), next))
    requires U8At(bytes, next) == Success(if |ss| == 1 then 0 else 1)
    requires |ss| > 1 ==> DecodeStreamEntries(bytes, next + 1, acc[ss[0].id := StreamValue(ss[0])])
                          == Success(StreamMap(ss[1..], acc[ss[0].id := StreamValue(ss[0])]))
    ensures DecodeStreamEntries(bytes, pos, acc) == Success(StreamMap(ss, acc))
  {
    var acc' := acc[ss[0].id := StreamValue(ss[0])];
    assert StreamMap(ss, acc) == StreamMap(ss[1..], acc');
    if |ss| == 1 {
      assert StreamMap(ss[1..], acc') == acc';
    }
  }

  lemma {:induction false} StreamEntriesRoundTrip(
    bytes: seq<byte>, pos: nat, ss: seq<StreamEntry>, acc: map<nat, StreamPermissions>)
    requires StreamRunAt(bytes, pos, ss)
    ensures DecodeStreamEntries(bytes, pos, acc) == Success(StreamMap(ss, acc))
    decreases |ss|
  {
    var next := pos + |EncodeStreamBody(ss[0])|;
    StreamBodyRoundTrip(bytes, pos, ss[0]);
    HoldsU8(bytes, next, if |ss| == 1 then 0 else 1);
    if |ss| > 1 {
      StreamEntriesRoundTrip(bytes, next + 1, ss[1..], acc[ss[0].id := StreamValue(ss[0])]);
    }
    StreamEntriesStep(bytes, pos, acc, ss, next);
  }

  /** The ten global flag bytes read back as the flags they encode. */
  lemma GlobalRoundTrip(bytes: seq<byte>, g: GlobalPermissions)
    requires Holds(bytes, 0, EncodeGlobal(g))
    ensures DecodeGlobal(bytes) == Success(g)
  {
    HoldsSlice(bytes, 0, EncodeGlobal(g));
  }

  /** Where the pieces of an encoded block sit: the ten global flags, the
      gate byte at offset 10, and the run of stream entries from offset 11. */
  lemma PermissionsLayout(bytes: seq<byte>, g: GlobalPermissions, ss: seq<StreamEntry>)
    requires ValidStreamEntries(ss)
    requires Holds(bytes, 0, EncodePermissions(g, ss))
    ensures Holds(bytes, 0, EncodeGlobal(g))
    ensures Holds(bytes, 10, [if |ss| == 0 then 0 else 1])
    ensures |ss| > 0 ==> StreamRunAt(bytes, 11, ss)
  {
    var gate: byte := if |ss| == 0 then 0 else 1;
    var run := if |ss| == 0 then [] else EncodeStreamEntries(ss);
    assert EncodePermissions(g, ss) == EncodeGlobal(g) + ([gate] + run);
    HoldsSplit(bytes, 0, EncodeGlobal(g), [gate] + run);
    HoldsSplit(bytes, 10, [gate], run);
    if |ss| > 0 {
      StreamRunOf(bytes, 11, ss);
    }
  }

  /** Decoding an encoded block, whatever follows it, gives the global flags
      and the entries folded into maps in wire order. */
  lemma PermissionsRoundTrip(bytes: seq<byte>, g: GlobalPermissions, ss: seq<StreamEntry>)
    requires ValidStreamEntries(ss)
    requires Holds(bytes, 0, EncodePermissions(g, ss))
    ensures DeserializePermissions(bytes) == Success(Permissions(g, StreamMap(ss, map[])))
  {
    PermissionsLayout(bytes, g, ss);
    GlobalRoundTrip(bytes, g);
    HoldsU8(bytes, 10, if |ss| == 0 then 0 else 1);
    if |ss| > 0 {
      StreamEntriesRoundTrip(bytes, 11, ss, map[]);
    }
  }

  /** Of several entries with the same stream id, the last one is kept. */
  lemma {:induction false} LastStreamEntryWins(ss: seq<StreamEntry>, acc: map<nat, StreamPermissions>)
    requires |ss| >= 1
    ensures ss[|ss| - 1].id in StreamMap(ss, acc)
    ensures StreamMap(ss, acc)[ss[|ss| - 1].id] == StreamValue(ss[|ss| - 1])
    decreases |ss|
  {
    if |ss| > 1 {
      LastStreamEntryWins(ss[1..], acc[ss[0].id := StreamValue(ss[0])]);
    }
  }

  /** The decoded map has exactly the ids of the entries, plus what `acc` had. */
  lemma {:induction false} StreamMapKeys(ss: seq<StreamEntry>, acc: map<nat, StreamPermissions>)
    ensures StreamMap(ss, acc).Keys == acc.Keys + set i | 0 <= i < |ss| :: ss[i].id
    decreases |ss|
  {
    if |ss| > 0 {
      var acc' := acc[ss[0].id := StreamValue(ss[0])];
      StreamMapKeys(ss[1..], acc');
      var rest := set i | 0 <= i < |ss[1..]| :: ss[1..][i].id;
      var all := set i | 0 <= i < |ss| :: ss[i].id;
      assert all == {ss[0].id} + rest by {
        forall x | x in all ensures x in {ss[0].id} + rest {
          var i :| 0 <= i < |ss| && ss[i].id == x;
          if i > 0 {
            assert ss[1..][i - 1].id == x;
          }
        }
        forall x | x in rest ensures x in all {
          var i :| 0 <= i < |ss[1..]| && ss[1..][i].id == x;
          assert ss[i + 1].id == x;
        }
      }
    }
  }

  // ----- the layout rules for every byte value -----

  /** A flag is set exactly when its byte is 1: a 0, a 2 or any other value
      reads as unset. */
  predicate ReadsAs(b: byte, flag: bool) {
    (b == 1) == flag
  }

  /** The ten bytes from `pos` spell the global flags of `g`. */
  predicate SpellsGlobal(bytes: seq<byte>, pos: nat, g: GlobalPermissions) {
    pos + 10 <= |bytes|
    && ReadsAs(bytes[pos], g.manageServers) && ReadsAs(bytes[pos + 1], g.readServers)
    && ReadsAs(bytes[pos + 2], g.manageUsers) && ReadsAs(bytes[pos + 3], g.readUsers)
    && ReadsAs(bytes[pos + 4], g.manageStreams) && ReadsAs(bytes[pos + 5], g.readStreams)
    && ReadsAs(bytes[pos + 6], g.manageTopics) && ReadsAs(bytes[pos + 7], g.readTopics)
    && ReadsAs(bytes[pos + 8], g.pollMessages) && ReadsAs(bytes[pos + 9], g.sendMessages)
  }

  /** The four bytes from `pos` spell the flags of a topic entry. */
  predicate SpellsTopic(bytes: seq<byte>, pos: nat, p: TopicPermissions) {
    pos + 4 <= |bytes|
    && ReadsAs(bytes[pos], p.manageTopic) && ReadsAs(bytes[pos + 1], p.readTopic)
    && ReadsAs(bytes[pos + 2], p.pollMessages) && ReadsAs(bytes[pos + 3], p.sendMessages)
  }

  /** The six bytes from `pos` spell the flags of a stream entry. */
  predicate SpellsStream(bytes: seq<byte>, pos: nat, p: StreamPermissions) {
    pos + 6 <= |bytes|
    && ReadsAs(bytes[pos], p.manageStream) && ReadsAs(bytes[pos + 1], p.readStream)
    && ReadsAs(bytes[pos + 2], p.manageTopics) && ReadsAs(bytes[pos + 3], p.readTopics)
    && ReadsAs(bytes[pos + 4], p.pollMessages) && ReadsAs(bytes[pos + 5], p.sendMessages)
  }

  /** Ten bytes that spell `g` decode to `g`. */
  lemma GlobalFlagsSpelled(bytes: seq<byte>, g: GlobalPermissions)
    requires SpellsGlobal(bytes, 0, g)
    ensures DecodeGlobal(bytes) == Success(g)
  {
    assert Slice(bytes, 0, 10) == Success(bytes[0..10]);
  }

  /** Decoded global flags are spelled by the first ten bytes. */
  lemma GlobalFlagsRead(bytes: seq<byte>, g: GlobalPermissions)
    requires DecodeGlobal(bytes) == Success(g)
    ensures SpellsGlobal(bytes, 0, g)
  {
    assert Slice(bytes, 0, 10) == Success(bytes[0..10]);
  }

  /** The global flags decode to `g` exactly when the first ten bytes spell
      `g`, whatever values the bytes other than 1 have. */
  lemma GlobalFlagRule(bytes: seq<byte>, g: GlobalPermissions)
    ensures DecodeGlobal(bytes) == Success(g) <==> SpellsGlobal(bytes, 0, g)
  {
    if SpellsGlobal(bytes, 0, g) {
      GlobalFlagsSpelled(bytes, g);
    }
    if DecodeGlobal(bytes) == Success(g) {
      GlobalFlagsRead(bytes, g);
    }
  }

  /** A topic entry whose four flag bytes spell `t`'s flags decodes to `t`'s
      permissions; a continuation byte 0 ends the run after it, and any other
      value goes on to the next entry. */
  lemma TopicEntryRule(bytes: seq<byte>, pos: nat, acc: map<nat, TopicPermissions>, t: TopicEntry)
    requires t.id < U32_LIMIT && Holds(bytes, pos, U32Bytes(t.id))
    requires SpellsTopic(bytes, pos + 4, t.permissions) && pos + 8 < |bytes|
    ensures bytes[pos + 8] == 0 ==>
              DecodeTopicEntries(bytes, pos, acc) == Success((acc[t.id := t.permissions], pos + 9))
    ensures bytes[pos + 8] != 0 ==>
              DecodeTopicEntries(bytes, pos, acc) == DecodeTopicEntries(bytes, pos + 9, acc[t.id := t.permissions])
  {
    HoldsU32(bytes, pos, t.id);
  }

  /** The six flags of a decoded stream entry are spelled by the bytes after
      its id, under the same rule. */
  lemma StreamFlagRule(bytes: seq<byte>, pos: nat)
    requires DecodeStreamBody(bytes, pos).Success?
    ensures SpellsStream(bytes, pos + 4, DecodeStreamBody(bytes, pos).value.1)
  {
  }

  /** After a decoded stream entry, a continuation byte 0 ends the run and
      any other value goes on to the next entry. */
  lemma StreamRunRule(bytes: seq<byte>, pos: nat, acc: map<nat, StreamPermissions>,
                      id: nat, p: StreamPermissions, end: nat)
    requires DecodeStreamBody(bytes, pos) == Success((id, p, end)) && end < |bytes|
    ensures bytes[end] == 0 ==> DecodeStreamEntries(bytes, pos, acc) == Success(acc[id := p])
    ensures bytes[end] != 0 ==> DecodeStreamEntries(bytes, pos, acc) == DecodeStreamEntries(bytes, end + 1, acc[id := p])
  {
  }
}
