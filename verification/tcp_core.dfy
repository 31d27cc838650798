/** Request framing, the response preamble and the exchange of one request
    and its response over a connection.  The connection is a scripted peer:
    the bytes it will send and the outcome of each successive read and write
    call.  An exhausted script is the peer closing the connection. */
module TcpCore {
  import opened Wrappers
  import opened Errors
  import opened Bytes

  const INITIAL_BYTES_LENGTH: nat := 4
  const EXPECTED_RESPONSE_SIZE: nat := 8
  const MAX_STRING_LENGTH: nat := 255

  // ----- request frame -----

  /** `createPayload`: the u32 length of command plus message, the u32
      command, then the message.  Both u32 fields are Go `uint32`
      conversions, which keep the low 32 bits. */
  function CreatePayload(message: seq<byte>, command: int): (r: seq<byte>)
    ensures |r| == INITIAL_BYTES_LENGTH + 4 + |message|
    ensures LeValue(r[0..4]) == (|message| + 4) % U32_LIMIT
    ensures LeValue(r[4..8]) == command % U32_LIMIT
    ensures r[8..] == message
  {
    var r := U32Bytes((|message| + 4) % U32_LIMIT) + U32Bytes(command % U32_LIMIT) + message;
    Pow256Values();
    LeValueOfLeBytes((|message| + 4) % U32_LIMIT, 4);
    LeValueOfLeBytes(command % U32_LIMIT, 4);
    assert r[0..4] == U32Bytes((|message| + 4) % U32_LIMIT);
    assert r[4..8] == U32Bytes(command % U32_LIMIT);
    r
  }

  datatype Frame = Frame(length: nat, command: nat, message: seq<byte>)

  /** The server's reading of a request frame. */
  function ParseFrame(buf: seq<byte>): (r: Result<Frame, Error>)
    ensures r.Success? <==> |buf| >= 8
    ensures r.Success? ==> r.value.message == buf[8..]
  {
    var length :- U32At(buf, 0);
    var command :- U32At(buf, 4);
    Success(Frame(length, command, buf[8..]))
  }

  lemma FrameRoundTrip(message: seq<byte>, command: int)
    ensures ParseFrame(CreatePayload(message, command))
              == Success(Frame((|message| + 4) % U32_LIMIT, command % U32_LIMIT, message))
  {
  }

  /** Every frame whose length field counts the bytes after it is what
      `CreatePayload` builds from its command and message. */
  lemma FrameIsCreated(buf: seq<byte>)
    requires |buf| >= 8 && LeValue(buf[0..4]) == |buf| - 4
    ensures CreatePayload(buf[8..], LeValue(buf[4..8])) == buf
  {
    Pow256Values();
    var c := LeValue(buf[4..8]);
    var len := LeValue(buf[0..4]);
    assert (|buf[8..]| + 4) % U32_LIMIT == len;
    assert c % U32_LIMIT == c;
    LeBytesOfLeValue(buf[0..4]);
    LeBytesOfLeValue(buf[4..8]);
    assert U32Bytes(len) == buf[0..4];
    assert U32Bytes(c) == buf[4..8];
    assert buf == buf[0..4] + buf[4..8] + buf[8..];
  }

  // ----- response preamble -----

  /** `getResponseCode`: the u32 at bytes 0..4. */
  function ResponseCode(buf: seq<byte>): (r: nat)
    requires |buf| >= 4
    ensures r < U32_LIMIT
  {
    Pow256Values();
    LeValue(buf[..4])
  }

  /** The u32 body length at bytes 4..8. */
  function ResponseLength(buf: seq<byte>): (r: nat)
    requires |buf| >= 8
    ensures r < U32_LIMIT
  {
    Pow256Values();
    LeValue(buf[4..8])
  }

  function EncodePreamble(code: nat, length: nat): seq<byte> {
    U32Bytes(code) + U32Bytes(length)
  }

  lemma PreambleRoundTrip(code: nat, length: nat)
    requires code < U32_LIMIT && length < U32_LIMIT
    ensures |EncodePreamble(code, length)| == EXPECTED_RESPONSE_SIZE
    ensures ResponseCode(EncodePreamble(code, length)) == code
    ensures ResponseLength(EncodePreamble(code, length)) == length
  {
    var p := EncodePreamble(code, length);
    assert p[..4] == U32Bytes(code);
    assert p[4..8] == U32Bytes(length);
    Pow256Values();
    LeValueOfLeBytes(code, 4);
    LeValueOfLeBytes(length, 4);
  }

  lemma PreambleIsEncoded(buf: seq<byte>)
    requires |buf| == EXPECTED_RESPONSE_SIZE
    ensures EncodePreamble(ResponseCode(buf), ResponseLength(buf)) == buf
  {
    LeBytesOfLeValue(buf[..4]);
    LeBytesOfLeValue(buf[4..8]);
    assert buf == buf[..4] + buf[4..8];
  }

  /** `getResponseLength`: a length of 0 or 1 means an empty response. */
  function GetResponseLength(buf: seq<byte>): (r: Result<nat, Error>)
    requires |buf| >= 8
    ensures r.Success? <==> ResponseLength(buf) > 1
    ensures r.Success? ==> r.value == ResponseLength(buf)
    ensures r.Failure? ==> r.error == Coded(IggyError(0, "Received empty response."))
  {
    var length := ResponseLength(buf);
    if length <= 1 then Failure(Coded(IggyError(0, "Received empty response."))) else Success(length)
  }

  /** Error codes for which the preamble is returned along with the error. */
  predicate IsSoftCode(code: nat) {
    code == 2012 || code == 2013 || code == 1011 || code == 1012
      || code == 46 || code == 51 || code == 5001 || code == 5004
  }

  /** What the preamble tells the client to do next. */
  datatype Decision = HardError(code: nat) | SoftError(code: nat) | EmptyBody | ReadBody(length: nat)

  /** The decision logic of `sendAndFetchResponse`, read off the preamble. */
  function Decide(preamble: seq<byte>): (d: Decision)
    requires |preamble| >= EXPECTED_RESPONSE_SIZE
    ensures d.HardError? <==> ResponseCode(preamble) != 0 && !IsSoftCode(ResponseCode(preamble))
    ensures d.SoftError? <==> IsSoftCode(ResponseCode(preamble))
    ensures d.HardError? || d.SoftError? ==> d.code == ResponseCode(preamble)
    ensures d.EmptyBody? <==> ResponseCode(preamble) == 0 && ResponseLength(preamble) <= 1
    ensures d.ReadBody? ==> d.length == ResponseLength(preamble) > 1
  {
    var code := ResponseCode(preamble);
    if code != 0 then
      if IsSoftCode(code) then SoftError(code) else HardError(code)
    else if ResponseLength(preamble) <= 1 then
      EmptyBody
    else
      ReadBody(ResponseLength(preamble))
  }

  /** An all-zero preamble is an empty body; "stream name already exists"
      (1012) is soft; "unauthenticated" (40) is hard; a successful preamble
      announcing n > 1 bytes asks for exactly n. */
  lemma DecideExamples(n: nat)
    requires 1 < n < U32_LIMIT
    ensures Decide(EncodePreamble(0, 0)) == EmptyBody
    ensures Decide(EncodePreamble(1012, 0)) == SoftError(1012)
    ensures Decide(EncodePreamble(40, 0)) == HardError(40)
    ensures Decide(EncodePreamble(0, n)) == ReadBody(n)
  {
    PreambleRoundTrip(0, 0);
    PreambleRoundTrip(1012, 0);
    PreambleRoundTrip(40, 0);
    PreambleRoundTrip(0, n);
  }

  // ----- the connection -----

  /** One call of the connection's read: up to `n` bytes, or an error. */
  datatype ReadStep = Deliver(n: nat) | ReadFails(reason: string)

  /** One call of the connection's write: `n` bytes accepted, or an error
      after the first `n` bytes already reached the peer (a reset part-way
      through a call). */
  datatype WriteStep = Accept(n: nat) | WriteFails(n: nat, reason: string)

  /** `incoming` is what the peer has yet to send, `sent` what it has received. */
  datatype Socket = Socket(incoming: seq<byte>, readSteps: seq<ReadStep>, writeSteps: seq<WriteStep>, sent: seq<byte>)

  function Min(a: nat, b: nat): nat {
    if a <= b then a else b
  }

  /** What a script does to one read or write loop: whether the loop gets
      all it needs, how many bytes it counts, and the steps left after it. */
  datatype Run<S> = Run(ok: bool, count: nat, left: seq<S>)

  /** A run that starts after `k` bytes were already counted. */
  function After<S>(k: nat, r: Run<S>): Run<S> {
    Run(r.ok, k + r.count, r.left)
  }

  /** The read steps asked for `need` bytes while the peer still has `avail`
      bytes to send: each delivery is cut to what is still needed and what
      the peer still has; a failing step, an exhausted script or an
      exhausted peer stops the loop. */
  function ReadRun(steps: seq<ReadStep>, avail: nat, need: nat): (r: Run<ReadStep>)
    ensures r.count <= need && r.count <= avail
    ensures r.ok <==> r.count == need
    decreases |steps|
  {
    if need == 0 then Run(true, 0, steps)
    else if |steps| == 0 then Run(false, 0, [])
    else
      match steps[0]
      case ReadFails(_) => Run(false, 0, steps[1..])
      case Deliver(n) =>
        if avail == 0 then Run(false, 0, steps[1..])
        else
          var k := Min(n, Min(need, avail));
          After(k, ReadRun(steps[1..], avail - k, need - k))
  }

  /** The write steps asked to take `need` bytes: each acceptance is cut to
      what is still unwritten; a failing step or an exhausted script stops
      the loop, and the bytes of a failing step are not counted. */
  function WriteRun(steps: seq<WriteStep>, need: nat): (r: Run<WriteStep>)
    ensures r.count <= need
    ensures r.ok <==> r.count == need
    decreases |steps|
  {
    if need == 0 then Run(true, 0, steps)
    else if |steps| == 0 then Run(false, 0, [])
    else
      match steps[0]
      case WriteFails(_, _) => Run(false, 0, steps[1..])
      case Accept(n) =>
        var k := Min(n, need);
        After(k, WriteRun(steps[1..], need - k))
  }

  /** One call of the connection's `Read` into a buffer of `want` bytes: the
      next read step delivers at most `want` bytes of what the peer still
      has, or fails; an exhausted script or peer is end of file. */
  method ConnRead(sock: Socket, want: nat) returns (n: nat, err: Option<Error>, sock': Socket)
    requires want > 0
    ensures n <= want && n <= |sock.incoming|
    ensures sock'.incoming == sock.incoming[n..]
    ensures sock'.writeSteps == sock.writeSteps && sock'.sent == sock.sent
    ensures err.Some? ==> n == 0 && err.value.Transport?
    ensures err.Some? ==> ReadRun(sock.readSteps, |sock.incoming|, want) == Run(false, 0, sock'.readSteps)
    ensures err.None? ==> |sock'.readSteps| < |sock.readSteps|
    ensures err.None? ==>
      ReadRun(sock.readSteps, |sock.incoming|, want) == After(n, ReadRun(sock'.readSteps, |sock'.incoming|, want - n))
  {
    if |sock.readSteps| == 0 {
      return 0, Some(Transport("EOF")), sock;
    }
    match sock.readSteps[0] {
      case ReadFails(reason) =>
        return 0, Some(Transport(reason)), sock.(readSteps := sock.readSteps[1..]);
      case Deliver(k) =>
        if |sock.incoming| == 0 {
          return 0, Some(Transport("EOF")), sock.(readSteps := sock.readSteps[1..]);
        }
        n := Min(k, Min(want, |sock.incoming|));
        return n, None, sock.(incoming := sock.incoming[n..], readSteps := sock.readSteps[1..]);
    }
  }

  /** `read`: read until `expected` bytes have arrived.  On an error the
      bytes read so far are returned; bytes of the failing call are lost.
      The loop is written as tail recursion: one call of the connection's
      `Read`, then the rest of the loop for the bytes still missing. */
  method Read(s: Socket, expected: nat) returns (totalRead: nat, buffer: seq<byte>, err: Option<Error>, s': Socket)
    ensures totalRead == |buffer| && totalRead <= |s.incoming|
    ensures buffer == s.incoming[..totalRead]
    ensures err.None? <==> totalRead == expected
    ensures err.Some? ==> totalRead < expected && err.value.Transport?
    ensures s'.incoming == s.incoming[totalRead..]
    ensures s'.writeSteps == s.writeSteps && s'.sent == s.sent
    ensures err.None? <==> ReadRun(s.readSteps, |s.incoming|, expected).ok
    ensures totalRead == ReadRun(s.readSteps, |s.incoming|, expected).count
    ensures s'.readSteps == ReadRun(s.readSteps, |s.incoming|, expected).left
    decreases |s.readSteps|
  {
    if expected == 0 {
      return 0, [], None, s;
    }
    var n, e, next := ConnRead(s, expected);
    if e.Some? {
      return 0, [], e, next;
    }
    var m, more, e', last := Read(next, expected - n);
    assert s.incoming[n..][m..] == s.incoming[n + m..];
    assert s.incoming[..n] + s.incoming[n..][..m] == s.incoming[..n + m];
    return n + m, s.incoming[..n] + more, e', last;
  }


  /** One call of the connection's `Write` with `data`: the next write step
      accepts a prefix of it, or fails after a prefix reached the peer; an
      exhausted script is a closed connection. */
  method ConnWrite(sock: Socket, data: seq<byte>) returns (n: nat, err: Option<Error>, sock': Socket)
    requires |data| > 0
    ensures n <= |data|
    ensures sock' == sock.(sent := sock.sent + data[..n], writeSteps := sock'.writeSteps)
    ensures err.Some? ==> err.value.Transport?
    ensures err.Some? ==> WriteRun(sock.writeSteps, |data|) == Run(false, 0, sock'.writeSteps)
    ensures err.None? ==> |sock'.writeSteps| < |sock.writeSteps|
    ensures err.None? ==>
      WriteRun(sock.writeSteps, |data|) == After(n, WriteRun(sock'.writeSteps, |data| - n))
  {
    if |sock.writeSteps| == 0 {
      return 0, Some(Transport("connection closed")), sock.(sent := sock.sent + data[..0]);
    }
    match sock.writeSteps[0] {
      case WriteFails(k, reason) =>
        n := Min(k, |data|);
        return n, Some(Transport(reason)), sock.(sent := sock.sent + data[..n], writeSteps := sock.writeSteps[1..]);
      case Accept(k) =>
        n := Min(k, |data|);
        return n, None, sock.(sent := sock.sent + data[..n], writeSteps := sock.writeSteps[1..]);
    }
  }

  /** The peer, which held `before`, now holds `before` followed by a prefix
      of `payload`. */
  predicate SentPrefix(before: seq<byte>, after: seq<byte>, payload: seq<byte>) {
    before <= after && after[|before|..] <= payload
  }

  /** A first call that delivered `n` bytes, then a prefix of the rest. */
  lemma SentPrefixChains(a: seq<byte>, b: seq<byte>, c: seq<byte>, payload: seq<byte>, n: nat)
    requires n <= |payload| && b == a + payload[..n]
    requires SentPrefix(b, c, payload[n..])
    ensures SentPrefix(a, c, payload)
  {
    var j := |c| - |b|;
    assert payload[..n] + payload[n..][..j] == payload[..n + j];
  }

  /** `write`: write until the whole payload is accepted.  The count leaves
      out the bytes of a failing call, so on an error the peer may hold more
      of the payload than `totalWritten` says, but never anything else.  The
      loop is written as tail recursion: one call of the connection's
      `Write`, then the rest of the loop for the bytes still unwritten. */
  method Write(s: Socket, payload: seq<byte>) returns (totalWritten: nat, err: Option<Error>, s': Socket)
    ensures totalWritten <= |payload|
    ensures err.None? <==> totalWritten == |payload|
    ensures err.Some? ==> err.value.Transport?
    ensures s.sent <= s'.sent && |s.sent| + totalWritten <= |s'.sent|
    ensures s'.sent[|s.sent|..] <= payload
    ensures err.None? ==> s'.sent == s.sent + payload
    ensures s'.incoming == s.incoming && s'.readSteps == s.readSteps
    ensures err.None? <==> WriteRun(s.writeSteps, |payload|).ok
    ensures totalWritten == WriteRun(s.writeSteps, |payload|).count
    ensures s'.writeSteps == WriteRun(s.writeSteps, |payload|).left
    decreases |s.writeSteps|
  {
    if |payload| == 0 {
      return 0, None, s;
    }
    var n, e, next := ConnWrite(s, payload);
    if e.Some? {
      return 0, e, next;
    }
    var m, e', last := Write(next, payload[n..]);
    SentPrefixChains(s.sent, next.sent, last.sent, payload, n);
    return n + m, e', last;
  }



  /** The read script carries a whole response: the preamble arrives, and so
      does the body when the preamble asks for one. */
  predicate ResponseCompletes(s: Socket) {
    && ReadRun(s.readSteps, |s.incoming|, EXPECTED_RESPONSE_SIZE).ok
    && var d := Decide(s.incoming[..EXPECTED_RESPONSE_SIZE]);
       d.ReadBody? ==>
         ReadRun(ReadRun(s.readSteps, |s.incoming|, EXPECTED_RESPONSE_SIZE).left,
                 |s.incoming| - EXPECTED_RESPONSE_SIZE, d.length).ok
  }

  /** The script carries a whole exchange for `frame`: the frame is written,
      then the whole response arrives. */
  predicate ScriptCompletes(s: Socket, frame: seq<byte>) {
    WriteRun(s.writeSteps, |frame|).ok && ResponseCompletes(s)
  }

  /** What `sendAndFetchResponse` returns: a body (nil in Go when `None`) and
      an error. */
  datatype Reply = Reply(body: Option<seq<byte>>, err: Option<Error>)

  /** The reply a whole response gives, by the decision on its preamble. */
  predicate RepliesAsDecided(s: Socket, r: Reply)
    requires |s.incoming| >= EXPECTED_RESPONSE_SIZE
  {
    var d := Decide(s.incoming[..8]);
    && (d.HardError? ==> r == Reply(None, Some(Coded(MapFromCode(d.code)))))
    && (d.SoftError? ==> r == Reply(Some(s.incoming[..8]), Some(Coded(MapFromCode(d.code)))))
    && (d.EmptyBody? ==> r == Reply(Some([]), None))
    && (d.ReadBody? ==> 8 + d.length <= |s.incoming| && r == Reply(Some(s.incoming[8..8 + d.length]), None))
  }

  /** The part of `sendAndFetchResponse` after the frame is written: read the
      8-byte preamble, then decide.  A nonzero code is an error from the
      table; for the soft codes the preamble comes back with it, for the
      others nothing does, and no body is read either way.  Code 0 with a
      length of 0 or 1 is an empty body; otherwise exactly `length` body
      bytes are read. */
  method ReadResponse(s: Socket) returns (r: Reply, s': Socket)
    ensures s'.sent == s.sent && s'.writeSteps == s.writeSteps
    ensures r.err.None? ==> r.body.Some?
    ensures r.err.Some? ==> r.err.value.Coded? || r.err.value.Transport?
    ensures r.err.Some? && r.err.value.Transport? ==> r.body.None?
    ensures r.err.None? || r.err.value.Coded? ==> |s.incoming| >= EXPECTED_RESPONSE_SIZE
    ensures r.err.Some? && r.err.value.Coded? ==>
              var code := ResponseCode(s.incoming[..8]);
              && code != 0
              && r.err.value.err == MapFromCode(code)
              && (r.body.Some? <==> IsSoftCode(code))
              && (r.body.Some? ==> r.body.value == s.incoming[..8])
              && s'.incoming == s.incoming[8..]
    ensures r.err.None? ==>
              var length := ResponseLength(s.incoming[..8]);
              && ResponseCode(s.incoming[..8]) == 0
              && (length <= 1 ==> r.body == Some([]) && s'.incoming == s.incoming[8..])
              && (length > 1 ==> 8 + length <= |s.incoming|
                                 && r.body == Some(s.incoming[8..8 + length])
                                 && s'.incoming == s.incoming[8 + length..])
    ensures r.err.Some? && r.err.value.Transport? <==> !ResponseCompletes(s)
    ensures ResponseCompletes(s) ==> RepliesAsDecided(s, r)
  {
    var _, preamble, rerr, s1 := Read(s, EXPECTED_RESPONSE_SIZE);
    if rerr.Some? {
      return Reply(None, rerr), s1;
    }
    assert preamble == s.incoming[..8];
    var d := Decide(preamble);
    if d.HardError? {
      return Reply(None, Some(Coded(MapFromCode(d.code)))), s1;
    } else if d.SoftError? {
      return Reply(Some(preamble), Some(Coded(MapFromCode(d.code)))), s1;
    } else if d.EmptyBody? {
      return Reply(Some([]), None), s1;
    }
    var _, body, berr, s2 := Read(s1, d.length);
    if berr.Some? {
      return Reply(None, berr), s2;
    }
    assert body == s.incoming[8..8 + d.length];
    return Reply(Some(body), None), s2;
  }

  /** `sendAndFetchResponse`: send the frame, then read the response.  A
      transport error happens exactly when the script does not carry the
      whole exchange; when it does, the reply is the one the preamble
      decides. */
  method SendAndFetch(s: Socket, message: seq<byte>, command: int) returns (r: Reply, s': Socket)
    ensures r.err.None? ==> r.body.Some?
    ensures r.err.Some? ==> r.err.value.Coded? || r.err.value.Transport?
    ensures r.err.Some? && r.err.value.Transport? ==> r.body.None?
    ensures r.err.None? || r.err.value.Coded? ==>
              s'.sent == s.sent + CreatePayload(message, command) && |s.incoming| >= EXPECTED_RESPONSE_SIZE
    ensures r.err.Some? && r.err.value.Coded? ==>
              var code := ResponseCode(s.incoming[..8]);
              && code != 0
              && r.err.value.err == MapFromCode(code)
              && (r.body.Some? <==> IsSoftCode(code))
              && (r.body.Some? ==> r.body.value == s.incoming[..8])
              && s'.incoming == s.incoming[8..]
    ensures r.err.None? ==>
              var length := ResponseLength(s.incoming[..8]);
              && ResponseCode(s.incoming[..8]) == 0
              && (length <= 1 ==> r.body == Some([]) && s'.incoming == s.incoming[8..])
              && (length > 1 ==> 8 + length <= |s.incoming|
                                 && r.body == Some(s.incoming[8..8 + length])
                                 && s'.incoming == s.incoming[8 + length..])
    ensures r.err.Some? && r.err.value.Transport? <==> !ScriptCompletes(s, CreatePayload(message, command))
    ensures ScriptCompletes(s, CreatePayload(message, command)) ==> RepliesAsDecided(s, r)
  {
    var payload := CreatePayload(message, command);
    var _, werr, s1 := Write(s, payload);
    if werr.Some? {
      return Reply(None, werr), s1;
    }
    assert s1.incoming == s.incoming && s1.readSteps == s.readSteps;
    r, s' := ReadResponse(s1);
  }
}
