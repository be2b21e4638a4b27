/** Framing in turbonet_client.cpp and turbonet_server.cpp. */
module Framing {
  import opened Bytes

  const HEADER: int := 10

  datatype Message = Message(packetId: Byte, status: Byte, sequence: U32, body: seq<Byte>)

  /** The 32-bit length field, which wraps. */
  function TotalField(m: Message): U32 {
    (HEADER + |m.body|) % WORD
  }

  function Encode(m: Message): (b: seq<Byte>)
    ensures |b| == HEADER + |m.body|
  {
    BigEndian(TotalField(m)) + [m.packetId, m.status] + BigEndian(m.sequence) + m.body
  }

  /** The wire format of a frame, byte by byte. */
  lemma FrameLayout(m: Message)
    ensures var b := Encode(m);
            && b[..4] == BigEndian((10 + |m.body|) % WORD)
            && b[4] == m.packetId && b[5] == m.status
            && b[6..10] == BigEndian(m.sequence)
            && b[10..] == m.body
  {
  }

  function EncodeAll(ms: seq<Message>): seq<Byte> {
    if ms == [] then [] else Encode(ms[0]) + EncodeAll(ms[1..])
  }

  /** Copies `src` into the buffer, as `memcpy` does. */
  method Blit(buffer: array<Byte>, at: nat, src: seq<Byte>)
    requires at + |src| <= buffer.Length
    modifies buffer
    ensures buffer[..at] == old(buffer[..at]) && buffer[at..at + |src|] == src
    ensures buffer[at + |src|..] == old(buffer[at + |src|..])
  {
    for i := 0 to |src|
      invariant buffer[..at] == old(buffer[..at]) && buffer[at..at + i] == src[..i]
      invariant buffer[at + |src|..] == old(buffer[at + |src|..])
    {
      buffer[at + i] := src[i];
    }
  }

  /** `sendPacket` and the `respond` closure: the frame is laid out in a fresh buffer. */
  method BuildFrame(packetId: Byte, status: Byte, sequence: U32, data: seq<Byte>) returns (packet: array<Byte>)
    ensures fresh(packet) && packet[..] == Encode(Message(packetId, status, sequence, data))
  {
    packet := new Byte[HEADER + |data|];
    var total := (HEADER + |data|) % WORD;
    Blit(packet, 0, BigEndian(total));
    packet[4] := packetId;
    packet[5] := status;
    Blit(packet, 6, BigEndian(sequence));
    assert packet[..6] == BigEndian(total) + [packetId, status];
    Blit(packet, HEADER, data);
    assert packet[..HEADER] == BigEndian(total) + [packetId, status] + BigEndian(sequence);
    assert packet[..] == packet[..HEADER] + packet[HEADER..HEADER + |data|];
  }

  // ----- the two readers -----

  /** The server subtracts ten without a test; the client skips a header whose length is below ten. */
  datatype End = ServerEnd | ClientEnd

  predicate Skips(end: End, header: seq<Byte>)
    requires |header| == HEADER
  {
    end.ClientEnd? && FromBigEndian(header[..4]) < HEADER
  }

  /** `total - 10` in 32-bit arithmetic. */
  function BodyLength(header: seq<Byte>): U32
    requires |header| == HEADER
  {
    (FromBigEndian(header[..4]) + WORD - HEADER) % WORD
  }

  function MessageOf(header: seq<Byte>, body: seq<Byte>): Message
    requires |header| == HEADER
  {
    Message(header[4], header[5], FromBigEndian(header[6..]), body)
  }

  /** `waiting`: the bytes read of a frame that is not complete. */
  datatype Parsed = Parsed(messages: seq<Message>, waiting: seq<Byte>)

  function Parse(end: End, stream: seq<Byte>): Parsed
    decreases |stream|
  {
    if |stream| < HEADER then Parsed([], stream)
    else
      var header := stream[..HEADER];
      if Skips(end, header) then Parse(end, stream[HEADER..])
      else if |stream| - HEADER < BodyLength(header) then Parsed([], stream)
      else
        var n := HEADER + BodyLength(header);
        var rest := Parse(end, stream[n..]);
        Parsed([MessageOf(header, stream[HEADER..n])] + rest.messages, rest.waiting)
  }

  /** Bodies below this size survive the wrap of the length field. */
  function Limit(end: End): int {
    match end
    case ServerEnd => WORD
    case ClientEnd => WORD - HEADER
  }

  predicate Fits(end: End, m: Message) {
    |m.body| < Limit(end)
  }

  lemma EncodedHeader(m: Message, after: seq<Byte>)
    ensures var stream := Encode(m) + after;
            && |stream| >= HEADER
            && FromBigEndian(stream[..HEADER][..4]) == TotalField(m)
            && BodyLength(stream[..HEADER]) == |m.body| % WORD
            && MessageOf(stream[..HEADER], m.body) == m
            && stream[HEADER..] == m.body + after
  {
    var stream := Encode(m) + after;
    var header := stream[..HEADER];
    BigEndianRoundTrip(TotalField(m));
    BigEndianRoundTrip(m.sequence);
    assert header[..4] == BigEndian(TotalField(m));
    assert header[6..] == BigEndian(m.sequence);
    assert header[4] == m.packetId && header[5] == m.status;
    WrapCancels(|m.body|);
  }

  /** Adding ten and subtracting ten cancel, even when the length field has wrapped in between. */
  lemma WrapCancels(n: nat)
    ensures ((HEADER + n) % WORD + WORD - HEADER) % WORD == n % WORD
  {
  }

  lemma ParseFitting(end: End, m: Message, after: seq<Byte>)
    requires Fits(end, m)
    ensures var rest := Parse(end, after);
            Parse(end, Encode(m) + after) == Parsed([m] + rest.messages, rest.waiting)
  {
    EncodedHeader(m, after);
    var stream := Encode(m) + after;
    var header, n := stream[..HEADER], HEADER + |m.body|;
    FittingLength(end, m);
    assert !Skips(end, header) && BodyLength(header) == |m.body|;
    assert stream[HEADER..n] == m.body;
    assert stream[n..] == after;
  }

  lemma FittingLength(end: End, m: Message)
    requires Fits(end, m)
    ensures |m.body| % WORD == |m.body|
    ensures end.ClientEnd? ==> TotalField(m) == HEADER + |m.body|
  {
  }

  function Size(ms: seq<Message>): nat {
    if ms == [] then 0 else HEADER + |ms[0].body| + Size(ms[1..])
  }

  lemma {:induction false} EncodeSize(ms: seq<Message>)
    ensures |EncodeAll(ms)| == Size(ms)
  {
    if ms != [] { EncodeSize(ms[1..]); }
  }

  /** No reader makes more out of a stream than the stream holds. */
  lemma {:induction false} ParseSize(end: End, stream: seq<Byte>)
    ensures Size(Parse(end, stream).messages) + |Parse(end, stream).waiting| <= |stream|
    decreases |stream|
  {
    if |stream| >= HEADER {
      var header := stream[..HEADER];
      if Skips(end, header) {
        ParseSize(end, stream[HEADER..]);
      } else if |stream| - HEADER >= BodyLength(header) {
        ParseSize(end, stream[HEADER + BodyLength(header)..]);
      }
    }
  }

  /** A message too large for this end does not come out as it went in. */
  lemma ParseOversized(end: End, m: Message, rest: seq<Message>)
    requires !Fits(end, m)
    ensures Parse(end, Encode(m) + EncodeAll(rest)).messages != [m] + rest
  {
    var after := EncodeAll(rest);
    var stream := Encode(m) + after;
    EncodedHeader(m, after);
    var header := stream[..HEADER];
    if Skips(end, header) {
      ParseSize(end, stream[HEADER..]);
      EncodeSize(rest);
      assert ([m] + rest)[1..] == rest;
      assert Size([m] + rest) == |stream|;
    } else {
      var n := |m.body| % WORD;
      assert n < |m.body|;
      assert |Parse(end, stream).messages[0].body| == n;
    }
  }

  /**
   * Concatenated frames are read back as the same messages with nothing left over, if and only if every
   * body is below the limit: 2^32 bytes for the server session, 2^32 - 10 for the client reader.
   */
  lemma {:induction false} FramingRoundTrip(end: End, ms: seq<Message>)
    ensures Parse(end, EncodeAll(ms)) == Parsed(ms, []) <==> forall m | m in ms :: Fits(end, m)
    decreases |ms|
  {
    if ms != [] {
      FramingRoundTrip(end, ms[1..]);
      assert forall m :: m in ms <==> m == ms[0] || m in ms[1..];
      assert ms == [ms[0]] + ms[1..];
      if Fits(end, ms[0]) {
        ParseFitting(end, ms[0], EncodeAll(ms[1..]));
      } else {
        ParseOversized(end, ms[0], ms[1..]);
      }
    }
  }

  /** The length of the body that a reader takes from a header whose length field is below ten. */
  lemma ShortBody(header: seq<Byte>, length: U32)
    requires |header| == 10 && header[..4] == BigEndian(length) && length < 10
    ensures Skips(ClientEnd, header) && !Skips(ServerEnd, header) && BodyLength(header) == length + 0xFFFF_FFF6
  {
    BigEndianRoundTrip(length);
  }

  /**
   * A header whose length field is below ten: the client skips it and goes on, the server waits for a body of
   * nearly 2^32 bytes.
   */
  lemma ShortLength(header: seq<Byte>, length: U32, after: seq<Byte>)
    requires |header| == 10 && header[..4] == BigEndian(length) && length < 10
    ensures Parse(ClientEnd, header + after) == Parse(ClientEnd, after)
    ensures |after| < length + 0xFFFF_FFF6 ==> Parse(ServerEnd, header + after) == Parsed([], header + after)
  {
    ShortBody(header, length);
    assert (header + after)[..HEADER] == header && (header + after)[HEADER..] == after;
  }

  /** The receive side of `TurboNetClient`. */
  class ClientReader {
    var lastPacketId: Byte
    var lastStatus: Byte
    var lastSequence: U32
    var bodyBuf: seq<Byte>
    var packets: seq<Message>

    constructor ()
      ensures packets == []
    {
      lastPacketId, lastStatus, lastSequence, bodyBuf, packets := 0, 0, 0, [], [];
    }

    /** `onReadHeader`: false stands for reading another header. */
    method OnReadHeader(header: seq<Byte>) returns (body: bool, length: U32)
      requires |header| == HEADER
      modifies this`lastPacketId, this`lastStatus, this`lastSequence
      ensures body == !Skips(ClientEnd, header) && (body ==> length == BodyLength(header))
      ensures MessageOf(header, []) == Message(lastPacketId, lastStatus, lastSequence, [])
    {
      var packetLen := FromBigEndian(header[..4]);
      lastPacketId := header[4];
      lastStatus := header[5];
      lastSequence := FromBigEndian(header[6..]);
      body := packetLen >= HEADER;
      length := if body then packetLen - HEADER else 0;
    }

    /** `onReadBody`: the packet goes to the handler. */
    method OnReadBody(body: seq<Byte>)
      modifies this`bodyBuf, this`packets
      ensures packets == old(packets) + [Message(lastPacketId, lastStatus, lastSequence, body)]
    {
      bodyBuf := body;
      packets := packets + [Message(lastPacketId, lastStatus, lastSequence, bodyBuf)];
    }

    /** The read loop over all that the socket delivers. */
    method ReadLoop(stream: seq<Byte>) returns (waiting: seq<Byte>)
      modifies this
      ensures packets == old(packets) + Parse(ClientEnd, stream).messages
      ensures waiting == Parse(ClientEnd, stream).waiting
    {
      waiting := stream;
      var complete := true;
      while |waiting| >= HEADER && complete
        invariant Parse(ClientEnd, stream).waiting == Parse(ClientEnd, waiting).waiting
        invariant packets + Parse(ClientEnd, waiting).messages == old(packets) + Parse(ClientEnd, stream).messages
        invariant !complete ==> Parse(ClientEnd, waiting) == Parsed([], waiting)
        decreases |waiting|, complete
      {
        var header := waiting[..HEADER];
        var body, length := OnReadHeader(header);
        if !body {
          waiting := waiting[HEADER..];
        } else if |waiting| - HEADER < length {
          complete := false;
        } else {
          OnReadBody(waiting[HEADER..HEADER + length]);
          waiting := waiting[HEADER + length..];
        }
      }
    }
  }
}

/** Bind and authentication in the sessions of turbonet_server.cpp. */
module Sessions {
  import opened Bytes
  import opened Framing

  const BIND: Byte := 0x01
  const BIND_RESP: Byte := 0x81

  // "test_server"
  const SERVER_ID: seq<Byte> := [116, 101, 115, 116, 95, 115, 101, 114, 118, 101, 114]

  /** `calls`: messages handed to the application. `responses`: bind responses. `removals`: refused binds. */
  datatype Session = Session(authenticated: bool, calls: seq<Message>, responses: seq<Message>, removals: nat)

  const Opened: Session := Session(false, [], [], 0)

  function BindResponse(sequence: U32): Message {
    Message(BIND_RESP, 0, sequence, SERVER_ID)
  }

  /** `onReadBody`; `accept` is what the authentication handler says if it is asked. */
  function Handle(s: Session, m: Message, accept: bool): Session {
    if !s.authenticated && m.packetId == BIND then
      if accept then s.(authenticated := true, responses := s.responses + [BindResponse(m.sequence)])
      else s.(removals := s.removals + 1)
    else if s.authenticated then s.(calls := s.calls + [m])
    else s
  }

  /** `decide(i)` is the answer of the authentication handler for message number `i`. */
  function HandleAll(s: Session, ms: seq<Message>, decide: nat -> bool, first: nat): Session
    decreases |ms|
  {
    if ms == [] then s else HandleAll(Handle(s, ms[0], decide(first)), ms[1..], decide, first + 1)
  }

  predicate AcceptedBind(ms: seq<Message>, decide: nat -> bool, first: nat, k: nat)
    requires k < |ms|
  {
    ms[k].packetId == BIND && decide(first + k)
  }

  /** `k` is the first accepted bind, or the number of messages if there is none. */
  predicate IsFirstAccepted(ms: seq<Message>, decide: nat -> bool, first: nat, k: nat) {
    && k <= |ms|
    && (k < |ms| ==> AcceptedBind(ms, decide, first, k))
    && (forall i | 0 <= i < k :: !AcceptedBind(ms, decide, first, i))
  }

  lemma {:induction false} AuthenticatedForwardsAll(s: Session, ms: seq<Message>, decide: nat -> bool, first: nat)
    requires s.authenticated
    ensures HandleAll(s, ms, decide, first) == s.(calls := s.calls + ms)
    decreases |ms|
  {
    if ms == [] {
      assert s.calls + ms == s.calls;
    } else {
      AuthenticatedForwardsAll(Handle(s, ms[0], decide(first)), ms[1..], decide, first + 1);
      assert s.calls + [ms[0]] + ms[1..] == s.calls + ms;
    }
  }

  /** How many of the messages are binds. */
  function Binds(ms: seq<Message>): nat {
    if ms == [] then 0 else (if ms[0].packetId == BIND then 1 else 0) + Binds(ms[1..])
  }

  lemma {:induction false} BindLaw(s: Session, ms: seq<Message>, decide: nat -> bool, first: nat, k: nat)
    requires !s.authenticated && IsFirstAccepted(ms, decide, first, k)
    ensures var r := HandleAll(s, ms, decide, first);
            && r.authenticated == (k < |ms|)
            && r.calls == s.calls + (if k < |ms| then ms[k + 1..] else [])
            && r.responses == s.responses + (if k < |ms| then [BindResponse(ms[k].sequence)] else [])
            && r.removals == s.removals + Binds(ms[..k])
    decreases |ms|
  {
    if ms == [] {
      assert s.calls + [] == s.calls && s.responses + [] == s.responses;
    } else {
      var next := Handle(s, ms[0], decide(first));
      if k == 0 {
        AuthenticatedForwardsAll(next, ms[1..], decide, first + 1);
      } else {
        assert !AcceptedBind(ms, decide, first, 0);
        var tail, after := ms[1..], first + 1;
        forall i | 0 <= i < k - 1
          ensures !AcceptedBind(tail, decide, after, i)
        {
          assert !AcceptedBind(ms, decide, first, i + 1);
        }
        BindLaw(next, tail, decide, after, k - 1);
        assert k < |ms| ==> ms[1..][k - 1 + 1..] == ms[k + 1..];
        assert ms[..k][1..] == tail[..k - 1];
      }
    }
  }

  /**
   * For every list of frames with bodies below 2^32 bytes and every sequence of authentication decisions:
   * the application gets exactly the messages behind the first accepted bind, in order; the session sends
   * exactly one response, packet 0x81 with status 0 and the server's identifier under that bind's sequence
   * number, if there is one, and none otherwise; and it is removed once for every bind ahead of that one.
   */
  lemma AuthenticationTrace(ms: seq<Message>, decide: nat -> bool, k: nat)
    requires forall m | m in ms :: Fits(ServerEnd, m)
    requires IsFirstAccepted(ms, decide, 0, k)
    ensures var r := HandleAll(Opened, Parse(ServerEnd, EncodeAll(ms)).messages, decide, 0);
            && r.authenticated == (k < |ms|)
            && r.calls == (if k < |ms| then ms[k + 1..] else [])
            && r.responses == (if k < |ms| then [Message(0x81, 0, ms[k].sequence, SERVER_ID)] else [])
            && r.removals == Binds(ms[..k])
  {
    FramingRoundTrip(ServerEnd, ms);
    BindLaw(Opened, ms, decide, 0, k);
    var tail := if k < |ms| then ms[k + 1..] else [];
    assert [] + tail == tail;
  }

  /** The session's fields; the handlers run one after the other on its strand. */
  class ServerSession {
    const headerBuf: array<Byte>
    var bodyBuf: seq<Byte>
    var authenticated: bool
    var calls: seq<Message>
    var responses: seq<Message>
    var removals: nat

    ghost predicate Valid()
      reads this
    {
      headerBuf.Length == HEADER
    }

    ghost function State(): Session
      reads this
    {
      Session(authenticated, calls, responses, removals)
    }

    constructor ()
      ensures Valid() && fresh(headerBuf) && State() == Opened
    {
      headerBuf := new Byte[HEADER];
      bodyBuf, authenticated, calls, responses, removals := [], false, [], [], 0;
    }

    /** `onReadHeader`. */
    method OnReadHeader(header: seq<Byte>) returns (length: U32)
      requires Valid() && |header| == HEADER
      modifies headerBuf
      ensures headerBuf[..] == header && length == BodyLength(header)
    {
      Blit(headerBuf, 0, header);
      assert headerBuf[..] == headerBuf[0..0 + |header|];
      var total := FromBigEndian(headerBuf[..4]);
      assert headerBuf[..4] == header[..4];
      length := (total + WORD - HEADER) % WORD;
    }

    /** `onReadBody`. */
    method OnReadBody(body: seq<Byte>, accept: bool)
      requires Valid()
      modifies this
      ensures State() == Handle(old(State()), MessageOf(headerBuf[..], body), accept)
    {
      bodyBuf := body;
      assert headerBuf[6..] == headerBuf[..][6..];
      if !authenticated && headerBuf[4] == BIND {
        if accept {
          authenticated := true;
          responses := responses + [Message(BIND_RESP, 0, FromBigEndian(headerBuf[6..]), SERVER_ID)];
        } else {
          removals := removals + 1;
        }
      } else if authenticated {
        calls := calls + [Message(headerBuf[4], headerBuf[5], FromBigEndian(headerBuf[6..]), bodyBuf)];
      }
    }

    /** The read loop over all that the socket delivers; a refused bind does not end it. */
    method ReadLoop(stream: seq<Byte>, decide: nat -> bool) returns (waiting: seq<Byte>)
      requires Valid()
      modifies this, headerBuf
      ensures State() == HandleAll(old(State()), Parse(ServerEnd, stream).messages, decide, 0)
      ensures waiting == Parse(ServerEnd, stream).waiting
    {
      waiting := stream;
      var complete, n := true, 0;
      ghost var goal := HandleAll(State(), Parse(ServerEnd, stream).messages, decide, 0);
      while |waiting| >= HEADER && complete
        invariant Parse(ServerEnd, stream).waiting == Parse(ServerEnd, waiting).waiting
        invariant goal == HandleAll(State(), Parse(ServerEnd, waiting).messages, decide, n)
        invariant !complete ==> Parse(ServerEnd, waiting) == Parsed([], waiting)
        decreases |waiting|, complete
      {
        var header := waiting[..HEADER];
        var length := OnReadHeader(header);
        if |waiting| - HEADER < length {
          complete := false;
        } else {
          ghost var rest := Parse(ServerEnd, waiting[HEADER + length..]).messages;
          ghost var m := MessageOf(header, waiting[HEADER..HEADER + length]);
          assert ([m] + rest)[1..] == rest;
          OnReadBody(waiting[HEADER..HEADER + length], decide(n));
          waiting := waiting[HEADER + length..];
          n := n + 1;
        }
      }
    }
  }
}
