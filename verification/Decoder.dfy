/** The header/payload read loop shared by the claude client and the claude server connection. */
module Decoder {
  import opened Bytes
  import opened Packets

  /**
   * What the read loop remembers between bytes. `payload` is the vector `current_payload_`, which
   * is resized but never cleared, so it still holds the last payload while a header is being read.
   */
  datatype Reader =
    | AtHeader(partial: seq<Byte>, payload: seq<Byte>)
    | AtPayload(header: Header, payload: seq<Byte>, got: nat)
    | Halted

  predicate Wf(r: Reader) {
    match r
    case AtHeader(partial, _) => |partial| < HEADER_SIZE
    case AtPayload(header, payload, got) => got < |payload| && header.length == HEADER_SIZE + |payload|
    case Halted => true
  }

  datatype Decoded = Decoded(reader: Reader, packets: seq<Packet>)

  /** `std::vector::resize`: keeps a prefix, fills with zeros. */
  function Resize(v: seq<Byte>, n: nat): (r: seq<Byte>)
    ensures |r| == n
  {
    if n <= |v| then v[..n] else v + seq(n - |v|, _ => 0)
  }

  /** The vector after a read put `chunk` at offset `at`. */
  function Overwrite(v: seq<Byte>, at: nat, chunk: seq<Byte>): (r: seq<Byte>)
    requires at + |chunk| <= |v|
    ensures |r| == |v|
  {
    v[..at] + chunk + v[at + |chunk|..]
  }

  predicate LengthAccepted(h: Header) {
    HEADER_SIZE <= h.length <= MAX_PACKET
  }

  /** The branch taken once twelve header bytes are in. */
  function OnHeader(raw: seq<Byte>, payload: seq<Byte>): (d: Decoded)
    requires |raw| == HEADER_SIZE
    ensures Wf(d.reader)
  {
    var h := ParseHeader(raw);
    if !LengthAccepted(h) then Decoded(Halted, [])
    else if h.length > HEADER_SIZE then Decoded(AtPayload(h, Resize(payload, h.length - HEADER_SIZE), 0), [])
    else Decoded(AtHeader([], payload), [Packet(h, payload)])
  }

  /** The branch taken after some payload bytes are in. */
  function OnPayload(header: Header, payload: seq<Byte>, got: nat): (d: Decoded)
    requires got <= |payload| && header.length == HEADER_SIZE + |payload|
    ensures Wf(d.reader)
  {
    if got == |payload| then Decoded(AtHeader([], payload), [Packet(header, payload)])
    else Decoded(AtPayload(header, payload, got), [])
  }

  /** One byte arrives. */
  function Feed(r: Reader, b: Byte): (d: Decoded)
    requires Wf(r)
    ensures Wf(d.reader)
  {
    match r
    case AtHeader(partial, payload) =>
      if |partial| + 1 < HEADER_SIZE then Decoded(AtHeader(partial + [b], payload), [])
      else OnHeader(partial + [b], payload)
    case AtPayload(header, payload, got) => OnPayload(header, payload[got := b], got + 1)
    case Halted => Decoded(Halted, [])
  }

  function FeedAll(r: Reader, bytes: seq<Byte>): (d: Decoded)
    requires Wf(r)
    ensures Wf(d.reader)
    decreases |bytes|
  {
    if bytes == [] then Decoded(r, [])
    else
      var first := Feed(r, bytes[0]);
      var rest := FeedAll(first.reader, bytes[1..]);
      Decoded(rest.reader, first.packets + rest.packets)
  }

  lemma {:induction false} FeedAppend(r: Reader, a: seq<Byte>, b: seq<Byte>)
    requires Wf(r)
    ensures var d := FeedAll(r, a);
            var e := FeedAll(d.reader, b);
            FeedAll(r, a + b) == Decoded(e.reader, d.packets + e.packets)
    decreases |a|
  {
    if a == [] {
      assert a + b == b;
    } else {
      var first := Feed(r, a[0]);
      assert (a + b)[1..] == a[1..] + b;
      FeedAppend(first.reader, a[1..], b);
      var d := FeedAll(first.reader, a[1..]);
      var e := FeedAll(d.reader, b);
      assert first.packets + (d.packets + e.packets) == (first.packets + d.packets) + e.packets;
    }
  }

  lemma {:induction false} FeedHalted(bytes: seq<Byte>)
    ensures FeedAll(Halted, bytes) == Decoded(Halted, [])
    decreases |bytes|
  {
    if bytes != [] { FeedHalted(bytes[1..]); }
  }

  lemma {:induction false} FeedHeaderChunk(partial: seq<Byte>, payload: seq<Byte>, chunk: seq<Byte>)
    requires |partial| < HEADER_SIZE && |partial| + |chunk| <= HEADER_SIZE
    ensures FeedAll(AtHeader(partial, payload), chunk) ==
            if |partial| + |chunk| < HEADER_SIZE then Decoded(AtHeader(partial + chunk, payload), [])
            else OnHeader(partial + chunk, payload)
    decreases |chunk|
  {
    if chunk == [] {
      assert partial + chunk == partial;
    } else {
      assert (partial + [chunk[0]]) + chunk[1..] == partial + chunk;
      if |chunk| > 1 {
        FeedHeaderChunk(partial + [chunk[0]], payload, chunk[1..]);
      } else {
        assert partial + [chunk[0]] == partial + chunk;
        var d := Feed(AtHeader(partial, payload), chunk[0]);
        assert FeedAll(d.reader, chunk[1..]) == Decoded(d.reader, []);
        assert d.packets + [] == d.packets;
      }
    }
  }

  lemma {:induction false} FeedPayloadChunk(header: Header, payload: seq<Byte>, got: nat, chunk: seq<Byte>)
    requires Wf(AtPayload(header, payload, got)) && got + |chunk| <= |payload|
    ensures FeedAll(AtPayload(header, payload, got), chunk) ==
            OnPayload(header, Overwrite(payload, got, chunk), got + |chunk|)
    decreases |chunk|
  {
    if chunk == [] {
      assert Overwrite(payload, got, chunk) == payload;
    } else {
      var next := payload[got := chunk[0]];
      var all := Overwrite(payload, got, chunk);
      var d := Feed(AtPayload(header, payload, got), chunk[0]);
      if |chunk| > 1 {
        FeedPayloadChunk(header, next, got + 1, chunk[1..]);
        assert Overwrite(next, got + 1, chunk[1..]) == all;
      } else {
        assert next == all;
        assert FeedAll(d.reader, chunk[1..]) == Decoded(d.reader, []);
        assert d.packets + [] == d.packets;
      }
    }
  }

  /** How many bytes the outstanding `async_read` asks for. */
  function Need(r: Reader): nat
    requires Wf(r)
  {
    match r
    case AtHeader(partial, _) => HEADER_SIZE - |partial|
    case AtPayload(_, payload, got) => |payload| - got
    case Halted => 0
  }

  /** A sequence of read completions, each with some of the bytes asked for. */
  function FeedChunks(r: Reader, chunks: seq<seq<Byte>>): (d: Decoded)
    requires Wf(r)
    ensures Wf(d.reader)
    decreases |chunks|
  {
    if chunks == [] then Decoded(r, [])
    else
      var first := FeedAll(r, chunks[0]);
      var rest := FeedChunks(first.reader, chunks[1..]);
      Decoded(rest.reader, first.packets + rest.packets)
  }

  /** The whole stream at hand, one packet at a time. */
  function OneShot(stream: seq<Byte>, payload: seq<Byte>): Decoded
    decreases |stream|
  {
    if |stream| < HEADER_SIZE then Decoded(AtHeader(stream, payload), [])
    else
      var h := ParseHeader(stream[..HEADER_SIZE]);
      if !LengthAccepted(h) then Decoded(Halted, [])
      else if h.length == HEADER_SIZE then
        var rest := OneShot(stream[HEADER_SIZE..], payload);
        Decoded(rest.reader, [Packet(h, payload)] + rest.packets)
      else if |stream| < h.length then
        var body := stream[HEADER_SIZE..];
        Decoded(AtPayload(h, Overwrite(Resize(payload, h.length - HEADER_SIZE), 0, body), |body|), [])
      else
        var rest := OneShot(stream[h.length..], stream[HEADER_SIZE..h.length]);
        Decoded(rest.reader, [Packet(h, stream[HEADER_SIZE..h.length])] + rest.packets)
  }

  /** Reading on behind a complete header. */
  lemma FeedPastHeader(raw: seq<Byte>, payload: seq<Byte>, after: seq<Byte>)
    requires |raw| == HEADER_SIZE
    ensures var d := OnHeader(raw, payload);
            var e := FeedAll(d.reader, after);
            FeedAll(AtHeader([], payload), raw + after) == Decoded(e.reader, d.packets + e.packets)
  {
    FeedAppend(AtHeader([], payload), raw, after);
    FeedHeaderChunk([], payload, raw);
    assert [] + raw == raw;
  }

  /** The stream begins with a whole packet of an accepted length. */
  predicate Complete(stream: seq<Byte>) {
    && |stream| >= HEADER_SIZE
    && var h := ParseHeader(stream[..HEADER_SIZE]);
       LengthAccepted(h) && h.length <= |stream|
  }

  lemma FeedIncomplete(stream: seq<Byte>, payload: seq<Byte>)
    requires !Complete(stream)
    ensures FeedAll(AtHeader([], payload), stream) == OneShot(stream, payload)
  {
    if |stream| < HEADER_SIZE {
      FeedHeaderChunk([], payload, stream);
      assert [] + stream == stream;
    } else {
      var raw, after := stream[..HEADER_SIZE], stream[HEADER_SIZE..];
      var h := ParseHeader(raw);
      assert stream == raw + after;
      FeedPastHeader(raw, payload, after);
      if !LengthAccepted(h) {
        FeedHalted(after);
      } else {
        FeedPayloadChunk(h, Resize(payload, h.length - HEADER_SIZE), 0, after);
      }
    }
  }

  lemma FeedComplete(stream: seq<Byte>, payload: seq<Byte>)
    requires Complete(stream)
    ensures var h := ParseHeader(stream[..HEADER_SIZE]);
            var body := Carried(stream[HEADER_SIZE..h.length], payload);
            var rest := FeedAll(AtHeader([], body), stream[h.length..]);
            FeedAll(AtHeader([], payload), stream) == Decoded(rest.reader, [Packet(h, body)] + rest.packets)
  {
    var raw, after := stream[..HEADER_SIZE], stream[HEADER_SIZE..];
    var h := ParseHeader(raw);
    assert stream == raw + after;
    FeedPastHeader(raw, payload, after);
    if h.length > HEADER_SIZE {
      var body := stream[HEADER_SIZE..h.length];
      assert after == body + stream[h.length..];
      FeedBodyLong(h, Resize(payload, h.length - HEADER_SIZE), body, stream[h.length..]);
    }
  }

  lemma {:induction false} FeedIsOneShot(stream: seq<Byte>, payload: seq<Byte>)
    ensures FeedAll(AtHeader([], payload), stream) == OneShot(stream, payload)
    decreases |stream|
  {
    if Complete(stream) {
      var h := ParseHeader(stream[..HEADER_SIZE]);
      FeedComplete(stream, payload);
      FeedIsOneShot(stream[h.length..], Carried(stream[HEADER_SIZE..h.length], payload));
    } else {
      FeedIncomplete(stream, payload);
    }
  }

  /** From a fresh payload state: enough bytes deliver the packet, and reading goes on. */
  lemma FeedBodyLong(h: Header, room: seq<Byte>, body: seq<Byte>, after: seq<Byte>)
    requires Wf(AtPayload(h, room, 0)) && |body| == |room|
    ensures var rest := FeedAll(AtHeader([], body), after);
            FeedAll(AtPayload(h, room, 0), body + after) == Decoded(rest.reader, [Packet(h, body)] + rest.packets)
  {
    FeedPayloadChunk(h, room, 0, body);
    assert Overwrite(room, 0, body) == body;
    FeedAppend(AtPayload(h, room, 0), body, after);
  }

  /** However a stream is cut into reads, the loop dispatches and remembers what the one-shot parser says. */
  lemma {:induction false} ChunksAreOneShot(chunks: seq<seq<Byte>>, payload: seq<Byte>)
    ensures FeedChunks(AtHeader([], payload), chunks) == OneShot(Flatten(chunks), payload)
  {
    FeedChunksIsFeedAll(AtHeader([], payload), chunks);
    FeedIsOneShot(Flatten(chunks), payload);
  }

  lemma {:induction false} FeedChunksIsFeedAll(r: Reader, chunks: seq<seq<Byte>>)
    requires Wf(r)
    ensures FeedChunks(r, chunks) == FeedAll(r, Flatten(chunks))
    decreases |chunks|
  {
    if chunks != [] {
      FeedChunksIsFeedAll(FeedAll(r, chunks[0]).reader, chunks[1..]);
      FeedAppend(r, chunks[0], Flatten(chunks[1..]));
    }
  }

  // ----- what a peer that serializes packets gets delivered -----

  /** The payload handed over with a packet: its own if it has one, else the last one seen. */
  function Carried(own: seq<Byte>, last: seq<Byte>): seq<Byte> {
    if own == [] then last else own
  }

  /** The packets delivered for `ps`; an oversized packet ends the connection. */
  function Delivered(ps: seq<Packet>, last: seq<Byte>): (r: seq<Packet>)
    ensures |r| <= |ps|
    decreases |ps|
  {
    if ps == [] || !LengthAccepted(ps[0].header) then []
    else
      var payload := Carried(ps[0].payload, last);
      [Packet(ps[0].header, payload)] + Delivered(ps[1..], payload)
  }

  predicate AllHonest(ps: seq<Packet>) {
    forall p | p in ps :: Honest(p)
  }

  predicate AllAccepted(ps: seq<Packet>) {
    forall p | p in ps :: LengthAccepted(p.header)
  }

  function LastPayload(ps: seq<Packet>, last: seq<Byte>): seq<Byte>
    decreases |ps|
  {
    if ps == [] then last else LastPayload(ps[1..], Carried(ps[0].payload, last))
  }

  lemma FeedOnePacket(p: Packet, last: seq<Byte>, after: seq<Byte>)
    requires Honest(p)
    ensures var d := FeedAll(AtHeader([], last), Serialize(p) + after);
            if !LengthAccepted(p.header) then d == Decoded(Halted, [])
            else
              var payload := Carried(p.payload, last);
              var rest := FeedAll(AtHeader([], payload), after);
              d == Decoded(rest.reader, [Packet(p.header, payload)] + rest.packets)
  {
    var stream := Serialize(p) + after;
    HeaderRoundTrip(p.header);
    assert stream[..HEADER_SIZE] == HeaderBytes(p.header);
    assert stream[HEADER_SIZE..] == p.payload + after;
    assert stream[HEADER_SIZE..p.header.length] == p.payload;
    assert stream[p.header.length..] == after;
    FeedIsOneShot(stream, last);
    FeedIsOneShot(after, Carried(p.payload, last));
  }

  /** Headers come back exactly; an empty packet is delivered with the last nonempty payload. */
  lemma {:induction false} StreamRoundTrip(ps: seq<Packet>, last: seq<Byte>)
    requires AllHonest(ps)
    ensures var d := FeedAll(AtHeader([], last), SerializeAll(ps));
            && d.packets == Delivered(ps, last)
            && (AllAccepted(ps) ==> d.reader == AtHeader([], LastPayload(ps, last)) && |d.packets| == |ps|)
            && (!AllAccepted(ps) ==> d.reader == Halted)
    decreases |ps|
  {
    if ps != [] {
      FeedOnePacket(ps[0], last, SerializeAll(ps[1..]));
      StreamRoundTrip(ps[1..], Carried(ps[0].payload, last));
      assert forall p :: p in ps <==> p == ps[0] || p in ps[1..];
    }
  }

  /** A packet of 16384 bytes in all is dispatched, and one byte more ends the connection. */
  lemma SizeLimit(p: Packet, last: seq<Byte>)
    requires Honest(p)
    ensures var d := FeedAll(AtHeader([], last), Serialize(p));
            if |Serialize(p)| <= 16384
            then d == Decoded(AtHeader([], Carried(p.payload, last)), [Packet(p.header, Carried(p.payload, last))])
            else d == Decoded(Halted, [])
  {
    FeedOnePacket(p, last, []);
    assert Serialize(p) + [] == Serialize(p);
  }

  /** An empty REQUEST behind a BIND with one payload byte is dispatched with that byte. */
  lemma StalePayload(padding: Padding)
    ensures var bind := CreatePacket(BIND, 0, 1, [65], padding);
            var request := CreatePacket(REQUEST, 0, 2, [], padding);
            var d := FeedAll(AtHeader([], []), SerializeAll([bind, request]));
            |d.packets| == 2 && d.packets[1] == Packet(request.header, [65])
  {
    var bind := CreatePacket(BIND, 0, 1, [65], padding);
    var request := CreatePacket(REQUEST, 0, 2, [], padding);
    StreamRoundTrip([bind, request], []);
    assert [bind, request][1..] == [request];
  }

  /** Whatever part of the stream has arrived, only a prefix of the deliveries has happened. */
  lemma PartialStream(ps: seq<Packet>, arrived: seq<Byte>)
    requires AllHonest(ps) && arrived <= SerializeAll(ps)
    ensures FeedAll(AtHeader([], []), arrived).packets <= Delivered(ps, [])
  {
    var r := AtHeader([], []);
    StreamRoundTrip(ps, []);
    FeedAppend(r, arrived, SerializeAll(ps)[|arrived|..]);
    assert arrived + SerializeAll(ps)[|arrived|..] == SerializeAll(ps);
  }

  /** Delivery number `i` has header `i` and the last nonempty payload up to and including `i`. */
  lemma {:induction false} DeliveredAt(ps: seq<Packet>, last: seq<Byte>, i: nat)
    requires i < |Delivered(ps, last)|
    ensures Delivered(ps, last)[i] == Packet(ps[i].header, LastPayload(ps[..i + 1], last))
    decreases |ps|
  {
    if i == 0 {
      assert ps[..1][1..] == [];
    } else {
      assert ps[..i + 1][1..] == ps[1..][..i];
      DeliveredAt(ps[1..], Carried(ps[0].payload, last), i - 1);
    }
  }

  lemma {:induction false} LastPayloadIsOwn(ps: seq<Packet>, last: seq<Byte>, i: nat)
    requires i < |ps| && ps[i].payload != []
    ensures LastPayload(ps[..i + 1], last) == ps[i].payload
    decreases |ps|
  {
    if i == 0 {
      assert ps[..1][1..] == [];
    } else {
      assert ps[..i + 1][1..] == ps[1..][..i];
      LastPayloadIsOwn(ps[1..], Carried(ps[0].payload, last), i - 1);
    }
  }

  /** Nothing is carried exactly when no payload has been seen at all. */
  lemma {:induction false} LastPayloadEmpty(ps: seq<Packet>, last: seq<Byte>)
    ensures LastPayload(ps, last) == [] <==> last == [] && forall p | p in ps :: p.payload == []
    decreases |ps|
  {
    if ps != [] {
      LastPayloadEmpty(ps[1..], Carried(ps[0].payload, last));
      assert forall p :: p in ps <==> p == ps[0] || p in ps[1..];
    }
  }

  datatype ReadState = HEADER | PAYLOAD

  /** The read side of `TcpClient` and of `Connection`, with the handlers' own fields. */
  class PacketReader {
    const headerBuffer: array<Byte>
    var readState: ReadState
    var headerBytesRead: nat
    var payloadBytesRead: nat
    var currentPayloadSize: nat
    var currentHeader: Header
    var currentPayload: seq<Byte>
    var closed: bool
    var dispatched: seq<Packet>

    ghost predicate Valid()
      reads this
    {
      && headerBuffer.Length == HEADER_SIZE
      && match readState {
           case HEADER => headerBytesRead < HEADER_SIZE || closed
           case PAYLOAD =>
             && payloadBytesRead < currentPayloadSize == |currentPayload|
             && currentHeader.length == HEADER_SIZE + currentPayloadSize
         }
    }

    ghost function State(): (r: Reader)
      requires Valid()
      reads this, headerBuffer
      ensures Wf(r)
    {
      if closed then Halted
      else match readState
        case HEADER => AtHeader(headerBuffer[..headerBytesRead], currentPayload)
        case PAYLOAD => AtPayload(currentHeader, currentPayload, payloadBytesRead)
    }

    constructor ()
      ensures Valid() && fresh(headerBuffer)
      ensures State() == AtHeader([], []) && dispatched == []
    {
      headerBuffer := new Byte[HEADER_SIZE];
      readState := HEADER;
      headerBytesRead, payloadBytesRead, currentPayloadSize := 0, 0, 0;
      currentHeader := Header(0, 0, 0, (0, 0), 0);
      currentPayload, closed, dispatched := [], false, [];
    }

    /** `processPacket`: the packet handed over is built from the current header and payload. */
    method ProcessPacket()
      modifies this`dispatched
      ensures dispatched == old(dispatched) + [Packet(currentHeader, currentPayload)]
    {
      dispatched := dispatched + [Packet(currentHeader, currentPayload)];
    }

    /** The bytes that an `async_read` puts behind those already in the header buffer. */
    method FillHeader(chunk: seq<Byte>)
      requires headerBytesRead + |chunk| <= headerBuffer.Length
      modifies headerBuffer
      ensures headerBuffer[..headerBytesRead + |chunk|] == old(headerBuffer[..headerBytesRead]) + chunk
    {
      for i := 0 to |chunk|
        invariant headerBuffer[..headerBytesRead + i] == old(headerBuffer[..headerBytesRead]) + chunk[..i]
      {
        headerBuffer[headerBytesRead + i] := chunk[i];
        assert chunk[..i + 1] == chunk[..i] + [chunk[i]];
      }
      assert chunk[..|chunk|] == chunk;
    }

    /** The branch of the handler taken when the header is complete. */
    method HeaderComplete()
      requires headerBuffer.Length == headerBytesRead == HEADER_SIZE && readState == HEADER && !closed
      modifies this
      ensures Valid()
      ensures State() == OnHeader(headerBuffer[..HEADER_SIZE], old(currentPayload)).reader
      ensures dispatched == old(dispatched) + OnHeader(headerBuffer[..HEADER_SIZE], old(currentPayload)).packets
    {
      currentHeader := ParseHeader(headerBuffer[..HEADER_SIZE]);
      if currentHeader.length < HEADER_SIZE || currentHeader.length > MAX_PACKET {
        closed := true;
        return;
      }
      currentPayloadSize := currentHeader.length - HEADER_SIZE;
      if currentPayloadSize > 0 {
        currentPayload := Resize(currentPayload, currentPayloadSize);
        payloadBytesRead := 0;
        readState := PAYLOAD;
      } else {
        ProcessPacket();
        headerBytesRead := 0;
        readState := HEADER;
      }
    }

    /** The completion handler of `readHeader`. */
    method OnHeaderRead(chunk: seq<Byte>)
      requires Valid() && !closed && readState == HEADER && |chunk| <= HEADER_SIZE - headerBytesRead
      modifies this, headerBuffer
      ensures Valid()
      ensures State() == FeedAll(old(State()), chunk).reader
      ensures dispatched == old(dispatched) + FeedAll(old(State()), chunk).packets
    {
      FeedHeaderChunk(headerBuffer[..headerBytesRead], currentPayload, chunk);
      FillHeader(chunk);
      headerBytesRead := headerBytesRead + |chunk|;
      if headerBytesRead == HEADER_SIZE {
        HeaderComplete();
      }
    }

    /** The completion handler of `readPayload`. */
    method OnPayloadRead(chunk: seq<Byte>)
      requires Valid() && !closed && readState == PAYLOAD && |chunk| <= currentPayloadSize - payloadBytesRead
      modifies this
      ensures Valid()
      ensures State() == FeedAll(old(State()), chunk).reader
      ensures dispatched == old(dispatched) + FeedAll(old(State()), chunk).packets
    {
      FeedPayloadChunk(currentHeader, currentPayload, payloadBytesRead, chunk);
      currentPayload := Overwrite(currentPayload, payloadBytesRead, chunk);
      payloadBytesRead := payloadBytesRead + |chunk|;
      if payloadBytesRead == currentPayloadSize {
        ProcessPacket();
        headerBytesRead := 0;
        readState := HEADER;
      }
    }
  }
}
