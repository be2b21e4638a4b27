/** The packet of claude/asio_client.cpp and claude/asio_server.cpp. */
module Packets {
  import opened Bytes

  // sizeof(PacketHeader): two padding bytes stand before `sequence`.
  const HEADER_SIZE: int := 12
  // DEFAULT_BUFFER_SIZE in the client, MAX_BUFFER_SIZE in the server.
  const MAX_PACKET: int := 16384

  const BIND: Byte := 0x01
  const BIND_RESP: Byte := 0x81
  const REQUEST: Byte := 0x02
  const RESPONSE: Byte := 0x82

  /** The two padding bytes travel with the struct; their value is indeterminate. */
  type Padding = (Byte, Byte)

  datatype Header = Header(length: U32, packetId: Byte, status: Byte, padding: Padding, sequence: U32)
  datatype Packet = Packet(header: Header, payload: seq<Byte>)

  /** The length field is 32 bits wide and takes the size modulo 2^32. */
  function CreatePacket(packetId: Byte, status: Byte, sequence: U32, payload: seq<Byte>, padding: Padding): Packet {
    Packet(Header((HEADER_SIZE + |payload|) % WORD, packetId, status, padding, sequence), payload)
  }

  function HeaderBytes(h: Header): (b: seq<Byte>)
    ensures |b| == HEADER_SIZE
  {
    BigEndian(h.length) + [h.packetId, h.status, h.padding.0, h.padding.1] + BigEndian(h.sequence)
  }

  function ParseHeader(b: seq<Byte>): Header
    requires |b| == HEADER_SIZE
  {
    Header(FromBigEndian(b[..4]), b[4], b[5], (b[6], b[7]), FromBigEndian(b[8..]))
  }

  function Serialize(p: Packet): seq<Byte> {
    HeaderBytes(p.header) + p.payload
  }

  /** The wire format of a created packet, byte by byte. */
  lemma FrameLayout(packetId: Byte, status: Byte, sequence: U32, payload: seq<Byte>, padding: Padding)
    ensures var p := CreatePacket(packetId, status, sequence, payload, padding);
            var b := Serialize(p);
            && |b| == 12 + |payload|
            && b[..4] == BigEndian((12 + |payload|) % WORD)
            && b[4] == packetId && b[5] == status
            && b[8..12] == BigEndian(sequence)
            && b[12..] == payload && p.payload == payload
  {
  }

  lemma HeaderRoundTrip(h: Header)
    ensures ParseHeader(HeaderBytes(h)) == h
  {
    var b := HeaderBytes(h);
    BigEndianRoundTrip(h.length);
    BigEndianRoundTrip(h.sequence);
    assert b[..4] == BigEndian(h.length) && b[8..] == BigEndian(h.sequence);
  }

  lemma HeaderRoundTripBytes(b: seq<Byte>)
    requires |b| == HEADER_SIZE
    ensures HeaderBytes(ParseHeader(b)) == b
  {
    BigEndianOfParsed(b[..4]);
    BigEndianOfParsed(b[8..]);
    assert b == b[..4] + [b[4], b[5], b[6], b[7]] + b[8..];
  }

  /** The length field states the true size; false exactly for packets whose size wrapped. */
  predicate Honest(p: Packet) {
    p.header.length == HEADER_SIZE + |p.payload|
  }

  lemma CreatedIsHonestIffNoWrap(packetId: Byte, status: Byte, sequence: U32, payload: seq<Byte>, padding: Padding)
    ensures Honest(CreatePacket(packetId, status, sequence, payload, padding)) <==> HEADER_SIZE + |payload| < WORD
  {
  }

  function SerializeAll(ps: seq<Packet>): seq<Byte> {
    if ps == [] then [] else Serialize(ps[0]) + SerializeAll(ps[1..])
  }

  function Frames(ps: seq<Packet>): (fs: seq<seq<Byte>>)
    ensures |fs| == |ps|
  {
    seq(|ps|, i requires 0 <= i < |ps| => Serialize(ps[i]))
  }

  lemma {:induction false} FlattenFrames(ps: seq<Packet>)
    ensures Flatten(Frames(ps)) == SerializeAll(ps)
  {
    if ps != [] {
      assert Frames(ps)[1..] == Frames(ps[1..]);
      FlattenFrames(ps[1..]);
    }
  }
}
