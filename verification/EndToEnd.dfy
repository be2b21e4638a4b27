/** One direction of a connection: a packet sender, its write pump, the socket, and the reader at the far end. */
module Links {
  import opened Bytes
  import opened Packets
  import opened Decoder
  import opened WritePump

  /**
   * `sent`: packets handed to the pump. `taken`: bytes the far reader has consumed of those emitted;
   * the others are in flight. `got`: packets the far reader has dispatched.
   */
  datatype Link = Link(pump: Pump, sent: seq<Packet>, reader: Reader, taken: nat, got: seq<Packet>)

  const Open: Link := Link(Idle, [], AtHeader([], []), 0, [])

  ghost predicate Inv(l: Link) {
    && WritePump.Inv(l.pump)
    && Posted(l.pump) == Frames(l.sent)
    && AllHonest(l.sent)
    && l.taken <= |Emitted(l.pump)|
    && Wf(l.reader)
    && FeedAll(AtHeader([], []), Emitted(l.pump)[..l.taken]) == Decoded(l.reader, l.got)
  }

  function Send(l: Link, p: Packet): Link {
    l.(pump := WritePump.Step(l.pump, Post(Serialize(p))), sent := l.sent + [p])
  }

  function SendAll(l: Link, ps: seq<Packet>): Link
    decreases |ps|
  {
    if ps == [] then l else SendAll(Send(l, ps[0]), ps[1..])
  }

  function Write(l: Link, e: Event): Link
    requires Enabled(l.pump, e)
  {
    l.(pump := WritePump.Step(l.pump, e))
  }

  /** A read completes with `count` of the bytes it asked for. */
  ghost predicate Readable(l: Link, count: nat) {
    && WritePump.Inv(l.pump) && Wf(l.reader)
    && count <= Need(l.reader) && l.taken + count <= |Emitted(l.pump)|
  }

  function Arrived(l: Link, count: nat): Decoded
    requires Readable(l, count)
  {
    FeedAll(l.reader, Emitted(l.pump)[l.taken..l.taken + count])
  }

  function Read(l: Link, count: nat): Link
    requires Readable(l, count)
  {
    var d := Arrived(l, count);
    l.(reader := d.reader, taken := l.taken + count, got := l.got + d.packets)
  }

  lemma SendKeeps(l: Link, p: Packet)
    requires Inv(l) && Honest(p)
    ensures Inv(Send(l, p))
  {
    var l' := Send(l, p);
    WritePump.StepKeeps(l.pump, Post(Serialize(p)));
    WritePump.StepEmits(l.pump, Post(Serialize(p)));
    assert Emitted(l'.pump) == Emitted(l.pump);
    assert Frames(l'.sent) == Frames(l.sent) + [Serialize(p)];
  }

  lemma {:induction false} SendAllKeeps(l: Link, ps: seq<Packet>)
    requires Inv(l) && AllHonest(ps)
    ensures Inv(SendAll(l, ps))
    ensures SendAll(l, ps) == l.(pump := SendAll(l, ps).pump, sent := l.sent + ps)
    decreases |ps|
  {
    if ps != [] {
      SendKeeps(l, ps[0]);
      SendAllKeeps(Send(l, ps[0]), ps[1..]);
      assert l.sent + [ps[0]] + ps[1..] == l.sent + ps;
    } else {
      assert l.sent + ps == l.sent;
    }
  }

  lemma WriteKeeps(l: Link, e: Event)
    requires Inv(l) && Enabled(l.pump, e) && !e.Post?
    ensures Inv(Write(l, e))
  {
    WritePump.StepKeeps(l.pump, e);
    WritePump.StepEmits(l.pump, e);
    var now, then' := Emitted(l.pump), Emitted(Write(l, e).pump);
    assert then'[..l.taken] == now[..l.taken];
  }

  lemma ReadKeeps(l: Link, count: nat)
    requires Inv(l) && Readable(l, count)
    ensures Inv(Read(l, count))
  {
    var bytes := Emitted(l.pump);
    var chunk := bytes[l.taken..l.taken + count];
    assert bytes[..l.taken + count] == bytes[..l.taken] + chunk;
    FeedAppend(AtHeader([], []), bytes[..l.taken], chunk);
  }

  /** The far end has dispatched a prefix of what the sent packets deliver. */
  lemma GotIsPrefix(l: Link)
    requires Inv(l)
    ensures l.got <= Delivered(l.sent, [])
  {
    EmittedIsPrefix(l.pump);
    FlattenFrames(l.sent);
    PartialStream(l.sent, Emitted(l.pump)[..l.taken]);
  }

  lemma GotAt(l: Link, i: nat)
    requires Inv(l) && i < |l.got|
    ensures i < |l.sent| && l.got[i] == Packet(l.sent[i].header, LastPayload(l.sent[..i + 1], []))
  {
    GotIsPrefix(l);
    DeliveredAt(l.sent, [], i);
  }

  /** Nothing waits at the sender or in the socket. */
  predicate Drained(l: Link)
    requires WritePump.Inv(l.pump)
  {
    l.pump.strand == [] && l.pump.queue == [] && l.taken == |Emitted(l.pump)|
  }

  lemma DrainedGotAll(l: Link)
    requires Inv(l) && Drained(l) && AllAccepted(l.sent)
    ensures |l.got| == |l.sent|
  {
    EmittedIsPrefix(l.pump);
    FlattenFrames(l.sent);
    assert Emitted(l.pump)[..l.taken] == SerializeAll(l.sent);
    StreamRoundTrip(l.sent, []);
  }

  // ----- draining -----

  /** What is left to do on a link: closures to run, frames to finish, bytes to write and bytes to read. */
  function Work(l: Link): int
    requires WritePump.Inv(l.pump)
  {
    2 * |l.pump.strand| + |l.pump.queue| + 2 * |Flatten(Posted(l.pump))| - |Emitted(l.pump)| - l.taken
  }

  /** A write step that gets something done. */
  predicate Productive(e: Event) {
    e.RunPosted? || e.Written? || (e.Progress? && e.count > 0)
  }

  lemma WorkIsNatural(l: Link)
    requires Inv(l)
    ensures Work(l) >= 0
  {
    EmittedIsPrefix(l.pump);
  }

  lemma WriteWorks(l: Link, e: Event)
    requires WritePump.Inv(l.pump) && Enabled(l.pump, e) && Productive(e)
    ensures WritePump.Inv(Write(l, e).pump) && Work(Write(l, e)) < Work(l)
  {
    WritePump.StepKeeps(l.pump, e);
    WritePump.StepEmits(l.pump, e);
    assert Posted(Write(l, e).pump) == Posted(l.pump);
  }

  lemma SendWorks(l: Link, p: Packet)
    requires WritePump.Inv(l.pump)
    ensures WritePump.Inv(Send(l, p).pump) && Work(Send(l, p)) == Work(l) + 2 + 2 * |Serialize(p)|
  {
    WritePump.StepKeeps(l.pump, Post(Serialize(p)));
    WritePump.StepEmits(l.pump, Post(Serialize(p)));
    FlattenAppend(Posted(l.pump), [Serialize(p)]);
    assert [Serialize(p)][1..] == [];
    assert Flatten([Serialize(p)]) == Serialize(p) + [];
  }

  /** One read dispatches one packet at most. */
  lemma OneAtATime(l: Link, count: nat)
    requires Readable(l, count)
    ensures |Arrived(l, count).packets| <= 1
  {
    var chunk := Emitted(l.pump)[l.taken..l.taken + count];
    match l.reader
    case AtHeader(partial, payload) => FeedHeaderChunk(partial, payload, chunk);
    case AtPayload(header, payload, got) => FeedPayloadChunk(header, payload, got, chunk);
    case Halted => FeedHalted(chunk);
  }

  lemma WritePossible(l: Link) returns (e: Event)
    requires Inv(l) && !Stalled(l.pump) && (l.pump.strand != [] || l.pump.queue != [])
    ensures Enabled(l.pump, e) && Productive(e)
  {
    if l.pump.strand != [] {
      e := RunPosted;
    } else if l.pump.progress < |l.pump.queue[0]| {
      e := Progress(1);
    } else {
      e := Written;
    }
  }

  /** With every packet within the limit the reader is never halted, so what has been written can be read. */
  lemma ReadPossible(l: Link)
    requires Inv(l) && AllAccepted(l.sent) && l.taken < |Emitted(l.pump)|
    ensures Readable(l, 1)
  {
    var bytes, all := Emitted(l.pump), SerializeAll(l.sent);
    EmittedIsPrefix(l.pump);
    FlattenFrames(l.sent);
    assert all == bytes[..l.taken] + all[l.taken..];
    FeedAppend(AtHeader([], []), bytes[..l.taken], all[l.taken..]);
    StreamRoundTrip(l.sent, []);
    if l.reader.Halted? {
      FeedHalted(all[l.taken..]);
    }
  }

  // ----- one packet on an idle link -----

  /** The packet is in the socket. */
  function Shipped(p: Packet): Link {
    Link(Pump([], [], 0, 0, [Serialize(p)]), [p], AtHeader([], []), 0, [])
  }

  /** The far end has read its header. */
  function Halfway(p: Packet): Link
    requires Honest(p)
  {
    Shipped(p).(reader := AtPayload(p.header, Resize([], |p.payload|), 0), taken := HEADER_SIZE)
  }

  /** The far end has dispatched it. */
  function Through(p: Packet): Link {
    Shipped(p).(reader := AtHeader([], p.payload), taken := |Serialize(p)|, got := [p])
  }

  lemma ShipSteps(p: Packet)
    ensures var l := Send(Open, p);
            && Enabled(l.pump, RunPosted)
            && var l1 := Write(l, RunPosted);
               && Enabled(l1.pump, Progress(|Serialize(p)|))
               && var l2 := Write(l1, Progress(|Serialize(p)|));
                  Enabled(l2.pump, Written) && Write(l2, Written) == Shipped(p)
  {
    var l1 := Write(Send(Open, p), RunPosted);
    assert l1.pump == Pump([], [Serialize(p)], 1, 0, []);
  }

  lemma ShippedBytes(p: Packet)
    ensures Emitted(Shipped(p).pump) == Serialize(p)
    ensures Serialize(p)[..HEADER_SIZE] == HeaderBytes(p.header) && Serialize(p)[HEADER_SIZE..] == p.payload
  {
    assert [Serialize(p)][1..] == [];
    assert Flatten([Serialize(p)]) == Serialize(p) + [];
  }

  lemma ReadHeader(p: Packet)
    requires Honest(p) && LengthAccepted(p.header) && p.payload != []
    ensures Readable(Shipped(p), HEADER_SIZE)
    ensures Arrived(Shipped(p), HEADER_SIZE).packets == [] && Read(Shipped(p), HEADER_SIZE) == Halfway(p)
  {
    ShippedBytes(p);
    HeaderRoundTrip(p.header);
    FeedHeaderChunk([], [], HeaderBytes(p.header));
    assert [] + HeaderBytes(p.header) == HeaderBytes(p.header);
  }

  lemma ReadBody(p: Packet)
    requires Honest(p) && p.payload != []
    ensures Readable(Halfway(p), |p.payload|)
    ensures Arrived(Halfway(p), |p.payload|).packets == [p] && Read(Halfway(p), |p.payload|) == Through(p)
  {
    ShippedBytes(p);
    var room := Resize([], |p.payload|);
    FeedPayloadChunk(p.header, room, 0, p.payload);
    assert Overwrite(room, 0, p.payload) == p.payload;
    assert HEADER_SIZE + |p.payload| == |Serialize(p)|;
    assert Serialize(p)[HEADER_SIZE..HEADER_SIZE + |p.payload|] == p.payload;
  }

  lemma ThroughIsDrained(p: Packet)
    requires Honest(p) && LengthAccepted(p.header) && p.payload != []
    ensures Inv(Through(p)) && Drained(Through(p)) && AllAccepted(Through(p).sent)
  {
    ShippedBytes(p);
    assert Serialize(p)[..|Serialize(p)|] == Serialize(p) && Serialize(p) + [] == Serialize(p);
    FeedOnePacket(p, [], []);
    assert Posted(Through(p).pump) == Frames([p]);
  }
}

/** The claude client and server over one connection: requests, echoes, timeouts, cancels, a disconnect. */
module EndToEnd {
  import opened Bytes
  import opened Packets
  import opened Decoder
  import WritePump
  import Requests
  import opened Links

  datatype System = System(table: Requests.Table, up: Link, down: Link)

  datatype Step =
    | Client(event: Requests.Event)               // registration, cancel, timer, disconnect
    | ClaimRequest(payload: seq<Byte>)
    | SubmitRequest(sequence: U32, padding: Padding)
    | ClientSend(packet: Packet)                  // BIND and any packet but a REQUEST
    | ClientWrite(write: WritePump.Event)
    | ServerRead(count: nat, padding: Padding, serverId: seq<Byte>)
    | ServerSend(packet: Packet)                  // any packet but a RESPONSE
    | ServerWrite(write: WritePump.Event)
    | ClientRead(count: nat)

  const Start: System := System(Requests.Fresh, Open, Open)

  function RequestPacket(t: Requests.Table, s: U32, padding: Padding): Packet
    requires s in t.data
  {
    CreatePacket(REQUEST, 0, s, t.data[s], padding)
  }

  /** `Connection::processPacket`: what the server posts for a packet it dispatches. */
  function ReplyTo(p: Packet, padding: Padding, serverId: seq<Byte>): seq<Packet> {
    if p.header.packetId == BIND then [CreatePacket(BIND_RESP, 0, p.header.sequence, serverId, padding)]
    else if p.header.packetId == REQUEST then [CreatePacket(RESPONSE, 0, p.header.sequence, p.payload, padding)]
    else []
  }

  function Replies(ps: seq<Packet>, padding: Padding, serverId: seq<Byte>): seq<Packet> {
    if ps == [] then [] else ReplyTo(ps[0], padding, serverId) + Replies(ps[1..], padding, serverId)
  }

  function ReceiveAll(c: Requests.Core, ps: seq<Packet>): Requests.Core
    decreases |ps|
  {
    if ps == [] then c else ReceiveAll(Requests.Receive(c, ps[0]), ps[1..])
  }

  ghost predicate Enabled(y: System, e: Step) {
    match e
    case Client(event) =>
      && Requests.Enabled(y.table, event)
      && (event.DrawOther? || event.Registered? || event.CancelCall? || event.Tick? || event.Disconnected?)
    case ClaimRequest(payload) => y.table.taken < WORD && HEADER_SIZE + |payload| < WORD
    case SubmitRequest(s, _) => s in y.table.claimed && s in y.table.data
    case ClientSend(p) => Honest(p) && p.header.packetId != REQUEST
    case ClientWrite(w) => !w.Post? && WritePump.Enabled(y.up.pump, w)
    case ServerRead(count, _, serverId) => Readable(y.up, count) && HEADER_SIZE + |serverId| < WORD
    case ServerSend(p) => Honest(p) && p.header.packetId != RESPONSE
    case ServerWrite(w) => !w.Post? && WritePump.Enabled(y.down.pump, w)
    case ClientRead(count) => Readable(y.down, count)
  }

  function Next(y: System, e: Step): System
    requires Enabled(y, e)
  {
    match e
    case Client(event) => y.(table := Requests.Step(y.table, event))
    case ClaimRequest(payload) => y.(table := Requests.Step(y.table, Requests.Claim(payload)))
    case SubmitRequest(s, padding) =>
      y.(table := Requests.Step(y.table, Requests.Submit(s)),
         up := if y.table.core.connected then Send(y.up, RequestPacket(y.table, s, padding)) else y.up)
    case ClientSend(p) => y.(up := if y.table.core.connected then Send(y.up, p) else y.up)
    case ClientWrite(w) => y.(up := Write(y.up, w))
    case ServerRead(count, padding, serverId) =>
      y.(up := Read(y.up, count), down := SendAll(y.down, Replies(Arrived(y.up, count).packets, padding, serverId)))
    case ServerSend(p) => y.(down := Send(y.down, p))
    case ServerWrite(w) => y.(down := Write(y.down, w))
    case ClientRead(count) =>
      y.(table := y.table.(core := ReceiveAll(y.table.core, Arrived(y.down, count).packets)), down := Read(y.down, count))
  }

  // ----- invariant -----

  /** Every REQUEST sent carries the data its caller gave. */
  ghost predicate RequestsCarryData(y: System) {
    forall p | p in y.up.sent && p.header.packetId == REQUEST ::
      p.header.sequence in y.table.data && p.payload == y.table.data[p.header.sequence]
  }

  /** What an echo has to keep: the sequence number and the payload. */
  datatype Exchange = Exchange(sequence: U32, payload: seq<Byte>)

  function ExchangeOf(p: Packet): Exchange {
    Exchange(p.header.sequence, p.payload)
  }

  /** The packets of one kind, in order. */
  function OfKind(ps: seq<Packet>, kind: Byte): seq<Exchange> {
    if ps == [] then []
    else (if ps[0].header.packetId == kind then [ExchangeOf(ps[0])] else []) + OfKind(ps[1..], kind)
  }

  /** The server has sent one RESPONSE for each REQUEST it dispatched, in the same order, and no other. */
  predicate EchoesExactly(y: System) {
    OfKind(y.down.sent, RESPONSE) == OfKind(y.up.got, REQUEST)
  }

  predicate AnswerOk(e: Requests.Ended, got: seq<Packet>) {
    e.outcome.Answered? ==>
      && e.outcome.reply in got
      && e.outcome.reply.header.packetId == RESPONSE
      && e.outcome.reply.header.sequence == e.sequence
  }

  /** Every answer recorded is a RESPONSE the client dispatched for that sequence number. */
  predicate AnswersArrived(y: System) {
    forall e | e in y.table.core.log :: AnswerOk(e, y.down.got)
  }

  ghost predicate Inv(y: System) {
    && Requests.Inv(y.table)
    && (forall s | s in y.table.data :: HEADER_SIZE + |y.table.data[s]| < WORD)
    && Links.Inv(y.up) && Links.Inv(y.down)
    && RequestsCarryData(y)
    && EchoesExactly(y)
    && AnswersArrived(y)
  }

  lemma {:induction false} OfKindAppend(a: seq<Packet>, b: seq<Packet>, kind: Byte)
    ensures OfKind(a + b, kind) == OfKind(a, kind) + OfKind(b, kind)
    decreases |a|
  {
    if a == [] {
      assert a + b == b;
    } else {
      assert (a + b)[1..] == a[1..] + b;
      OfKindAppend(a[1..], b, kind);
    }
  }

  lemma {:induction false} OfKindMember(ps: seq<Packet>, kind: Byte, i: nat)
    requires i < |ps| && ps[i].header.packetId == kind
    ensures ExchangeOf(ps[i]) in OfKind(ps, kind)
    decreases |ps|
  {
    if i > 0 { OfKindMember(ps[1..], kind, i - 1); }
  }

  lemma {:induction false} OfKindSource(ps: seq<Packet>, kind: Byte, x: Exchange) returns (i: nat)
    requires x in OfKind(ps, kind)
    ensures i < |ps| && ps[i].header.packetId == kind && ExchangeOf(ps[i]) == x
    decreases |ps|
  {
    if ps[0].header.packetId == kind && ExchangeOf(ps[0]) == x {
      i := 0;
    } else {
      i := OfKindSource(ps[1..], kind, x);
      i := i + 1;
    }
  }

  lemma {:induction false} RepliesEcho(ps: seq<Packet>, padding: Padding, serverId: seq<Byte>)
    ensures OfKind(Replies(ps, padding, serverId), RESPONSE) == OfKind(ps, REQUEST)
  {
    if ps != [] {
      RepliesEcho(ps[1..], padding, serverId);
      OfKindAppend(ReplyTo(ps[0], padding, serverId), Replies(ps[1..], padding, serverId), RESPONSE);
    }
  }

  /**
   * Every BIND gets one BIND_RESP of the same sequence number with the server's identifier, in order; all
   * replies have status 0, and there are no others.
   */
  lemma {:induction false} RepliesBind(ps: seq<Packet>, padding: Padding, serverId: seq<Byte>)
    ensures var replies := Replies(ps, padding, serverId);
            && |replies| == |OfKind(ps, BIND)| + |OfKind(ps, REQUEST)|
            && OfKind(replies, BIND_RESP) ==
               seq(|OfKind(ps, BIND)|, i requires 0 <= i < |OfKind(ps, BIND)| => Exchange(OfKind(ps, BIND)[i].sequence, serverId))
            && forall r | r in replies :: r.header.status == 0 && r.header.packetId in {BIND_RESP, RESPONSE}
  {
    if ps != [] {
      RepliesBind(ps[1..], padding, serverId);
      OfKindAppend(ReplyTo(ps[0], padding, serverId), Replies(ps[1..], padding, serverId), BIND_RESP);
    }
  }

  lemma {:induction false} RepliesHonest(ps: seq<Packet>, padding: Padding, serverId: seq<Byte>)
    requires HEADER_SIZE + |serverId| < WORD
    requires forall p | p in ps :: HEADER_SIZE + |p.payload| < WORD
    ensures AllHonest(Replies(ps, padding, serverId))
  {
    if ps != [] {
      RepliesHonest(ps[1..], padding, serverId);
      assert ps[0] in ps;
    }
  }

  /** Dispatched payloads never exceed the buffer, so echoing them never wraps the length field. */
  lemma {:induction false} PayloadsFit(r: Reader, bytes: seq<Byte>)
    requires Wf(r) && Fits(r)
    ensures Fits(FeedAll(r, bytes).reader)
    ensures forall p | p in FeedAll(r, bytes).packets :: HEADER_SIZE + |p.payload| <= MAX_PACKET
    decreases |bytes|
  {
    if bytes != [] {
      var d := Feed(r, bytes[0]);
      PayloadsFit(d.reader, bytes[1..]);
    }
  }

  predicate Fits(r: Reader) {
    r.Halted? || HEADER_SIZE + |r.payload| <= MAX_PACKET
  }

  /** What a read dispatches can be echoed without wrapping the length field. */
  lemma ArrivedFits(l: Link, count: nat)
    requires Links.Inv(l) && Readable(l, count)
    ensures forall p | p in Arrived(l, count).packets :: HEADER_SIZE + |p.payload| <= MAX_PACKET
  {
    var bytes := WritePump.Emitted(l.pump);
    PayloadsFit(AtHeader([], []), bytes[..l.taken]);
    PayloadsFit(l.reader, bytes[l.taken..l.taken + count]);
  }

  lemma ServerReadKeeps(y: System, count: nat, padding: Padding, serverId: seq<Byte>)
    requires Inv(y) && Enabled(y, ServerRead(count, padding, serverId))
    ensures Inv(Next(y, ServerRead(count, padding, serverId)))
  {
    var d := Arrived(y.up, count);
    ArrivedFits(y.up, count);
    ReadKeeps(y.up, count);
    var replies := Replies(d.packets, padding, serverId);
    RepliesEcho(d.packets, padding, serverId);
    RepliesHonest(d.packets, padding, serverId);
    SendAllKeeps(y.down, replies);
    OfKindAppend(y.up.got, d.packets, REQUEST);
    OfKindAppend(y.down.sent, replies, RESPONSE);
  }

  lemma {:induction false} ReceiveAllKeeps(t: Requests.Table, ps: seq<Packet>, got: seq<Packet>)
    requires Requests.Inv(t)
    requires forall e | e in t.core.log :: AnswerOk(e, got)
    requires forall p | p in ps :: p in got
    ensures var t' := t.(core := ReceiveAll(t.core, ps));
            Requests.Inv(t') && forall e | e in t'.core.log :: AnswerOk(e, got)
    decreases |ps|
  {
    if ps != [] {
      var e := Requests.Arrive(ps[0]);
      Requests.StepKeeps(t, e);
      var t' := Requests.Step(t, e);
      assert forall x | x in t'.core.log :: x in t.core.log || x == Requests.Ended(ps[0].header.sequence, Requests.Answered(ps[0]));
      ReceiveAllKeeps(t', ps[1..], got);
      assert t'.core == Requests.Receive(t.core, ps[0]);
    }
  }

  lemma ClientReadKeeps(y: System, count: nat)
    requires Inv(y) && Enabled(y, ClientRead(count))
    ensures Inv(Next(y, ClientRead(count)))
  {
    var ps := Arrived(y.down, count).packets;
    ReadKeeps(y.down, count);
    ReceiveAllKeeps(y.table, ps, y.down.got + ps);
  }

  /** Table steps record no answer and forget no data. */
  lemma ClientKeeps(y: System, e: Requests.Event)
    requires Inv(y) && Enabled(y, Client(e))
    ensures Inv(Next(y, Client(e)))
  {
    Requests.StepKeeps(y.table, e);
    var log, log' := y.table.core.log, Next(y, Client(e)).table.core.log;
    assert forall x | x in log' :: x in log || !x.outcome.Answered?;
  }

  /** The new REQUEST carries the data of its caller; what was sent before is unchanged. */
  lemma SubmitCarries(y: System, s: U32, padding: Padding)
    requires RequestsCarryData(y) && Enabled(y, SubmitRequest(s, padding))
    ensures RequestsCarryData(Next(y, SubmitRequest(s, padding)))
  {
  }

  lemma SubmitKeeps(y: System, s: U32, padding: Padding)
    requires Inv(y) && Enabled(y, SubmitRequest(s, padding))
    ensures Inv(Next(y, SubmitRequest(s, padding)))
  {
    var log, log' := y.table.core.log, Next(y, SubmitRequest(s, padding)).table.core.log;
    SubmitCarries(y, s, padding);
    Requests.StepKeeps(y.table, Requests.Submit(s));
    if y.table.core.connected {
      SendKeeps(y.up, RequestPacket(y.table, s, padding));
    }
    assert forall x | x in log' :: x in log || !x.outcome.Answered?;
  }

  lemma NextKeeps(y: System, e: Step)
    requires Inv(y) && Enabled(y, e)
    ensures Inv(Next(y, e))
  {
    match e
    case Client(event) => ClientKeeps(y, event);
    case ClaimRequest(payload) => Requests.ClaimKeeps(y.table, payload);
    case SubmitRequest(s, padding) => SubmitKeeps(y, s, padding);
    case ClientSend(p) => SendKeeps(y.up, p);
    case ClientWrite(w) => WriteKeeps(y.up, w);
    case ServerRead(count, padding, serverId) => ServerReadKeeps(y, count, padding, serverId);
    case ServerSend(p) =>
      SendKeeps(y.down, p);
      OfKindAppend(y.down.sent, [p], RESPONSE);
      assert [p][1..] == [];
    case ServerWrite(w) => WriteKeeps(y.down, w);
    case ClientRead(count) => ClientReadKeeps(y, count);
  }

  // ----- whole runs -----

  ghost predicate Legal(y: System, es: seq<Step>)
    decreases |es|
  {
    es == [] || (Enabled(y, es[0]) && Legal(Next(y, es[0]), es[1..]))
  }

  ghost function Run(y: System, es: seq<Step>): System
    requires Legal(y, es)
    decreases |es|
  {
    if es == [] then y else Run(Next(y, es[0]), es[1..])
  }

  lemma {:induction false} RunKeeps(y: System, es: seq<Step>)
    requires Inv(y) && Legal(y, es)
    ensures Inv(Run(y, es))
    decreases |es|
  {
    if es != [] {
      NextKeeps(y, es[0]);
      RunKeeps(Next(y, es[0]), es[1..]);
    }
  }

  lemma StartHolds()
    ensures Inv(Start)
  {
    Requests.FreshHolds();
  }

  // ----- what the events alone say -----

  lemma {:induction false} RunSnoc(y: System, es: seq<Step>)
    requires Legal(y, es) && es != []
    ensures var init, last := es[..|es| - 1], es[|es| - 1];
            Legal(y, init) && Enabled(Run(y, init), last) && Run(y, es) == Next(Run(y, init), last)
    decreases |es|
  {
    var init := es[..|es| - 1];
    if |es| > 1 {
      RunSnoc(Next(y, es[0]), es[1..]);
      assert es[1..][..|es| - 2] == init[1..];
    }
  }

  predicate Connected(es: seq<Step>) {
    forall e | e in es :: !(e.Client? && e.event.Disconnected?)
  }

  /** How many sequence numbers the client has drawn. */
  function Draws(es: seq<Step>): nat
    decreases |es|
  {
    if es == [] then 0
    else
      var init, last := es[..|es| - 1], es[|es| - 1];
      Draws(init) + if last == Client(Requests.DrawOther) || (last.ClaimRequest? && Connected(init)) then 1 else 0
  }

  /** Event `m` is the call of `sendRequest` that drew sequence number `s`. */
  predicate ClaimedAt(es: seq<Step>, s: U32, m: nat) {
    m < |es| && es[m].ClaimRequest? && Connected(es[..m]) && SequenceOf(Draws(es[..m])) == s
  }

  lemma {:induction false} CountersLaw(es: seq<Step>)
    requires Legal(Start, es)
    ensures Run(Start, es).table.core.connected == Connected(es) && Run(Start, es).table.taken == Draws(es)
    decreases |es|
  {
    if es != [] {
      var init, last := es[..|es| - 1], es[|es| - 1];
      RunSnoc(Start, es);
      CountersLaw(init);
      assert forall e :: e in es <==> e in init || e == last;
      if last.ClientRead? {
        ReceiveAllConnected(Run(Start, init).table.core, Arrived(Run(Start, init).down, last.count).packets);
      }
    }
  }

  lemma {:induction false} ReceiveAllConnected(c: Requests.Core, ps: seq<Packet>)
    ensures ReceiveAll(c, ps).connected == c.connected
    decreases |ps|
  {
    if ps != [] { ReceiveAllConnected(Requests.Receive(c, ps[0]), ps[1..]); }
  }

  /** Only a call of `sendRequest` records data, under a number that had none. */
  lemma NextData(y: System, e: Step)
    requires Requests.Inv(y.table) && Enabled(y, e)
    ensures var draws := e.ClaimRequest? && y.table.core.connected;
            && (draws ==> SequenceOf(y.table.taken) !in y.table.data)
            && Next(y, e).table.data == if draws then y.table.data[SequenceOf(y.table.taken) := e.payload] else y.table.data
  {
    if e.ClaimRequest? {
      Requests.ClaimKeeps(y.table, e.payload);
    }
  }

  lemma SnocData(es: seq<Step>)
    requires Legal(Start, es) && es != []
    ensures var init, last := es[..|es| - 1], es[|es| - 1];
            var s := SequenceOf(Draws(init));
            var draws := last.ClaimRequest? && Connected(init);
            && Legal(Start, init)
            && (draws ==> s !in Run(Start, init).table.data)
            && Run(Start, es).table.data ==
               if draws then Run(Start, init).table.data[s := last.payload] else Run(Start, init).table.data
  {
    var init := es[..|es| - 1];
    RunSnoc(Start, es);
    CountersLaw(init);
    StartHolds();
    RunKeeps(Start, init);
    NextData(Run(Start, init), es[|es| - 1]);
  }

  /** The data of a request is the payload of the call that drew its number, for good. */
  lemma {:induction false} DataOf(es: seq<Step>, s: U32, m: nat)
    requires Legal(Start, es) && ClaimedAt(es, s, m)
    ensures s in Run(Start, es).table.data && Run(Start, es).table.data[s] == es[m].payload
    decreases |es|
  {
    var n := |es| - 1;
    SnocData(es);
    if m < n {
      assert es[..n][..m] == es[..m] && ClaimedAt(es[..n], s, m);
      DataOf(es[..n], s, m);
    }
  }

  lemma {:induction false} DataHasEvent(es: seq<Step>, s: U32) returns (m: nat)
    requires Legal(Start, es) && s in Run(Start, es).table.data
    ensures ClaimedAt(es, s, m) && Run(Start, es).table.data[s] == es[m].payload
    decreases |es|
  {
    var n := |es| - 1;
    SnocData(es);
    if ClaimedAt(es, s, n) {
      m := n;
    } else {
      m := DataHasEvent(es[..n], s);
      assert es[..n][..m] == es[..m];
    }
    DataOf(es, s, m);
  }

  /** The payload of the call that drew `s`. */
  ghost function PayloadOf(es: seq<Step>, s: U32): seq<Byte> {
    if m: nat :| ClaimedAt(es, s, m) then es[m].payload else []
  }

  /** The packets the client hands to its write queue, in order. */
  ghost function SentUp(es: seq<Step>): seq<Packet>
    decreases |es|
  {
    if es == [] then []
    else
      var init, last := es[..|es| - 1], es[|es| - 1];
      SentUp(init) +
      if !Connected(init) then []
      else if last.SubmitRequest? then [CreatePacket(REQUEST, 0, last.sequence, PayloadOf(init, last.sequence), last.padding)]
      else if last.ClientSend? then [last.packet]
      else []
  }

  lemma PayloadLaw(es: seq<Step>, s: U32)
    requires Legal(Start, es) && s in Run(Start, es).table.data
    ensures Run(Start, es).table.data[s] == PayloadOf(es, s)
  {
    var m := DataHasEvent(es, s);
    forall k: nat | ClaimedAt(es, s, k)
      ensures es[k].payload == Run(Start, es).table.data[s]
    {
      DataOf(es, s, k);
    }
  }

  /** What the client sends is what its callers submit while it is connected, each request with its own data. */
  lemma {:induction false} SentUpLaw(es: seq<Step>)
    requires Legal(Start, es)
    ensures Run(Start, es).up.sent == SentUp(es)
    decreases |es|
  {
    if es != [] {
      var init, last := es[..|es| - 1], es[|es| - 1];
      RunSnoc(Start, es);
      SentUpLaw(init);
      CountersLaw(init);
      if last.SubmitRequest? {
        PayloadLaw(init, last.sequence);
      }
    }
  }

  function ServerSends(es: seq<Step>): nat
    decreases |es|
  {
    if es == [] then 0 else ServerSends(es[..|es| - 1]) + if es[|es| - 1].ServerSend? then 1 else 0
  }

  lemma NextSendsDown(y: System, e: Step)
    requires Inv(y) && Enabled(y, e)
    ensures var more := match e
                        case ServerSend(p) => [p]
                        case ServerRead(count, padding, serverId) => Replies(Arrived(y.up, count).packets, padding, serverId)
                        case _ => [];
            Next(y, e).down.sent == y.down.sent + more
  {
    if e.ServerRead? {
      var d := Arrived(y.up, e.count);
      ArrivedFits(y.up, e.count);
      RepliesHonest(d.packets, e.padding, e.serverId);
      SendAllKeeps(y.down, Replies(d.packets, e.padding, e.serverId));
    }
  }

  /** Packets sent by the server that answer nothing. */
  function Unprompted(y: System): int {
    |y.down.sent| - |OfKind(y.up.got, BIND)| - |OfKind(y.up.got, REQUEST)|
  }

  lemma NextUnprompted(y: System, e: Step)
    requires Inv(y) && Enabled(y, e)
    ensures Unprompted(Next(y, e)) == Unprompted(y) + if e.ServerSend? then 1 else 0
  {
    NextSendsDown(y, e);
    if e.ServerRead? {
      var ps := Arrived(y.up, e.count).packets;
      OfKindAppend(y.up.got, ps, BIND);
      OfKindAppend(y.up.got, ps, REQUEST);
      RepliesBind(ps, e.padding, e.serverId);
    }
  }

  lemma SnocSendsDown(es: seq<Step>)
    requires Legal(Start, es) && es != []
    ensures var init, last := es[..|es| - 1], es[|es| - 1];
            && Legal(Start, init)
            && Unprompted(Run(Start, es)) == Unprompted(Run(Start, init)) + (if last.ServerSend? then 1 else 0)
            && Run(Start, init).down.sent <= Run(Start, es).down.sent
            && (last.ServerSend? ==> last.packet in Run(Start, es).down.sent)
  {
    var init := es[..|es| - 1];
    RunSnoc(Start, es);
    StartHolds();
    RunKeeps(Start, init);
    NextUnprompted(Run(Start, init), es[|es| - 1]);
    NextSendsDown(Run(Start, init), es[|es| - 1]);
  }

  /** The server posts one packet for each BIND and REQUEST it dispatches, and what it sends on its own. */
  lemma {:induction false} SentDownLaw(es: seq<Step>, k: nat)
    requires Legal(Start, es)
    ensures Unprompted(Run(Start, es)) == ServerSends(es)
    ensures k < |es| && es[k].ServerSend? ==> es[k].packet in Run(Start, es).down.sent
    decreases |es|
  {
    if es != [] {
      SnocSendsDown(es);
      SentDownLaw(es[..|es| - 1], k);
    }
  }

  /** Where an answer came from: request number `i` of the client, packet number `j` of the server. */
  ghost predicate CameFrom(y: System, s: U32, reply: Packet, i: nat, j: nat) {
    && i < |y.up.sent| && j < |y.down.sent|
    && y.up.sent[i].header.packetId == REQUEST && y.up.sent[i].header.sequence == s
    && s in y.table.data && y.up.sent[i].payload == y.table.data[s]
    && y.down.sent[j].header == reply.header
    && reply.header.packetId == RESPONSE && reply.header.sequence == s
    && y.down.sent[j].payload == LastPayload(y.up.sent[..i + 1], [])
    && reply.payload == LastPayload(y.down.sent[..j + 1], [])
  }

  lemma AnswerProvenance(y: System, e: Requests.Ended) returns (i: nat, j: nat)
    requires Inv(y) && e in y.table.core.log && e.outcome.Answered?
    ensures CameFrom(y, e.sequence, e.outcome.reply, i, j)
  {
    var reply := e.outcome.reply;
    assert AnswerOk(e, y.down.got);
    j :| 0 <= j < |y.down.got| && y.down.got[j] == reply;
    GotAt(y.down, j);
    var response := y.down.sent[j];
    OfKindMember(y.down.sent, RESPONSE, j);
    i := OfKindSource(y.up.got, REQUEST, ExchangeOf(response));
    GotAt(y.up, i);
    assert y.up.sent[i] in y.up.sent;
  }

  lemma PayloadExactness(y: System, s: U32, reply: Packet, i: nat, j: nat)
    requires CameFrom(y, s, reply, i, j)
    ensures y.table.data[s] != [] ==> reply.payload == y.table.data[s]
    ensures y.table.data[s] == [] ==>
              (reply.payload == [] <==>
                (forall p | p in y.up.sent[..i] :: p.payload == []) && (forall p | p in y.down.sent[..j] :: p.payload == []))
  {
    var ups, downs := y.up.sent[..i + 1], y.down.sent[..j + 1];
    assert ups == y.up.sent[..i] + [y.up.sent[i]] && downs == y.down.sent[..j] + [y.down.sent[j]];
    if y.table.data[s] != [] {
      LastPayloadIsOwn(y.up.sent, [], i);
      LastPayloadIsOwn(y.down.sent, [], j);
    } else {
      LastPayloadEmpty(ups, []);
      LastPayloadEmpty(downs, []);
    }
  }

  /**
   * In every interleaving: whatever answers sequence number `s` is a RESPONSE with sequence number `s`, it
   * answers at most once, and its payload is the data given to the call of `sendRequest` that drew `s`, event
   * `m` of the run, whenever that data is nonempty. For empty data the payload is right exactly when nothing
   * nonempty was sent before, either way.
   */
  lemma EndToEndIntegrity(es: seq<Step>, k: nat) returns (i: nat, j: nat, m: nat)
    requires Legal(Start, es)
    requires k < |Run(Start, es).table.core.log| && Run(Start, es).table.core.log[k].outcome.Answered?
    ensures var y := Run(Start, es);
            var s := y.table.core.log[k].sequence;
            var reply := y.table.core.log[k].outcome.reply;
            && reply.header.packetId == RESPONSE && reply.header.sequence == s
            && ClaimedAt(es, s, m)
            && (es[m].payload != [] ==> reply.payload == es[m].payload)
            && CameFrom(y, s, reply, i, j) && y.up.sent[i].payload == es[m].payload
            && (es[m].payload == [] ==>
                 (reply.payload == [] <==> (forall p | p in y.up.sent[..i] :: p.payload == [])
                                           && (forall p | p in y.down.sent[..j] :: p.payload == [])))
            && (forall m | 0 <= m < |y.table.core.log| && m != k :: y.table.core.log[m].sequence != s)
  {
    StartHolds();
    RunKeeps(Start, es);
    var y := Run(Start, es);
    var s := y.table.core.log[k].sequence;
    i, j := AnswerProvenance(y, y.table.core.log[k]);
    PayloadExactness(y, s, y.table.core.log[k].outcome.reply, i, j);
    m := DataHasEvent(es, s);
  }

  /** Both directions have drained and no packet was oversized. */
  ghost predicate Quiet(y: System) {
    && Links.Inv(y.up) && Links.Inv(y.down)
    && Drained(y.up) && Drained(y.down)
    && AllAccepted(y.up.sent) && AllAccepted(y.down.sent)
  }

  lemma QuietEchoed(y: System, i: nat) returns (j: nat)
    requires Inv(y) && Quiet(y)
    requires i < |y.up.sent| && y.up.sent[i].header.packetId == REQUEST
    ensures j < |y.down.got| && CameFrom(y, y.up.sent[i].header.sequence, y.down.got[j], i, j)
  {
    DrainedGotAll(y.up);
    DrainedGotAll(y.down);
    GotAt(y.up, i);
    OfKindMember(y.up.got, REQUEST, i);
    j := OfKindSource(y.down.sent, RESPONSE, ExchangeOf(y.up.got[i]));
    GotAt(y.down, j);
    assert y.up.sent[i] in y.up.sent;
  }

  /**
   * Once both directions have drained, every request sent has come back: with the data given to the call that
   * drew its number if that is nonempty, and otherwise with an empty payload exactly if nothing nonempty was
   * sent before, either way.
   */
  lemma EveryRequestEchoed(es: seq<Step>, i: nat) returns (j: nat, m: nat)
    requires Legal(Start, es) && Quiet(Run(Start, es))
    requires i < |Run(Start, es).up.sent| && Run(Start, es).up.sent[i].header.packetId == REQUEST
    ensures var y := Run(Start, es);
            var request := y.up.sent[i];
            && j < |y.down.got| == |y.down.sent|
            && y.down.got[j].header.packetId == RESPONSE
            && y.down.got[j].header.sequence == request.header.sequence
            && ClaimedAt(es, request.header.sequence, m) && request.payload == es[m].payload
            && (request.payload != [] ==> y.down.got[j].payload == request.payload)
            && (request.payload == [] ==>
                 (y.down.got[j].payload == [] <==> (forall p | p in y.up.sent[..i] :: p.payload == [])
                                                   && (forall p | p in y.down.sent[..j] :: p.payload == [])))
  {
    StartHolds();
    RunKeeps(Start, es);
    var y := Run(Start, es);
    j := QuietEchoed(y, i);
    DrainedGotAll(y.down);
    PayloadExactness(y, y.up.sent[i].header.sequence, y.down.got[j], i, j);
    m := DataHasEvent(es, y.up.sent[i].header.sequence);
  }

  function Numbers(xs: seq<Exchange>): (q: seq<U32>)
    ensures |q| == |xs|
  {
    seq(|xs|, i requires 0 <= i < |xs| => xs[i].sequence)
  }

  /** The sequence numbers of the packets of one kind, in order. */
  function SequencesOf(ps: seq<Packet>, kind: Byte): seq<U32> {
    Numbers(OfKind(ps, kind))
  }

  lemma SequencesOfAppend(a: seq<Packet>, b: seq<Packet>, kind: Byte)
    ensures SequencesOf(a + b, kind) == SequencesOf(a, kind) + SequencesOf(b, kind)
  {
    OfKindAppend(a, b, kind);
    var x, y := OfKind(a, kind), OfKind(b, kind);
    assert Numbers(x + y) == Numbers(x) + Numbers(y);
  }

  lemma SequencesOfOne(p: Packet, kind: Byte)
    ensures SequencesOf([p], kind) == if p.header.packetId == kind then [p.header.sequence] else []
  {
    assert [p][1..] == [];
    assert OfKind([p], kind) == if p.header.packetId == kind then [ExchangeOf(p)] else [];
  }

  lemma SequencesOfHead(ps: seq<Packet>, kind: Byte)
    requires ps != []
    ensures SequencesOf(ps, kind) ==
            (if ps[0].header.packetId == kind then [ps[0].header.sequence] else []) + SequencesOf(ps[1..], kind)
  {
    SequencesOfAppend([ps[0]], ps[1..], kind);
    SequencesOfOne(ps[0], kind);
    assert ps == [ps[0]] + ps[1..];
  }

  lemma {:induction false} SequencesOfPrefix(got: seq<Packet>, sent: seq<Packet>, kind: Byte)
    requires |got| <= |sent| && forall i | 0 <= i < |got| :: got[i].header == sent[i].header
    ensures SequencesOf(got, kind) <= SequencesOf(sent, kind)
    ensures |got| == |sent| ==> SequencesOf(got, kind) == SequencesOf(sent, kind)
    decreases |got|
  {
    if got != [] {
      SequencesOfPrefix(got[1..], sent[1..], kind);
      SequencesOfHead(got, kind);
      SequencesOfHead(sent, kind);
    } else if sent == [] {
      assert got == sent;
    }
  }

  lemma LinkSequences(l: Link, kind: Byte)
    requires Links.Inv(l)
    ensures SequencesOf(l.got, kind) <= SequencesOf(l.sent, kind)
    ensures |l.got| == |l.sent| ==> SequencesOf(l.got, kind) == SequencesOf(l.sent, kind)
  {
    GotIsPrefix(l);
    forall i | 0 <= i < |l.got|
      ensures i < |l.sent| && l.got[i].header == l.sent[i].header
    {
      GotAt(l, i);
    }
    SequencesOfPrefix(l.got, l.sent, kind);
  }

  // ----- no request is sent twice -----

  predicate DistinctSequences(q: seq<U32>) {
    forall i, j | 0 <= i < j < |q| :: q[i] != q[j]
  }

  /** Each REQUEST sent has a number of its own and its caller is past sending; what is registered was sent. */
  ghost predicate SentOnce(y: System) {
    var q := SequencesOf(y.up.sent, REQUEST);
    && DistinctSequences(q)
    && (forall s | s in q :: s in y.table.data && s !in y.table.claimed)
    && (forall s | s in y.table.posted || s in y.table.core.pending :: s in q)
  }

  lemma SubmitSentOnce(y: System, s: U32, padding: Padding)
    requires Requests.Inv(y.table) && SentOnce(y) && Enabled(y, SubmitRequest(s, padding))
    ensures SentOnce(Next(y, SubmitRequest(s, padding)))
  {
    var p := RequestPacket(y.table, s, padding);
    var q := SequencesOf(y.up.sent, REQUEST);
    SequencesOfAppend(y.up.sent, [p], REQUEST);
    SequencesOfOne(p, REQUEST);
    assert s !in q;
    assert forall x :: x in q + [s] <==> x in q || x == s;
  }

  lemma NextSentOnce(y: System, e: Step)
    requires Requests.Inv(y.table) && SentOnce(y) && Enabled(y, e)
    ensures SentOnce(Next(y, e))
  {
    match e
    case ClaimRequest(payload) => Requests.ClaimKeeps(y.table, payload);
    case SubmitRequest(s, padding) => SubmitSentOnce(y, s, padding);
    case ClientSend(p) =>
      SequencesOfAppend(y.up.sent, [p], REQUEST);
      SequencesOfOne(p, REQUEST);
    case Client(_) =>
    case ClientWrite(_) =>
    case ServerRead(_, _, _) =>
    case ServerSend(_) =>
    case ServerWrite(_) =>
    case ClientRead(count) => ReceiveAllShrinks(y.table.core, Arrived(y.down, count).packets);
  }

  lemma {:induction false} ReceiveAllShrinks(c: Requests.Core, ps: seq<Packet>)
    ensures ReceiveAll(c, ps).pending.Keys <= c.pending.Keys
    ensures c.log <= ReceiveAll(c, ps).log
    decreases |ps|
  {
    if ps != [] { ReceiveAllShrinks(Requests.Receive(c, ps[0]), ps[1..]); }
  }

  lemma {:induction false} RunSentOnce(y: System, es: seq<Step>)
    requires Inv(y) && SentOnce(y) && Legal(y, es)
    ensures SentOnce(Run(y, es))
    decreases |es|
  {
    if es != [] {
      NextKeeps(y, es[0]);
      NextSentOnce(y, es[0]);
      RunSentOnce(Next(y, es[0]), es[1..]);
    }
  }

  lemma ResponseOrder(y: System)
    requires Inv(y) && SentOnce(y)
    ensures SequencesOf(y.down.got, RESPONSE) <= SequencesOf(y.up.sent, REQUEST)
    ensures Quiet(y) ==> SequencesOf(y.down.got, RESPONSE) == SequencesOf(y.up.sent, REQUEST)
  {
    LinkSequences(y.up, REQUEST);
    LinkSequences(y.down, RESPONSE);
    if Quiet(y) {
      DrainedGotAll(y.up);
      DrainedGotAll(y.down);
    }
  }

  /**
   * In every interleaving the responses that the client dispatches come in the order in which the requests
   * were submitted, and no request is sent or answered twice; once both directions have drained they are all
   * there.
   */
  lemma ResponsesInRequestOrder(es: seq<Step>)
    requires Legal(Start, es)
    ensures var y := Run(Start, es);
            && y.up.sent == SentUp(es)
            && SequencesOf(y.down.got, RESPONSE) <= SequencesOf(SentUp(es), REQUEST)
            && DistinctSequences(SequencesOf(SentUp(es), REQUEST))
            && (Quiet(y) ==> SequencesOf(y.down.got, RESPONSE) == SequencesOf(SentUp(es), REQUEST))
  {
    SentUpLaw(es);
    StartHolds();
    RunKeeps(Start, es);
    RunSentOnce(Start, es);
    ResponseOrder(Run(Start, es));
  }

  // ----- which requests are answered -----

  ghost predicate HasResponse(ps: seq<Packet>, s: U32) {
    exists p :: p in ps && p.header.packetId == RESPONSE && p.header.sequence == s
  }

  lemma ResponseNumbers(ps: seq<Packet>, s: U32)
    ensures HasResponse(ps, s) <==> s in SequencesOf(ps, RESPONSE)
  {
    if HasResponse(ps, s) {
      var p :| p in ps && p.header.packetId == RESPONSE && p.header.sequence == s;
      var i :| 0 <= i < |ps| && ps[i] == p;
      OfKindMember(ps, RESPONSE, i);
      var k :| 0 <= k < |OfKind(ps, RESPONSE)| && OfKind(ps, RESPONSE)[k] == ExchangeOf(p);
      assert SequencesOf(ps, RESPONSE)[k] == s;
    }
    if s in SequencesOf(ps, RESPONSE) {
      var k :| 0 <= k < |OfKind(ps, RESPONSE)| && SequencesOf(ps, RESPONSE)[k] == s;
      var i := OfKindSource(ps, RESPONSE, OfKind(ps, RESPONSE)[k]);
      assert ps[i] in ps;
    }
  }

  ghost predicate AnsweredIn(log: seq<Requests.Ended>, s: U32) {
    exists e :: e in log && e.sequence == s && e.outcome.Answered?
  }

  lemma AnsweredAppend(log: seq<Requests.Ended>, more: seq<Requests.Ended>, s: U32)
    ensures AnsweredIn(log + more, s) <==> AnsweredIn(log, s) || AnsweredIn(more, s)
  {
    if AnsweredIn(log, s) {
      var e :| e in log && e.sequence == s && e.outcome.Answered?;
      assert e in log + more;
    }
    if AnsweredIn(more, s) {
      var e :| e in more && e.sequence == s && e.outcome.Answered?;
      assert e in log + more;
    }
  }

  lemma AnsweredIsEnded(t: Requests.Table, s: U32)
    requires Requests.Inv(t) && AnsweredIn(t.core.log, s)
    ensures s !in t.core.pending
  {
    var e :| e in t.core.log && e.sequence == s && e.outcome.Answered?;
    var i :| 0 <= i < |t.core.log| && t.core.log[i] == e;
    assert Requests.EndedIn(t.core.log, s);
    assert Requests.Classes(t, s) <= 1;
  }

  /** A packet answers `s` exactly if it is a RESPONSE for `s` and `s` is pending. */
  lemma ReceiveAnswers(c: Requests.Core, p: Packet, s: U32)
    ensures AnsweredIn(Requests.Receive(c, p).log, s) <==>
            || AnsweredIn(c.log, s)
            || (p.header.packetId == RESPONSE && p.header.sequence == s && s in c.pending)
  {
    var e := Requests.Ended(p.header.sequence, Requests.Answered(p));
    AnsweredAppend(c.log, [e], s);
    assert e in [e];
  }

  lemma {:induction false} ReceiveAllAnswers(c: Requests.Core, ps: seq<Packet>, s: U32)
    ensures AnsweredIn(ReceiveAll(c, ps).log, s) <==> AnsweredIn(c.log, s) || (s in c.pending && HasResponse(ps, s))
    decreases |ps|
  {
    if ps != [] {
      ReceiveAnswers(c, ps[0], s);
      ReceiveAllAnswers(Requests.Receive(c, ps[0]), ps[1..], s);
      assert HasResponse(ps, s) <==> (ps[0].header.packetId == RESPONSE && ps[0].header.sequence == s) || HasResponse(ps[1..], s) by {
        assert forall p :: p in ps <==> p == ps[0] || p in ps[1..];
      }
    }
  }

  /** Only a read of the client answers a request, and only one that is pending. */
  lemma NextAnswers(y: System, e: Step, s: U32)
    requires Inv(y) && Enabled(y, e)
    ensures AnsweredIn(Next(y, e).table.core.log, s) <==>
            || AnsweredIn(y.table.core.log, s)
            || (e.ClientRead? && s in y.table.core.pending && HasResponse(Arrived(y.down, e.count).packets, s))
  {
    if e.ClientRead? {
      ReceiveAllAnswers(y.table.core, Arrived(y.down, e.count).packets, s);
    } else {
      var log, log' := y.table.core.log, Next(y, e).table.core.log;
      assert log <= log' && forall x | x in log'[|log|..] :: !x.outcome.Answered?;
      AnsweredAppend(log, log'[|log|..], s);
      assert log + log'[|log|..] == log';
    }
  }

  /** Only a read of the client adds to what it has dispatched. */
  lemma NextDispatches(y: System, e: Step)
    requires Inv(y) && Enabled(y, e)
    ensures Next(y, e).down.got == y.down.got + if e.ClientRead? then Arrived(y.down, e.count).packets else []
  {
    if e.ServerRead? {
      var d := Arrived(y.up, e.count);
      ArrivedFits(y.up, e.count);
      RepliesHonest(d.packets, e.padding, e.serverId);
      SendAllKeeps(y.down, Replies(d.packets, e.padding, e.serverId));
    }
  }

  /** No response is dispatched twice. */
  lemma OneResponse(y: System)
    requires Inv(y) && SentOnce(y)
    ensures DistinctSequences(SequencesOf(y.down.got, RESPONSE))
  {
    LinkSequences(y.up, REQUEST);
    LinkSequences(y.down, RESPONSE);
  }

  lemma NotAgain(y: System, count: nat, s: U32)
    requires Inv(y) && SentOnce(y) && Enabled(y, ClientRead(count)) && HasResponse(y.down.got, s)
    ensures !HasResponse(Arrived(y.down, count).packets, s)
  {
    var more := Arrived(y.down, count).packets;
    NextKeeps(y, ClientRead(count));
    NextSentOnce(y, ClientRead(count));
    OneResponse(Next(y, ClientRead(count)));
    SequencesOfAppend(y.down.got, more, RESPONSE);
    ResponseNumbers(y.down.got, s);
    ResponseNumbers(more, s);
    NoneInBoth(SequencesOf(y.down.got, RESPONSE), SequencesOf(more, RESPONSE), s);
  }

  lemma NoneInBoth(a: seq<U32>, b: seq<U32>, s: U32)
    requires DistinctSequences(a + b) && s in a
    ensures s !in b
  {
    var i :| 0 <= i < |a| && a[i] == s;
    forall j | 0 <= j < |b|
      ensures b[j] != s
    {
      assert (a + b)[i] != (a + b)[|a| + j];
    }
  }

  /** At some step the client dispatches a RESPONSE for `s` that finds no pending request. */
  ghost predicate ResponseMissed(y: System, es: seq<Step>, s: U32)
    requires Legal(y, es)
    decreases |es|
  {
    es != [] &&
    (|| (es[0].ClientRead? && HasResponse(Arrived(y.down, es[0].count).packets, s) && s !in y.table.core.pending)
     || ResponseMissed(Next(y, es[0]), es[1..], s))
  }

  /** Once a response has been dispatched, nothing more happens to its request's answer. */
  lemma {:induction false} DispatchDecides(y: System, es: seq<Step>, s: U32)
    requires Inv(y) && SentOnce(y) && Legal(y, es) && HasResponse(y.down.got, s)
    ensures AnsweredIn(Run(y, es).table.core.log, s) <==> AnsweredIn(y.table.core.log, s)
    ensures HasResponse(Run(y, es).down.got, s) && !ResponseMissed(y, es, s)
    decreases |es|
  {
    if es != [] {
      var e := es[0];
      NextKeeps(y, e);
      NextSentOnce(y, e);
      NextAnswers(y, e, s);
      StillDispatched(y, e, s);
      if e.ClientRead? {
        NotAgain(y, e.count, s);
      }
      DispatchDecides(Next(y, e), es[1..], s);
    }
  }

  lemma StillDispatched(y: System, e: Step, s: U32)
    requires Inv(y) && Enabled(y, e)
    ensures HasResponse(Next(y, e).down.got, s) <==>
            HasResponse(y.down.got, s) || (e.ClientRead? && HasResponse(Arrived(y.down, e.count).packets, s))
  {
    NextDispatches(y, e);
    var more := if e.ClientRead? then Arrived(y.down, e.count).packets else [];
    assert forall p :: p in y.down.got + more <==> p in y.down.got || p in more;
  }

  lemma {:induction false} AnsweredUnlessMissed(y: System, es: seq<Step>, s: U32)
    requires Inv(y) && SentOnce(y) && Legal(y, es) && !HasResponse(y.down.got, s) && !AnsweredIn(y.table.core.log, s)
    ensures AnsweredIn(Run(y, es).table.core.log, s) <==> HasResponse(Run(y, es).down.got, s) && !ResponseMissed(y, es, s)
    decreases |es|
  {
    if es != [] {
      var e := es[0];
      var next := Next(y, e);
      NextKeeps(y, e);
      NextSentOnce(y, e);
      NextAnswers(y, e, s);
      StillDispatched(y, e, s);
      if HasResponse(next.down.got, s) {
        DispatchDecides(next, es[1..], s);
      } else {
        AnsweredUnlessMissed(next, es[1..], s);
      }
    }
  }

  /**
   * In every interleaving a request is answered exactly if a RESPONSE for it has been dispatched and found it
   * pending. One that comes before its request is registered, or after it ended, is lost for good.
   */
  lemma AnsweredExactly(es: seq<Step>, s: U32)
    requires Legal(Start, es)
    ensures var y := Run(Start, es);
            AnsweredIn(y.table.core.log, s) <==> HasResponse(y.down.got, s) && !ResponseMissed(Start, es, s)
  {
    StartHolds();
    AnsweredUnlessMissed(Start, es, s);
  }

  /** At some step the client dispatches a RESPONSE for `s` while `s` is sent and not yet registered. */
  ghost predicate CameEarly(y: System, es: seq<Step>, s: U32)
    requires Legal(y, es)
    decreases |es|
  {
    es != [] &&
    (|| (es[0].ClientRead? && HasResponse(Arrived(y.down, es[0].count).packets, s) && s in y.table.posted)
     || CameEarly(Next(y, es[0]), es[1..], s))
  }

  lemma {:induction false} EndedStaysEnded(y: System, es: seq<Step>, s: U32)
    requires Inv(y) && Legal(y, es) && Requests.EndedIn(y.table.core.log, s)
    ensures s !in Run(y, es).table.core.pending
    decreases |es|
  {
    if es == [] {
      assert Requests.Classes(y.table, s) <= 1;
    } else {
      NextKeeps(y, es[0]);
      NextLogGrows(y, es[0]);
      Requests.EndedAppend(y.table.core.log, Next(y, es[0]).table.core.log[|y.table.core.log|..], s);
      EndedStaysEnded(Next(y, es[0]), es[1..], s);
    }
  }

  lemma NextLogGrows(y: System, e: Step)
    requires Enabled(y, e)
    ensures var log, log' := y.table.core.log, Next(y, e).table.core.log;
            log <= log' && log' == log + log'[|log|..]
  {
    if e.ClientRead? {
      ReceiveAllShrinks(y.table.core, Arrived(y.down, e.count).packets);
    }
  }

  /** Whoever a response is dispatched for has sent a request, and is past sending. */
  lemma ResponseHasRequest(y: System, count: nat, s: U32)
    requires Inv(y) && SentOnce(y) && Enabled(y, ClientRead(count)) && HasResponse(Arrived(y.down, count).packets, s)
    ensures s in y.table.data && s !in y.table.claimed
  {
    var next := Next(y, ClientRead(count));
    NextKeeps(y, ClientRead(count));
    StillDispatched(y, ClientRead(count), s);
    ResponseNumbers(next.down.got, s);
    LinkSequences(next.up, REQUEST);
    LinkSequences(next.down, RESPONSE);
    assert s in SequencesOf(y.up.sent, REQUEST);
  }

  /** A request that missed its response and is pending all the same was registered after it. */
  lemma {:induction false} MissedWasEarly(y: System, es: seq<Step>, s: U32)
    requires Inv(y) && SentOnce(y) && Legal(y, es)
    requires ResponseMissed(y, es, s) && s in Run(y, es).table.core.pending
    ensures CameEarly(y, es, s)
    decreases |es|
  {
    var e := es[0];
    NextKeeps(y, e);
    NextSentOnce(y, e);
    if ResponseMissed(Next(y, e), es[1..], s) {
      MissedWasEarly(Next(y, e), es[1..], s);
    } else {
      ResponseHasRequest(y, e.count, s);
      assert Requests.Classes(y.table, s) == 1;
      if Requests.EndedIn(y.table.core.log, s) {
        EndedStaysEnded(y, es, s);
      }
    }
  }

  /**
   * Once both directions have drained, a request that was sent is answered exactly if its response was not
   * missed; and one still pending is one whose response was dispatched before it was registered.
   */
  lemma NoAnswerLost(es: seq<Step>, s: U32)
    requires Legal(Start, es) && Quiet(Run(Start, es))
    ensures var y := Run(Start, es);
            && (s in SequencesOf(y.up.sent, REQUEST) ==>
                 (AnsweredIn(y.table.core.log, s) <==> !ResponseMissed(Start, es, s)))
            && (s in y.table.core.pending ==> ResponseMissed(Start, es, s) && CameEarly(Start, es, s))
  {
    StartHolds();
    RunKeeps(Start, es);
    RunSentOnce(Start, es);
    var y := Run(Start, es);
    ResponsesInRequestOrder(es);
    ResponseNumbers(y.down.got, s);
    AnsweredExactly(es, s);
    if s in y.table.core.pending {
      if AnsweredIn(y.table.core.log, s) {
        AnsweredIsEnded(y.table, s);
      }
      MissedWasEarly(Start, es, s);
    }
  }

  // ----- draining -----

  /** Writes and reads that get something done; the server's identifier fits a packet. */
  predicate DrainStep(e: Step) {
    match e
    case ClientWrite(w) => Productive(w)
    case ServerWrite(w) => Productive(w)
    case ServerRead(count, _, serverId) => count > 0 && HEADER_SIZE + |serverId| <= MAX_PACKET
    case ClientRead(count) => count > 0
    case _ => false
  }

  /** No write has failed and every packet is within the limit. */
  ghost predicate Flowing(y: System) {
    && Inv(y)
    && !WritePump.Stalled(y.up.pump) && !WritePump.Stalled(y.down.pump)
    && AllAccepted(y.up.sent) && AllAccepted(y.down.sent)
  }

  /** Work on the way to the server counts for the reply it may cause. */
  function TotalWork(y: System): int
    requires WritePump.Inv(y.up.pump) && WritePump.Inv(y.down.pump)
  {
    (2 * MAX_PACKET + 3) * Work(y.up) + Work(y.down)
  }

  lemma ReplyFits(p: Packet, padding: Padding, serverId: seq<Byte>)
    requires HEADER_SIZE + |p.payload| <= MAX_PACKET && HEADER_SIZE + |serverId| <= MAX_PACKET
    ensures |ReplyTo(p, padding, serverId)| <= 1
    ensures forall r | r in ReplyTo(p, padding, serverId) :: LengthAccepted(r.header) && |Serialize(r)| <= MAX_PACKET
  {
  }

  /** What a read makes the server post is one packet within the limit, at most. */
  lemma RepliesFit(ps: seq<Packet>, padding: Padding, serverId: seq<Byte>)
    requires |ps| <= 1 && HEADER_SIZE + |serverId| <= MAX_PACKET
    requires forall p | p in ps :: HEADER_SIZE + |p.payload| <= MAX_PACKET
    ensures |Replies(ps, padding, serverId)| <= 1
    ensures forall r | r in Replies(ps, padding, serverId) :: LengthAccepted(r.header) && |Serialize(r)| <= MAX_PACKET
  {
    if ps != [] {
      assert ps[0] in ps;
      ReplyFits(ps[0], padding, serverId);
      assert ps[1..] == [];
    }
  }

  lemma SendFewWorks(l: Link, ps: seq<Packet>)
    requires Links.Inv(l) && AllHonest(ps) && |ps| <= 1 && forall p | p in ps :: |Serialize(p)| <= MAX_PACKET
    ensures WritePump.Inv(SendAll(l, ps).pump) && Work(SendAll(l, ps)) <= Work(l) + 2 + 2 * MAX_PACKET
    ensures WritePump.Stalled(SendAll(l, ps).pump) <==> WritePump.Stalled(l.pump)
  {
    if ps != [] {
      assert ps[0] in ps;
      SendWorks(l, ps[0]);
      assert ps[1..] == [];
    }
  }

  lemma ServerReadDrains(y: System, e: Step)
    requires Flowing(y) && e.ServerRead? && Enabled(y, e) && DrainStep(e)
    ensures Flowing(Next(y, e)) && TotalWork(Next(y, e)) < TotalWork(y)
  {
    NextKeeps(y, e);
    var ps := Arrived(y.up, e.count).packets;
    var replies := Replies(ps, e.padding, e.serverId);
    ArrivedFits(y.up, e.count);
    OneAtATime(y.up, e.count);
    RepliesFit(ps, e.padding, e.serverId);
    RepliesHonest(ps, e.padding, e.serverId);
    SendAllKeeps(y.down, replies);
    SendFewWorks(y.down, replies);
    assert Work(Next(y, e).up) <= Work(y.up) - 1;
  }

  lemma DrainStepWorks(y: System, e: Step)
    requires Flowing(y) && Enabled(y, e) && DrainStep(e)
    ensures Flowing(Next(y, e)) && TotalWork(Next(y, e)) < TotalWork(y)
  {
    NextKeeps(y, e);
    match e
    case ClientWrite(w) =>
      WritePump.StepKeeps(y.up.pump, w);
      WriteWorks(y.up, w);
    case ServerWrite(w) =>
      WritePump.StepKeeps(y.down.pump, w);
      WriteWorks(y.down, w);
    case ServerRead(_, _, _) => ServerReadDrains(y, e);
    case ClientRead(_) =>
  }

  /** As long as something is under way, some step gets something done. */
  lemma DrainProgress(y: System) returns (e: Step)
    requires Flowing(y) && !Quiet(y)
    ensures Enabled(y, e) && DrainStep(e)
  {
    if y.up.pump.strand != [] || y.up.pump.queue != [] {
      var w := WritePossible(y.up);
      e := ClientWrite(w);
    } else if y.down.pump.strand != [] || y.down.pump.queue != [] {
      var w := WritePossible(y.down);
      e := ServerWrite(w);
    } else if y.up.taken < |WritePump.Emitted(y.up.pump)| {
      ReadPossible(y.up);
      e := ServerRead(1, (0, 0), []);
    } else {
      ReadPossible(y.down);
      e := ClientRead(1);
    }
  }

  lemma {:induction false} DrainRun(y: System, es: seq<Step>)
    requires Flowing(y) && Legal(y, es) && forall e | e in es :: DrainStep(e)
    ensures Flowing(Run(y, es)) && |es| + TotalWork(Run(y, es)) <= TotalWork(y)
    decreases |es|
  {
    if es != [] {
      assert es[0] in es;
      DrainStepWorks(y, es[0]);
      DrainRun(Next(y, es[0]), es[1..]);
    }
  }

  /**
   * Unless a write has failed or a packet is oversized, under every scheduler: writes and reads alone come to
   * an end within a bounded number of steps, and when none is left both directions have drained.
   */
  lemma DrainCompletes(y: System, es: seq<Step>)
    requires Flowing(y) && Legal(y, es) && forall e | e in es :: DrainStep(e)
    ensures |es| <= TotalWork(y)
    ensures (forall e | DrainStep(e) :: !Enabled(Run(y, es), e)) ==> Quiet(Run(y, es))
  {
    DrainRun(y, es);
    var d := Run(y, es);
    WorkIsNatural(d.up);
    WorkIsNatural(d.down);
    if !Quiet(d) {
      var e := DrainProgress(d);
    }
  }

  // ----- a run that loses a response -----

  ghost predicate Reachable(y: System) {
    exists es :: Legal(Start, es) && Run(Start, es) == y
  }

  lemma {:induction false} RunAppend(y: System, es: seq<Step>, e: Step)
    requires Legal(y, es) && Enabled(Run(y, es), e)
    ensures Legal(y, es + [e]) && Run(y, es + [e]) == Next(Run(y, es), e)
    decreases |es|
  {
    if es == [] {
      assert es + [e] == [e] && [e][1..] == [];
    } else {
      assert (es + [e])[1..] == es[1..] + [e];
      RunAppend(Next(y, es[0]), es[1..], e);
    }
  }

  lemma Extend(y: System, e: Step)
    requires Reachable(y) && Enabled(y, e)
    ensures Reachable(Next(y, e))
  {
    var es :| Legal(Start, es) && Run(Start, es) == y;
    RunAppend(Start, es, e);
  }

  /** The client sends request 1. */
  function Asked(p: Packet): System {
    System(Requests.Table(Requests.Core(true, map[], []), 1, {}, {1}, map[1 := p.payload]), Send(Open, p), Open)
  }

  lemma AskedIsReached(payload: seq<Byte>, padding: Padding)
    requires HEADER_SIZE + |payload| < WORD
    ensures Reachable(Asked(CreatePacket(REQUEST, 0, 1, payload, padding)))
  {
    assert Legal(Start, []) && Run(Start, []) == Start;
    Extend(Start, ClaimRequest(payload));
    var y := Next(Start, ClaimRequest(payload));
    assert SequenceOf(0) == 1;
    assert y.table == Requests.Table(Requests.Core(true, map[], []), 1, {1}, {}, map[1 := payload]);
    Extend(y, SubmitRequest(1, padding));
  }

  lemma UpWritten(y: System, p: Packet)
    requires Reachable(y) && y.up == Send(Open, p)
    ensures Reachable(y.(up := Shipped(p)))
  {
    ShipSteps(p);
    var y1 := Next(y, ClientWrite(WritePump.RunPosted));
    Extend(y, ClientWrite(WritePump.RunPosted));
    var e := ClientWrite(WritePump.Progress(|Serialize(p)|));
    Extend(y1, e);
    Extend(Next(y1, e), ClientWrite(WritePump.Written));
  }

  lemma DownWritten(y: System, p: Packet)
    requires Reachable(y) && y.down == Send(Open, p)
    ensures Reachable(y.(down := Shipped(p)))
  {
    ShipSteps(p);
    var y1 := Next(y, ServerWrite(WritePump.RunPosted));
    Extend(y, ServerWrite(WritePump.RunPosted));
    var e := ServerWrite(WritePump.Progress(|Serialize(p)|));
    Extend(y1, e);
    Extend(Next(y1, e), ServerWrite(WritePump.Written));
  }

  lemma ServerEchoes(y: System, p: Packet, padding: Padding)
    requires Reachable(y) && y.up == Shipped(p) && y.down == Open
    requires Honest(p) && LengthAccepted(p.header) && p.payload != [] && p.header.packetId == REQUEST
    ensures Reachable(y.(up := Through(p), down := Send(Open, CreatePacket(RESPONSE, 0, p.header.sequence, p.payload, padding))))
  {
    ReadHeader(p);
    ReadBody(p);
    var e := ServerRead(HEADER_SIZE, padding, []);
    Extend(y, e);
    var y1 := Next(y, e);
    assert y1 == y.(up := Halfway(p));
    var reply := CreatePacket(RESPONSE, 0, p.header.sequence, p.payload, padding);
    var f := ServerRead(|p.payload|, padding, []);
    assert Replies([p], padding, []) == [reply] by {
      assert [p][1..] == [];
    }
    assert SendAll(Open, [reply]) == Send(Open, reply) by {
      assert [reply][1..] == [];
    }
    Extend(y1, f);
  }

  lemma ClientIgnores(y: System, p: Packet)
    requires Reachable(y) && y.down == Shipped(p) && y.table.core.pending == map[]
    requires Honest(p) && LengthAccepted(p.header) && p.payload != []
    ensures Reachable(y.(down := Through(p)))
  {
    ReadHeader(p);
    ReadBody(p);
    var e := ClientRead(HEADER_SIZE);
    Extend(y, e);
    var y1 := Next(y, e);
    assert y1 == y.(down := Halfway(p));
    assert ReceiveAll(y.table.core, [p]) == y.table.core by {
      assert [p][1..] == [];
    }
    Extend(y1, ClientRead(|p.payload|));
  }

  /**
   * For every request data: the response can be dispatched before the request is registered. Everything has
   * then drained, the request is pending, and nothing was ever answered.
   */
  lemma EarlyResponseIsReachable(payload: seq<Byte>, padding: Padding, expiry: int)
    requires payload != [] && HEADER_SIZE + |payload| <= MAX_PACKET
    ensures exists es :: Legal(Start, es)
                         && var y := Run(Start, es);
                            Quiet(y) && y.table.core.pending == map[1 := expiry] && y.table.core.log == []
  {
    var p := CreatePacket(REQUEST, 0, 1, payload, padding);
    var reply := CreatePacket(RESPONSE, 0, 1, payload, padding);
    AskedIsReached(payload, padding);
    UpWritten(Asked(p), p);
    var y1 := Asked(p).(up := Shipped(p));
    ServerEchoes(y1, p, padding);
    var y2 := y1.(up := Through(p), down := Send(Open, reply));
    DownWritten(y2, reply);
    ClientIgnores(y2.(down := Shipped(reply)), reply);
    var y3 := y2.(down := Through(reply));
    Extend(y3, Client(Requests.Registered(1, expiry)));
    ThroughIsDrained(p);
    ThroughIsDrained(reply);
    var y := Next(y3, Client(Requests.Registered(1, expiry)));
    assert Quiet(y) && y.table.core.pending == map[1 := expiry] && y.table.core.log == [];
  }
}
