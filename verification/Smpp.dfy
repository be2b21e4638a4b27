/** PDU framing in new_chatgpt/main.cpp, after section 3.2 of SMPP v3.4. */
module Smpp {
  import opened Bytes

  const MAX_HEADER: int := 16
  const MAX_PDU_SIZE: int := 8192

  datatype Pdu = Pdu(commandLength: U32, commandId: U32, commandStatus: U32, sequenceNumber: U32, body: seq<Byte>)
  datatype Deserialized = Null | Got(pdu: Pdu)

  /** `to_buffers`: four big-endian words, then the body. */
  function ToBuffers(p: Pdu): (b: seq<Byte>)
    ensures |b| == MAX_HEADER + |p.body|
  {
    BigEndian(p.commandLength) + BigEndian(p.commandId) + BigEndian(p.commandStatus) + BigEndian(p.sequenceNumber) + p.body
  }

  function ToBuffersAll(ps: seq<Pdu>): seq<Byte> {
    if ps == [] then [] else ToBuffers(ps[0]) + ToBuffersAll(ps[1..])
  }

  /** `command_length` of the PDU at the front of `data`. */
  function LengthField(data: seq<Byte>): U32
    requires |data| >= 4
  {
    FromBigEndian(data[..4])
  }

  /** `deserialize`; the body range is only defined when the length covers the header. */
  function Deserialize(data: seq<Byte>): Deserialized
    requires |data| >= MAX_HEADER ==> LengthField(data) >= MAX_HEADER
  {
    if |data| < MAX_HEADER then Null
    else
      var length := LengthField(data);
      if |data| < length || length > MAX_PDU_SIZE then Null
      else Got(Pdu(length, FromBigEndian(data[4..8]), FromBigEndian(data[8..12]), FromBigEndian(data[12..16]),
                   data[MAX_HEADER..length]))
  }

  predicate LengthAccepted(length: U32) {
    MAX_HEADER <= length <= MAX_PDU_SIZE
  }

  /** `waiting`: bytes of an incomplete PDU. `closed`: a length field was refused. */
  datatype Parsed = Parsed(pdus: seq<Pdu>, waiting: seq<Byte>, closed: bool)

  /** What the session makes of all that the socket delivers. */
  function Parse(stream: seq<Byte>): Parsed
    decreases |stream|
  {
    if |stream| < MAX_HEADER then Parsed([], stream, false)
    else
      var length := LengthField(stream);
      if !LengthAccepted(length) then Parsed([], stream, true)
      else if |stream| < length then Parsed([], stream, false)
      else
        assert stream[..length][..4] == stream[..4];
        var rest := Parse(stream[length..]);
        match Deserialize(stream[..length])
        case Null => rest
        case Got(pdu) => Parsed([pdu] + rest.pdus, rest.waiting, rest.closed)
  }

  /** Behind the header check, `deserialize` never returns null, whatever the bytes are. */
  lemma NullUnreachable(data: seq<Byte>)
    requires |data| >= MAX_HEADER && LengthAccepted(LengthField(data)) && |data| == LengthField(data)
    ensures Deserialize(data).Got? && Deserialize(data).pdu.body == data[MAX_HEADER..]
  {
  }

  lemma FourWords(a: seq<Byte>, b: seq<Byte>, c: seq<Byte>, d: seq<Byte>, rest: seq<Byte>)
    requires |a| == |b| == |c| == |d| == 4
    ensures var data := a + b + c + d + rest;
            data[..4] == a && data[4..8] == b && data[8..12] == c && data[12..16] == d && data[16..] == rest
  {
  }

  /** Section 3.2 of SMPP v3.4: command_length, command_id, command_status, sequence_number, body. */
  lemma PduLayout(p: Pdu)
    ensures var b := ToBuffers(p);
            && b[..4] == BigEndian(p.commandLength) && b[4..8] == BigEndian(p.commandId)
            && b[8..12] == BigEndian(p.commandStatus) && b[12..16] == BigEndian(p.sequenceNumber)
            && b[16..] == p.body
  {
    FourWords(BigEndian(p.commandLength), BigEndian(p.commandId), BigEndian(p.commandStatus),
              BigEndian(p.sequenceNumber), p.body);
  }

  /** Any bytes behind the header of `p` come back as its body. */
  lemma HeaderRoundTrip(p: Pdu, rest: seq<Byte>)
    requires LengthAccepted(p.commandLength) && MAX_HEADER + |rest| == p.commandLength
    ensures var data := ToBuffers(p.(body := rest));
            LengthField(data) == p.commandLength && Deserialize(data) == Got(p.(body := rest))
  {
    BigEndianRoundTrip(p.commandLength);
    BigEndianRoundTrip(p.commandId);
    BigEndianRoundTrip(p.commandStatus);
    BigEndianRoundTrip(p.sequenceNumber);
    FourWords(BigEndian(p.commandLength), BigEndian(p.commandId), BigEndian(p.commandStatus),
              BigEndian(p.sequenceNumber), rest);
  }

  lemma DeserializeRoundTrip(p: Pdu, after: seq<Byte>)
    ensures var stream := ToBuffers(p) + after;
            && LengthField(stream) == p.commandLength
            && (LengthAccepted(p.commandLength) && |stream| >= p.commandLength ==>
                  && LengthField(stream[..p.commandLength]) == p.commandLength
                  && Deserialize(stream[..p.commandLength]) ==
                     Got(p.(body := stream[MAX_HEADER..p.commandLength])))
  {
    var stream := ToBuffers(p) + after;
    BigEndianRoundTrip(p.commandLength);
    assert stream[..4] == BigEndian(p.commandLength);
    if LengthAccepted(p.commandLength) && |stream| >= p.commandLength {
      var rest := stream[MAX_HEADER..p.commandLength];
      HeaderRoundTrip(p, rest);
      assert stream[..p.commandLength] == ToBuffers(p.(body := rest));
    }
  }

  /** `command_length` counts the whole PDU, and is within the limit. */
  predicate WellFormed(p: Pdu) {
    p.commandLength == 16 + |p.body| <= 8192
  }

  lemma ParseOne(p: Pdu, after: seq<Byte>)
    requires WellFormed(p)
    ensures var rest := Parse(after);
            Parse(ToBuffers(p) + after) == Parsed([p] + rest.pdus, rest.waiting, rest.closed)
  {
    var stream := ToBuffers(p) + after;
    DeserializeRoundTrip(p, after);
    assert stream[MAX_HEADER..p.commandLength] == p.body;
    assert stream[p.commandLength..] == after;
  }

  lemma ParseMalformed(p: Pdu, after: seq<Byte>)
    requires !WellFormed(p)
    ensures var r := Parse(ToBuffers(p) + after); r.closed || r.pdus == [] || r.pdus[0] != p
  {
    DeserializeRoundTrip(p, after);
    var stream := ToBuffers(p) + after;
    if LengthAccepted(p.commandLength) && |stream| >= p.commandLength {
      assert |Parse(stream).pdus[0].body| == p.commandLength - MAX_HEADER;
    }
  }

  /** A length field below 16 or above 8192 closes the session, whatever follows. */
  lemma BadLengthCloses(p: Pdu, after: seq<Byte>)
    requires !(16 <= p.commandLength <= 8192)
    ensures Parse(ToBuffers(p) + after) == Parsed([], ToBuffers(p) + after, true)
  {
    DeserializeRoundTrip(p, after);
  }

  /** The session recovers a list of PDUs from its stream if and only if every PDU states its own size. */
  lemma {:induction false} SmppRoundTrip(ps: seq<Pdu>)
    ensures Parse(ToBuffersAll(ps)) == Parsed(ps, [], false) <==> forall p | p in ps :: WellFormed(p)
    decreases |ps|
  {
    if ps != [] {
      SmppRoundTrip(ps[1..]);
      assert forall p :: p in ps <==> p == ps[0] || p in ps[1..];
      assert ps == [ps[0]] + ps[1..];
      if WellFormed(ps[0]) {
        ParseOne(ps[0], ToBuffersAll(ps[1..]));
      } else {
        ParseMalformed(ps[0], ToBuffersAll(ps[1..]));
      }
    }
  }

  /** A call of `on_response`, `on_request` or `on_timeout`. */
  datatype Call = Response(pdu: Pdu) | Request(pdu: Pdu) | Timeout(sequence: U32)

  /** `taken` counts the PDUs sent; `pending` are the numbers in `pending_timers_`. */
  datatype Dispatch = Dispatch(taken: nat, pending: set<U32>, calls: seq<Call>)

  /** What happens to a session, in any order; a timer may fire at any moment. */
  datatype Event =
    | Sent                      // send_pdu
    | Expired(sequence: U32)    // the handler of one of its timers
    | Received(pdu: Pdu)        // parse_pdu

  const Quiet: Dispatch := Dispatch(0, {}, [])

  function DispatchOne(d: Dispatch, p: Pdu): Dispatch {
    if p.sequenceNumber in d.pending then d.(pending := d.pending - {p.sequenceNumber}, calls := d.calls + [Response(p)])
    else d.(calls := d.calls + [Request(p)])
  }

  function Step(d: Dispatch, e: Event): Dispatch {
    match e
    case Sent => d.(taken := d.taken + 1, pending := d.pending + {SequenceOf(d.taken)})
    case Expired(q) => d.(pending := d.pending - {q}, calls := d.calls + [Timeout(q)])
    case Received(p) => DispatchOne(d, p)
  }

  function Run(es: seq<Event>): Dispatch
    decreases |es|
  {
    if es == [] then Quiet else Step(Run(es[..|es| - 1]), es[|es| - 1])
  }

  /** The PDUs of a stream, one after another. */
  function DispatchAll(d: Dispatch, ps: seq<Pdu>): Dispatch
    decreases |ps|
  {
    if ps == [] then d else DispatchAll(DispatchOne(d, ps[0]), ps[1..])
  }

  // ----- the history alone decides who gets a PDU -----

  function Sends(es: seq<Event>): nat
    decreases |es|
  {
    if es == [] then 0 else Sends(es[..|es| - 1]) + if es[|es| - 1].Sent? then 1 else 0
  }

  /** Event `j` sent a PDU under number `q`. */
  predicate SentAt(es: seq<Event>, q: U32, j: nat) {
    j < |es| && es[j].Sent? && SequenceOf(Sends(es[..j])) == q
  }

  /** Nothing settles `q` from event `j` on: no timeout for it, and no PDU with that number. */
  predicate OpenFrom(es: seq<Event>, q: U32, j: nat) {
    forall k | j <= k < |es| :: es[k] != Expired(q) && !(es[k].Received? && es[k].pdu.sequenceNumber == q)
  }

  /** A PDU was sent under `q`, and neither a timeout nor a PDU with that number came since. */
  ghost predicate AwaitedSince(es: seq<Event>, q: U32) {
    exists j: nat :: SentAt(es, q, j) && OpenFrom(es, q, j)
  }

  /** The numbers in `pending_timers_` are those that the history leaves open. */
  lemma {:induction false} PendingIffAwaited(es: seq<Event>, q: U32)
    ensures q in Run(es).pending <==> AwaitedSince(es, q)
    ensures Run(es).taken == Sends(es)
    decreases |es|
  {
    if es != [] {
      var n := |es| - 1;
      var init := es[..n];
      PendingIffAwaited(init, q);
      if AwaitedSince(es, q) {
        var j: nat :| SentAt(es, q, j) && OpenFrom(es, q, j);
        if j < n {
          SentBefore(es, q, j);
        }
      }
      if AwaitedSince(init, q) {
        var j: nat :| SentAt(init, q, j) && OpenFrom(init, q, j);
        SentBefore(es, q, j);
      }
      if es[n].Sent? && SequenceOf(Sends(init)) == q {
        assert SentAt(es, q, n) && OpenFrom(es, q, n);
      }
    }
  }

  /** What one more event does to a number sent before it. */
  lemma SentBefore(es: seq<Event>, q: U32, j: nat)
    requires j < |es| - 1
    ensures var init := es[..|es| - 1];
            && (SentAt(es, q, j) <==> SentAt(init, q, j))
            && (OpenFrom(es, q, j) <==> OpenFrom(init, q, j) && OpenFrom(es, q, |es| - 1))
  {
    assert es[..|es| - 1][..j] == es[..j];
  }

  lemma {:induction false} CallsOf(es: seq<Event>, i: nat)
    requires i <= |es|
    ensures |Run(es).calls| == |es| - Sends(es)
    ensures Run(es[..i]).calls <= Run(es).calls
    decreases |es|
  {
    if i == |es| {
      assert es[..i] == es;
    }
    if es != [] {
      var init := es[..|es| - 1];
      CallsOf(init, if i < |es| then i else 0);
      assert i < |es| ==> init[..i] == es[..i];
    }
  }

  /**
   * However sends, timeouts and PDUs mix: each PDU and each timeout is handed over once and in order, call
   * number k being the k-th event that is not a send, and a PDU is a response exactly if something was sent
   * under its number and neither a timeout nor an earlier PDU has settled that.
   */
  lemma DispatchLaw(es: seq<Event>, i: nat)
    requires i < |es| && !es[i].Sent?
    ensures var calls, k := Run(es).calls, i - Sends(es[..i]);
            && |calls| == |es| - Sends(es)
            && 0 <= k < |calls|
            && calls[k] == match es[i]
                           case Expired(q) => Timeout(q)
                           case Received(p) => if AwaitedSince(es[..i], p.sequenceNumber) then Response(p) else Request(p)
  {
    var init, upTo := es[..i], es[..i + 1];
    CallsOf(es, i + 1);
    CallsOf(init, 0);
    assert upTo[..i] == init;
    if es[i].Received? {
      PendingIffAwaited(init, es[i].pdu.sequenceNumber);
    }
  }

  function Receipts(ps: seq<Pdu>): (es: seq<Event>)
    ensures |es| == |ps|
  {
    seq(|ps|, i requires 0 <= i < |ps| => Received(ps[i]))
  }

  /** Reading a stretch of PDUs continues the run, so that `DispatchLaw` speaks of the read loop too. */
  lemma {:induction false} ReadingContinues(es: seq<Event>, ps: seq<Pdu>)
    ensures DispatchAll(Run(es), ps) == Run(es + Receipts(ps))
    decreases |ps|
  {
    if ps == [] {
      assert es + Receipts(ps) == es;
    } else {
      var more := es + [Received(ps[0])];
      assert more[..|more| - 1] == es;
      assert es + Receipts(ps) == more + Receipts(ps[1..]);
      ReadingContinues(more, ps[1..]);
    }
  }

  /** Until the numbers wrap: answered numbers were drawn, are not awaited, and differ. */
  ghost predicate Inv(d: Dispatch) {
    && (forall q | q in d.pending :: DrawOf(q) < d.taken)
    && (forall c | c in d.calls && c.Response? :: DrawOf(c.pdu.sequenceNumber) < d.taken && c.pdu.sequenceNumber !in d.pending)
    && (forall i, j | 0 <= i < j < |d.calls| && d.calls[i].Response? && d.calls[j].Response? ::
          d.calls[i].pdu.sequenceNumber != d.calls[j].pdu.sequenceNumber)
  }

  lemma StepKeeps(d: Dispatch, e: Event)
    requires Inv(d) && (e.Sent? ==> d.taken < WORD)
    ensures Inv(Step(d, e))
  {
    var d' := Step(d, e);
    match e
    case Sent => DrawOfSequence(d.taken);
    case Expired(_) =>
    case Received(p) =>
      assert forall i | 0 <= i < |d.calls| :: d.calls[i] in d.calls;
      assert forall c | c in d'.calls :: c in d.calls || c == d'.calls[|d.calls|];
  }

  /** With at most 2^32 PDUs sent, no number gets two responses. */
  lemma {:induction false} ResponseOnce(es: seq<Event>)
    requires Sends(es) <= WORD
    ensures Inv(Run(es))
    ensures var calls := Run(es).calls;
            forall i, j | 0 <= i < j < |calls| && calls[i].Response? && calls[j].Response? ::
              calls[i].pdu.sequenceNumber != calls[j].pdu.sequenceNumber
    decreases |es|
  {
    if es != [] {
      ResponseOnce(es[..|es| - 1]);
      PendingIffAwaited(es[..|es| - 1], 0);
      StepKeeps(Run(es[..|es| - 1]), es[|es| - 1]);
    }
  }

  /** What `SmppSession` receives and awaits. */
  class SmppSession {
    var streambuf: seq<Byte>
    var taken: nat
    var pendingTimers: set<U32>
    var calls: seq<Call>
    var closed: bool

    ghost function State(): Dispatch
      reads this
    {
      Dispatch(taken, pendingTimers, calls)
    }

    constructor ()
      ensures streambuf == [] && State() == Quiet && !closed
    {
      streambuf, taken, pendingTimers, calls, closed := [], 0, {}, [], false;
    }

    /** `send_pdu`: the number and the timer. */
    method SendPdu() returns (sequence: U32)
      modifies this`taken, this`pendingTimers
      ensures State() == Step(old(State()), Sent) && sequence == SequenceOf(old(taken)) && sequence in pendingTimers
    {
      sequence := SequenceOf(taken);
      taken := taken + 1;
      pendingTimers := pendingTimers + {sequence};
    }

    /** The handler of a timer that was not cancelled in time. */
    method OnTimeout(sequence: U32)
      modifies this`pendingTimers, this`calls
      ensures State() == Step(old(State()), Expired(sequence))
    {
      pendingTimers := pendingTimers - {sequence};
      calls := calls + [Timeout(sequence)];
    }

    /** The completion of `read_header`, and `handle_header`: how many body bytes to read, unless closed. */
    method OnHeader(bytes: seq<Byte>) returns (size: nat)
      requires streambuf == [] && |bytes| == MAX_HEADER && !closed
      modifies this`streambuf, this`closed
      ensures streambuf == bytes && closed == !LengthAccepted(LengthField(bytes))
      ensures !closed ==> size == LengthField(bytes) - MAX_HEADER
    {
      streambuf := streambuf + bytes;
      var length := FromBigEndian(streambuf[..4]);
      size := 0;
      if length < MAX_HEADER || length > MAX_PDU_SIZE {
        closed := true;
      } else {
        size := length - MAX_HEADER;
      }
    }

    /** The completion of `read_body`, and `parse_pdu`. */
    method OnBody(bytes: seq<Byte>)
      requires |streambuf| == MAX_HEADER && LengthAccepted(LengthField(streambuf))
      requires |bytes| == LengthField(streambuf) - MAX_HEADER
      modifies this`streambuf, this`pendingTimers, this`calls
      ensures streambuf == []
      ensures var data := old(streambuf) + bytes;
              && LengthField(data) == LengthField(old(streambuf))
              && Deserialize(data).Got?
              && State() == Step(old(State()), Received(Deserialize(data).pdu))
    {
      var total := |bytes| + MAX_HEADER;
      streambuf := streambuf + bytes;
      var data := streambuf;
      assert data[..4] == old(streambuf)[..4];
      NullUnreachable(data);
      var got := Deserialize(data);
      streambuf := streambuf[total..];
      if got.pdu.sequenceNumber in pendingTimers {
        pendingTimers := pendingTimers - {got.pdu.sequenceNumber};
        calls := calls + [Response(got.pdu)];
      } else {
        calls := calls + [Request(got.pdu)];
      }
    }

    /** One turn of the read loop: refuse the length, wait for more bytes, or dispatch one PDU. */
    method ReadPdu(waiting: seq<Byte>) returns (rest: seq<Byte>, complete: bool)
      requires streambuf == [] && !closed && |waiting| >= MAX_HEADER
      modifies this
      ensures if complete && !closed then
                && streambuf == [] && |rest| < |waiting|
                && Parse(waiting).pdus != []
                && Parse(waiting).pdus[1..] == Parse(rest).pdus
                && Parse(waiting).waiting == Parse(rest).waiting && Parse(waiting).closed == Parse(rest).closed
                && State() == DispatchOne(old(State()), Parse(waiting).pdus[0])
              else rest == waiting && Parse(waiting) == Parsed([], waiting, closed) && State() == old(State())
    {
      rest, complete := waiting, true;
      var header := waiting[..MAX_HEADER];
      assert header[..4] == waiting[..4];
      var size := OnHeader(header);
      if closed {
        return;
      }
      if |waiting| - MAX_HEADER < size {
        complete := false;
        return;
      }
      var length := MAX_HEADER + size;
      assert header + waiting[MAX_HEADER..length] == waiting[..length];
      assert waiting[..length][..4] == waiting[..4];
      NullUnreachable(waiting[..length]);
      OnBody(waiting[MAX_HEADER..length]);
      rest := waiting[length..];
    }

    /** The read loop; the stream buffer is empty whenever a header is asked for. */
    method ReadLoop(stream: seq<Byte>) returns (waiting: seq<Byte>)
      requires streambuf == [] && !closed
      modifies this
      ensures State() == DispatchAll(old(State()), Parse(stream).pdus)
      ensures waiting == Parse(stream).waiting && closed == Parse(stream).closed
    {
      waiting := stream;
      var complete := true;
      ghost var goal := DispatchAll(State(), Parse(stream).pdus);
      while |waiting| >= MAX_HEADER && complete && !closed
        invariant Parse(stream).waiting == Parse(waiting).waiting && Parse(stream).closed == Parse(waiting).closed
        invariant goal == DispatchAll(State(), Parse(waiting).pdus)
        invariant complete && !closed ==> streambuf == []
        invariant !complete || closed ==> Parse(waiting) == Parsed([], waiting, closed)
        decreases |waiting|, complete, !closed
      {
        waiting, complete := ReadPdu(waiting);
      }
    }
  }
}
