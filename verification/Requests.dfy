/** Expiry sweeps over a map from sequence number to deadline. */
module Expiry {
  import opened Bytes

  /** A one-shot timer. */
  datatype Timer = Unarmed | Armed(at: int)

  predicate Ascending(order: seq<U32>) {
    forall i, j | 0 <= i < j < |order| :: order[i] < order[j]
  }

  /** `order` lists, in map order, the entries that `now >= expiryTime` selects. */
  ghost predicate IsSweep(pending: map<U32, int>, now: int, order: seq<U32>) {
    Ascending(order) && forall s :: s in order <==> s in pending && now >= pending[s]
  }

  ghost predicate Enumerates(keys: set<U32>, order: seq<U32>) {
    Ascending(order) && forall s :: s in order <==> s in keys
  }

  /** Erases every listed key. */
  function EraseAll(pending: map<U32, int>, order: seq<U32>): map<U32, int> {
    map s | s in pending && s !in order :: pending[s]
  }

  predicate IsLeast(k: U32, keys: set<U32>) {
    k in keys && forall j | j in keys :: k <= j
  }

  lemma {:induction false} LeastExists(keys: set<U32>) returns (k: U32)
    requires keys != {}
    ensures IsLeast(k, keys)
    decreases |keys|
  {
    k :| k in keys;
    var rest := keys - {k};
    assert keys == rest + {k};
    if rest != {} {
      var other := LeastExists(rest);
      if other < k {
        k := other;
      }
    }
  }

  /** The first loop of `checkTimeouts`: collects the expired sequence numbers in map order. */
  method CollectExpired(pending: map<U32, int>, now: int) returns (expired: seq<U32>)
    ensures IsSweep(pending, now, expired)
  {
    expired := [];
    var rest := pending.Keys;
    while rest != {}
      invariant rest <= pending.Keys
      invariant Ascending(expired)
      invariant forall i, k | 0 <= i < |expired| && k in rest :: expired[i] < k
      invariant forall s :: s in expired <==> s in pending && s !in rest && now >= pending[s]
      decreases rest
    {
      ghost var least := LeastExists(rest);
      var s :| s in rest && IsLeast(s, rest);
      ghost var before := expired;
      if now >= pending[s] {
        expired := expired + [s];
        assert forall x :: x in expired <==> x in before || x == s;
      }
      ghost var was := rest;
      rest := rest - {s};
      forall k | k in rest
        ensures s < k
      {
        assert k in was && IsLeast(s, was);
      }
    }
  }

  /** The second loop of `checkTimeouts`: erases them one at a time. */
  method EraseExpired(pending: map<U32, int>, expired: seq<U32>) returns (left: map<U32, int>)
    ensures left == EraseAll(pending, expired)
  {
    left := pending;
    for i := 0 to |expired|
      invariant left == EraseAll(pending, expired[..i])
    {
      left := left - {expired[i]};
      assert expired[..i + 1] == expired[..i] + [expired[i]];
    }
    assert expired[..|expired|] == expired;
  }
}

/** Request correlation in claude/asio_client.cpp. */
module Requests {
  import opened Bytes
  import opened Packets
  import opened Expiry

  datatype Outcome = Answered(reply: Packet) | TimedOut | Cancelled | Dropped | NotSent
  datatype Ended = Ended(sequence: U32, outcome: Outcome)

  /** The shared fields: the connection flag, `pending_requests_`, and what ended so far. */
  datatype Core = Core(connected: bool, pending: map<U32, int>, log: seq<Ended>)

  function EndAll(order: seq<U32>, outcome: Outcome): (log: seq<Ended>)
    ensures |log| == |order|
  {
    seq(|order|, i requires 0 <= i < |order| => Ended(order[i], outcome))
  }

  function Register(c: Core, s: U32, expiry: int): Core {
    c.(pending := c.pending[s := expiry])
  }

  function Cancel(c: Core, s: U32): Core {
    if s in c.pending then c.(pending := c.pending - {s}, log := c.log + [Ended(s, Cancelled)]) else c
  }

  /** `checkTimeouts`, with the expired sequence numbers it collected. */
  function Sweep(c: Core, order: seq<U32>): Core {
    c.(pending := EraseAll(c.pending, order), log := c.log + EndAll(order, TimedOut))
  }

  /** `processPacket`. */
  function Receive(c: Core, p: Packet): Core {
    if p.header.packetId == RESPONSE && p.header.sequence in c.pending then
      c.(pending := c.pending - {p.header.sequence}, log := c.log + [Ended(p.header.sequence, Answered(p))])
    else c
  }

  /** `handleDisconnect`. */
  function Disconnect(c: Core, order: seq<U32>): Core {
    if c.connected then Core(false, map[], c.log + EndAll(order, Dropped)) else c
  }

  /**
   * The shared fields and the calls of `sendRequest` under way on other threads: `claimed` have a
   * sequence number, `posted` have also handed their frame to the strand and are not registered yet.
   * `taken` counts sequence numbers drawn; `data` records what each request carries.
   */
  datatype Table = Table(core: Core, taken: nat, claimed: set<U32>, posted: set<U32>, data: map<U32, seq<Byte>>)

  datatype Event =
    | DrawOther                       // a sequence number drawn for a BIND packet
    | Claim(payload: seq<Byte>)       // connected_ checked, number drawn
    | Submit(sequence: U32)           // sendPacket checks connected_ again, then posts
    | Registered(sequence: U32, expiry: int)
    | CancelCall(sequence: U32)
    | Tick(now: int, order: seq<U32>)
    | Arrive(packet: Packet)
    | Disconnected(order: seq<U32>)
    | Connecting                      // connect(): the flag goes, the map stays
    | Connected

  const Fresh: Table := Table(Core(true, map[], []), 0, {}, {}, map[])

  /** Fewer than 2^32 numbers are drawn in all. */
  ghost predicate Enabled(t: Table, e: Event) {
    match e
    case DrawOther => t.taken < WORD
    case Claim(_) => t.taken < WORD
    case Submit(s) => s in t.claimed
    case Registered(s, _) => s in t.posted
    case Tick(now, order) => IsSweep(t.core.pending, now, order)
    case Disconnected(order) => Enumerates(t.core.pending.Keys, order)
    case CancelCall(_) => true
    case Arrive(_) => true
    case Connecting => true
    case Connected => true
  }

  function Step(t: Table, e: Event): Table {
    match e
    case DrawOther => t.(taken := t.taken + 1)
    case Claim(payload) =>
      if !t.core.connected then t
      else
        var s := SequenceOf(t.taken);
        t.(taken := t.taken + 1, claimed := t.claimed + {s}, data := t.data[s := payload])
    case Submit(s) =>
      if t.core.connected then t.(claimed := t.claimed - {s}, posted := t.posted + {s})
      else t.(claimed := t.claimed - {s}, core := t.core.(log := t.core.log + [Ended(s, NotSent)]))
    case Registered(s, expiry) => t.(posted := t.posted - {s}, core := Register(t.core, s, expiry))
    case CancelCall(s) => t.(core := Cancel(t.core, s))
    case Tick(_, order) => t.(core := Sweep(t.core, order))
    case Arrive(p) => t.(core := Receive(t.core, p))
    case Disconnected(order) => t.(core := Disconnect(t.core, order))
    case Connecting => t.(core := t.core.(connected := false))
    case Connected => t.(core := t.core.(connected := true))
  }

  ghost predicate EndedIn(log: seq<Ended>, s: U32) {
    exists i :: 0 <= i < |log| && log[i].sequence == s
  }

  /** No sequence number ends twice. */
  ghost predicate DistinctLog(log: seq<Ended>) {
    forall i, j | 0 <= i < j < |log| :: log[i].sequence != log[j].sequence
  }

  /** Which of the classes `s` is in, as a count. */
  ghost function Classes(t: Table, s: U32): nat {
    (if s in t.claimed then 1 else 0) + (if s in t.posted then 1 else 0)
    + (if s in t.core.pending then 1 else 0) + (if EndedIn(t.core.log, s) then 1 else 0)
  }

  /** Issued requests are each in exactly one class, others in none. */
  ghost predicate Inv(t: Table) {
    && t.taken <= WORD
    && (forall s | s in t.data :: DrawOf(s) < t.taken)
    && DistinctLog(t.core.log)
    && (forall s: U32 :: Classes(t, s) == if s in t.data then 1 else 0)
  }

  lemma EndedAppend(log: seq<Ended>, more: seq<Ended>, s: U32)
    ensures EndedIn(log + more, s) <==> EndedIn(log, s) || EndedIn(more, s)
  {
    var all := log + more;
    if EndedIn(log, s) {
      var i :| 0 <= i < |log| && log[i].sequence == s;
      assert all[i].sequence == s;
    }
    if EndedIn(more, s) {
      var i :| 0 <= i < |more| && more[i].sequence == s;
      assert all[|log| + i].sequence == s;
    }
  }

  lemma EndedAll(order: seq<U32>, outcome: Outcome, s: U32)
    ensures EndedIn(EndAll(order, outcome), s) <==> s in order
  {
    if s in order {
      var i :| 0 <= i < |order| && order[i] == s;
      assert EndAll(order, outcome)[i].sequence == s;
    }
  }

  /** Appending entries for numbers not ended before keeps the log distinct. */
  lemma DistinctAppend(log: seq<Ended>, order: seq<U32>, outcome: Outcome)
    requires DistinctLog(log) && Ascending(order) && forall s | s in order :: !EndedIn(log, s)
    ensures DistinctLog(log + EndAll(order, outcome))
  {
    var all := log + EndAll(order, outcome);
    forall i, j | 0 <= i < j < |all|
      ensures all[i].sequence != all[j].sequence
    {
      if i < |log| <= j {
        assert order[j - |log|] in order;
        assert !EndedIn(log, all[j].sequence);
      }
    }
  }

  /** A batch of pending requests moves to the log. */
  lemma MoveToLog(t: Table, t': Table, order: seq<U32>, outcome: Outcome)
    requires Inv(t) && Ascending(order)
    requires t' == t.(core := t'.core)
    requires t'.core.log == t.core.log + EndAll(order, outcome)
    requires forall s :: s in order ==> s in t.core.pending
    requires t'.core.pending.Keys == set s | s in t.core.pending && s !in order
    ensures Inv(t')
  {
    forall s: U32
      ensures Classes(t', s) == Classes(t, s)
    {
      assert Classes(t, s) <= 1;
      EndedAppend(t.core.log, EndAll(order, outcome), s);
      EndedAll(order, outcome, s);
    }
    forall s | s in order
      ensures !EndedIn(t.core.log, s)
    {
      assert Classes(t, s) <= 1;
    }
    DistinctAppend(t.core.log, order, outcome);
  }

  lemma MoveOne(t: Table, t': Table, s: U32, outcome: Outcome)
    requires Inv(t) && s in t.core.pending
    requires t' == t.(core := t'.core)
    requires t'.core.log == t.core.log + [Ended(s, outcome)] && t'.core.pending == t.core.pending - {s}
    ensures Inv(t')
  {
    assert EndAll([s], outcome) == [Ended(s, outcome)];
    assert t'.core.pending.Keys == set x | x in t.core.pending && x !in [s];
    MoveToLog(t, t', [s], outcome);
  }

  lemma ClaimKeeps(t: Table, payload: seq<Byte>)
    requires Inv(t) && t.taken < WORD
    ensures Inv(Step(t, Claim(payload)))
    ensures t.core.connected ==> SequenceOf(t.taken) !in t.data
  {
    var s := SequenceOf(t.taken);
    DrawOfSequence(t.taken);
    assert s !in t.data;
    var t' := Step(t, Claim(payload));
    forall x: U32
      ensures Classes(t', x) == if x in t'.data then 1 else 0
    {
      assert Classes(t, x) == if x in t.data then 1 else 0;
    }
  }

  lemma SubmitKeeps(t: Table, s: U32)
    requires Inv(t) && s in t.claimed
    ensures Inv(Step(t, Submit(s)))
  {
    var t' := Step(t, Submit(s));
    assert Classes(t, s) <= 1;
    forall x: U32
      ensures Classes(t', x) == Classes(t, x)
    {
      assert Classes(t, x) <= 1;
      EndedAppend(t.core.log, [Ended(s, NotSent)], x);
      assert EndedIn([Ended(s, NotSent)], x) <==> x == s by {
        EndedAll([s], NotSent, x);
        assert EndAll([s], NotSent) == [Ended(s, NotSent)];
      }
    }
    DistinctAppend(t.core.log, [s], NotSent);
    assert EndAll([s], NotSent) == [Ended(s, NotSent)];
  }

  lemma StepKeeps(t: Table, e: Event)
    requires Inv(t) && Enabled(t, e)
    ensures Inv(Step(t, e))
    ensures t.core.log <= Step(t, e).core.log
  {
    var t' := Step(t, e);
    match e
    case DrawOther =>
      assert forall s: U32 :: Classes(t', s) == Classes(t, s);
    case Claim(payload) => ClaimKeeps(t, payload);
    case Submit(s) => SubmitKeeps(t, s);
    case Registered(s, expiry) =>
      forall x: U32
        ensures Classes(t', x) == Classes(t, x)
      {
        assert Classes(t, x) <= 1;
      }
    case CancelCall(s) => if s in t.core.pending { MoveOne(t, t', s, Cancelled); }
    case Tick(_, order) => MoveToLog(t, t', order, TimedOut);
    case Arrive(p) => if t' != t { MoveOne(t, t', p.header.sequence, Answered(p)); }
    case Disconnected(order) => if t.core.connected { MoveToLog(t, t', order, Dropped); }
    case Connecting =>
      assert forall s: U32 :: Classes(t', s) == Classes(t, s);
    case Connected =>
      assert forall s: U32 :: Classes(t', s) == Classes(t, s);
  }

  /** Event `e` ends request `s` with outcome `o`. */
  predicate Ends(t: Table, e: Event, s: U32, o: Outcome) {
    match o
    case Answered(p) =>
      e == Arrive(p) && p.header.packetId == RESPONSE && p.header.sequence == s && s in t.core.pending
    case TimedOut => e.Tick? && s in t.core.pending && t.core.pending[s] <= e.now
    case Cancelled => e == CancelCall(s) && s in t.core.pending
    case Dropped => e.Disconnected? && t.core.connected && s in t.core.pending
    case NotSent => e == Submit(s) && !t.core.connected
  }

  lemma InEndAll(order: seq<U32>, outcome: Outcome, s: U32, o: Outcome)
    ensures Ended(s, o) in EndAll(order, outcome) <==> s in order && o == outcome
  {
    if s in order && o == outcome {
      var i :| 0 <= i < |order| && order[i] == s;
      assert EndAll(order, outcome)[i] == Ended(s, o);
    }
  }

  /**
   * An outcome is recorded exactly when the event that stands for it happens to a request it can happen to;
   * in particular a response that arrives before its request is registered is lost.
   */
  lemma OutcomeHasItsCause(t: Table, e: Event, s: U32, o: Outcome)
    requires Inv(t) && Enabled(t, e)
    ensures Ended(s, o) in Step(t, e).core.log <==> Ended(s, o) in t.core.log || Ends(t, e, s, o)
  {
    match e
    case Tick(_, order) => InEndAll(order, TimedOut, s, o);
    case Disconnected(order) => InEndAll(order, Dropped, s, o);
    case DrawOther =>
    case Claim(_) =>
    case Submit(_) =>
    case Registered(_, _) =>
    case CancelCall(_) =>
    case Arrive(_) =>
    case Connecting =>
    case Connected =>
  }

  ghost predicate Legal(t: Table, es: seq<Event>)
    decreases |es|
  {
    es == [] || (Enabled(t, es[0]) && Legal(Step(t, es[0]), es[1..]))
  }

  function Run(t: Table, es: seq<Event>): Table
    decreases |es|
  {
    if es == [] then t else Run(Step(t, es[0]), es[1..])
  }

  lemma {:induction false} RunKeeps(t: Table, es: seq<Event>)
    requires Inv(t) && Legal(t, es)
    ensures Inv(Run(t, es)) && t.core.log <= Run(t, es).core.log
    decreases |es|
  {
    if es != [] {
      StepKeeps(t, es[0]);
      RunKeeps(Step(t, es[0]), es[1..]);
    }
  }

  lemma FreshHolds()
    ensures Inv(Fresh)
  {
    assert forall s: U32 :: Classes(Fresh, s) == 0;
  }

  /**
   * In every run each issued request is in exactly one class, a request that has ended is in no live
   * class, and what ended it is written once and never changes afterwards.
   */
  lemma SingleOutcome(before: seq<Event>, after: seq<Event>)
    requires Legal(Fresh, before) && Legal(Run(Fresh, before), after)
    ensures var t := Run(Fresh, before);
            var t' := Run(t, after);
            && (forall s | s in t'.data :: Classes(t', s) == 1)
            && (forall i | 0 <= i < |t.core.log| :: i < |t'.core.log| && t'.core.log[i] == t.core.log[i])
            && (forall i, j | 0 <= i < |t'.core.log| && 0 <= j < |t'.core.log| ::
                  t'.core.log[i].sequence == t'.core.log[j].sequence ==> i == j)
  {
    FreshHolds();
    RunKeeps(Fresh, before);
    RunKeeps(Run(Fresh, before), after);
  }

  /** The promise of `sendRequestSync` is set by the callback, so at most once, and never after a timeout. */
  lemma PromiseSetOnce(es: seq<Event>, s: U32, i: nat, j: nat)
    requires Legal(Fresh, es)
    requires i < |Run(Fresh, es).core.log| && j < |Run(Fresh, es).core.log|
    requires Run(Fresh, es).core.log[i].sequence == Run(Fresh, es).core.log[j].sequence == s
    requires Run(Fresh, es).core.log[i].outcome.Answered?
    ensures i == j && s !in Run(Fresh, es).core.pending
  {
    SingleOutcome(es, []);
    var t := Run(Fresh, es);
    FreshHolds();
    RunKeeps(Fresh, es);
    assert Classes(t, s) <= 1;
  }

  // ----- what the events alone say -----

  lemma {:induction false} RunSnoc(t: Table, es: seq<Event>)
    requires Legal(t, es) && es != []
    ensures var init, last := es[..|es| - 1], es[|es| - 1];
            Legal(t, init) && Enabled(Run(t, init), last) && Run(t, es) == Step(Run(t, init), last)
    decreases |es|
  {
    var init := es[..|es| - 1];
    if |es| > 1 {
      RunSnoc(Step(t, es[0]), es[1..]);
      assert es[1..][..|es| - 2] == init[1..];
    }
  }

  /** Whether the last event about the connection was its establishment. */
  function ConnectedAfter(es: seq<Event>): bool
    decreases |es|
  {
    if es == [] then true
    else
      match es[|es| - 1]
      case Connected => true
      case Connecting => false
      case Disconnected(_) => false
      case _ => ConnectedAfter(es[..|es| - 1])
  }

  /** How many sequence numbers have been drawn. */
  function Draws(es: seq<Event>): nat
    decreases |es|
  {
    if es == [] then 0
    else
      var init, last := es[..|es| - 1], es[|es| - 1];
      Draws(init) + if last.DrawOther? || (last.Claim? && ConnectedAfter(init)) then 1 else 0
  }

  /** Event `k` drew number `s` for a request. */
  predicate ClaimedAt(es: seq<Event>, s: U32, k: nat) {
    k < |es| && es[k].Claim? && ConnectedAfter(es[..k]) && SequenceOf(Draws(es[..k])) == s
  }

  predicate RegisteredAt(es: seq<Event>, s: U32, j: nat) {
    j < |es| && es[j].Registered? && es[j].sequence == s
  }

  /** Event `k` takes `s` out of the map. */
  predicate RemovesAt(es: seq<Event>, s: U32, k: nat)
    requires k < |es|
  {
    match es[k]
    case CancelCall(x) => x == s
    case Tick(_, order) => s in order
    case Arrive(p) => p.header.packetId == RESPONSE && p.header.sequence == s
    case Disconnected(_) => ConnectedAfter(es[..k])
    case _ => false
  }

  predicate OpenFrom(es: seq<Event>, s: U32, j: nat) {
    forall k | j <= k < |es| :: !RemovesAt(es, s, k)
  }

  lemma OpenShorter(es: seq<Event>, s: U32, j: nat)
    requires j < |es|
    ensures OpenFrom(es, s, j) <==> !RemovesAt(es, s, |es| - 1) && OpenFrom(es[..|es| - 1], s, j)
  {
    var init := es[..|es| - 1];
    assert forall k | 0 <= k < |init| :: init[..k] == es[..k];
    assert forall k | 0 <= k < |init| :: RemovesAt(init, s, k) <==> RemovesAt(es, s, k);
  }

  lemma {:induction false} CountersLaw(es: seq<Event>)
    requires Legal(Fresh, es)
    ensures Run(Fresh, es).core.connected == ConnectedAfter(es) && Run(Fresh, es).taken == Draws(es)
    decreases |es|
  {
    if es != [] {
      RunSnoc(Fresh, es);
      CountersLaw(es[..|es| - 1]);
    }
  }

  /** The data recorded under a number is that of the `sendRequest` call that drew it. */
  lemma {:induction false} DataOf(es: seq<Event>, s: U32, k: nat)
    requires Legal(Fresh, es) && ClaimedAt(es, s, k)
    ensures s in Run(Fresh, es).data && Run(Fresh, es).data[s] == es[k].payload
    decreases |es|
  {
    var n := |es| - 1;
    var init, last := es[..n], es[n];
    RunSnoc(Fresh, es);
    CountersLaw(init);
    if k < n {
      assert init[..k] == es[..k] && ClaimedAt(init, s, k);
      DataOf(init, s, k);
      FreshHolds();
      RunKeeps(Fresh, init);
      if last.Claim? {
        ClaimKeeps(Run(Fresh, init), last.payload);
      }
    }
  }

  lemma {:induction false} OpenIsPending(es: seq<Event>, s: U32, j: nat)
    requires Legal(Fresh, es) && RegisteredAt(es, s, j) && OpenFrom(es, s, j)
    ensures s in Run(Fresh, es).core.pending && Run(Fresh, es).core.pending[s] == es[j].expiry
    decreases |es|
  {
    var n := |es| - 1;
    var init := es[..n];
    RunSnoc(Fresh, es);
    CountersLaw(init);
    OpenShorter(es, s, j);
    if j < n {
      OpenIsPending(init, s, j);
      FreshHolds();
      RunKeeps(Fresh, init);
      assert Classes(Run(Fresh, init), s) <= 1;
    }
  }

  lemma {:induction false} PendingIsOpen(es: seq<Event>, s: U32) returns (j: nat)
    requires Legal(Fresh, es) && s in Run(Fresh, es).core.pending
    ensures RegisteredAt(es, s, j) && OpenFrom(es, s, j)
    decreases |es|
  {
    var n := |es| - 1;
    RunSnoc(Fresh, es);
    CountersLaw(es[..n]);
    if RegisteredAt(es, s, n) {
      j := n;
    } else {
      j := PendingIsOpen(es[..n], s);
      OpenShorter(es, s, j);
    }
  }

  /**
   * In every run a request is pending if and only if some event registered it and nothing has taken it out
   * since: no cancel, no sweep that lists it, no RESPONSE, no disconnect. It expires as that event says.
   */
  lemma PendingIffRegistered(es: seq<Event>, s: U32)
    requires Legal(Fresh, es)
    ensures var pending := Run(Fresh, es).core.pending;
            && (s in pending <==> exists j: nat :: RegisteredAt(es, s, j) && OpenFrom(es, s, j))
            && (forall j: nat | RegisteredAt(es, s, j) && OpenFrom(es, s, j) :: s in pending && pending[s] == es[j].expiry)
  {
    if s in Run(Fresh, es).core.pending {
      var j := PendingIsOpen(es, s);
    }
    forall j: nat | RegisteredAt(es, s, j) && OpenFrom(es, s, j)
      ensures s in Run(Fresh, es).core.pending && Run(Fresh, es).core.pending[s] == es[j].expiry
    {
      OpenIsPending(es, s, j);
    }
  }

  /** The numbers ended by event `k` as a batch. */
  function Batch(e: Event): seq<U32> {
    match e
    case Tick(_, order) => order
    case Disconnected(order) => order
    case _ => []
  }

  /** A sweep or a disconnect ends its requests in the order in which it lists them, next in the log. */
  lemma {:induction false} BatchLaw(es: seq<Event>, k: nat, i: nat)
    requires Legal(Fresh, es) && k < |es| && i < |Batch(es[k])| && (es[k].Tick? || ConnectedAfter(es[..k]))
    ensures var at := |Run(Fresh, es[..k]).core.log| + i;
            && at < |Run(Fresh, es).core.log|
            && Run(Fresh, es).core.log[at] == Ended(Batch(es[k])[i], if es[k].Tick? then TimedOut else Dropped)
    decreases |es|
  {
    var n := |es| - 1;
    var init := es[..n];
    RunSnoc(Fresh, es);
    CountersLaw(init);
    if k < n {
      assert init[..k] == es[..k];
      BatchLaw(init, k, i);
      FreshHolds();
      RunKeeps(Fresh, init);
      StepKeeps(Run(Fresh, init), es[n]);
    }
  }

  /** The correlation fields of `TcpClient`; each method is one handler or one locked block. */
  class TcpClient {
    var connected: bool
    var nextSequence: U32
    var pending: map<U32, int>
    var log: seq<Ended>

    ghost function State(): Core
      reads this
    {
      Core(connected, pending, log)
    }

    constructor ()
      ensures State() == Core(false, map[], []) && nextSequence == SequenceOf(0)
    {
      connected, nextSequence, pending, log := false, 1, map[], [];
    }

    /** `connect`, when its handler starts and when the connection stands. */
    method SetConnected(established: bool)
      modifies this`connected
      ensures State() == old(State()).(connected := established)
    {
      connected := established;
    }

    /** `getNextSequence`. */
    method GetNextSequence(ghost taken: nat) returns (s: U32)
      requires nextSequence == SequenceOf(taken)
      modifies this`nextSequence
      ensures s == SequenceOf(taken) && nextSequence == SequenceOf(taken + 1)
    {
      s := nextSequence;
      nextSequence := (nextSequence + 1) % WORD;
    }

    /** The locked block of `sendRequest`. */
    method RegisterRequest(s: U32, expiry: int)
      modifies this`pending
      ensures State() == Register(old(State()), s, expiry)
    {
      pending := pending[s := expiry];
    }

    /** `cancelRequest`. */
    method CancelRequest(s: U32) returns (erased: bool)
      modifies this`pending, this`log
      ensures State() == Cancel(old(State()), s) && erased == (s in old(pending))
    {
      erased := s in pending;
      if erased {
        pending := pending - {s};
        log := log + [Ended(s, Cancelled)];
      }
    }

    /** `checkTimeouts`. */
    method CheckTimeouts(now: int) returns (expired: seq<U32>, hasPending: bool)
      modifies this`pending, this`log
      ensures IsSweep(old(pending), now, expired)
      ensures State() == Sweep(old(State()), expired) && hasPending == (pending != map[])
    {
      expired := CollectExpired(pending, now);
      pending := EraseExpired(pending, expired);
      hasPending := pending != map[];
      for i := 0 to |expired|
        invariant log == old(log) + EndAll(expired[..i], TimedOut)
        modifies this`log
      {
        log := log + [Ended(expired[i], TimedOut)];
        assert EndAll(expired[..i + 1], TimedOut) == EndAll(expired[..i], TimedOut) + [Ended(expired[i], TimedOut)];
      }
      assert expired[..|expired|] == expired;
    }

    /** `processPacket`, up to the general packet callback. */
    method ProcessPacket(p: Packet)
      modifies this`pending, this`log
      ensures State() == Receive(old(State()), p)
    {
      if p.header.packetId == RESPONSE {
        if p.header.sequence in pending {
          pending := pending - {p.header.sequence};
          log := log + [Ended(p.header.sequence, Answered(p))];
        }
      }
    }

    /** `handleDisconnect`; the keys are listed so that every request dropped is on record. */
    method HandleDisconnect() returns (dropped: seq<U32>)
      modifies this`connected, this`pending, this`log
      ensures Enumerates(old(pending).Keys, dropped)
      ensures State() == Disconnect(old(State()), dropped)
    {
      var all: map<U32, int> := map s | s in pending :: 0;
      dropped := CollectExpired(all, 0);
      if connected {
        connected := false;
        pending := map[];
        log := log + EndAll(dropped, Dropped);
      }
    }
  }
}
