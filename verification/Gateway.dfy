/** gateway.cpp: requests of many producers go down one connection under new sequence numbers. */
module Gateway {
  import opened Bytes

  type Producer = nat

  /** `Pending`: the downstream sequence number and the session whose `respond` is stashed. */
  datatype Pending = Pending(downstream: U32, producer: Producer)

  /** Who asked, and under which sequence number. */
  datatype Origin = Origin(producer: Producer, sequence: U32)

  /** A reply passed on to a producer under an upstream sequence number. */
  datatype Relay = Relay(downstream: U32, producer: Producer, sequence: U32)

  /**
   * `taken` counts downstream sends. `inHand`: requests sent downstream whose handler has not yet taken
   * the mutex to stash them. `origin` records what caused each downstream sequence number.
   */
  datatype State = State(taken: nat, inHand: map<U32, Origin>, pending: map<U32, Pending>,
                         origin: map<U32, Origin>, relayed: seq<Relay>)

  datatype Event =
    | Forward(producer: Producer, sequence: U32)   // sendRequest in the upstream handler
    | Stash(downstream: U32)                       // the locked emplace in the upstream handler
    | Reply(downstream: U32)                       // the downstream handler

  const Fresh: State := State(0, map[], map[], map[], [])

  /** Key `key` holds downstream number `d`. */
  predicate HeldAt(pending: map<U32, Pending>, d: U32, key: U32) {
    key in pending && pending[key].downstream == d
  }

  ghost predicate Held(pending: map<U32, Pending>, d: U32) {
    exists key :: HeldAt(pending, d, key)
  }

  /** `emplace` inserts only under a key that is not taken. */
  predicate Accepts(s: State, d: U32) {
    d in s.inHand && s.inHand[d].sequence !in s.pending
  }

  ghost predicate Enabled(s: State, e: Event) {
    match e
    case Forward(_, _) => s.taken < WORD
    case Stash(d) => d in s.inHand
    case Reply(_) => true
  }

  ghost function Step(s: State, e: Event): State
    requires Enabled(s, e)
  {
    match e
    case Forward(producer, sequence) =>
      var d := SequenceOf(s.taken);
      s.(taken := s.taken + 1, inHand := s.inHand[d := Origin(producer, sequence)],
         origin := s.origin[d := Origin(producer, sequence)])
    case Stash(d) =>
      s.(inHand := s.inHand - {d},
         pending := if Accepts(s, d) then s.pending[s.inHand[d].sequence := Pending(d, s.inHand[d].producer)] else s.pending)
    case Reply(d) =>
      if Held(s.pending, d) then
        var key :| HeldAt(s.pending, d, key);
        s.(pending := s.pending - {key}, relayed := s.relayed + [Relay(d, s.pending[key].producer, key)])
      else s
  }

  /** The downstream number `d` was drawn for exactly this producer and sequence number. */
  predicate CausedBy(s: State, d: U32, producer: Producer, sequence: U32) {
    d in s.origin && s.origin[d] == Origin(producer, sequence)
  }

  ghost predicate Inv(s: State) {
    && s.taken <= WORD
    && (forall d | d in s.origin :: DrawOf(d) < s.taken)
    && (forall d | d in s.inHand :: d in s.origin && s.origin[d] == s.inHand[d])
    && (forall key | key in s.pending ::
          CausedBy(s, s.pending[key].downstream, s.pending[key].producer, key) && s.pending[key].downstream !in s.inHand)
    && (forall r | r in s.relayed ::
          CausedBy(s, r.downstream, r.producer, r.sequence) && r.downstream !in s.inHand && !Held(s.pending, r.downstream))
    && (forall i, j | 0 <= i < j < |s.relayed| :: s.relayed[i].downstream != s.relayed[j].downstream)
  }

  /** A downstream number is held under one key at most, so the order of the scan does not matter. */
  lemma HeldOnce(s: State, d: U32, a: U32, b: U32)
    requires Inv(s) && HeldAt(s.pending, d, a) && HeldAt(s.pending, d, b)
    ensures a == b
  {
    assert s.origin[d].sequence == a;
    assert s.origin[d].sequence == b;
  }

  lemma ForwardKeeps(s: State, producer: Producer, sequence: U32)
    requires Inv(s) && s.taken < WORD
    ensures Inv(Step(s, Forward(producer, sequence)))
    ensures SequenceOf(s.taken) !in s.origin
  {
    DrawOfSequence(s.taken);
    var d := SequenceOf(s.taken);
    assert d !in s.origin;
  }

  lemma StashKeeps(s: State, d: U32)
    requires Inv(s) && d in s.inHand
    ensures Inv(Step(s, Stash(d)))
  {
    var s' := Step(s, Stash(d));
    forall r | r in s.relayed
      ensures !Held(s'.pending, r.downstream)
    {
      if Held(s'.pending, r.downstream) {
        var key :| HeldAt(s'.pending, r.downstream, key);
        assert HeldAt(s.pending, r.downstream, key);
        assert false;
      }
    }
  }

  lemma ReplyKeeps(s: State, d: U32)
    requires Inv(s)
    ensures Inv(Step(s, Reply(d)))
    ensures !Held(Step(s, Reply(d)).pending, d)
    ensures forall x | x != d :: Held(Step(s, Reply(d)).pending, x) <==> Held(s.pending, x)
  {
    var s' := Step(s, Reply(d));
    if Held(s.pending, d) {
      var key :| HeldAt(s.pending, d, key) && s' == s.(pending := s.pending - {key}, relayed := s'.relayed);
      forall x: U32
        ensures x != d && Held(s.pending, x) ==> Held(s'.pending, x)
        ensures Held(s'.pending, x) ==> x != d && Held(s.pending, x)
      {
        if Held(s'.pending, x) {
          var k :| HeldAt(s'.pending, x, k);
          assert HeldAt(s.pending, x, k);
          if x == d {
            HeldOnce(s, d, k, key);
          }
        }
        if x != d && Held(s.pending, x) {
          var k :| HeldAt(s.pending, x, k);
          assert HeldAt(s'.pending, x, k);
        }
      }
    }
  }

  lemma StepKeeps(s: State, e: Event)
    requires Inv(s) && Enabled(s, e)
    ensures Inv(Step(s, e))
  {
    match e
    case Forward(producer, sequence) => ForwardKeeps(s, producer, sequence);
    case Stash(d) => StashKeeps(s, d);
    case Reply(d) => ReplyKeeps(s, d);
  }

  // ----- whole runs, from the first event on -----

  ghost predicate Legal(es: seq<Event>)
    decreases |es|, 0
  {
    es == [] || (Legal(es[..|es| - 1]) && Enabled(Run(es[..|es| - 1]), es[|es| - 1]))
  }

  ghost function Run(es: seq<Event>): State
    requires Legal(es)
    decreases |es|, 1
  {
    if es == [] then Fresh else Step(Run(es[..|es| - 1]), es[|es| - 1])
  }

  lemma {:induction false} RunKeeps(es: seq<Event>)
    requires Legal(es)
    ensures Inv(Run(es))
    decreases |es|
  {
    if es != [] {
      RunKeeps(es[..|es| - 1]);
      StepKeeps(Run(es[..|es| - 1]), es[|es| - 1]);
    }
  }

  // ----- what the events alone say -----

  function Forwards(es: seq<Event>): nat
    decreases |es|
  {
    if es == [] then 0 else Forwards(es[..|es| - 1]) + if es[|es| - 1].Forward? then 1 else 0
  }

  /** Event `i` forwarded a request under downstream number `d`. */
  predicate ForwardedAt(es: seq<Event>, d: U32, i: nat) {
    i < |es| && es[i].Forward? && SequenceOf(Forwards(es[..i])) == d
  }

  /** The reply `r` belongs to the request that event `i` forwarded. */
  predicate BelongsTo(es: seq<Event>, r: Relay, i: nat) {
    ForwardedAt(es, r.downstream, i) && es[i] == Forward(r.producer, r.sequence)
  }

  lemma {:induction false} ForwardsDrawn(es: seq<Event>)
    requires Legal(es)
    ensures Run(es).taken == Forwards(es)
    decreases |es|
  {
    if es != [] {
      ForwardsDrawn(es[..|es| - 1]);
    }
  }

  /** A downstream number has the producer and the upstream number of the event that drew it, for good. */
  lemma {:induction false} OriginOf(es: seq<Event>, d: U32, i: nat)
    requires Legal(es) && ForwardedAt(es, d, i)
    ensures d in Run(es).origin && Run(es).origin[d] == Origin(es[i].producer, es[i].sequence)
    decreases |es|
  {
    var n := |es| - 1;
    var init, last := es[..n], es[n];
    RunKeeps(init);
    ForwardsDrawn(init);
    if i < n {
      assert init[..i] == es[..i] && ForwardedAt(init, d, i);
      OriginOf(init, d, i);
      if last.Forward? {
        ForwardKeeps(Run(init), last.producer, last.sequence);
      }
    }
  }

  lemma {:induction false} OriginHasEvent(es: seq<Event>, d: U32) returns (i: nat)
    requires Legal(es) && d in Run(es).origin
    ensures ForwardedAt(es, d, i)
    decreases |es|
  {
    var n := |es| - 1;
    ForwardsDrawn(es[..n]);
    if ForwardedAt(es, d, n) {
      i := n;
    } else {
      i := OriginHasEvent(es[..n], d);
      assert es[..n][..i] == es[..i];
    }
  }

  /** Between its forwarding and its stash, and only then, a request is in the hands of its handler. */
  lemma {:induction false} InHandIff(es: seq<Event>, d: U32)
    requires Legal(es)
    ensures d in Run(es).inHand <==> exists i: nat :: ForwardedAt(es, d, i) && Stash(d) !in es[i..]
    decreases |es|
  {
    if es != [] {
      var n := |es| - 1;
      var init, last := es[..n], es[n];
      ForwardsDrawn(init);
      InHandIff(init, d);
      if exists i: nat :: ForwardedAt(es, d, i) && Stash(d) !in es[i..] {
        var i: nat :| ForwardedAt(es, d, i) && Stash(d) !in es[i..];
        if i < n {
          assert init[..i] == es[..i] && es[i..] == init[i..] + [last];
          assert ForwardedAt(init, d, i) && Stash(d) !in init[i..];
        }
      }
      if d in Run(es).inHand {
        if ForwardedAt(es, d, n) {
          assert es[n..] == [last];
        } else {
          var i: nat :| ForwardedAt(init, d, i) && Stash(d) !in init[i..];
          assert init[..i] == es[..i] && es[i..] == init[i..] + [last];
          assert ForwardedAt(es, d, i);
        }
      }
    }
  }

  /**
   * In every run a relayed reply goes to the producer, and under the sequence number, of the `Forward` event
   * that drew its downstream number, and no downstream number is relayed twice.
   */
  lemma NeverMisroutes(es: seq<Event>)
    requires Legal(es)
    ensures var s := Run(es);
            && (forall r | r in s.relayed :: exists i: nat :: BelongsTo(es, r, i))
            && (forall i, j | 0 <= i < |s.relayed| && 0 <= j < |s.relayed| ::
                  s.relayed[i].downstream == s.relayed[j].downstream ==> i == j)
            && (forall a, b | a in s.pending && b in s.pending ::
                  s.pending[a].downstream == s.pending[b].downstream ==> a == b)
  {
    RunKeeps(es);
    var s := Run(es);
    forall r | r in s.relayed
      ensures exists i: nat :: BelongsTo(es, r, i)
    {
      assert CausedBy(s, r.downstream, r.producer, r.sequence);
      var i := OriginHasEvent(es, r.downstream);
      OriginOf(es, r.downstream, i);
      assert BelongsTo(es, r, i);
    }
    forall a, b | a in s.pending && b in s.pending && s.pending[a].downstream == s.pending[b].downstream
      ensures a == b
    {
      HeldOnce(s, s.pending[a].downstream, a, b);
    }
  }

  /** Event `j` stored the entry for `d`: at that point nothing held the same upstream number. */
  ghost predicate StoredAt(es: seq<Event>, d: U32, j: nat) {
    j < |es| && es[j] == Stash(d) && Legal(es[..j]) && Accepts(Run(es[..j]), d)
  }

  ghost predicate StoredSince(es: seq<Event>, d: U32) {
    exists j: nat :: StoredAt(es, d, j) && Reply(d) !in es[j..]
  }

  lemma {:induction false} HeldIffStored(es: seq<Event>, d: U32)
    requires Legal(es)
    ensures Held(Run(es).pending, d) <==> StoredSince(es, d)
    decreases |es|
  {
    if es != [] {
      var n := |es| - 1;
      var init, last := es[..n], es[n];
      RunKeeps(init);
      HeldIffStored(init, d);
      var s, s' := Run(init), Run(es);
      ExtendStored(es, d);
      match last
      case Forward(p, q) => ForwardKeeps(s, p, q);
      case Reply(x) => ReplyKeeps(s, x);
      case Stash(x) => StashHolds(s, x, d);
    }
  }

  /** A stash adds its own downstream number if it is accepted, and changes no other. */
  lemma StashHolds(s: State, x: U32, d: U32)
    requires Inv(s) && x in s.inHand
    ensures Held(Step(s, Stash(x)).pending, d) <==> (if x == d then Accepts(s, d) else Held(s.pending, d))
    ensures !Held(s.pending, x)
  {
    var s' := Step(s, Stash(x));
    if Accepts(s, x) {
      assert HeldAt(s'.pending, x, s.inHand[x].sequence);
    }
    if Held(s'.pending, d) {
      var k :| HeldAt(s'.pending, d, k);
      if x != d { assert HeldAt(s.pending, d, k); }
    }
    if Held(s.pending, d) {
      var k :| HeldAt(s.pending, d, k);
      assert HeldAt(s'.pending, d, k);
    }
  }

  /** One more event does not change what was stored before it. */
  lemma StoredEither(es: seq<Event>, d: U32, j: nat)
    requires j < |es| - 1
    ensures var init, last := es[..|es| - 1], es[|es| - 1];
            (StoredAt(es, d, j) <==> StoredAt(init, d, j)) && es[j..] == init[j..] + [last]
  {
    assert es[..|es| - 1][..j] == es[..j];
  }

  /** What one more event does to `StoredSince`. */
  lemma ExtendStored(es: seq<Event>, d: U32)
    requires es != [] && Legal(es)
    ensures var init, last := es[..|es| - 1], es[|es| - 1];
            StoredSince(es, d) <==>
              last != Reply(d) && (StoredSince(init, d) || (last == Stash(d) && Accepts(Run(init), d)))
  {
    var n := |es| - 1;
    var init, last := es[..n], es[n];
    if StoredSince(es, d) {
      var j: nat :| StoredAt(es, d, j) && Reply(d) !in es[j..];
      ShortenStored(es, d, j);
    }
    if last != Reply(d) && StoredSince(init, d) {
      var j: nat :| StoredAt(init, d, j) && Reply(d) !in init[j..];
      StoredEither(es, d, j);
    }
    if last == Stash(d) && Accepts(Run(init), d) {
      assert StoredAt(es, d, n) && es[n..] == [last];
    }
  }

  lemma ShortenStored(es: seq<Event>, d: U32, j: nat)
    requires es != [] && Legal(es) && StoredAt(es, d, j) && Reply(d) !in es[j..]
    ensures var init, last := es[..|es| - 1], es[|es| - 1];
            last != Reply(d) && (StoredSince(init, d) || (last == Stash(d) && Accepts(Run(init), d)))
  {
    var n := |es| - 1;
    var init := es[..n];
    assert es[j..][n - j] == es[n];
    if j < n {
      StoredEither(es, d, j);
    }
  }

  /**
   * A downstream reply is relayed if and only if its entry was stored before, at a moment when no other
   * entry held the same upstream number, and no earlier reply has used it up; then it goes to the
   * producer and under the upstream number of the `Forward` event that drew it.
   */
  lemma DeliveryLaw(es: seq<Event>, d: U32)
    requires Legal(es + [Reply(d)])
    ensures Legal(es)
    ensures var s, s' := Run(es), Run(es + [Reply(d)]);
            if StoredSince(es, d) then
              exists r: Relay, i: nat :: BelongsTo(es, r, i) && r.downstream == d && s'.relayed == s.relayed + [r]
            else s' == s
  {
    assert (es + [Reply(d)])[..|es|] == es;
    RunKeeps(es);
    HeldIffStored(es, d);
    if StoredSince(es, d) {
      var s := Run(es);
      var key :| HeldAt(s.pending, d, key);
      UniqueHolder(s, d, key);
      var r := Relay(d, s.pending[key].producer, key);
      var i := OriginHasEvent(es, d);
      OriginOf(es, d, i);
      assert BelongsTo(es, r, i);
    }
  }

  // ----- what a whole run relays -----

  predicate RepliedAt(es: seq<Event>, d: U32, i: nat) {
    i < |es| && es[i] == Reply(d)
  }

  ghost predicate StoredThenReplied(es: seq<Event>, d: U32) {
    exists j: nat, i: nat :: StoredAt(es, d, j) && RepliedAt(es, d, i) && j < i
  }

  predicate Relayed(s: State, d: U32) {
    exists r :: r in s.relayed && r.downstream == d
  }

  /** One entry for `d`, to the producer and under the sequence number of the event that drew `d`. */
  ghost predicate RelayedOnce(es: seq<Event>, d: U32)
    requires Legal(es)
  {
    var relayed := Run(es).relayed;
    exists k, i: nat :: 0 <= k < |relayed| && relayed[k].downstream == d && BelongsTo(es, relayed[k], i)
                        && forall m | 0 <= m < |relayed| && m != k :: relayed[m].downstream != d
  }

  lemma ShortenReplied(es: seq<Event>, d: U32, j: nat, i: nat)
    requires Legal(es) && StoredAt(es, d, j) && RepliedAt(es, d, i) && j < i
    ensures var init, last := es[..|es| - 1], es[|es| - 1];
            StoredThenReplied(init, d) || (last == Reply(d) && StoredSince(init, d))
  {
    var init := es[..|es| - 1];
    StoredEither(es, d, j);
    if i < |es| - 1 {
      assert RepliedAt(init, d, i);
    } else if Reply(d) in init[j..] {
      var k :| 0 <= k < |init[j..]| && init[j..][k] == Reply(d);
      assert RepliedAt(init, d, j + k) && k != 0;
    }
  }

  /** What one more event does to `StoredThenReplied`. */
  lemma ExtendReplied(es: seq<Event>, d: U32)
    requires es != [] && Legal(es)
    ensures var init, last := es[..|es| - 1], es[|es| - 1];
            StoredThenReplied(es, d) <==> StoredThenReplied(init, d) || (last == Reply(d) && StoredSince(init, d))
  {
    var init, last := es[..|es| - 1], es[|es| - 1];
    if StoredThenReplied(es, d) {
      var j: nat, i: nat :| StoredAt(es, d, j) && RepliedAt(es, d, i) && j < i;
      ShortenReplied(es, d, j, i);
    }
    if StoredThenReplied(init, d) {
      var j: nat, i: nat :| StoredAt(init, d, j) && RepliedAt(init, d, i) && j < i;
      StoredEither(es, d, j);
      assert RepliedAt(es, d, i);
    }
    if last == Reply(d) && StoredSince(init, d) {
      var j: nat :| StoredAt(init, d, j) && Reply(d) !in init[j..];
      StoredEither(es, d, j);
      assert RepliedAt(es, d, |es| - 1);
    }
  }

  lemma ReplyRelays(s: State, e: Event, d: U32)
    requires Enabled(s, e)
    ensures Relayed(Step(s, e), d) <==> Relayed(s, d) || (e == Reply(d) && Held(s.pending, d))
  {
    var s' := Step(s, e);
    assert s.relayed <= s'.relayed;
    if e.Reply? && Held(s.pending, e.downstream) {
      assert s'.relayed[|s.relayed|].downstream == e.downstream;
      assert forall r :: r in s'.relayed <==> r in s.relayed || r == s'.relayed[|s.relayed|];
    }
  }

  lemma {:induction false} RelayedIffReplied(es: seq<Event>, d: U32)
    requires Legal(es)
    ensures Relayed(Run(es), d) <==> StoredThenReplied(es, d)
    decreases |es|
  {
    if es != [] {
      var init := es[..|es| - 1];
      RelayedIffReplied(init, d);
      ExtendReplied(es, d);
      ReplyRelays(Run(init), es[|es| - 1], d);
      HeldIffStored(init, d);
    }
  }

  /**
   * Over a whole run: once the entry for `d` has been stored and a reply has come after that, `d` has been
   * relayed exactly once, however many replies came, to whom it belongs. Otherwise it has not been relayed.
   */
  lemma RelayLaw(es: seq<Event>, d: U32)
    requires Legal(es)
    ensures if StoredThenReplied(es, d) then RelayedOnce(es, d) else forall r | r in Run(es).relayed :: r.downstream != d
  {
    RelayedIffReplied(es, d);
    NeverMisroutes(es);
    var s := Run(es);
    if Relayed(s, d) {
      var r :| r in s.relayed && r.downstream == d;
      var k :| 0 <= k < |s.relayed| && s.relayed[k] == r;
      var i: nat :| BelongsTo(es, r, i);
      assert BelongsTo(es, s.relayed[k], i);
    }
  }

  /** Every request of the run so far that came under upstream number `sequence` has been answered. */
  ghost predicate Reusable(s: State, sequence: U32) {
    forall d | d in s.origin && s.origin[d].sequence == sequence :: Relayed(s, d)
  }

  /** A sequence number is used again, by whichever producer, only after it has been answered. */
  ghost predicate NoReuse(es: seq<Event>)
    requires Legal(es)
    decreases |es|
  {
    es == [] ||
    (&& NoReuse(es[..|es| - 1])
     && (es[|es| - 1].Forward? ==> Reusable(Run(es[..|es| - 1]), es[|es| - 1].sequence)))
  }

  /** Of two requests under one upstream number, one has been answered. */
  ghost predicate OneOutstanding(s: State) {
    forall d, x | d in s.origin && x in s.origin && d != x && s.origin[d].sequence == s.origin[x].sequence ::
      Relayed(s, d) || Relayed(s, x)
  }

  lemma StepOneOutstanding(s: State, e: Event)
    requires Inv(s) && OneOutstanding(s) && Enabled(s, e) && (e.Forward? ==> Reusable(s, e.sequence))
    ensures OneOutstanding(Step(s, e))
  {
    var s' := Step(s, e);
    forall d | Relayed(s, d)
      ensures Relayed(s', d)
    {
      ReplyRelays(s, e, d);
    }
    if e.Forward? {
      ForwardKeeps(s, e.producer, e.sequence);
    }
  }

  lemma {:induction false} RunOneOutstanding(es: seq<Event>)
    requires Legal(es) && NoReuse(es)
    ensures OneOutstanding(Run(es))
    decreases |es|
  {
    if es != [] {
      RunKeeps(es[..|es| - 1]);
      RunOneOutstanding(es[..|es| - 1]);
      StepOneOutstanding(Run(es[..|es| - 1]), es[|es| - 1]);
    }
  }

  /** Then `emplace` always finds its key free. */
  lemma AlwaysAccepts(s: State, d: U32)
    requires Inv(s) && OneOutstanding(s) && d in s.inHand
    ensures Accepts(s, d)
  {
    var sequence := s.inHand[d].sequence;
    if sequence in s.pending {
      var x := s.pending[sequence].downstream;
      assert HeldAt(s.pending, x, sequence);
    }
  }

  lemma {:induction false} PrefixLegal(es: seq<Event>, j: nat)
    requires Legal(es) && j < |es|
    ensures Legal(es[..j]) && Enabled(Run(es[..j]), es[j])
    ensures NoReuse(es) ==> NoReuse(es[..j])
    decreases |es|
  {
    if j < |es| - 1 {
      assert es[..|es| - 1][..j] == es[..j];
      PrefixLegal(es[..|es| - 1], j);
    }
  }

  /**
   * If no producer uses a sequence number again before it has been answered, each request stashed before a
   * reply to it is answered exactly once.
   */
  lemma EveryStashedReplyRelayed(es: seq<Event>, d: U32, j: nat, i: nat)
    requires Legal(es) && NoReuse(es)
    requires j < i < |es| && es[j] == Stash(d) && es[i] == Reply(d)
    ensures RelayedOnce(es, d)
  {
    PrefixLegal(es, j);
    RunKeeps(es[..j]);
    RunOneOutstanding(es[..j]);
    AlwaysAccepts(Run(es[..j]), d);
    assert StoredAt(es, d, j) && RepliedAt(es, d, i);
    RelayLaw(es, d);
  }

  lemma Append(es: seq<Event>, e: Event)
    requires Legal(es) && Enabled(Run(es), e)
    ensures Legal(es + [e]) && Run(es + [e]) == Step(Run(es), e)
  {
    assert (es + [e])[..|es|] == es;
  }

  /** Two producers use the same sequence number at once: the second one's reply is relayed to nobody. */
  lemma CollisionDropsReply(p: Producer, q: Producer, sequence: U32)
    ensures var es := [] + [Forward(p, sequence)] + [Stash(1)] + [Forward(q, sequence)] + [Stash(2)] + [Reply(2)];
            Legal(es) && CausedBy(Run(es), 2, q, sequence) && Run(es).relayed == [] && Run(es).inHand == map[]
  {
    var e0: seq<Event> := [];
    var e1 := e0 + [Forward(p, sequence)];
    Append(e0, Forward(p, sequence));
    var e2 := e1 + [Stash(1)];
    Append(e1, Stash(1));
    var e3 := e2 + [Forward(q, sequence)];
    Append(e2, Forward(q, sequence));
    var e4 := e3 + [Stash(2)];
    Append(e3, Stash(2));
    assert Run(e4).pending == map[sequence := Pending(1, p)];
    Append(e4, Reply(2));
  }

  /**
   * A reply that overtakes the stash of its request is relayed to nobody, and the entry stashed afterwards
   * keeps later requests under that sequence number from being answered.
   */
  lemma EarlyReplyBlocks(p: Producer, q: Producer, sequence: U32)
    ensures var es := [] + [Forward(p, sequence)] + [Reply(1)] + [Stash(1)] + [Forward(q, sequence)] + [Stash(2)] + [Reply(2)];
            Legal(es) && Run(es).relayed == [] && Run(es).pending == map[sequence := Pending(1, p)] && Run(es).inHand == map[]
  {
    var e0: seq<Event> := [];
    var e1 := e0 + [Forward(p, sequence)];
    Append(e0, Forward(p, sequence));
    var e2 := e1 + [Reply(1)];
    Append(e1, Reply(1));
    var e3 := e2 + [Stash(1)];
    Append(e2, Stash(1));
    assert Run(e3).pending == map[sequence := Pending(1, p)];
    var e4 := e3 + [Forward(q, sequence)];
    Append(e3, Forward(q, sequence));
    var e5 := e4 + [Stash(2)];
    Append(e4, Stash(2));
    Append(e5, Reply(2));
  }

  /** The shared map of the gateway, and what its handlers do to it. */
  class PendingMap {
    var taken: nat
    var inHand: map<U32, Origin>
    var pending: map<U32, Pending>
    ghost var origin: map<U32, Origin>
    var relayed: seq<Relay>

    ghost function Abstract(): State
      reads this
    {
      State(taken, inHand, pending, origin, relayed)
    }

    constructor ()
      ensures Abstract() == Fresh
    {
      taken, inHand, pending, origin, relayed := 0, map[], map[], map[], [];
    }

    /** The upstream handler for packet 0x02, up to the lock. */
    method ForwardRequest(producer: Producer, sequence: U32) returns (downstream: U32)
      requires Inv(Abstract()) && taken < WORD
      modifies this
      ensures Inv(Abstract()) && Abstract() == Step(old(Abstract()), Forward(producer, sequence))
      ensures downstream == SequenceOf(old(taken)) && downstream in inHand
    {
      ForwardKeeps(Abstract(), producer, sequence);
      downstream := SequenceOf(taken);
      taken := taken + 1;
      inHand := inHand[downstream := Origin(producer, sequence)];
      origin := origin[downstream := Origin(producer, sequence)];
    }

    /** The upstream handler's locked block. */
    method StashRequest(downstream: U32)
      requires Inv(Abstract()) && downstream in inHand
      modifies this
      ensures Inv(Abstract()) && Abstract() == Step(old(Abstract()), Stash(downstream))
    {
      StashKeeps(Abstract(), downstream);
      var o := inHand[downstream];
      inHand := inHand - {downstream};
      if o.sequence !in pending {
        pending := pending[o.sequence := Pending(downstream, o.producer)];
      }
    }

    /** The downstream handler: a scan in whatever order the hash map has, up to the first match. */
    method OnDownstreamReply(downstream: U32) returns (found: bool)
      requires Inv(Abstract())
      modifies this
      ensures Inv(Abstract()) && Abstract() == Step(old(Abstract()), Reply(downstream))
      ensures found <==> Held(old(pending), downstream)
    {
      ReplyKeeps(Abstract(), downstream);
      var rest := pending.Keys;
      found := false;
      while rest != {} && !found
        invariant !found ==> Abstract() == old(Abstract()) && rest <= pending.Keys
        invariant !found ==> forall key :: HeldAt(pending, downstream, key) ==> key in rest
        invariant found ==> Held(old(pending), downstream) && Abstract() == Step(old(Abstract()), Reply(downstream))
        decreases rest, !found
      {
        var key :| key in rest;
        rest := rest - {key};
        if pending[key].downstream == downstream {
          assert HeldAt(pending, downstream, key);
          UniqueHolder(Abstract(), downstream, key);
          relayed := relayed + [Relay(downstream, pending[key].producer, key)];
          pending := pending - {key};
          found := true;
        }
      }
    }
  }

  /** Whatever key the scan meets first, the step is the same. */
  lemma UniqueHolder(s: State, d: U32, key: U32)
    requires Inv(s) && HeldAt(s.pending, d, key)
    ensures Step(s, Reply(d)) ==
            s.(pending := s.pending - {key}, relayed := s.relayed + [Relay(d, s.pending[key].producer, key)])
  {
    var k :| HeldAt(s.pending, d, k)
             && Step(s, Reply(d)) == s.(pending := s.pending - {k}, relayed := s.relayed + [Relay(d, s.pending[k].producer, k)]);
    HeldOnce(s, d, k, key);
  }
}
