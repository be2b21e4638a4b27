/** Response timeouts in turbonet_client.cpp: a map, a priority queue with lazy deletion, one sweep timer. */
module ResponseIndex {
  import opened Bytes
  import opened Expiry

  const DAY: int := 24 * 60 * 60 * 1000

  datatype Entry = Entry(sequence: U32, expiry: int)

  /**
   * A call of the timeout handler at time `at`. `own` is the number of the request among all started, and
   * `sendsBefore` how many had re-armed the timer by then.
   */
  datatype Fired = Fired(sequence: U32, expiry: int, at: int, own: nat, sendsBefore: nat)

  // ----- the reference: a plain scan of the deadlines -----

  /** `expired` lists each live request whose deadline has come once, earliest deadline first. */
  ghost predicate IsScan(live: map<U32, int>, now: int, expired: seq<U32>) {
    && (forall i, j | 0 <= i < j < |expired| :: expired[i] != expired[j])
    && (forall s :: s in expired <==> s in live && live[s] <= now)
    && (forall i, j | 0 <= i < j < |expired| :: live[expired[i]] <= live[expired[j]])
  }

  function ScanLeft(live: map<U32, int>, now: int): map<U32, int> {
    map s | s in live && live[s] > now :: live[s]
  }

  // ----- the queue -----

  /** The entries that a sweep leaves in the queue. */
  function Later(queue: seq<Entry>, now: int): seq<Entry> {
    if queue == [] then []
    else (if queue[0].expiry > now then [queue[0]] else []) + Later(queue[1..], now)
  }

  /** Entry `i` may be on top; with equal deadlines the heap may put any of them there. */
  predicate IsTop(queue: seq<Entry>, i: nat) {
    i < |queue| && forall e | e in queue :: queue[i].expiry <= e.expiry
  }

  function Remove(queue: seq<Entry>, i: nat): seq<Entry>
    requires i < |queue|
  {
    queue[..i] + queue[i + 1..]
  }

  /** Every live request has its entry; a cancelled one may still have one. */
  ghost predicate Indexes(queue: seq<Entry>, live: map<U32, int>) {
    && (forall i, j | 0 <= i < j < |queue| :: queue[i].sequence != queue[j].sequence)
    && (forall s | s in live :: Entry(s, live[s]) in queue)
  }

  lemma {:induction false} TopExists(queue: seq<Entry>) returns (i: nat)
    requires queue != []
    ensures IsTop(queue, i)
    decreases |queue|
  {
    i := 0;
    if |queue| > 1 {
      var k := TopExists(queue[1..]);
      i := if queue[0].expiry <= queue[k + 1].expiry then 0 else k + 1;
      forall e | e in queue
        ensures queue[i].expiry <= e.expiry
      {
        assert e == queue[0] || e in queue[1..];
      }
    }
  }

  lemma {:induction false} LaterMembers(queue: seq<Entry>, now: int)
    ensures forall e :: e in Later(queue, now) <==> e in queue && e.expiry > now
    ensures |Later(queue, now)| <= |queue|
    decreases |queue|
  {
    if queue != [] {
      LaterMembers(queue[1..], now);
    }
  }

  lemma {:induction false} LaterAppend(a: seq<Entry>, b: seq<Entry>, now: int)
    ensures Later(a + b, now) == Later(a, now) + Later(b, now)
    decreases |a|
  {
    if a == [] {
      assert a + b == b;
    } else {
      assert (a + b)[1..] == a[1..] + b;
      LaterAppend(a[1..], b, now);
    }
  }

  lemma LaterRemove(queue: seq<Entry>, i: nat, now: int)
    requires i < |queue| && queue[i].expiry <= now
    ensures Later(Remove(queue, i), now) == Later(queue, now)
  {
    var a, x, b := queue[..i], [queue[i]], queue[i + 1..];
    assert queue == a + (x + b);
    LaterAppend(a, x + b, now);
    LaterAppend(x, b, now);
    LaterAppend(a, b, now);
    assert Later(x, now) == [];
  }

  lemma {:induction false} LaterAll(queue: seq<Entry>, now: int)
    requires forall e | e in queue :: e.expiry > now
    ensures Later(queue, now) == queue
    decreases |queue|
  {
    if queue != [] {
      assert queue[0] in queue;
      LaterAll(queue[1..], now);
    }
  }

  lemma {:induction false} LaterNone(queue: seq<Entry>, now: int)
    requires forall e | e in queue :: e.expiry <= now
    ensures Later(queue, now) == []
    decreases |queue|
  {
    if queue != [] {
      assert queue[0] in queue;
      LaterNone(queue[1..], now);
    }
  }

  /** Popping entry `i`, and erasing its request if live, keeps every other live request indexed. */
  lemma PopIndexes(queue: seq<Entry>, live: map<U32, int>, i: nat)
    requires Indexes(queue, live) && i < |queue|
    ensures Indexes(Remove(queue, i), live - {queue[i].sequence})
    ensures queue[i].sequence in live ==> live[queue[i].sequence] == queue[i].expiry
  {
    var rest := Remove(queue, i);
    forall s | s in live
      ensures s == queue[i].sequence ==> live[s] == queue[i].expiry
      ensures s != queue[i].sequence ==> Entry(s, live[s]) in rest
    {
      var k :| 0 <= k < |queue| && queue[k] == Entry(s, live[s]);
      if k < i {
        assert rest[k] == queue[k];
      } else if k > i {
        assert rest[k - 1] == queue[k];
      }
    }
  }

  lemma PushIndexes(queue: seq<Entry>, live: map<U32, int>, s: U32, expiry: int)
    requires Indexes(queue, live) && forall e | e in queue :: e.sequence != s
    ensures Indexes(queue + [Entry(s, expiry)], live[s := expiry])
  {
  }

  lemma LaterIndexes(queue: seq<Entry>, live: map<U32, int>, now: int)
    requires Indexes(queue, live)
    ensures Indexes(Later(queue, now), ScanLeft(live, now))
  {
    LaterMembers(queue, now);
    LaterDistinct(queue, now);
  }

  lemma {:induction false} LaterDistinct(queue: seq<Entry>, now: int)
    requires forall i, j | 0 <= i < j < |queue| :: queue[i].sequence != queue[j].sequence
    ensures var r := Later(queue, now); forall i, j | 0 <= i < j < |r| :: r[i].sequence != r[j].sequence
    decreases |queue|
  {
    if queue != [] {
      var rest := Later(queue[1..], now);
      LaterDistinct(queue[1..], now);
      LaterMembers(queue[1..], now);
      assert forall e | e in rest :: e.sequence != queue[0].sequence;
      assert forall k | 0 <= k < |rest| :: rest[k] in rest;
    }
  }

  /** How far a sweep has come: `expired` have left the map, in order of their deadlines. */
  ghost predicate Popped(live: map<U32, int>, left: map<U32, int>, now: int, expired: seq<U32>) {
    && (forall s | s in left :: s in live && left[s] == live[s])
    && (forall s | s in expired :: s in live && s !in left && live[s] <= now)
    && (forall s | s in live :: s in left || s in expired)
    && (forall i, j | 0 <= i < j < |expired| :: expired[i] != expired[j])
    && (forall i, j | 0 <= i < j < |expired| :: live[expired[i]] <= live[expired[j]])
  }

  lemma PopMore(live: map<U32, int>, left: map<U32, int>, now: int, expired: seq<U32>, s: U32)
    requires Popped(live, left, now, expired)
    requires s in left && left[s] <= now && forall q | q in expired :: live[q] <= left[s]
    ensures Popped(live, left - {s}, now, expired + [s])
  {
    var more := expired + [s];
    assert forall q :: q in more <==> q in expired || q == s;
    assert forall i | 0 <= i < |expired| :: expired[i] in expired;
  }

  /** With nothing due left in the queue, what was popped is what the scan selects. */
  lemma PoppedIsScan(queue: seq<Entry>, live: map<U32, int>, left: map<U32, int>, now: int, expired: seq<U32>)
    requires Popped(live, left, now, expired) && Indexes(queue, left)
    requires forall e | e in queue :: e.expiry > now
    ensures IsScan(live, now, expired) && left == ScanLeft(live, now)
  {
    assert forall s | s in left :: Entry(s, left[s]) in queue;
  }

  // ----- the client's runs -----

  /**
   * Where the sweep handler is: not running, calling the timeout handlers with the mutex released, or
   * between its locked look at the queue and the setting of the timer.
   */
  datatype Phase = Idle | Firing | Setting(next: int, sawEmpty: bool)

  /**
   * `arming`: calls of `startResponseTimer` that have left the locked block and not yet set the timer.
   * `sends` records when requests were started, `ownSend` which of those each sequence number is.
   */
  datatype Client = Client(timeout: int, clock: int, taken: nat, live: map<U32, int>, queue: seq<Entry>,
                           timer: Timer, arming: nat, phase: Phase, sweptAt: int,
                           fired: seq<Fired>, sends: seq<int>, ownSend: map<U32, nat>)

  datatype Event =
    | Advance(now: int)
    | Push                      // sendRequest up to the end of the locked block
    | Arm                       // the rest of startResponseTimer
    | Cancel(sequence: U32)
    | Sweep(expired: seq<U32>)  // the sweep up to the end of its first locked block, and the handler calls
    | ReadTop(top: int)         // its second locked block
    | SetTimer                  // the rest of the sweep

  /**
   * Fewer than 2^32 requests are started; the sweep handler runs once its timer has expired; no time passes
   * inside `startResponseTimer`, whose two clock readings are taken to agree.
   */
  ghost predicate Enabled(c: Client, e: Event) {
    match e
    case Advance(now) => c.clock <= now && c.arming == 0
    case Push => c.taken < WORD
    case Arm => c.arming > 0
    case Cancel(_) => true
    case Sweep(expired) =>
      && c.timer.Armed? && c.timer.at <= c.clock && c.phase == Idle
      && IsScan(c.live, c.clock, expired) && c.arming <= |c.sends| && c.live.Keys <= c.ownSend.Keys
    case ReadTop(top) =>
      c.phase == Firing && (c.queue != [] ==> exists i: nat :: IsTop(c.queue, i) && c.queue[i].expiry == top)
    case SetTimer => c.phase.Setting?
  }

  function FireAll(expired: seq<U32>, c: Client): (r: seq<Fired>)
    requires c.arming <= |c.sends| && forall s | s in expired :: s in c.live && s in c.ownSend
    ensures |r| == |expired|
  {
    seq(|expired|, i requires 0 <= i < |expired| =>
          Fired(expired[i], c.live[expired[i]], c.clock, c.ownSend[expired[i]], |c.sends| - c.arming))
  }

  function Step(c: Client, e: Event): Client
    requires Enabled(c, e)
  {
    match e
    case Advance(now) => c.(clock := now)
    case Push =>
      var s, expiry := SequenceOf(c.taken), c.clock + c.timeout;
      if c.timeout <= 0 then c.(taken := c.taken + 1)
      else
        c.(taken := c.taken + 1, live := c.live[s := expiry], queue := c.queue + [Entry(s, expiry)],
           arming := c.arming + 1, sends := c.sends + [c.clock], ownSend := c.ownSend[s := |c.sends|])
    case Arm => c.(arming := c.arming - 1, timer := Armed(c.clock + c.timeout))
    case Cancel(s) => c.(live := c.live - {s})
    case Sweep(expired) =>
      c.(live := ScanLeft(c.live, c.clock), queue := Later(c.queue, c.clock), timer := Unarmed, phase := Firing,
         sweptAt := c.clock, fired := c.fired + FireAll(expired, c))
    case ReadTop(top) =>
      c.(phase := if c.queue == [] then Setting(c.sweptAt + DAY, true) else Setting(top, false))
    case SetTimer => c.(phase := Idle, timer := Armed(c.phase.next))
  }

  function Fresh(timeout: int, now: int): Client {
    Client(timeout, now, 0, map[], [], Unarmed, 0, Idle, now, [], [], map[])
  }

  predicate Drawn(c: Client, s: U32) {
    DrawOf(s) < c.taken
  }

  ghost predicate FiredOnce(c: Client) {
    && (forall i, j | 0 <= i < j < |c.fired| :: c.fired[i].sequence != c.fired[j].sequence)
    && (forall f, e | f in c.fired && e in c.queue :: f.sequence != e.sequence)
  }

  /** Some queued entry is due at `at`. */
  predicate EntryAt(queue: seq<Entry>, at: int) {
    exists e :: e in queue && e.expiry == at
  }

  /** The expiry of request `s` is one timeout after its own start. */
  predicate SentAt(c: Client, s: U32, expiry: int) {
    s in c.ownSend && c.ownSend[s] < |c.sends| && expiry == c.sends[c.ownSend[s]] + c.timeout
  }

  ghost predicate Inv(c: Client) {
    && c.taken <= WORD
    && Indexes(c.queue, c.live)
    && (forall e | e in c.queue :: Drawn(c, e.sequence) && SentAt(c, e.sequence, e.expiry))
    && (forall f | f in c.fired :: Drawn(c, f.sequence) && f.expiry <= f.at)
    && FiredOnce(c)
    && c.arming <= |c.sends|
    && (c.queue != [] ==> c.timeout > 0)
    && (c.arming > 0 ==> EntryAt(c.queue, c.clock + c.timeout))
    && (c.phase.Setting? ==> if c.phase.sawEmpty then c.phase.next == c.sweptAt + DAY else EntryAt(c.queue, c.phase.next))
  }

  lemma LiveWasSent(c: Client)
    requires Inv(c)
    ensures c.live.Keys <= c.ownSend.Keys
  {
    forall s | s in c.live
      ensures s in c.ownSend
    {
      assert Entry(s, c.live[s]) in c.queue;
    }
  }

  lemma PushKeeps(c: Client)
    requires Inv(c) && c.taken < WORD
    ensures Inv(Step(c, Push))
  {
    DrawOfSequence(c.taken);
    var s, expiry := SequenceOf(c.taken), c.clock + c.timeout;
    var c' := Step(c, Push);
    if c.timeout > 0 {
      PushIndexes(c.queue, c.live, s, expiry);
      assert Entry(s, expiry) in c'.queue;
      assert forall e | e in c'.queue :: e in c.queue || e == Entry(s, expiry);
      assert forall e | e in c.queue :: e in c'.queue && e.sequence != s;
    }
  }

  /** What a sweep fires was queued and due. */
  lemma FiredWasQueued(c: Client, expired: seq<U32>, i: nat)
    requires Inv(c) && Enabled(c, Sweep(expired)) && i < |expired|
    ensures var f := FireAll(expired, c)[i]; Entry(f.sequence, f.expiry) in c.queue && f.expiry <= f.at == c.clock
  {
    assert expired[i] in expired;
  }

  lemma SweepFires(c: Client, expired: seq<U32>)
    requires Inv(c) && Enabled(c, Sweep(expired))
    ensures forall f | f in FireAll(expired, c) :: Entry(f.sequence, f.expiry) in c.queue && f.expiry <= f.at == c.clock
    ensures FiredOnce(Step(c, Sweep(expired)))
  {
    var more := FireAll(expired, c);
    forall i | 0 <= i < |expired|
      ensures Entry(more[i].sequence, more[i].expiry) in c.queue && more[i].expiry <= more[i].at == c.clock
    {
      FiredWasQueued(c, expired, i);
    }
    LaterMembers(c.queue, c.clock);
    OnceMore(c.fired, more, c.queue, Later(c.queue, c.clock));
  }

  /** Firing queued entries that leave the queue keeps the firings distinct from each other and from the queue. */
  lemma OnceMore(fired: seq<Fired>, more: seq<Fired>, queue: seq<Entry>, left: seq<Entry>)
    requires forall i, j | 0 <= i < j < |fired| :: fired[i].sequence != fired[j].sequence
    requires forall i, j | 0 <= i < j < |more| :: more[i].sequence != more[j].sequence
    requires forall i, j | 0 <= i < j < |queue| :: queue[i].sequence != queue[j].sequence
    requires forall f, e | f in fired && e in queue :: f.sequence != e.sequence
    requires forall f | f in more :: Entry(f.sequence, f.expiry) in queue && Entry(f.sequence, f.expiry) !in left
    requires forall e | e in left :: e in queue
    ensures forall i, j | 0 <= i < j < |fired + more| :: (fired + more)[i].sequence != (fired + more)[j].sequence
    ensures forall f, e | f in fired + more && e in left :: f.sequence != e.sequence
  {
    forall f, g | f in fired && g in more
      ensures f.sequence != g.sequence
    {
      assert Entry(g.sequence, g.expiry) in queue;
    }
    forall f, e | f in more && e in left
      ensures f.sequence != e.sequence
    {
      assert Entry(f.sequence, f.expiry) in queue && e in queue;
    }
  }

  lemma SweepKeeps(c: Client, expired: seq<U32>)
    requires Inv(c) && Enabled(c, Sweep(expired))
    ensures Inv(Step(c, Sweep(expired)))
  {
    SweepFires(c, expired);
    LaterMembers(c.queue, c.clock);
    LaterIndexes(c.queue, c.live, c.clock);
    if c.arming > 0 {
      var e :| e in c.queue && e.expiry == c.clock + c.timeout;
      assert e in Later(c.queue, c.clock);
    }
  }

  lemma StepKeeps(c: Client, e: Event)
    requires Inv(c) && Enabled(c, e)
    ensures Inv(Step(c, e))
  {
    match e
    case Advance(_) =>
    case Push => PushKeeps(c);
    case Arm =>
    case Cancel(s) =>
    case Sweep(expired) => SweepKeeps(c, expired);
    case ReadTop(top) =>
      if c.queue != [] {
        var i: nat :| IsTop(c.queue, i) && c.queue[i].expiry == top;
        assert c.queue[i] in c.queue;
      }
    case SetTimer =>
  }

  ghost predicate Legal(c: Client, es: seq<Event>)
    decreases |es|
  {
    es == [] || (Enabled(c, es[0]) && Legal(Step(c, es[0]), es[1..]))
  }

  ghost function Run(c: Client, es: seq<Event>): Client
    requires Legal(c, es)
    decreases |es|
  {
    if es == [] then c else Run(Step(c, es[0]), es[1..])
  }

  lemma {:induction false} RunKeeps(c: Client, es: seq<Event>)
    requires Inv(c) && Legal(c, es)
    ensures Inv(Run(c, es))
    decreases |es|
  {
    if es != [] {
      StepKeeps(c, es[0]);
      RunKeeps(Step(c, es[0]), es[1..]);
    }
  }

  // ----- the order of the firings -----

  /** Firings come by nondecreasing deadline, and nothing queued is due before what was fired. */
  ghost predicate InDeadlineOrder(c: Client) {
    && (forall i, j | 0 <= i < j < |c.fired| :: c.fired[i].expiry <= c.fired[j].expiry)
    && (forall f, e | f in c.fired && e in c.queue :: f.expiry <= e.expiry)
    && (forall f | f in c.fired :: f.expiry <= c.clock)
  }

  lemma SweepInOrder(c: Client, expired: seq<U32>)
    requires Inv(c) && InDeadlineOrder(c) && Enabled(c, Sweep(expired))
    ensures InDeadlineOrder(Step(c, Sweep(expired)))
  {
    var more := FireAll(expired, c);
    SweepFires(c, expired);
    LaterMembers(c.queue, c.clock);
    forall i, j | 0 <= i < |c.fired| && 0 <= j < |more|
      ensures c.fired[i].expiry <= more[j].expiry
    {
      assert c.fired[i] in c.fired && more[j] in more;
    }
  }

  lemma StepInOrder(c: Client, e: Event)
    requires Inv(c) && InDeadlineOrder(c) && Enabled(c, e)
    ensures InDeadlineOrder(Step(c, e))
  {
    if e.Sweep? {
      SweepInOrder(c, e.expired);
    }
  }

  /** No deadline is more than a timeout away, and the handler is about to set the timer to the earliest. */
  ghost predicate TowardsEarliest(c: Client) {
    && (forall e | e in c.queue :: e.expiry <= c.clock + c.timeout)
    && (c.phase.Setting? && !c.phase.sawEmpty ==> forall e | e in c.queue :: c.phase.next <= e.expiry)
  }

  lemma StepTowardsEarliest(c: Client, e: Event)
    requires Inv(c) && TowardsEarliest(c) && Enabled(c, e)
    ensures TowardsEarliest(Step(c, e))
  {
    match e
    case Sweep(_) => LaterMembers(c.queue, c.clock);
    case Push =>
      if c.phase.Setting? && !c.phase.sawEmpty {
        var x :| x in c.queue && x.expiry == c.phase.next;
      }
    case ReadTop(top) =>
      if c.queue != [] {
        var i: nat :| IsTop(c.queue, i) && c.queue[i].expiry == top;
      }
    case _ =>
  }

  lemma {:induction false} RunTowardsEarliest(c: Client, es: seq<Event>)
    requires Inv(c) && TowardsEarliest(c) && Legal(c, es)
    ensures TowardsEarliest(Run(c, es))
    decreases |es|
  {
    if es != [] {
      StepKeeps(c, es[0]);
      StepTowardsEarliest(c, es[0]);
      RunTowardsEarliest(Step(c, es[0]), es[1..]);
    }
  }

  /**
   * In every run a sweep that found the queue nonempty leaves the timer at the earliest deadline queued, also
   * if requests got in before it set the timer; one that found it empty, a day after it began.
   */
  lemma ResetToEarliest(timeout: int, now: int, es: seq<Event>)
    requires Legal(Fresh(timeout, now), es) && Enabled(Run(Fresh(timeout, now), es), SetTimer)
    ensures var c := Run(Fresh(timeout, now), es);
            var d := Step(c, SetTimer);
            if c.phase.sawEmpty then d.timer == Armed(c.sweptAt + 86_400_000)
            else && d.timer.Armed? && EntryAt(d.queue, d.timer.at)
                 && forall e | e in d.queue :: d.timer.at <= e.expiry
  {
    RunKeeps(Fresh(timeout, now), es);
    RunTowardsEarliest(Fresh(timeout, now), es);
  }

  lemma {:induction false} RunInOrder(c: Client, es: seq<Event>)
    requires Inv(c) && InDeadlineOrder(c) && Legal(c, es)
    ensures InDeadlineOrder(Run(c, es))
    decreases |es|
  {
    if es != [] {
      StepKeeps(c, es[0]);
      StepInOrder(c, es[0]);
      RunInOrder(Step(c, es[0]), es[1..]);
    }
  }

  /**
   * In every run, however late the ticks: every live request is queued, no handler is called before the
   * deadline of its request, none is called twice for a request, and they are called by nondecreasing
   * deadline, within one sweep and from one sweep to the next.
   */
  lemma SweepSafety(timeout: int, now: int, es: seq<Event>)
    requires Legal(Fresh(timeout, now), es)
    ensures var c := Run(Fresh(timeout, now), es);
            && (forall s | s in c.live :: Entry(s, c.live[s]) in c.queue)
            && (forall f | f in c.fired :: f.expiry <= f.at)
            && (forall i, j | 0 <= i < j < |c.fired| :: c.fired[i].sequence != c.fired[j].sequence)
            && (forall i, j | 0 <= i < j < |c.fired| :: c.fired[i].expiry <= c.fired[j].expiry)
  {
    RunKeeps(Fresh(timeout, now), es);
    RunInOrder(Fresh(timeout, now), es);
  }

  // ----- what the events alone say -----

  lemma {:induction false} RunSnoc(c: Client, es: seq<Event>)
    requires Legal(c, es) && es != []
    ensures var init, last := es[..|es| - 1], es[|es| - 1];
            Legal(c, init) && Enabled(Run(c, init), last) && Run(c, es) == Step(Run(c, init), last)
    decreases |es|
  {
    var init := es[..|es| - 1];
    if |es| > 1 {
      RunSnoc(Step(c, es[0]), es[1..]);
      assert es[1..][..|es| - 2] == init[1..];
    }
  }

  lemma {:induction false} PrefixLegal(c: Client, es: seq<Event>, k: nat)
    requires Legal(c, es) && k < |es|
    ensures Legal(c, es[..k]) && Enabled(Run(c, es[..k]), es[k])
    ensures Legal(c, es[..k + 1]) && Run(c, es[..k + 1]) == Step(Run(c, es[..k]), es[k])
    decreases |es|
  {
    RunSnoc(c, es);
    if k == |es| - 1 {
      assert es[..k + 1] == es;
    } else {
      PrefixLegal(c, es[..|es| - 1], k);
      assert es[..|es| - 1][..k] == es[..k] && es[..|es| - 1][..k + 1] == es[..k + 1];
    }
  }

  /** The time of the last `Advance`. */
  function ClockOf(now: int, es: seq<Event>): int
    decreases |es|
  {
    if es == [] then now
    else if es[|es| - 1].Advance? then es[|es| - 1].now
    else ClockOf(now, es[..|es| - 1])
  }

  function Count(es: seq<Event>, e: Event): nat
    decreases |es|
  {
    if es == [] then 0 else Count(es[..|es| - 1], e) + if es[|es| - 1] == e then 1 else 0
  }

  /** Event `j` started request `s`. */
  predicate PushedAt(es: seq<Event>, s: U32, j: nat) {
    j < |es| && es[j] == Push && SequenceOf(Count(es[..j], Push)) == s
  }

  predicate OpenFrom(es: seq<Event>, s: U32, j: nat) {
    forall k | j <= k < |es| :: es[k] != Cancel(s) && !(es[k].Sweep? && s in es[k].expired)
  }

  lemma {:induction false} CountLaw(timeout: int, now: int, es: seq<Event>)
    requires Legal(Fresh(timeout, now), es)
    ensures var c := Run(Fresh(timeout, now), es);
            && c.clock == ClockOf(now, es) && c.timeout == timeout && c.taken == Count(es, Push)
            && |c.sends| == (if timeout > 0 then Count(es, Push) else 0)
            && |c.sends| - c.arming == Count(es, Arm)
    decreases |es|
  {
    if es != [] {
      RunSnoc(Fresh(timeout, now), es);
      CountLaw(timeout, now, es[..|es| - 1]);
    }
  }

  /** A number drawn later is another one. */
  lemma {:induction false} DrawnBefore(timeout: int, now: int, es: seq<Event>, s: U32, j: nat)
    requires Legal(Fresh(timeout, now), es) && PushedAt(es, s, j)
    ensures DrawOf(s) < Count(es, Push) <= WORD
    decreases |es|
  {
    var n := |es| - 1;
    var init := es[..n];
    RunSnoc(Fresh(timeout, now), es);
    CountLaw(timeout, now, init);
    if j == n {
      DrawOfSequence(Count(init, Push));
    } else {
      assert init[..j] == es[..j] && PushedAt(init, s, j);
      DrawnBefore(timeout, now, init, s, j);
    }
  }

  /** A request started by event `j` and not removed since is live, with the times of that event. */
  lemma {:induction false} OpenIsLive(timeout: int, now: int, es: seq<Event>, s: U32, j: nat)
    requires timeout > 0 && Legal(Fresh(timeout, now), es) && PushedAt(es, s, j) && OpenFrom(es, s, j)
    ensures var c := Run(Fresh(timeout, now), es);
            && s in c.live && c.live[s] == ClockOf(now, es[..j]) + timeout
            && s in c.ownSend && c.ownSend[s] == Count(es[..j], Push) < |c.sends|
            && c.sends[c.ownSend[s]] == ClockOf(now, es[..j])
    decreases |es|
  {
    var n := |es| - 1;
    var init := es[..n];
    RunSnoc(Fresh(timeout, now), es);
    CountLaw(timeout, now, init);
    if j < n {
      assert init[..j] == es[..j];
      assert PushedAt(init, s, j) && OpenFrom(init, s, j);
      OpenIsLive(timeout, now, init, s, j);
      DrawnBefore(timeout, now, init, s, j);
      if es[n] == Push {
        DrawOfSequence(Count(init, Push));
      }
    }
  }

  lemma {:induction false} LiveIsOpen(timeout: int, now: int, es: seq<Event>, s: U32) returns (j: nat)
    requires Legal(Fresh(timeout, now), es) && s in Run(Fresh(timeout, now), es).live
    ensures timeout > 0 && PushedAt(es, s, j) && OpenFrom(es, s, j)
    decreases |es|
  {
    var n := |es| - 1;
    var init := es[..n];
    RunSnoc(Fresh(timeout, now), es);
    CountLaw(timeout, now, init);
    if PushedAt(es, s, n) && timeout > 0 {
      j := n;
    } else {
      j := LiveIsOpen(timeout, now, init, s);
      assert init[..j] == es[..j];
    }
  }

  /**
   * In every run a request is live if and only if some event started it, with timeouts on, and neither a
   * cancel nor a sweep that fires it came since; and it is due one timeout after that event.
   */
  lemma LiveIffStarted(timeout: int, now: int, es: seq<Event>, s: U32)
    requires Legal(Fresh(timeout, now), es)
    ensures var c := Run(Fresh(timeout, now), es);
            && (s in c.live <==> timeout > 0 && exists j: nat :: PushedAt(es, s, j) && OpenFrom(es, s, j))
            && (forall j: nat | timeout > 0 && PushedAt(es, s, j) && OpenFrom(es, s, j) ::
                  s in c.live && c.live[s] == ClockOf(now, es[..j]) + timeout)
  {
    if s in Run(Fresh(timeout, now), es).live {
      var j := LiveIsOpen(timeout, now, es, s);
    }
    forall j: nat | timeout > 0 && PushedAt(es, s, j) && OpenFrom(es, s, j)
      ensures s in Run(Fresh(timeout, now), es).live
      ensures Run(Fresh(timeout, now), es).live[s] == ClockOf(now, es[..j]) + timeout
    {
      OpenIsLive(timeout, now, es, s, j);
    }
  }

  /** The numbers that the sweeps fire, in order. */
  function Swept(es: seq<Event>): seq<U32>
    decreases |es|
  {
    if es == [] then [] else Swept(es[..|es| - 1]) + if es[|es| - 1].Sweep? then es[|es| - 1].expired else []
  }

  lemma {:induction false} FiredCount(c: Client, es: seq<Event>, k: nat)
    requires c.fired == [] && Legal(c, es) && k <= |es|
    ensures |Run(c, es).fired| == |Swept(es)|
    ensures Legal(c, es[..k]) && Run(c, es[..k]).fired <= Run(c, es).fired
    decreases |es|
  {
    if k == |es| {
      assert es[..k] == es;
    }
    if es != [] {
      RunSnoc(c, es);
      var init := es[..|es| - 1];
      FiredCount(c, init, if k < |es| then k else 0);
      assert k < |es| ==> init[..k] == es[..k];
    }
  }

  /**
   * The handler calls are those of the sweeps, in order and nothing else: call i of the sweep at event `k` is
   * for request number i of that sweep, which event `j` started, and carries when it was due, when it was
   * fired, how many requests were started before it and how many had set the timer by then.
   */
  lemma FiredLaw(timeout: int, now: int, es: seq<Event>, k: nat, i: nat, j: nat)
    requires timeout > 0 && Legal(Fresh(timeout, now), es) && k < |es| && es[k].Sweep? && i < |es[k].expired|
    requires PushedAt(es[..k], es[k].expired[i], j) && OpenFrom(es[..k], es[k].expired[i], j)
    ensures var at := |Swept(es[..k])| + i;
            var fired := Run(Fresh(timeout, now), es).fired;
            && at < |fired| == |Swept(es)|
            && fired[at] == Fired(es[k].expired[i], ClockOf(now, es[..j]) + timeout, ClockOf(now, es[..k]),
                                  Count(es[..j], Push), Count(es[..k], Arm))
  {
    var start, before := Fresh(timeout, now), es[..k];
    PrefixLegal(start, es, k);
    FiredCount(start, es, k + 1);
    FiredCount(start, before, 0);
    CountLaw(timeout, now, before);
    OpenIsLive(timeout, now, before, es[k].expired[i], j);
    assert before[..j] == es[..j];
    var c := Run(start, before);
    assert Step(c, es[k]).fired[|c.fired| + i] == FireAll(es[k].expired, c)[i];
  }

  // ----- where the timer stands -----

  /** With no handler and no caller half way, the timer stands at the deadline of some queued entry. */
  predicate ArmedAtEntry(c: Client) {
    c.queue != [] && c.phase == Idle && c.arming == 0 ==> c.timer.Armed? && EntryAt(c.queue, c.timer.at)
  }

  /**
   * The one interleaving that loses the sweep: the handler had found the queue empty, something is queued by
   * now, and the handler sets the timer a day ahead with no caller left to set it again.
   */
  predicate LosesSweep(c: Client, e: Event) {
    && e.SetTimer? && c.phase.Setting? && c.phase.sawEmpty
    && c.arming == 0 && c.queue != [] && !EntryAt(c.queue, c.phase.next)
  }

  lemma StepArmed(c: Client, e: Event)
    requires Inv(c) && ArmedAtEntry(c) && Enabled(c, e)
    ensures ArmedAtEntry(Step(c, e)) <==> !LosesSweep(c, e)
  {
  }

  ghost predicate NeverLoses(c: Client, es: seq<Event>)
    requires Legal(c, es)
    decreases |es|
  {
    es == [] || (!LosesSweep(c, es[0]) && NeverLoses(Step(c, es[0]), es[1..]))
  }

  /** `ArmedAtEntry` in every state of the run. */
  ghost predicate AlwaysArmed(c: Client, es: seq<Event>)
    requires Legal(c, es)
    decreases |es|
  {
    ArmedAtEntry(c) && (es == [] || AlwaysArmed(Step(c, es[0]), es[1..]))
  }

  lemma {:induction false} ArmedIffNeverLoses(c: Client, es: seq<Event>)
    requires Inv(c) && ArmedAtEntry(c) && Legal(c, es)
    ensures AlwaysArmed(c, es) <==> NeverLoses(c, es)
    ensures NeverLoses(c, es) ==> ArmedAtEntry(Run(c, es))
    decreases |es|
  {
    if es != [] {
      StepKeeps(c, es[0]);
      StepArmed(c, es[0]);
      if !LosesSweep(c, es[0]) {
        ArmedIffNeverLoses(Step(c, es[0]), es[1..]);
      }
    }
  }

  /**
   * In every run, however late the ticks: whenever something is queued and neither the sweep handler nor a
   * caller is half way, the timer is armed at the deadline of a queued entry, if and only if no `expires_at`
   * overrides a request that came after the handler had found the queue empty.
   */
  lemma SweepArming(timeout: int, now: int, es: seq<Event>)
    requires Legal(Fresh(timeout, now), es)
    ensures AlwaysArmed(Fresh(timeout, now), es) <==> NeverLoses(Fresh(timeout, now), es)
  {
    ArmedIffNeverLoses(Fresh(timeout, now), es);
  }

  /** Without a request between the empty look and the setting of the timer, nothing is lost. */
  lemma LossNeedsLateSend(c: Client, top: int, es: seq<Event>)
    requires Inv(c) && Enabled(c, ReadTop(top)) && c.queue == []
    requires Legal(Step(c, ReadTop(top)), es) && Push !in es
    ensures !LosesSweep(Run(Step(c, ReadTop(top)), es), SetTimer)
  {
    StepKeeps(c, ReadTop(top));
    NoSendsRun(Step(c, ReadTop(top)), es, 1);
  }

  /** Some run leads from `c` to `d`; if `timely`, one with timely ticks. */
  ghost predicate Reaches(c: Client, d: Client, timely: bool) {
    exists es :: Legal(c, es) && Run(c, es) == d && (timely ==> OnTimeRun(c, es))
  }

  lemma ReachesItself(c: Client, timely: bool)
    ensures Reaches(c, c, timely)
  {
    assert Legal(c, []) && OnTimeRun(c, []) && Run(c, []) == c;
  }

  lemma Prepend(c: Client, e: Event, d: Client, timely: bool)
    requires Enabled(c, e) && Reaches(Step(c, e), d, timely) && (timely ==> OnTime(c, e))
    ensures Reaches(c, d, timely)
  {
    var rest :| Legal(Step(c, e), rest) && Run(Step(c, e), rest) == d && (timely ==> OnTimeRun(Step(c, e), rest));
    var es := [e] + rest;
    assert es[1..] == rest;
    assert Legal(c, es) && Run(c, es) == d && (timely ==> OnTimeRun(c, es));
  }

  /** A request started while the handler is about to sleep for a day waits for that day. */
  lemma LossIsReachable()
    ensures exists c :: Reaches(Fresh(10, 0), c, false)
                        && c.phase == Idle && c.arming == 0 && c.live == map[2 := 20] && c.timer == Armed(86_400_010)
  {
    SecondHalf();
    var c := Step(Step(Step(DayAhead(), Push), Arm), SetTimer);
    FirstHalf(c);
    FirstIsReached(c, false);
  }

  /** The first request is started, and has armed the timer. */
  function FirstArmed(): Client {
    Client(10, 0, 1, map[1 := 10], [Entry(1, 10)], Armed(10), 0, Idle, 0, [], [0], map[1 := 0])
  }

  /** The handler has fired it, found the queue empty, and is about to sleep for a day. */
  function DayAhead(): Client {
    Client(10, 10, 1, map[], [], Unarmed, 0, Setting(10 + DAY, true), 10, [Fired(1, 10, 10, 0, 1)], [0], map[1 := 0])
  }

  lemma FirstIsReached(d: Client, timely: bool)
    requires Reaches(FirstArmed(), d, timely)
    ensures Reaches(Fresh(10, 0), d, timely)
  {
    FirstPushed();
    var c1 := Step(Fresh(10, 0), Push);
    Prepend(c1, Arm, d, timely);
    Prepend(Fresh(10, 0), Push, d, timely);
  }

  lemma FirstPushed()
    ensures var c := Step(Fresh(10, 0), Push); c.arming == 1 && Step(c, Arm) == FirstArmed()
  {
    assert SequenceOf(0) == 1;
  }

  lemma FirstHalf(d: Client)
    requires Reaches(DayAhead(), d, false)
    ensures Reaches(FirstArmed(), d, false)
  {
    var c3 := FirstArmed().(clock := 10);
    assert IsScan(c3.live, 10, [1]);
    LaterNone(c3.queue, 10);
    var c4 := Step(c3, Sweep([1]));
    assert c4.live == map[] && c4.queue == [];
    assert c4.fired == [Fired(1, 10, 10, 0, 1)];
    Prepend(c4, ReadTop(0), d, false);
    Prepend(c3, Sweep([1]), d, false);
    Prepend(FirstArmed(), Advance(10), d, false);
  }

  lemma SecondHalf()
    ensures var c5 := DayAhead();
            && Enabled(c5, Push) && Enabled(Step(c5, Push), Arm) && Enabled(Step(Step(c5, Push), Arm), SetTimer)
            && var c := Step(Step(Step(c5, Push), Arm), SetTimer);
               && c.phase == Idle && c.arming == 0 && c.live == map[2 := 20] && c.timer == Armed(10 + DAY)
               && Reaches(c5, c, false)
  {
    var c5 := DayAhead();
    var c6 := Step(c5, Push);
    var c7 := Step(c6, Arm);
    var c8 := Step(c7, SetTimer);
    assert c6.live == map[2 := 20];
    ReachesItself(c8, false);
    Prepend(c7, SetTimer, c8, false);
    Prepend(c6, Arm, c8, false);
    Prepend(c5, Push, c8, false);
  }

  // ----- after the last send -----

  /** What becomes of a live request. */
  ghost predicate Settled(c: Client, es: seq<Event>, s: U32) {
    Cancel(s) in es || exists f :: f in c.fired && f.sequence == s
  }

  lemma SweepSettles(c: Client, expired: seq<U32>, s: U32)
    requires Inv(c) && Enabled(c, Sweep(expired)) && s in c.live
    ensures var d := Step(c, Sweep(expired)); s in d.live || exists f :: f in d.fired && f.sequence == s
  {
    if s in expired {
      var i :| 0 <= i < |expired| && expired[i] == s;
      var f := FireAll(expired, c)[i];
      assert f in FireAll(expired, c) && f.sequence == s;
    }
  }

  lemma {:induction false} NoSendsRun(c: Client, es: seq<Event>, s: U32)
    requires Inv(c) && Legal(c, es) && Push !in es
    ensures var d := Run(c, es);
            && |d.queue| <= |c.queue|
            && (forall e | e in d.queue :: e in c.queue)
            && (forall f | f in c.fired :: f in d.fired)
            && (s in c.live ==> s in d.live || Settled(d, es, s))
    decreases |es|
  {
    if es != [] {
      var e := es[0];
      StepKeeps(c, e);
      NoSendsRun(Step(c, e), es[1..], s);
      if e.Sweep? {
        LaterMembers(c.queue, c.clock);
        if s in c.live {
          SweepSettles(c, e.expired, s);
        }
      }
    }
  }

  lemma NothingIndexed(live: map<U32, int>)
    requires Indexes([], live)
    ensures live == map[]
  {
  }

  /** No sweep is due or under way. */
  predicate SweepDone(c: Client) {
    c.phase == Idle && (c.timer.Armed? ==> c.timer.at > c.clock)
  }

  predicate NoSweep(es: seq<Event>) {
    forall e | e in es :: !e.Sweep?
  }

  /** The sweep is lost at some step, and none comes afterwards. */
  ghost predicate LostSweep(c: Client, es: seq<Event>)
    requires Legal(c, es)
    decreases |es|
  {
    es != [] && ((LosesSweep(c, es[0]) && NoSweep(es[1..])) || LostSweep(Step(c, es[0]), es[1..]))
  }

  /** With the timer astray and no request coming, only a sweep ends that. */
  lemma StepAstray(c: Client, e: Event)
    requires Inv(c) && !ArmedAtEntry(c) && Enabled(c, e) && e != Push
    ensures ArmedAtEntry(Step(c, e)) <==> e.Sweep?
  {
  }

  lemma {:induction false} ArmedIffNotLost(c: Client, es: seq<Event>)
    requires Inv(c) && Legal(c, es) && Push !in es
    ensures ArmedAtEntry(Run(c, es)) <==> !(LostSweep(c, es) || (!ArmedAtEntry(c) && NoSweep(es)))
    decreases |es|
  {
    if es != [] {
      var e, rest := es[0], es[1..];
      StepKeeps(c, e);
      ArmedIffNotLost(Step(c, e), rest);
      assert NoSweep(es) <==> !e.Sweep? && NoSweep(rest) by {
        assert forall x :: x in es <==> x == e || x in rest;
      }
      if ArmedAtEntry(c) {
        StepArmed(c, e);
      } else {
        StepAstray(c, e);
      }
    }
  }

  /** Nothing has come since the handler found the queue empty. */
  predicate Unoverridden(c: Client) {
    c.phase.Setting? && c.phase.sawEmpty ==> c.queue == []
  }

  lemma {:induction false} NothingToLose(c: Client, es: seq<Event>)
    requires Legal(c, es) && Push !in es && Unoverridden(c)
    ensures !LostSweep(c, es)
    decreases |es|
  {
    if es != [] {
      NothingToLose(Step(c, es[0]), es[1..]);
    }
  }

  /** Without a request coming, no sweep comes before the loss either. */
  lemma {:induction false} LostMeansNoSweep(c: Client, es: seq<Event>)
    requires Legal(c, es) && Push !in es && LostSweep(c, es)
    ensures NoSweep(es)
    decreases |es|
  {
    var e, rest := es[0], es[1..];
    if !(LosesSweep(c, e) && NoSweep(rest)) {
      LostMeansNoSweep(Step(c, e), rest);
      if e.Sweep? {
        NothingToLose(Step(c, e), rest);
      }
    }
  }

  lemma {:induction false} UnsweptStays(c: Client, es: seq<Event>, s: U32)
    requires Legal(c, es) && Push !in es && NoSweep(es)
    ensures s in Run(c, es).live <==> s in c.live && Cancel(s) !in es
    decreases |es|
  {
    if es != [] {
      assert es[0] in es;
      UnsweptStays(Step(c, es[0]), es[1..], s);
      assert Cancel(s) in es <==> Cancel(s) == es[0] || Cancel(s) in es[1..];
    }
  }

  /** The state after the last request is started. */
  ghost function LastSent(timeout: int, now: int, before: seq<Event>): Client
    requires Legal(Fresh(timeout, now), before) && Enabled(Run(Fresh(timeout, now), before), Push)
  {
    Step(Run(Fresh(timeout, now), before), Push)
  }

  /**
   * After any history, when the last request is started, the clock has reached the last queued deadline and
   * no sweep is due or under way: every request has been fired or cancelled and none is left, if and only if
   * the sweep was not lost after that last request. If it was, every request not cancelled still waits.
   */
  lemma Quiescent(timeout: int, now: int, before: seq<Event>, after: seq<Event>, s: U32)
    requires Legal(Fresh(timeout, now), before) && Enabled(Run(Fresh(timeout, now), before), Push)
    requires Legal(LastSent(timeout, now, before), after) && Push !in after
    requires s in LastSent(timeout, now, before).live
    requires forall e | e in LastSent(timeout, now, before).queue ::
               e.expiry <= Run(LastSent(timeout, now, before), after).clock
    requires SweepDone(Run(LastSent(timeout, now, before), after))
    ensures var c := LastSent(timeout, now, before);
            var d := Run(c, after);
            if LostSweep(c, after) then d.queue != [] && (s in d.live <==> Cancel(s) !in after)
            else d.queue == [] && d.live == map[] && Settled(d, after, s)
  {
    RunKeeps(Fresh(timeout, now), before);
    PushKeeps(Run(Fresh(timeout, now), before));
    var c := LastSent(timeout, now, before);
    RunKeeps(c, after);
    ArmedIffNotLost(c, after);
    NoSendsRun(c, after, s);
    var d := Run(c, after);
    assert d.arming == 0;
    if LostSweep(c, after) {
      LostMeansNoSweep(c, after);
      UnsweptStays(c, after, s);
    } else {
      assert d.queue == [];
      NothingIndexed(d.live);
    }
  }

  // ----- timely ticks: when exactly a request fires -----

  /** The clock does not pass a due timer, nor a sweep under way. */
  predicate OnTime(c: Client, e: Event) {
    e.Advance? ==> c.phase == Idle && (c.timer.Armed? ==> e.now <= c.timer.at)
  }

  predicate Nondecreasing(times: seq<int>) {
    forall i, j | 0 <= i <= j < |times| :: times[i] <= times[j]
  }

  /** How many of the requests started have set the timer. */
  function ArmedSends(c: Client): int {
    |c.sends| - c.arming
  }

  /** Entries pushed before the current instant, and all entries once nobody is half way. */
  predicate Waiting(c: Client, e: Entry) {
    e in c.queue && (c.arming == 0 || e.expiry < c.clock + c.timeout)
  }

  /** The timer stands one timeout after the last request that set it. */
  predicate AtLastSend(c: Client) {
    0 < ArmedSends(c) <= |c.sends| && c.timer == Armed(c.sends[ArmedSends(c) - 1] + c.timeout)
  }

  /** Requests start in the order of time, and those that have not set the timer yet have just started. */
  predicate SendsOrdered(c: Client) {
    && Nondecreasing(c.sends)
    && (forall i | 0 <= i < |c.sends| :: c.sends[i] <= c.clock)
    && (forall i | 0 <= ArmedSends(c) <= i < |c.sends| :: c.sends[i] == c.clock)
  }

  /** The clock against the timer and the sweep under way. */
  predicate ClockBound(c: Client) {
    if c.phase == Idle then c.timer.Armed? ==> c.clock <= c.timer.at
    else
      && c.sweptAt == c.clock
      && (c.phase.Setting? ==> c.clock <= c.phase.next)
      && forall e | e in c.queue :: c.clock < e.expiry
  }

  /** What every run with timely ticks keeps, whether the sweep gets lost or not. */
  ghost predicate Timely(c: Client) {
    Inv(c) && SendsOrdered(c) && ClockBound(c)
  }

  /** Between two sweeps the timer stands at the last send; what is queued during one is brand new. */
  ghost predicate Aligned(c: Client) {
    if c.phase == Idle then forall e | Waiting(c, e) :: AtLastSend(c)
    else forall e | e in c.queue :: e.expiry == c.clock + c.timeout
  }

  lemma PushOrdered(c: Client)
    requires SendsOrdered(c) && c.taken < WORD
    ensures SendsOrdered(Step(c, Push))
  {
  }

  lemma StepBound(c: Client, e: Event)
    requires Inv(c) && ClockBound(c) && Enabled(c, e) && OnTime(c, e)
    ensures ClockBound(Step(c, e))
  {
    match e
    case Sweep(_) => LaterMembers(c.queue, c.clock);
    case ReadTop(top) =>
      if c.queue != [] {
        var i: nat :| IsTop(c.queue, i) && c.queue[i].expiry == top;
        assert c.queue[i] in c.queue;
      }
    case _ =>
  }

  lemma StepTimely(c: Client, e: Event)
    requires Timely(c) && Enabled(c, e) && OnTime(c, e)
    ensures Timely(Step(c, e)) && c.sends <= Step(c, e).sends
  {
    StepKeeps(c, e);
    StepBound(c, e);
    if e.Push? {
      PushOrdered(c);
    }
  }

  /** An entry was started no later than the requests that have set the timer, unless it is brand new. */
  lemma OldEntry(c: Client, e: Entry)
    requires Timely(c) && Waiting(c, e)
    ensures 0 <= c.ownSend[e.sequence] < ArmedSends(c)
    ensures e.expiry <= c.sends[ArmedSends(c) - 1] + c.timeout
  {
    assert SentAt(c, e.sequence, e.expiry);
  }

  /** What a sweep leaves in the queue is brand new. */
  lemma SweepLeavesFresh(c: Client, e: Entry)
    requires Timely(c) && Aligned(c) && c.phase == Idle && c.timer.Armed? && c.timer.at <= c.clock
    requires e in c.queue && e.expiry > c.clock
    ensures e.expiry == c.clock + c.timeout
  {
    assert SentAt(c, e.sequence, e.expiry);
    if Waiting(c, e) {
      OldEntry(c, e);
    }
  }

  lemma SweepAligned(c: Client, expired: seq<U32>)
    requires Timely(c) && Aligned(c) && Enabled(c, Sweep(expired))
    ensures Aligned(Step(c, Sweep(expired)))
  {
    LaterMembers(c.queue, c.clock);
    forall e | e in Step(c, Sweep(expired)).queue
      ensures e.expiry == c.clock + c.timeout
    {
      SweepLeavesFresh(c, e);
    }
  }

  lemma SetTimerAligned(c: Client)
    requires Timely(c) && Aligned(c) && c.phase.Setting? && !LosesSweep(c, SetTimer)
    ensures Aligned(Step(c, SetTimer))
  {
    forall e | Waiting(Step(c, SetTimer), e)
      ensures AtLastSend(Step(c, SetTimer))
    {
      assert e.expiry == c.clock + c.timeout && c.arming == 0;
      assert SentAt(c, e.sequence, e.expiry);
      var x :| x in c.queue && x.expiry == c.phase.next;
    }
  }

  /** Whatever happened before, a request that sets the timer outside a sweep aligns it. */
  lemma ArmAligns(c: Client)
    requires Timely(c) && c.arming > 0 && (c.phase == Idle || Aligned(c))
    ensures Aligned(Step(c, Arm))
  {
    assert c.sends[ArmedSends(c)] == c.clock;
  }

  lemma AdvanceAligned(c: Client, now: int)
    requires Timely(c) && Aligned(c) && Enabled(c, Advance(now)) && OnTime(c, Advance(now))
    ensures Aligned(Step(c, Advance(now)))
  {
    assert forall x | Waiting(Step(c, Advance(now)), x) :: Waiting(c, x);
  }

  lemma PushAligned(c: Client)
    requires SendsOrdered(c) && c.arming <= |c.sends| && Aligned(c) && c.taken < WORD
    ensures Aligned(Step(c, Push))
  {
    forall x | Waiting(Step(c, Push), x)
      ensures Waiting(c, x)
    {
    }
  }

  lemma CancelAligned(c: Client, s: U32)
    requires Aligned(c)
    ensures Aligned(Step(c, Cancel(s)))
  {
    assert forall x | Waiting(Step(c, Cancel(s)), x) :: Waiting(c, x);
  }

  lemma StepAligned(c: Client, e: Event)
    requires Timely(c) && Aligned(c) && Enabled(c, e) && OnTime(c, e) && !LosesSweep(c, e)
    ensures Aligned(Step(c, e))
  {
    match e
    case Advance(now) => AdvanceAligned(c, now);
    case Push => PushAligned(c);
    case Arm => ArmAligns(c);
    case Cancel(s) => CancelAligned(c, s);
    case Sweep(expired) => SweepAligned(c, expired);
    case ReadTop(_) =>
    case SetTimer => SetTimerAligned(c);
  }

  /** Fired exactly one timeout after the last request that had set the timer. */
  predicate FiredAfterLastSend(c: Client, f: Fired) {
    && f.own < f.sendsBefore <= |c.sends|
    && f.expiry == c.sends[f.own] + c.timeout
    && f.at == c.sends[f.sendsBefore - 1] + c.timeout
  }

  lemma SweepFiresAfterLastSend(c: Client, expired: seq<U32>, i: nat)
    requires Timely(c) && Aligned(c) && Enabled(c, Sweep(expired)) && i < |expired|
    ensures FiredAfterLastSend(c, FireAll(expired, c)[i])
  {
    FiredWasQueued(c, expired, i);
    var f := FireAll(expired, c)[i];
    var e := Entry(f.sequence, f.expiry);
    assert Waiting(c, e) && AtLastSend(c);
    OldEntry(c, e);
    assert SentAt(c, e.sequence, e.expiry);
  }

  ghost predicate OnTimeRun(c: Client, es: seq<Event>)
    requires Legal(c, es)
    decreases |es|
  {
    es == [] || (OnTime(c, es[0]) && OnTimeRun(Step(c, es[0]), es[1..]))
  }

  lemma {:induction false} RunTimely(c: Client, es: seq<Event>)
    requires Timely(c) && Legal(c, es) && OnTimeRun(c, es)
    ensures Timely(Run(c, es)) && c.sends <= Run(c, es).sends && c.fired <= Run(c, es).fired
    ensures Run(c, es).timeout == c.timeout
    decreases |es|
  {
    if es != [] {
      StepTimely(c, es[0]);
      RunTimely(Step(c, es[0]), es[1..]);
    }
  }

  lemma {:induction false} AlignedRunFires(c: Client, es: seq<Event>, k: nat)
    requires Timely(c) && Aligned(c) && Legal(c, es) && OnTimeRun(c, es) && NeverLoses(c, es)
    requires |c.fired| <= k < |Run(c, es).fired|
    ensures FiredAfterLastSend(Run(c, es), Run(c, es).fired[k])
    decreases |es|
  {
    if es != [] {
      var next := Step(c, es[0]);
      StepTimely(c, es[0]);
      RunTimely(next, es[1..]);
      if k < |next.fired| {
        SweepFiresAfterLastSend(c, es[0].expired, k - |c.fired|);
        assert Run(c, es).fired[k] == FireAll(es[0].expired, c)[k - |c.fired|];
      } else {
        StepAligned(c, es[0]);
        AlignedRunFires(next, es[1..], k);
      }
    }
  }

  /** The start of the client, or a request that sets the timer outside a sweep, after whatever happened before. */
  ghost predicate Anchor(timeout: int, now: int, c: Client) {
    c == Fresh(timeout, now)
    || exists b :: Reaches(Fresh(timeout, now), b, true) && b.phase == Idle && b.arming > 0 && c == Step(b, Arm)
  }

  lemma AnchorHolds(timeout: int, now: int, c: Client)
    requires Anchor(timeout, now, c)
    ensures Timely(c) && Aligned(c) && c.timeout == timeout
  {
    if c != Fresh(timeout, now) {
      var b :| Reaches(Fresh(timeout, now), b, true) && b.phase == Idle && b.arming > 0 && c == Step(b, Arm);
      var es :| Legal(Fresh(timeout, now), es) && Run(Fresh(timeout, now), es) == b && OnTimeRun(Fresh(timeout, now), es);
      RunTimely(Fresh(timeout, now), es);
      StepTimely(b, Arm);
      ArmAligns(b);
    }
  }

  /**
   * With timely ticks, from the start or any later request that sets the timer on, and until a sweep gets
   * lost: a request fires exactly one timeout after the last request that had set the timer. So it fires at
   * its own deadline if and only if none of the requests started after it was started at a later time, and
   * otherwise it fires late.
   */
  lemma FiringTime(timeout: int, now: int, c: Client, es: seq<Event>, k: nat)
    requires Anchor(timeout, now, c)
    requires Legal(c, es) && OnTimeRun(c, es) && NeverLoses(c, es)
    requires |c.fired| <= k < |Run(c, es).fired|
    ensures var sends := Run(c, es).sends;
            var f := Run(c, es).fired[k];
            && f.own < f.sendsBefore <= |sends|
            && f.expiry == sends[f.own] + timeout
            && f.at == sends[f.sendsBefore - 1] + timeout
            && (f.at == f.expiry <==> forall m | f.own < m < f.sendsBefore :: sends[m] == sends[f.own])
  {
    AnchorHolds(timeout, now, c);
    RunTimely(c, es);
    AlignedRunFires(c, es, k);
    LastDecides(Run(c, es).sends, Run(c, es).fired[k].own, Run(c, es).fired[k].sendsBefore);
  }

  /** In a nondecreasing list the last of a stretch equals the first exactly if all of it does. */
  lemma LastDecides(times: seq<int>, k: nat, n: nat)
    requires Nondecreasing(times) && k < n <= |times|
    ensures times[n - 1] == times[k] <==> forall m | k < m < n :: times[m] == times[k]
  {
    if times[n - 1] == times[k] {
      forall m | k < m < n
        ensures times[m] == times[k]
      {
        assert times[k] <= times[m] <= times[n - 1];
      }
    }
  }

  /** A second request re-arms the timer, so the first one, due at 10, fires at 15. */
  lemma LateFiringIsReachable()
    ensures exists c :: Reaches(Fresh(10, 0), c, true) && Fired(1, 10, 15, 0, 2) in c.fired
  {
    BothFire();
    var c := Step(BothDue(), Sweep([1, 2]));
    BothReached(c);
    FirstIsReached(c, true);
  }

  /** Two requests are due, the first since 10. */
  function BothDue(): Client {
    Client(10, 15, 2, map[1 := 10, 2 := 15], [Entry(1, 10), Entry(2, 15)], Armed(15), 0, Idle, 0, [], [0, 5],
           map[1 := 0, 2 := 1])
  }

  lemma SecondPushed()
    ensures var c := Step(FirstArmed().(clock := 5), Push);
            c.timer == Armed(10) && c.phase == Idle && c.arming == 1 && Step(c, Arm) == BothDue().(clock := 5)
  {
    assert SequenceOf(1) == 2;
  }

  lemma BothReached(d: Client)
    requires Reaches(BothDue(), d, true)
    ensures Reaches(FirstArmed(), d, true)
  {
    SecondPushed();
    var c3 := FirstArmed().(clock := 5);
    Prepend(BothDue().(clock := 5), Advance(15), d, true);
    Prepend(Step(c3, Push), Arm, d, true);
    Prepend(c3, Push, d, true);
    Prepend(FirstArmed(), Advance(5), d, true);
  }

  lemma BothFire()
    ensures Enabled(BothDue(), Sweep([1, 2]))
    ensures var c := Step(BothDue(), Sweep([1, 2]));
            Reaches(BothDue(), c, true) && Fired(1, 10, 15, 0, 2) in c.fired
  {
    var c6 := BothDue();
    var both: seq<U32> := [1, 2];
    assert IsScan(c6.live, 15, both);
    var c7 := Step(c6, Sweep(both));
    assert c7.fired[0] == Fired(1, 10, 15, 0, 2);
    ReachesItself(c7, true);
    Prepend(c6, Sweep(both), c7, true);
  }

  /** The response-timer fields of `TurboNetClient`. */
  class ResponseTimers {
    const timeout: int
    var clock: int
    var taken: nat
    var responseMap: map<U32, int>
    var responseQueue: seq<Entry>
    var timer: Timer
    ghost var arming: nat
    ghost var phase: Phase
    ghost var sweptAt: int
    ghost var fired: seq<Fired>
    ghost var sends: seq<int>
    ghost var ownSend: map<U32, nat>

    ghost function State(): Client
      reads this
    {
      Client(timeout, clock, taken, responseMap, responseQueue, timer, arming, phase, sweptAt, fired, sends, ownSend)
    }

    constructor (timeout: int, now: int)
      ensures State() == Fresh(timeout, now)
    {
      this.timeout := timeout;
      clock, taken, responseMap, responseQueue, timer := now, 0, map[], [], Unarmed;
      arming, phase, sweptAt, fired, sends, ownSend := 0, Idle, now, [], [], map[];
    }

    /** `sendRequest` as far as timers go, up to the end of the locked block in `startResponseTimer`. */
    method PushRequest() returns (sequence: U32)
      requires Inv(State()) && taken < WORD
      modifies this
      ensures Inv(State()) && State() == Step(old(State()), Push) && sequence == SequenceOf(old(taken))
    {
      StepKeeps(State(), Push);
      sequence := EnterRequest();
    }

    method EnterRequest() returns (sequence: U32)
      requires taken < WORD
      modifies this
      ensures State() == Step(old(State()), Push) && sequence == SequenceOf(old(taken))
    {
      sequence := SequenceOf(taken);
      taken := taken + 1;
      if timeout <= 0 {
        return;
      }
      var expiry := clock + timeout;
      responseMap := responseMap[sequence := expiry];
      responseQueue := responseQueue + [Entry(sequence, expiry)];
      ownSend := ownSend[sequence := |sends|];
      sends, arming := sends + [clock], arming + 1;
    }

    /** The rest of `startResponseTimer`. */
    method ArmSweep()
      requires Inv(State()) && arming > 0
      modifies this
      ensures Inv(State()) && State() == Step(old(State()), Arm)
    {
      StepKeeps(State(), Arm);
      timer := Armed(clock + timeout);
      arming := arming - 1;
    }

    /** `cancelResponseTimer`: the queue entry stays. */
    method CancelResponseTimer(sequence: U32)
      requires Inv(State())
      modifies this
      ensures Inv(State()) && State() == Step(old(State()), Cancel(sequence))
    {
      StepKeeps(State(), Cancel(sequence));
      responseMap := responseMap - {sequence};
    }

    /** The loop of `checkAndFireResponseTimers`: pop while the top is due, fire what is still in the map. */
    method PopDue(now: int) returns (expired: seq<U32>)
      requires Indexes(responseQueue, responseMap)
      modifies this`responseMap, this`responseQueue
      ensures IsScan(old(responseMap), now, expired)
      ensures responseMap == ScanLeft(old(responseMap), now)
      ensures responseQueue == Later(old(responseQueue), now)
    {
      expired := [];
      ghost var live := responseMap;
      var due := true;
      while responseQueue != [] && due
        invariant Indexes(responseQueue, responseMap)
        invariant Later(responseQueue, now) == Later(old(responseQueue), now)
        invariant Popped(live, responseMap, now, expired)
        invariant forall s, e | s in expired && e in responseQueue :: live[s] <= e.expiry
        invariant !due ==> forall e | e in responseQueue :: e.expiry > now
        decreases |responseQueue|, due
      {
        ghost var any := TopExists(responseQueue);
        var top: nat :| top < |responseQueue| && IsTop(responseQueue, top);
        due := responseQueue[top].expiry <= now;
        if due {
          expired := PopOne(now, top, expired, live);
        } else {
          assert IsTop(responseQueue, top);
        }
      }
      LaterAll(responseQueue, now);
      PoppedIsScan(responseQueue, live, responseMap, now, expired);
    }

    /** One turn of that loop. */
    method PopOne(now: int, top: nat, expired: seq<U32>, ghost live: map<U32, int>) returns (more: seq<U32>)
      requires Indexes(responseQueue, responseMap)
      requires IsTop(responseQueue, top) && responseQueue[top].expiry <= now
      requires Popped(live, responseMap, now, expired)
      requires forall s, e | s in expired && e in responseQueue :: live[s] <= e.expiry
      modifies this`responseMap, this`responseQueue
      ensures Indexes(responseQueue, responseMap)
      ensures responseQueue == Remove(old(responseQueue), top)
      ensures Later(responseQueue, now) == Later(old(responseQueue), now)
      ensures Popped(live, responseMap, now, more)
      ensures forall s, e | s in more && e in responseQueue :: live[s] <= e.expiry
    {
      PopIndexes(responseQueue, responseMap, top);
      LaterRemove(responseQueue, top, now);
      var sequence := responseQueue[top].sequence;
      responseQueue := Remove(responseQueue, top);
      more := expired;
      if sequence in responseMap {
        PopMore(live, responseMap, now, expired, sequence);
        responseMap := responseMap - {sequence};
        more := more + [sequence];
      } else {
        assert responseMap - {sequence} == responseMap;
      }
      assert forall e | e in responseQueue :: e in old(responseQueue);
    }

    /** `checkAndFireResponseTimers` up to its second locked block. */
    method CheckAndFire() returns (expired: seq<U32>)
      requires Inv(State()) && timer.Armed? && timer.at <= clock && phase == Idle
      modifies this
      ensures old(Enabled(State(), Sweep(expired)))
      ensures Inv(State()) && State() == Step(old(State()), Sweep(expired))
    {
      ghost var before := State();
      LiveWasSent(before);
      expired := PopDue(clock);
      StepKeeps(before, Sweep(expired));
      fired := fired + FireAll(expired, before);
      timer, phase, sweptAt := Unarmed, Firing, clock;
    }

    /** Its second locked block; `now` is when the sweep began. */
    method LookAtTop(now: int) returns (next: int)
      requires Inv(State()) && phase == Firing && sweptAt == now
      modifies this`phase
      ensures old(Enabled(State(), ReadTop(next)))
      ensures Inv(State()) && State() == Step(old(State()), ReadTop(next)) && phase.next == next
    {
      next := now + DAY;
      if responseQueue != [] {
        ghost var any := TopExists(responseQueue);
        var i: nat :| i < |responseQueue| && IsTop(responseQueue, i);
        next := responseQueue[i].expiry;
      }
      StepKeeps(State(), ReadTop(next));
      phase := if responseQueue == [] then Setting(next, true) else Setting(next, false);
    }

    /** Its end: `expires_at`, outside the mutex. */
    method SetSweep(next: int)
      requires Inv(State()) && phase.Setting? && phase.next == next
      modifies this`timer, this`phase
      ensures Inv(State()) && State() == Step(old(State()), SetTimer)
    {
      StepKeeps(State(), SetTimer);
      timer, phase := Armed(next), Idle;
    }
  }
}
