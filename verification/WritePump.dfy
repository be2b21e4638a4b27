/** The strand-serialised write queue of the claude client and of the claude server connection. */
module WritePump {
  import opened Bytes

  type Frame = seq<Byte>

  /**
   * `strand`: closures posted and not run yet, each carrying a frame. `queue`: `write_queue_`.
   * `outstanding`: asynchronous writes started and not completed. `progress`: bytes of the front
   * frame already in the socket. `written`: frames whose write completed.
   */
  datatype Pump = Pump(strand: seq<Frame>, queue: seq<Frame>, outstanding: nat, progress: nat, written: seq<Frame>)

  datatype Event =
    | Post(frame: Frame)
    | RunPosted
    | Progress(count: nat)
    | Written
    | Failed

  const Idle: Pump := Pump([], [], 0, 0, [])

  predicate Enabled(s: Pump, e: Event) {
    match e
    case Post(_) => true
    case RunPosted => s.strand != []
    case Progress(count) => s.outstanding > 0 && s.queue != [] && s.progress + count <= |s.queue[0]|
    case Written => s.outstanding > 0 && s.queue != [] && s.progress == |s.queue[0]|
    case Failed => s.outstanding > 0
  }

  function Step(s: Pump, e: Event): Pump
    requires Enabled(s, e)
  {
    match e
    case Post(frame) => s.(strand := s.strand + [frame])
    case RunPosted =>
      var idle := s.queue == [];
      Pump(s.strand[1..], s.queue + [s.strand[0]], if idle then s.outstanding + 1 else s.outstanding,
           if idle then 0 else s.progress, s.written)
    case Progress(count) => s.(progress := s.progress + count)
    case Written =>
      var more := |s.queue| > 1;
      Pump(s.strand, s.queue[1..], if more then s.outstanding else s.outstanding - 1, 0, s.written + [s.queue[0]])
    case Failed => s.(outstanding := s.outstanding - 1)
  }

  predicate Inv(s: Pump) {
    && s.outstanding <= 1
    && (s.queue == [] ==> s.outstanding == 0)
    && (s.queue != [] ==> s.progress <= |s.queue[0]|)
  }

  /** A write failed: frames wait and nothing is being written. */
  predicate Stalled(s: Pump) {
    s.queue != [] && s.outstanding == 0
  }

  /** Every frame handed to the pump, in order. */
  function Posted(s: Pump): seq<Frame> {
    s.written + s.queue + s.strand
  }

  /** The bytes that have entered the socket. */
  function Emitted(s: Pump): seq<Byte>
    requires Inv(s)
  {
    Flatten(s.written) + if s.queue == [] then [] else s.queue[0][..s.progress]
  }

  lemma StepKeeps(s: Pump, e: Event)
    requires Inv(s) && Enabled(s, e)
    ensures Inv(Step(s, e))
    ensures Posted(Step(s, e)) == Posted(s) + if e.Post? then [e.frame] else []
    ensures Stalled(Step(s, e)) <==> Stalled(s) || e.Failed?
  {
  }

  /** The bytes that event `e` puts into the socket: those of a write in progress, and no others. */
  function Output(s: Pump, e: Event): seq<Byte>
    requires Enabled(s, e)
  {
    if e.Progress? then s.queue[0][s.progress..s.progress + e.count] else []
  }

  /** Bytes enter the socket at the end only, while a write is in progress, and none do after a failure. */
  lemma StepEmits(s: Pump, e: Event)
    requires Inv(s) && Enabled(s, e)
    ensures Inv(Step(s, e)) && Emitted(Step(s, e)) == Emitted(s) + Output(s, e)
    ensures Stalled(s) || e.Post? ==> Step(s, e).written == s.written && Emitted(Step(s, e)) == Emitted(s)
  {
    var s' := Step(s, e);
    match e
    case Progress(count) => assert s'.queue[0][..s'.progress] == s.queue[0][..s.progress] + Output(s, e);
    case Written =>
      FlattenAppend(s.written, [s.queue[0]]);
      assert Flatten([s.queue[0]]) == s.queue[0];
      assert s.queue[0][..s.progress] == s.queue[0];
    case RunPosted =>
    case Post(_) =>
    case Failed =>
  }

  /** What is in the socket is always a prefix of all that was posted. */
  lemma EmittedIsPrefix(s: Pump)
    requires Inv(s)
    ensures Emitted(s) <= Flatten(Posted(s))
    ensures s.queue == [] && s.strand == [] ==> Emitted(s) == Flatten(Posted(s))
  {
    var rest := s.queue + s.strand;
    assert Posted(s) == s.written + rest;
    FlattenAppend(s.written, rest);
    if s.queue != [] {
      assert Flatten(rest) == s.queue[0] + Flatten(rest[1..]);
    } else {
      assert s.written + [] == s.written;
    }
  }

  // ----- whole runs -----

  predicate Legal(s: Pump, es: seq<Event>)
    decreases |es|
  {
    es == [] || (Enabled(s, es[0]) && Legal(Step(s, es[0]), es[1..]))
  }

  function Run(s: Pump, es: seq<Event>): Pump
    requires Legal(s, es)
    decreases |es|
  {
    if es == [] then s else Run(Step(s, es[0]), es[1..])
  }

  function Posts(es: seq<Event>): seq<Frame> {
    if es == [] then [] else (if es[0].Post? then [es[0].frame] else []) + Posts(es[1..])
  }

  /** How many closures have run, how many writes have completed, and how many bytes were written. */
  function Ran(es: seq<Event>): nat {
    if es == [] then 0 else (if es[0].RunPosted? then 1 else 0) + Ran(es[1..])
  }

  function Completed(es: seq<Event>): nat {
    if es == [] then 0 else (if es[0].Written? then 1 else 0) + Completed(es[1..])
  }

  function Progressed(es: seq<Event>): nat {
    if es == [] then 0 else (if es[0].Progress? then es[0].count else 0) + Progressed(es[1..])
  }

  lemma StepCounts(s: Pump, e: Event)
    requires Inv(s) && Enabled(s, e)
    ensures var d := Step(s, e);
            && |d.written| == |s.written| + (if e.Written? then 1 else 0)
            && |d.written| + |d.queue| == |s.written| + |s.queue| + (if e.RunPosted? then 1 else 0)
            && Inv(d) && |Emitted(d)| == |Emitted(s)| + (if e.Progress? then e.count else 0)
  {
    StepEmits(s, e);
  }

  lemma {:induction false} RunCounts(s: Pump, es: seq<Event>)
    requires Inv(s) && Legal(s, es)
    ensures var d := Run(s, es);
            && |d.written| == |s.written| + Completed(es)
            && |d.written| + |d.queue| == |s.written| + |s.queue| + Ran(es)
            && Inv(d) && |Emitted(d)| == |Emitted(s)| + Progressed(es)
    decreases |es|
  {
    if es != [] {
      StepKeeps(s, es[0]);
      StepCounts(s, es[0]);
      RunCounts(Step(s, es[0]), es[1..]);
    }
  }

  lemma {:induction false} RunKeeps(s: Pump, es: seq<Event>)
    requires Inv(s) && Legal(s, es)
    ensures Inv(Run(s, es))
    ensures Posted(Run(s, es)) == Posted(s) + Posts(es)
    ensures Stalled(Run(s, es)) <==> Stalled(s) || Failed in es
    decreases |es|
  {
    if es == [] {
      assert Posted(s) + [] == Posted(s);
    } else {
      StepKeeps(s, es[0]);
      var next, rest := Step(s, es[0]), es[1..];
      RunKeeps(next, rest);
      assert es == [es[0]] + rest;
      assert Run(s, es) == Run(next, rest);
    }
  }

  lemma {:induction false} StalledRun(s: Pump, es: seq<Event>)
    requires Inv(s) && Legal(s, es) && Stalled(s)
    ensures Inv(Run(s, es)) && Stalled(Run(s, es))
    ensures Emitted(Run(s, es)) == Emitted(s)
    decreases |es|
  {
    if es != [] {
      StepKeeps(s, es[0]);
      StepEmits(s, es[0]);
      StalledRun(Step(s, es[0]), es[1..]);
    }
  }

  /**
   * In every run: completed frames, then the queue, then the posted closures are the posted frames in
   * order, cut where as many writes have completed and closures have run; the socket has got as many bytes
   * as were written, from the front. At most one write is outstanding; without a failure a write is in
   * flight exactly when the queue is nonempty, and after one the queue is nonempty with no write in flight.
   */
  lemma PumpLaw(es: seq<Event>)
    requires Legal(Idle, es)
    ensures var s := Run(Idle, es);
            && s.written + s.queue + s.strand == Posts(es)
            && |s.written| == Completed(es) && |s.written + s.queue| == Ran(es)
            && Progressed(es) <= |Flatten(Posts(es))|
            && Inv(s) && Emitted(s) == Flatten(Posts(es))[..Progressed(es)]
            && s.outstanding <= 1
            && (Failed !in es ==> (s.outstanding == 1 <==> s.queue != []))
            && (Failed in es ==> s.outstanding == 0 && s.queue != [])
  {
    RunKeeps(Idle, es);
    RunCounts(Idle, es);
    var s := Run(Idle, es);
    assert Posted(s) == [] + Posts(es) == Posts(es);
    EmittedIsPrefix(s);
  }

  lemma {:induction false} LegalSplit(s: Pump, a: seq<Event>, b: seq<Event>)
    requires Legal(s, a + b)
    ensures Legal(s, a) && Legal(Run(s, a), b) && Run(s, a + b) == Run(Run(s, a), b)
    decreases |a|
  {
    if a == [] {
      assert a + b == b;
    } else {
      assert (a + b)[1..] == a[1..] + b;
      LegalSplit(Step(s, a[0]), a[1..], b);
    }
  }

  /** Once a write has failed, no later post puts another byte into the socket. */
  lemma FailureIsForever(before: seq<Event>, after: seq<Event>)
    requires Legal(Idle, before + after) && Failed in before
    ensures Legal(Idle, before) && Inv(Run(Idle, before)) && Inv(Run(Idle, before + after))
    ensures Emitted(Run(Idle, before + after)) == Emitted(Run(Idle, before))
    ensures Run(Idle, before + after).outstanding == 0
  {
    LegalSplit(Idle, before, after);
    RunKeeps(Idle, before);
    StalledRun(Run(Idle, before), after);
  }

  /** The write side of `TcpClient` and of `Connection`, with the socket's share of the state beside it. */
  class WriteQueue {
    var strand: seq<Frame>
    var queue: seq<Frame>
    var outstanding: nat
    ghost var progress: nat
    ghost var written: seq<Frame>

    ghost function State(): Pump
      reads this
    {
      Pump(strand, queue, outstanding, progress, written)
    }

    constructor ()
      ensures State() == Idle
    {
      strand, queue, outstanding, progress, written := [], [], 0, 0, [];
    }

    /** `sendPacket`: posts a closure to the strand. */
    method SendPacket(serialized: Frame)
      requires Inv(State())
      modifies this
      ensures Inv(State()) && State() == Step(old(State()), Post(serialized))
    {
      strand := strand + [serialized];
    }

    /** The posted closure runs. */
    method RunNext()
      requires Inv(State()) && strand != []
      modifies this
      ensures Inv(State()) && State() == Step(old(State()), RunPosted)
    {
      var writeInProgress := queue != [];
      queue := queue + [strand[0]];
      strand := strand[1..];
      if !writeInProgress {
        DoWrite();
      }
    }

    /** `doWrite`: starts a write of the front frame. */
    method DoWrite()
      modifies this`outstanding, this`progress
      ensures outstanding == old(outstanding) + 1 && progress == 0
    {
      outstanding, progress := outstanding + 1, 0;
    }

    /** The completion handler of `doWrite`. */
    method OnWritten(error: bool)
      requires Inv(State()) && outstanding > 0 && (!error ==> progress == |queue[0]|)
      modifies this
      ensures Inv(State()) && State() == Step(old(State()), if error then Failed else Written)
    {
      outstanding := outstanding - 1;
      if !error {
        written := written + [queue[0]];
        queue, progress := queue[1..], 0;
        if queue != [] {
          DoWrite();
        }
      }
    }
  }
}
