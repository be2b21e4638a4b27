/** Request timeouts in claude/asio_server.cpp: one timer, armed by a flag, that checks every 100 ms. */
module ServerTimeouts {
  import opened Bytes
  import opened Expiry

  const PERIOD: int := 100

  /** A request reported to the timeout callback at time `at`. */
  datatype Report = Report(sequence: U32, expiry: int, since: int, at: int)

  /**
   * `arming`: calls of `sendRequest` that have registered and not yet tested the flag. `running` is
   * `timeoutTimerRunning_`. `gap`: `checkTimeouts` has found nothing pending, released the mutex and
   * not yet cleared the flag. `since` records when each request was registered.
   */
  datatype Server = Server(clock: int, pending: map<U32, int>, since: map<U32, int>, arming: nat,
                           running: bool, timer: Timer, gap: bool, reports: seq<Report>)

  datatype Event =
    | Advance(now: int)
    | Register(sequence: U32, timeout: int)
    | Arm
    | Sweep(order: seq<U32>)     // the timer fires: checkTimeouts up to the end of its locked block
    | Reset                      // checkTimeouts clears the flag
    | Settle(sequence: U32)      // a response arrived, or cancelRequest

  function Fresh(now: int): Server {
    Server(now, map[], map[], 0, false, Unarmed, false, [])
  }

  /** Ideal ticks: the clock never passes a due timer, nor a call of `sendRequest` half way through. */
  ghost predicate Enabled(s: Server, e: Event) {
    match e
    case Advance(now) => s.clock <= now && s.arming == 0 && (s.timer.Armed? ==> now <= s.timer.at)
    case Register(q, _) => q !in s.pending
    case Arm => s.arming > 0
    case Sweep(order) => s.timer.Armed? && s.timer.at <= s.clock && IsSweep(s.pending, s.clock, order)
    case Reset => s.gap
    case Settle(_) => true
  }

  function ReportAll(s: Server, order: seq<U32>): (r: seq<Report>)
    requires forall q | q in order :: q in s.pending && q in s.since
    ensures |r| == |order|
  {
    seq(|order|, i requires 0 <= i < |order| => Report(order[i], s.pending[order[i]], s.since[order[i]], s.clock))
  }

  ghost predicate Recorded(s: Server) {
    s.pending.Keys <= s.since.Keys
  }

  function Step(s: Server, e: Event): Server
    requires Recorded(s) && Enabled(s, e)
  {
    match e
    case Advance(now) => s.(clock := now)
    case Register(q, timeout) =>
      s.(pending := s.pending[q := s.clock + timeout], since := s.since[q := s.clock], arming := s.arming + 1)
    case Arm =>
      if s.running then s.(arming := s.arming - 1)
      else s.(arming := s.arming - 1, running := true, timer := Armed(s.clock + PERIOD))
    case Sweep(order) =>
      var left := EraseAll(s.pending, order);
      s.(pending := left, reports := s.reports + ReportAll(s, order),
         timer := if left != map[] then Armed(s.clock + PERIOD) else Unarmed, gap := left == map[])
    case Reset => s.(gap := false, running := false)
    case Settle(q) => s.(pending := s.pending - {q})
  }

  // ----- the flag -----

  /** What every run keeps, racing or not. */
  ghost predicate FlagInv(s: Server) {
    && Recorded(s)
    && (s.running <==> s.timer.Armed? || s.gap)
    && (s.gap ==> s.timer == Unarmed)
  }

  lemma StepKeepsFlag(s: Server, e: Event)
    requires FlagInv(s) && Enabled(s, e)
    ensures FlagInv(Step(s, e))
  {
  }

  // ----- latency -----

  function Max(a: int, b: int): int {
    if a < b then b else a
  }

  /** From when on request `q` has to be reported. */
  function Due(s: Server, q: U32): int
    requires q in s.pending && q in s.since
  {
    Max(s.pending[q], s.since[q])
  }

  /** The latest time at which request `q` may still be unreported. */
  function Limit(s: Server, q: U32): int
    requires q in s.pending && q in s.since
  {
    Due(s, q) + PERIOD
  }

  /** The flag, the timer and the clock in every run, racing or not. */
  ghost predicate ClockInv(s: Server) {
    && FlagInv(s)
    && (s.timer.Armed? ==> s.clock <= s.timer.at <= s.clock + PERIOD)
    && (forall q | q in s.pending :: s.since[q] <= s.clock)
    && (forall r | r in s.reports :: r.expiry <= r.at)
  }

  /** Without a timer, some caller is still to test the flag. */
  predicate Attended(s: Server) {
    s.pending != map[] && s.timer == Unarmed ==> s.arming > 0
  }

  /**
   * The one interleaving that loses the timer: between the two locked blocks of `checkTimeouts` a caller
   * tests the flag, with a request pending and no other caller still to test it.
   */
  predicate LosesTimer(s: Server, e: Event) {
    e.Arm? && s.gap && s.arming == 1 && s.pending != map[]
  }

  /** The one step that makes request `q` late: the clock passes the time it is due with no timer set. */
  predicate LeavesBehind(s: Server, e: Event, q: U32)
    requires Recorded(s)
  {
    e.Advance? && q in s.pending && s.timer == Unarmed && e.now > Due(s, q)
  }

  /** The timer will find request `q` in time, or can still be set in time. */
  predicate InTime(s: Server, q: U32)
    requires q in s.pending && q in s.since
  {
    if s.timer.Armed? then s.timer.at <= Limit(s, q) else s.clock <= Due(s, q)
  }

  lemma SweepKeepsClock(s: Server, order: seq<U32>)
    requires ClockInv(s) && Enabled(s, Sweep(order))
    ensures ClockInv(Step(s, Sweep(order)))
    ensures forall q | q in Step(s, Sweep(order)).pending :: s.clock < s.pending[q]
  {
    var s' := Step(s, Sweep(order));
    forall r | r in s'.reports
      ensures r.expiry <= r.at
    {
      if r !in s.reports {
        var i :| 0 <= i < |order| && r == ReportAll(s, order)[i];
        assert order[i] in order;
      }
    }
    forall q | q in s'.pending
      ensures s.clock < s.pending[q]
    {
      assert q !in order;
    }
  }

  lemma StepKeepsClock(s: Server, e: Event)
    requires ClockInv(s) && Enabled(s, e)
    ensures ClockInv(Step(s, e))
  {
    if e.Sweep? {
      SweepKeepsClock(s, e.order);
    }
  }

  lemma StepAttended(s: Server, e: Event)
    requires FlagInv(s) && Attended(s) && Enabled(s, e)
    ensures Attended(Step(s, e)) <==> !LosesTimer(s, e)
  {
  }

  /** A registered request is in time, and stays so as long as it is pending and not left behind. */
  lemma StepInTime(s: Server, e: Event, q: U32)
    requires ClockInv(s) && Enabled(s, e) && q in Step(s, e).pending
    requires q in s.pending ==> InTime(s, q) && !LeavesBehind(s, e, q)
    ensures q in Step(s, e).since && InTime(Step(s, e), q)
  {
    if e.Sweep? {
      SweepKeepsClock(s, e.order);
    }
  }

  /** What a sweep reports of a request that is in time. */
  lemma SweepReports(s: Server, order: seq<U32>, k: nat)
    requires ClockInv(s) && Enabled(s, Sweep(order)) && k < |order|
    ensures order[k] in s.pending
    ensures InTime(s, order[k]) ==>
              var r := ReportAll(s, order)[k]; s.pending[order[k]] == r.expiry <= r.at <= Limit(s, order[k])
  {
    assert order[k] in order;
  }

  // ----- whole runs -----

  ghost predicate Legal(s: Server, es: seq<Event>)
    requires FlagInv(s)
    decreases |es|
  {
    es == [] || (Enabled(s, es[0]) && (StepKeepsFlag(s, es[0]); Legal(Step(s, es[0]), es[1..])))
  }

  ghost function Run(s: Server, es: seq<Event>): (d: Server)
    requires FlagInv(s) && Legal(s, es)
    ensures FlagInv(d)
    decreases |es|
  {
    if es == [] then s else (StepKeepsFlag(s, es[0]); Run(Step(s, es[0]), es[1..]))
  }

  ghost predicate RaceFree(s: Server, es: seq<Event>)
    requires FlagInv(s) && Legal(s, es)
    decreases |es|
  {
    es == [] || (!LosesTimer(s, es[0]) && (StepKeepsFlag(s, es[0]); RaceFree(Step(s, es[0]), es[1..])))
  }

  /** Pending requests whose callers have all tested the flag have a timer. */
  predicate Covered(s: Server) {
    s.pending != map[] && s.arming == 0 ==> s.timer.Armed?
  }

  /** `Covered` in every state of the run. */
  ghost predicate AlwaysCovered(s: Server, es: seq<Event>)
    requires FlagInv(s) && Legal(s, es)
    decreases |es|
  {
    Covered(s) && (es == [] || (StepKeepsFlag(s, es[0]); AlwaysCovered(Step(s, es[0]), es[1..])))
  }

  lemma {:induction false} CoveredIffRaceFree(s: Server, es: seq<Event>)
    requires FlagInv(s) && Attended(s) && Legal(s, es)
    ensures AlwaysCovered(s, es) <==> RaceFree(s, es)
    decreases |es|
  {
    if es != [] {
      StepKeepsFlag(s, es[0]);
      StepAttended(s, es[0]);
      if !LosesTimer(s, es[0]) {
        CoveredIffRaceFree(Step(s, es[0]), es[1..]);
      } else {
        UncoveredAtOnce(Step(s, es[0]), es[1..]);
      }
    }
  }

  lemma UncoveredAtOnce(s: Server, es: seq<Event>)
    requires FlagInv(s) && Legal(s, es) && !Covered(s)
    ensures !AlwaysCovered(s, es)
  {
  }

  /** In every run: pending requests always have their timer if and only if that interleaving does not occur. */
  lemma TimerIffNoRace(now: int, es: seq<Event>)
    requires Legal(Fresh(now), es)
    ensures AlwaysCovered(Fresh(now), es) <==> RaceFree(Fresh(now), es)
  {
    CoveredIffRaceFree(Fresh(now), es);
  }

  lemma {:induction false} RunKeepsClock(s: Server, es: seq<Event>)
    requires ClockInv(s) && Legal(s, es)
    ensures ClockInv(Run(s, es)) && s.reports <= Run(s, es).reports
    decreases |es|
  {
    if es != [] {
      StepKeepsClock(s, es[0]);
      RunKeepsClock(Step(s, es[0]), es[1..]);
    }
  }

  /** The clock never passes the time at which a pending request is due with no timer set. */
  ghost predicate NobodyLeftBehind(s: Server, es: seq<Event>)
    requires FlagInv(s) && Legal(s, es)
    decreases |es|
  {
    es == [] ||
    (&& (forall q | q in s.pending :: !LeavesBehind(s, es[0], q))
     && (StepKeepsFlag(s, es[0]); NobodyLeftBehind(Step(s, es[0]), es[1..])))
  }

  lemma {:induction false} RaceFreeLeavesNobody(s: Server, es: seq<Event>)
    requires FlagInv(s) && Attended(s) && Legal(s, es) && RaceFree(s, es)
    ensures NobodyLeftBehind(s, es) && Attended(Run(s, es))
    decreases |es|
  {
    if es != [] {
      StepKeepsFlag(s, es[0]);
      StepAttended(s, es[0]);
      RaceFreeLeavesNobody(Step(s, es[0]), es[1..]);
    }
  }

  /** Everything pending is in time, and everything reported was. */
  ghost predicate OnSchedule(s: Server) {
    && ClockInv(s)
    && (forall q | q in s.pending :: InTime(s, q))
    && (forall r | r in s.reports :: r.at <= Max(r.expiry, r.since) + PERIOD)
  }

  lemma StepOnSchedule(s: Server, e: Event)
    requires OnSchedule(s) && Enabled(s, e) && forall q | q in s.pending :: !LeavesBehind(s, e, q)
    ensures OnSchedule(Step(s, e))
  {
    var s' := Step(s, e);
    StepKeepsClock(s, e);
    forall q | q in s'.pending
      ensures InTime(s', q)
    {
      StepInTime(s, e, q);
    }
    forall r | r in s'.reports && r !in s.reports
      ensures r.at <= Max(r.expiry, r.since) + PERIOD
    {
      var k :| 0 <= k < |e.order| && r == ReportAll(s, e.order)[k];
      SweepReports(s, e.order, k);
    }
  }

  lemma {:induction false} RunOnSchedule(s: Server, es: seq<Event>)
    requires OnSchedule(s) && Legal(s, es) && NobodyLeftBehind(s, es)
    ensures OnSchedule(Run(s, es))
    decreases |es|
  {
    if es != [] {
      StepOnSchedule(s, es[0]);
      RunOnSchedule(Step(s, es[0]), es[1..]);
    }
  }

  /**
   * In every run no request is reported before its expiry. Unless the clock passes a pending request with no
   * timer set, every report comes at most 100 ms after the request was due and nothing pending is overdue.
   * A race-free run leaves nobody behind, and pending requests mean a timer due within 100 ms.
   */
  lemma BoundedLatency(now: int, es: seq<Event>)
    requires Legal(Fresh(now), es)
    ensures var s := Run(Fresh(now), es);
            && (forall r | r in s.reports :: r.expiry <= r.at)
            && (NobodyLeftBehind(Fresh(now), es) ==>
                  && (forall r | r in s.reports :: r.at <= Max(r.expiry, r.since) + PERIOD)
                  && (forall q | q in s.pending :: q in s.since && s.clock <= Limit(s, q)))
            && (RaceFree(Fresh(now), es) ==>
                  && NobodyLeftBehind(Fresh(now), es)
                  && (s.pending != map[] && s.arming == 0 ==>
                        s.running && s.timer.Armed? && s.clock <= s.timer.at <= s.clock + PERIOD))
  {
    RunKeepsClock(Fresh(now), es);
    if RaceFree(Fresh(now), es) {
      RaceFreeLeavesNobody(Fresh(now), es);
    }
    if NobodyLeftBehind(Fresh(now), es) {
      RunOnSchedule(Fresh(now), es);
    }
  }

  // ----- the fate of one request -----

  /** Request `q`, pending in `s`, is left behind by a step before it leaves the map. */
  ghost predicate LeftBehind(s: Server, es: seq<Event>, q: U32)
    requires FlagInv(s) && Legal(s, es)
    decreases |es|
  {
    && es != [] && q in s.pending
    && (|| LeavesBehind(s, es[0], q)
        || (StepKeepsFlag(s, es[0]); LeftBehind(Step(s, es[0]), es[1..], q)))
  }

  /** No caller loses the timer while request `q` is pending. */
  ghost predicate RaceFreeFor(s: Server, es: seq<Event>, q: U32)
    requires FlagInv(s) && Legal(s, es)
    decreases |es|
  {
    es == [] || q !in s.pending
    || (!LosesTimer(s, es[0]) && (StepKeepsFlag(s, es[0]); RaceFreeFor(Step(s, es[0]), es[1..], q)))
  }

  /** Among the reports from number `first` on is one for `q`, made between `expiry` and `limit`. */
  ghost predicate ReportedBy(d: Server, first: nat, q: U32, expiry: int, limit: int) {
    exists k :: first <= k < |d.reports| && d.reports[k].sequence == q && d.reports[k].expiry == expiry
                && expiry <= d.reports[k].at <= limit
  }

  /** Once the timer is late for a request due at `due`, whatever is reported from then on is. */
  lemma {:induction false} LateReports(s: Server, es: seq<Event>, due: int)
    requires ClockInv(s) && Legal(s, es) && s.clock > due && (s.timer.Armed? ==> s.timer.at > due + PERIOD)
    ensures |s.reports| <= |Run(s, es).reports|
    ensures forall k | |s.reports| <= k < |Run(s, es).reports| :: Run(s, es).reports[k].at > due + PERIOD
    decreases |es|
  {
    if es != [] {
      var next := Step(s, es[0]);
      StepKeepsClock(s, es[0]);
      LateReports(next, es[1..], due);
      RunKeepsClock(next, es[1..]);
      assert forall k | |s.reports| <= k < |next.reports| :: next.reports[k].at == s.clock;
    }
  }

  /** A step that keeps `q` pending reports nothing for it. */
  lemma StepReportsOthers(s: Server, e: Event, q: U32)
    requires FlagInv(s) && Enabled(s, e) && q in s.pending && q in Step(s, e).pending
    ensures forall k | |s.reports| <= k < |Step(s, e).reports| :: Step(s, e).reports[k].sequence != q
    ensures q in Step(s, e).since && Step(s, e).pending[q] == s.pending[q] && Step(s, e).since[q] == s.since[q]
  {
    if e.Sweep? {
      forall k | 0 <= k < |e.order|
        ensures ReportAll(s, e.order)[k].sequence != q
      {
        assert e.order[k] in e.order;
      }
    }
  }

  lemma {:induction false} Decided(s: Server, es: seq<Event>, q: U32)
    requires ClockInv(s) && Legal(s, es) && q in s.pending && InTime(s, q) && Settle(q) !in es
    requires Run(s, es).clock > Limit(s, q)
    ensures ReportedBy(Run(s, es), |s.reports|, q, s.pending[q], Limit(s, q)) <==> !LeftBehind(s, es, q)
    decreases |es|
  {
    if es != [] {
      var next := Step(s, es[0]);
      StepKeepsClock(s, es[0]);
      RunKeepsClock(next, es[1..]);
      if LeavesBehind(s, es[0], q) {
        LateReports(next, es[1..], Due(s, q));
      } else if q in next.pending {
        StepReportsOthers(s, es[0], q);
        StepInTime(s, es[0], q);
        Decided(next, es[1..], q);
        SameReports(s, next, Run(next, es[1..]), q, s.pending[q], Limit(s, q));
      } else {
        SweptInTime(s, es, q);
      }
    }
  }

  lemma SameReports(s: Server, next: Server, d: Server, q: U32, expiry: int, limit: int)
    requires s.reports <= next.reports <= d.reports
    requires forall k | |s.reports| <= k < |next.reports| :: next.reports[k].sequence != q
    ensures ReportedBy(d, |s.reports|, q, expiry, limit) <==> ReportedBy(d, |next.reports|, q, expiry, limit)
  {
  }

  lemma SweptInTime(s: Server, es: seq<Event>, q: U32)
    requires ClockInv(s) && Legal(s, es) && q in s.pending && InTime(s, q)
    requires es != [] && es[0] != Settle(q) && q !in Step(s, es[0]).pending
    ensures ReportedBy(Run(s, es), |s.reports|, q, s.pending[q], Limit(s, q))
  {
    var order := es[0].order;
    var k :| 0 <= k < |order| && order[k] == q;
    SweepReports(s, order, k);
    StepKeepsClock(s, es[0]);
    RunKeepsClock(Step(s, es[0]), es[1..]);
    assert Run(s, es).reports[|s.reports| + k] == ReportAll(s, order)[k];
  }

  lemma {:induction false} RaceFreeIsEnough(s: Server, es: seq<Event>, q: U32)
    requires FlagInv(s) && Attended(s) && Legal(s, es) && RaceFreeFor(s, es, q)
    ensures !LeftBehind(s, es, q)
    decreases |es|
  {
    if es != [] && q in s.pending {
      StepKeepsFlag(s, es[0]);
      StepAttended(s, es[0]);
      RaceFreeIsEnough(Step(s, es[0]), es[1..], q);
    }
  }

  /**
   * After any history: a request that is neither answered nor cancelled has been reported between its expiry
   * and its limit, once the clock is past that, if and only if the clock did not pass the time it was due
   * with no timer set. So it has if no caller lost the timer while it was pending, whatever happened before.
   */
  lemma ReportedInTime(now: int, before: seq<Event>, q: U32, timeout: int, after: seq<Event>)
    requires Legal(Fresh(now), before) && q !in Run(Fresh(now), before).pending
    requires Legal(Registered(now, before, q, timeout), after)
    requires Settle(q) !in after
    requires Run(Registered(now, before, q, timeout), after).clock > Limit(Registered(now, before, q, timeout), q)
    ensures var s := Registered(now, before, q, timeout);
            var d := Run(s, after);
            && (ReportedBy(d, |s.reports|, q, s.clock + timeout, Limit(s, q)) <==> !LeftBehind(s, after, q))
            && (RaceFreeFor(s, after, q) ==> !LeftBehind(s, after, q))
  {
    RunKeepsClock(Fresh(now), before);
    var s := Registered(now, before, q, timeout);
    StepKeepsClock(Run(Fresh(now), before), Register(q, timeout));
    Decided(s, after, q);
    if RaceFreeFor(s, after, q) {
      RaceFreeIsEnough(s, after, q);
    }
  }

  /** The state in which `sendRequest` leaves its first locked block. */
  ghost function Registered(now: int, before: seq<Event>, q: U32, timeout: int): (s: Server)
    requires Legal(Fresh(now), before) && q !in Run(Fresh(now), before).pending
    ensures FlagInv(s) && q in s.pending
  {
    Step(Run(Fresh(now), before), Register(q, timeout))
  }

  /** No timer, none coming, and a request that waits for one. */
  predicate Orphaned(s: Server) {
    s.pending != map[] && s.timer == Unarmed && s.arming == 0 && !s.gap
  }

  /** How late the clock has to get for request `q` to be overdue. */
  function Overdue(s: Server, q: U32): int
    requires q in s.pending && q in s.since
  {
    Max(s.clock, Limit(s, q)) + 1
  }

  /**
   * From a step that loses the timer, in whatever run, the flag reset and the passing of time alone leave
   * every pending request behind, past its limit, with no timer set.
   */
  lemma RaceBreaksBound(s: Server, q: U32)
    requires ClockInv(s) && LosesTimer(s, Arm) && q in s.pending
    ensures var es := [Arm, Reset, Advance(Overdue(s, q))];
            && Legal(s, es)
            && LeftBehind(s, es, q)
            && Orphaned(Run(s, es))
            && q in Run(s, es).pending && q in Run(s, es).since && Run(s, es).clock > Limit(Run(s, es), q)
  {
    var late := Advance(Overdue(s, q));
    var a := Step(s, Arm);
    var b := Step(a, Reset);
    Prepend(b, late, []);
    assert LeftBehind(b, [late] + [], q);
    Prepend(a, Reset, [late]);
    assert ([Reset] + [late])[1..] == [late];
    assert LeftBehind(a, [Reset] + [late], q);
    Prepend(s, Arm, [Reset, late]);
    assert ([Arm] + [Reset, late])[1..] == [Reset, late];
    assert [late] + [] == [late] && [Reset] + [late] == [Reset, late] && [Arm] + [Reset, late] == [Arm, Reset, late];
  }

  /** An orphaned request is not reported, however late it gets, until another request comes. */
  lemma {:induction false} OrphanIsNeverReported(s: Server, es: seq<Event>)
    requires FlagInv(s) && s.timer == Unarmed && s.arming == 0 && !s.gap
    requires Legal(s, es) && forall e | e in es :: !e.Register?
    ensures Run(s, es).reports == s.reports && Run(s, es).timer == Unarmed
    decreases |es|
  {
    if es != [] {
      assert es[0] in es;
      OrphanIsNeverReported(Step(s, es[0]), es[1..]);
    }
  }

  /** The race is reachable: the second request arrives while the first one's sweep is closing. */
  lemma RaceIsReachable()
    ensures exists es :: Legal(Fresh(0), es) && Orphaned(Run(Fresh(0), es)) && 2 in Run(Fresh(0), es).pending
  {
    var s0 := Fresh(0);
    var s1 := Step(s0, Register(1, 50));
    var s2 := Step(s1, Arm);
    var s3 := Step(s2, Advance(100));
    assert IsSweep(s3.pending, 100, [1]);
    assert EraseAll(s3.pending, [1]) == map[];
    var s4 := Step(s3, Sweep([1]));
    var s5 := Step(s4, Register(2, 50));
    var s6 := Step(s5, Arm);
    var s7 := Step(s6, Reset);
    var e7: seq<Event> := [];
    var e6 := [Reset] + e7;
    var e5 := [Arm] + e6;
    var e4 := [Register(2, 50)] + e5;
    var e3 := [Sweep([1])] + e4;
    var e2 := [Advance(100)] + e3;
    var e1 := [Arm] + e2;
    var e0 := [Register(1, 50)] + e1;
    Prepend(s6, Reset, e7);
    Prepend(s5, Arm, e6);
    Prepend(s4, Register(2, 50), e5);
    Prepend(s3, Sweep([1]), e4);
    Prepend(s2, Advance(100), e3);
    Prepend(s1, Arm, e2);
    Prepend(s0, Register(1, 50), e1);
    assert Run(s0, e0) == s7;
  }

  lemma Prepend(s: Server, e: Event, rest: seq<Event>)
    requires FlagInv(s) && Enabled(s, e) && FlagInv(Step(s, e)) && Legal(Step(s, e), rest)
    ensures Legal(s, [e] + rest) && Run(s, [e] + rest) == Run(Step(s, e), rest)
  {
    assert ([e] + rest)[1..] == rest;
  }

  // ----- what the events alone say -----

  lemma {:induction false} RunSnoc(s: Server, es: seq<Event>)
    requires FlagInv(s) && Legal(s, es) && es != []
    ensures var init, last := es[..|es| - 1], es[|es| - 1];
            Legal(s, init) && Enabled(Run(s, init), last) && Run(s, es) == Step(Run(s, init), last)
    decreases |es|
  {
    var init := es[..|es| - 1];
    if |es| > 1 {
      StepKeepsFlag(s, es[0]);
      RunSnoc(Step(s, es[0]), es[1..]);
      assert es[1..][..|es| - 2] == init[1..];
    }
  }

  lemma {:induction false} PrefixLegal(s: Server, es: seq<Event>, k: nat)
    requires FlagInv(s) && Legal(s, es) && k < |es|
    ensures Legal(s, es[..k]) && Enabled(Run(s, es[..k]), es[k])
    ensures Legal(s, es[..k + 1]) && Run(s, es[..k + 1]) == Step(Run(s, es[..k]), es[k])
    decreases |es|
  {
    RunSnoc(s, es);
    if k == |es| - 1 {
      assert es[..k + 1] == es;
    } else {
      PrefixLegal(s, es[..|es| - 1], k);
      assert es[..|es| - 1][..k] == es[..k] && es[..|es| - 1][..k + 1] == es[..k + 1];
    }
  }

  /** The time of the last `Advance`. */
  function ClockOf(now: int, es: seq<Event>): int
    decreases |es|
  {
    if es == [] then now
    else if es[|es| - 1].Advance? then es[|es| - 1].now
    else ClockOf(now, es[..|es| - 1])
  }

  predicate RegisteredAt(es: seq<Event>, q: U32, j: nat) {
    j < |es| && es[j].Register? && es[j].sequence == q
  }

  /** A cancel, a response, or a sweep that reports `q`. */
  predicate Removes(e: Event, q: U32) {
    e == Settle(q) || (e.Sweep? && q in e.order)
  }

  predicate OpenFrom(es: seq<Event>, q: U32, j: nat) {
    forall k | j <= k < |es| :: !Removes(es[k], q)
  }

  ghost predicate RegisteredSince(es: seq<Event>, q: U32) {
    exists j: nat :: RegisteredAt(es, q, j) && OpenFrom(es, q, j)
  }

  lemma {:induction false} ClockLaw(now: int, es: seq<Event>)
    requires Legal(Fresh(now), es)
    ensures Run(Fresh(now), es).clock == ClockOf(now, es)
    decreases |es|
  {
    if es != [] {
      RunSnoc(Fresh(now), es);
      ClockLaw(now, es[..|es| - 1]);
    }
  }

  /** A request registered by event `j` and not removed since is pending, with the times of that event. */
  lemma {:induction false} OpenIsPending(now: int, es: seq<Event>, q: U32, j: nat)
    requires Legal(Fresh(now), es) && RegisteredAt(es, q, j) && OpenFrom(es, q, j)
    ensures var s := Run(Fresh(now), es);
            && q in s.pending && q in s.since
            && s.pending[q] == ClockOf(now, es[..j]) + es[j].timeout && s.since[q] == ClockOf(now, es[..j])
    decreases |es|
  {
    var n := |es| - 1;
    var init := es[..n];
    RunSnoc(Fresh(now), es);
    if j == n {
      ClockLaw(now, init);
    } else {
      assert RegisteredAt(init, q, j) && OpenFrom(init, q, j) && init[..j] == es[..j];
      OpenIsPending(now, init, q, j);
      assert !Removes(es[n], q);
    }
  }

  lemma {:induction false} PendingIsOpen(now: int, es: seq<Event>, q: U32)
    requires Legal(Fresh(now), es) && q in Run(Fresh(now), es).pending
    ensures RegisteredSince(es, q)
    decreases |es|
  {
    var n := |es| - 1;
    RunSnoc(Fresh(now), es);
    var init, s := es[..n], Run(Fresh(now), es[..n]);
    assert !Removes(es[n], q);
    if RegisteredAt(es, q, n) {
      assert OpenFrom(es, q, n);
    } else {
      assert q in s.pending;
      PendingIsOpen(now, init, q);
      var j: nat :| RegisteredAt(init, q, j) && OpenFrom(init, q, j);
      assert RegisteredAt(es, q, j) && OpenFrom(es, q, j);
    }
  }

  /**
   * In every run a request is pending if and only if some event registered it and no cancel, response or
   * sweep that reports it came since; and it expires its timeout after that event.
   */
  lemma PendingIffRegistered(now: int, es: seq<Event>, q: U32)
    requires Legal(Fresh(now), es)
    ensures q in Run(Fresh(now), es).pending <==> RegisteredSince(es, q)
    ensures forall j: nat | RegisteredAt(es, q, j) && OpenFrom(es, q, j) ::
              q in Run(Fresh(now), es).pending && Run(Fresh(now), es).pending[q] == ClockOf(now, es[..j]) + es[j].timeout
  {
    if q in Run(Fresh(now), es).pending {
      PendingIsOpen(now, es, q);
    }
    forall j: nat | RegisteredAt(es, q, j) && OpenFrom(es, q, j)
      ensures q in Run(Fresh(now), es).pending
      ensures Run(Fresh(now), es).pending[q] == ClockOf(now, es[..j]) + es[j].timeout
    {
      OpenIsPending(now, es, q, j);
    }
  }

  /** An answered or cancelled request is not reported until it is registered again. */
  lemma SettledIsNotReported(now: int, es: seq<Event>, q: U32, k: nat, m: nat)
    requires Legal(Fresh(now), es) && k < m < |es| && es[k] == Settle(q) && es[m].Sweep?
    requires forall i | k < i < m :: !RegisteredAt(es, q, i)
    ensures q !in es[m].order
  {
    PrefixLegal(Fresh(now), es, m);
    if q in es[m].order {
      PendingIsOpen(now, es[..m], q);
      var j: nat :| RegisteredAt(es[..m], q, j) && OpenFrom(es[..m], q, j);
      assert RegisteredAt(es, q, j) && Removes(es[..m][k], q);
    }
  }

  /** The numbers that the sweeps report, in order. */
  function Swept(es: seq<Event>): seq<U32>
    decreases |es|
  {
    if es == [] then [] else Swept(es[..|es| - 1]) + if es[|es| - 1].Sweep? then es[|es| - 1].order else []
  }

  lemma {:induction false} ReportCount(now: int, es: seq<Event>, k: nat)
    requires Legal(Fresh(now), es) && k <= |es|
    ensures |Run(Fresh(now), es).reports| == |Swept(es)|
    ensures Legal(Fresh(now), es[..k]) && Run(Fresh(now), es[..k]).reports <= Run(Fresh(now), es).reports
    decreases |es|
  {
    if k == |es| {
      assert es[..k] == es;
    }
    if es != [] {
      RunSnoc(Fresh(now), es);
      var init := es[..|es| - 1];
      ReportCount(now, init, if k < |es| then k else 0);
      assert k < |es| ==> init[..k] == es[..k];
    }
  }

  /**
   * The reports are those of the sweeps, in order and nothing else: number i of the sweep at event `k` says
   * when the request was registered, by the event `j` that it goes back to, when it expired, and when it
   * was reported.
   */
  lemma ReportLaw(now: int, es: seq<Event>, k: nat, i: nat, j: nat)
    requires Legal(Fresh(now), es) && k < |es| && es[k].Sweep? && i < |es[k].order|
    requires RegisteredAt(es[..k], es[k].order[i], j) && OpenFrom(es[..k], es[k].order[i], j)
    ensures var at := |Swept(es[..k])| + i;
            var since := ClockOf(now, es[..j]);
            && at < |Run(Fresh(now), es).reports| == |Swept(es)|
            && Run(Fresh(now), es).reports[at] ==
               Report(es[k].order[i], since + es[j].timeout, since, ClockOf(now, es[..k]))
  {
    PrefixLegal(Fresh(now), es, k);
    ReportCount(now, es, k + 1);
    ReportCount(now, es[..k], 0);
    ClockLaw(now, es[..k]);
    OpenIsPending(now, es[..k], es[k].order[i], j);
    assert es[..k][..j] == es[..j];
    var s := Run(Fresh(now), es[..k]);
    assert Step(s, es[k]).reports[|s.reports| + i] == ReportAll(s, es[k].order)[i];
  }

  /** An armed timer was set exactly 100 ms ahead, by a caller or by the last sweep. */
  lemma {:induction false} TimerLaw(now: int, es: seq<Event>) returns (k: nat)
    requires Legal(Fresh(now), es) && Run(Fresh(now), es).timer.Armed?
    ensures k < |es| && (es[k].Arm? || es[k].Sweep?) && forall m | k < m < |es| :: !es[m].Sweep?
    ensures Run(Fresh(now), es).timer.at == ClockOf(now, es[..k]) + 100
    decreases |es|
  {
    var n := |es| - 1;
    RunSnoc(Fresh(now), es);
    var init, s := es[..n], Run(Fresh(now), es[..n]);
    if es[n].Sweep? || (es[n].Arm? && !s.running) {
      k := n;
      ClockLaw(now, init);
    } else {
      k := TimerLaw(now, init);
      assert init[..k] == es[..k];
    }
  }

  /** The timeout fields of `TcpServer`; each method is one locked block. */
  class TcpServer {
    var clock: int
    var pending: map<U32, int>
    ghost var since: map<U32, int>
    ghost var arming: nat
    var timeoutTimerRunning: bool
    var timer: Timer
    ghost var closing: bool
    ghost var reports: seq<Report>

    ghost function State(): Server
      reads this
    {
      Server(clock, pending, since, arming, timeoutTimerRunning, timer, closing, reports)
    }

    constructor (now: int)
      ensures State() == Fresh(now)
    {
      clock, pending, since, arming := now, map[], map[], 0;
      timeoutTimerRunning, timer, closing, reports := false, Unarmed, false, [];
    }

    /** The first locked block of `sendRequest`. */
    method RegisterRequest(q: U32, timeout: int)
      requires FlagInv(State()) && q !in pending
      modifies this
      ensures FlagInv(State()) && State() == Step(old(State()), Register(q, timeout))
    {
      pending := pending[q := clock + timeout];
      since := since[q := clock];
      arming := arming + 1;
    }

    /** The rest of `sendRequest`. */
    method ScheduleCheck()
      requires FlagInv(State()) && arming > 0
      modifies this
      ensures FlagInv(State()) && State() == Step(old(State()), Arm)
    {
      if !timeoutTimerRunning {
        timeoutTimerRunning := true;
        timer := Armed(clock + PERIOD);
      }
      arming := arming - 1;
    }

    /** `checkTimeouts` up to the end of its locked block, and the rescheduling. */
    method CheckTimeouts() returns (expired: seq<U32>)
      requires FlagInv(State()) && timer.Armed? && timer.at <= clock
      modifies this
      ensures FlagInv(State()) && old(Enabled(State(), Sweep(expired)))
      ensures State() == Step(old(State()), Sweep(expired))
    {
      expired := CollectExpired(pending, clock);
      ghost var before := State();
      for i := 0 to |expired|
        invariant State() == before.(reports := reports)
        invariant reports == before.reports + ReportAll(before, expired)[..i]
      {
        assert expired[i] in expired;
        reports := reports + [Report(expired[i], pending[expired[i]], since[expired[i]], clock)];
      }
      pending := EraseExpired(pending, expired);
      var hasPending := pending != map[];
      timer := if hasPending then Armed(clock + PERIOD) else Unarmed;
      closing := !hasPending;
    }

    /** The second locked block of `checkTimeouts`. */
    method ClearFlag()
      requires FlagInv(State()) && closing
      modifies this
      ensures FlagInv(State()) && State() == Step(old(State()), Reset)
    {
      timeoutTimerRunning, closing := false, false;
    }

    /** `cancelRequest`, and the erase in `handleIncomingPacket`. */
    method SettleRequest(q: U32) returns (erased: bool)
      requires FlagInv(State())
      modifies this
      ensures FlagInv(State()) && State() == Step(old(State()), Settle(q)) && erased == (q in old(pending))
    {
      erased := q in pending;
      pending := pending - {q};
    }
  }
}
