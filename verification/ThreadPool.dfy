/** The thread pool of claude/server.cpp: one mutex, one condition variable, a task queue, a stop flag. */
module ThreadPool {
  type Task = nat

  /**
   * A worker is asleep in `condition.wait`, awake and about to take the mutex and test the predicate,
   * running a task with the mutex released, or has returned.
   */
  datatype Worker = Asleep | Awake | Running(task: Task) | Exited

  /**
   * `notifies`: calls of `notify_one` not delivered yet. `notifyAll`: the destructor's `notify_all` is
   * still to come. `accepted`, `dequeued` and `finished` record tasks in the order of those events.
   */
  datatype Pool = Pool(workers: seq<Worker>, tasks: seq<Task>, stop: bool, notifies: nat, notifyAll: bool,
                       accepted: seq<Task>, dequeued: seq<Task>, finished: seq<Task>)

  datatype Event =
    | Enqueue(task: Task)       // the locked block of enqueue; throws once stopped
    | NotifyOne(wakes: nat)     // notify_one wakes this worker, or nobody if nobody sleeps
    | Spurious(worker: nat)
    | Check(worker: nat)        // the mutex is taken and the wait predicate tested
    | Finish(worker: nat)       // task() returns
    | Stop                      // the locked block of the destructor
    | NotifyEveryone

  function Fresh(n: nat): Pool {
    Pool(seq(n, _ => Awake), [], false, 0, false, [], [], [])
  }

  predicate Enabled(p: Pool, e: Event) {
    match e
    case Enqueue(_) => true
    case NotifyOne(i) =>
      p.notifies > 0 && if Asleep in p.workers then i < |p.workers| && p.workers[i] == Asleep else true
    case Spurious(i) => i < |p.workers| && p.workers[i] == Asleep
    case Check(i) => i < |p.workers| && p.workers[i] == Awake
    case Finish(i) => i < |p.workers| && p.workers[i].Running?
    case Stop => !p.stop
    case NotifyEveryone => p.notifyAll
  }

  function Wake(w: Worker): Worker {
    if w == Asleep then Awake else w
  }

  function WakeAll(ws: seq<Worker>): (r: seq<Worker>)
    ensures |r| == |ws|
  {
    seq(|ws|, i requires 0 <= i < |ws| => Wake(ws[i]))
  }

  function Step(p: Pool, e: Event): Pool
    requires Enabled(p, e)
  {
    match e
    case Enqueue(t) =>
      if p.stop then p else p.(tasks := p.tasks + [t], notifies := p.notifies + 1, accepted := p.accepted + [t])
    case NotifyOne(i) =>
      p.(notifies := p.notifies - 1, workers := if Asleep in p.workers then p.workers[i := Awake] else p.workers)
    case Spurious(i) => p.(workers := p.workers[i := Awake])
    case Check(i) =>
      if !p.stop && p.tasks == [] then p.(workers := p.workers[i := Asleep])
      else if p.tasks == [] then p.(workers := p.workers[i := Exited])
      else p.(workers := p.workers[i := Running(p.tasks[0])], tasks := p.tasks[1..], dequeued := p.dequeued + [p.tasks[0]])
    case Finish(i) => p.(workers := p.workers[i := Awake], finished := p.finished + [p.workers[i].task])
    case Stop => p.(stop := true, notifyAll := true)
    case NotifyEveryone => p.(notifyAll := false, workers := WakeAll(p.workers))
  }

  // ----- counting workers -----

  function AwakeCount(ws: seq<Worker>): nat {
    if ws == [] then 0 else (if ws[0] == Awake then 1 else 0) + AwakeCount(ws[1..])
  }

  function Weight(w: Worker): nat {
    match w
    case Exited => 0
    case Awake => 1
    case Asleep => 2
    case Running(_) => 2
  }

  function Weights(ws: seq<Worker>): nat {
    if ws == [] then 0 else Weight(ws[0]) + Weights(ws[1..])
  }

  ghost function HeldBy(w: Worker): multiset<Task> {
    if w.Running? then multiset{w.task} else multiset{}
  }

  /** The tasks being run. */
  ghost function Held(ws: seq<Worker>): multiset<Task> {
    if ws == [] then multiset{} else HeldBy(ws[0]) + Held(ws[1..])
  }

  lemma {:induction false} Update(ws: seq<Worker>, i: nat, w: Worker)
    requires i < |ws|
    ensures var r := ws[i := w];
            && AwakeCount(r) + (if ws[i] == Awake then 1 else 0) == AwakeCount(ws) + (if w == Awake then 1 else 0)
            && Weights(r) + Weight(ws[i]) == Weights(ws) + Weight(w)
    decreases |ws|
  {
    var r := ws[i := w];
    if i == 0 {
      assert r[1..] == ws[1..];
    } else {
      assert r[1..] == ws[1..][i - 1 := w];
      Update(ws[1..], i - 1, w);
    }
  }

  /** Exchanging `x` for `y` next to `rest`. */
  lemma Exchange(x: multiset<Task>, y: multiset<Task>, rest: multiset<Task>)
    ensures (y + rest) + x == (x + rest) + y
  {
  }

  lemma Regroup(h: multiset<Task>, rest: multiset<Task>, x: multiset<Task>)
    ensures (h + rest) + x == h + (rest + x)
  {
  }

  lemma {:induction false} UpdateHeld(ws: seq<Worker>, i: nat, w: Worker)
    requires i < |ws|
    ensures Held(ws[i := w]) + HeldBy(ws[i]) == Held(ws) + HeldBy(w)
    decreases |ws|
  {
    var r := ws[i := w];
    var tail, tail' := Held(ws[1..]), Held(r[1..]);
    if i == 0 {
      assert r[1..] == ws[1..];
      Exchange(HeldBy(ws[0]), HeldBy(w), tail);
    } else {
      assert r[1..] == ws[1..][i - 1 := w];
      UpdateHeld(ws[1..], i - 1, w);
      Regroup(HeldBy(ws[0]), tail', HeldBy(ws[i]));
      Regroup(HeldBy(ws[0]), tail, HeldBy(w));
    }
  }

  lemma {:induction false} WakeAllCounts(ws: seq<Worker>)
    ensures AwakeCount(WakeAll(ws)) >= AwakeCount(ws)
    ensures Weights(WakeAll(ws)) <= Weights(ws)
    ensures Held(WakeAll(ws)) == Held(ws)
    ensures Asleep !in WakeAll(ws)
    decreases |ws|
  {
    if ws != [] {
      assert WakeAll(ws)[1..] == WakeAll(ws[1..]);
      WakeAllCounts(ws[1..]);
    }
  }

  lemma {:induction false} SomeAwake(ws: seq<Worker>)
    ensures AwakeCount(ws) > 0 <==> Awake in ws
    decreases |ws|
  {
    if ws != [] {
      SomeAwake(ws[1..]);
    }
  }

  lemma {:induction false} NoneHeld(ws: seq<Worker>)
    requires forall w | w in ws :: w == Exited
    ensures Held(ws) == multiset{}
    decreases |ws|
  {
    if ws != [] {
      assert ws[0] in ws && forall w | w in ws[1..] :: w in ws;
      NoneHeld(ws[1..]);
    }
  }

  // ----- invariant -----

  /** Tasks leave the queue in the order in which they entered. */
  predicate InOrder(p: Pool) {
    p.dequeued + p.tasks == p.accepted
  }

  /** Every task taken from the queue has finished or is running, and only once. */
  ghost predicate Balanced(p: Pool) {
    multiset(p.dequeued) == multiset(p.finished) + Held(p.workers)
  }

  /** No wake-up is lost: while somebody sleeps, every queued task has a wake-up under way. */
  predicate NoLostWakeup(p: Pool) {
    Asleep in p.workers ==> |p.tasks| <= p.notifies + AwakeCount(p.workers)
  }

  predicate Shutdown(p: Pool) {
    && (Exited in p.workers ==> p.stop && p.tasks == [])
    && (p.stop && !p.notifyAll ==> Asleep !in p.workers)
    && (p.notifyAll ==> p.stop)
  }

  ghost predicate Inv(p: Pool) {
    InOrder(p) && Balanced(p) && NoLostWakeup(p) && Shutdown(p)
  }

  lemma UpdateMembers(ws: seq<Worker>, i: nat, w: Worker)
    requires i < |ws|
    ensures w in ws[i := w]
    ensures forall x | x in ws[i := w] :: x in ws || x == w
  {
    assert ws[i := w][i] == w;
  }

  lemma KeepHeld(ws: seq<Worker>, i: nat, w: Worker)
    requires i < |ws| && !ws[i].Running? && !w.Running?
    ensures Held(ws[i := w]) == Held(ws)
  {
    UpdateHeld(ws, i, w);
    assert forall m: multiset<Task> :: m + multiset{} == m;
  }

  lemma BeginHeld(ws: seq<Worker>, i: nat, t: Task)
    requires i < |ws| && !ws[i].Running?
    ensures Held(ws[i := Running(t)]) == Held(ws) + multiset{t}
  {
    UpdateHeld(ws, i, Running(t));
    assert Held(ws[i := Running(t)]) + multiset{} == Held(ws[i := Running(t)]);
  }

  lemma EndHeld(ws: seq<Worker>, i: nat)
    requires i < |ws| && ws[i].Running?
    ensures Held(ws) == Held(ws[i := Awake]) + multiset{ws[i].task}
  {
    UpdateHeld(ws, i, Awake);
    assert Held(ws) + multiset{} == Held(ws);
  }

  lemma CheckBalances(p: Pool, i: nat)
    requires Balanced(p) && Enabled(p, Check(i))
    ensures Balanced(Step(p, Check(i)))
  {
    if p.tasks == [] {
      KeepHeld(p.workers, i, Step(p, Check(i)).workers[i]);
    } else {
      BeginHeld(p.workers, i, p.tasks[0]);
      assert multiset(p.dequeued + [p.tasks[0]]) == multiset(p.dequeued) + multiset{p.tasks[0]};
    }
  }

  lemma FinishBalances(p: Pool, i: nat)
    requires Balanced(p) && Enabled(p, Finish(i))
    ensures Balanced(Step(p, Finish(i)))
  {
    var t := p.workers[i].task;
    EndHeld(p.workers, i);
    assert multiset(p.finished + [t]) == multiset(p.finished) + multiset{t};
  }

  lemma StepBalances(p: Pool, e: Event)
    requires Balanced(p) && Enabled(p, e)
    ensures Balanced(Step(p, e))
  {
    match e
    case Enqueue(t) =>
    case NotifyOne(i) => if Asleep in p.workers { KeepHeld(p.workers, i, Awake); }
    case Spurious(i) => KeepHeld(p.workers, i, Awake);
    case Check(i) => CheckBalances(p, i);
    case Finish(i) => FinishBalances(p, i);
    case Stop =>
    case NotifyEveryone => WakeAllCounts(p.workers);
  }

  lemma StepQueues(p: Pool, e: Event)
    requires InOrder(p) && Enabled(p, e)
    ensures InOrder(Step(p, e))
  {
  }

  lemma CheckWakes(p: Pool, i: nat)
    requires NoLostWakeup(p) && Shutdown(p) && Enabled(p, Check(i))
    ensures NoLostWakeup(Step(p, Check(i))) && Shutdown(Step(p, Check(i)))
  {
    var w := Step(p, Check(i)).workers[i];
    Update(p.workers, i, w);
    UpdateMembers(p.workers, i, w);
  }

  /** One worker more is awake. */
  lemma WakeOne(p: Pool, i: nat)
    requires NoLostWakeup(p) && Shutdown(p) && i < |p.workers| && p.workers[i] != Awake
    ensures var q := p.(workers := p.workers[i := Awake]);
            && Shutdown(q)
            && AwakeCount(q.workers) == AwakeCount(p.workers) + 1
            && (Asleep in q.workers ==> Asleep in p.workers)
  {
    Update(p.workers, i, Awake);
    UpdateMembers(p.workers, i, Awake);
  }

  lemma NotifyAllWakes(p: Pool)
    requires Shutdown(p) && p.notifyAll
    ensures NoLostWakeup(Step(p, NotifyEveryone)) && Shutdown(Step(p, NotifyEveryone))
  {
    WakeAllCounts(p.workers);
    assert forall w | w in WakeAll(p.workers) :: w in p.workers || w == Awake;
  }

  lemma StepWakes(p: Pool, e: Event)
    requires NoLostWakeup(p) && Shutdown(p) && Enabled(p, e)
    ensures NoLostWakeup(Step(p, e)) && Shutdown(Step(p, e))
  {
    match e
    case Enqueue(t) =>
    case NotifyOne(i) => if Asleep in p.workers { WakeOne(p, i); }
    case Spurious(i) => WakeOne(p, i);
    case Check(i) => CheckWakes(p, i);
    case Finish(i) => WakeOne(p, i);
    case Stop =>
    case NotifyEveryone => NotifyAllWakes(p);
  }

  lemma StepKeeps(p: Pool, e: Event)
    requires Inv(p) && Enabled(p, e)
    ensures Inv(Step(p, e))
  {
    StepQueues(p, e);
    StepBalances(p, e);
    StepWakes(p, e);
  }

  lemma StepSize(p: Pool, e: Event)
    requires Enabled(p, e)
    ensures |Step(p, e).workers| == |p.workers|
  {
  }

  // ----- whole runs -----

  predicate Legal(p: Pool, es: seq<Event>)
    decreases |es|
  {
    es == [] || (Enabled(p, es[0]) && Legal(Step(p, es[0]), es[1..]))
  }

  function Run(p: Pool, es: seq<Event>): Pool
    requires Legal(p, es)
    decreases |es|
  {
    if es == [] then p else Run(Step(p, es[0]), es[1..])
  }

  lemma {:induction false} RunKeeps(p: Pool, es: seq<Event>)
    requires Inv(p) && Legal(p, es)
    ensures Inv(Run(p, es)) && |Run(p, es).workers| == |p.workers|
    decreases |es|
  {
    if es != [] {
      StepKeeps(p, es[0]);
      StepSize(p, es[0]);
      RunKeeps(Step(p, es[0]), es[1..]);
    }
  }

  lemma {:induction false} FreshHolds(n: nat)
    ensures Inv(Fresh(n))
  {
    if n > 0 {
      assert Fresh(n).workers[1..] == Fresh(n - 1).workers;
      FreshHolds(n - 1);
    }
  }

  /**
   * In every interleaving with at least one worker: a queued task means that some worker is awake or
   * running, or that a wake-up is still to be delivered; and while a worker sleeps there are at least
   * as many wake-ups and awake workers as queued tasks.
   */
  lemma Progress(n: nat, es: seq<Event>)
    requires n > 0 && Legal(Fresh(n), es)
    ensures var p := Run(Fresh(n), es);
            p.tasks != [] ==>
              && (p.notifies > 0 || exists w :: w in p.workers && (w == Awake || w.Running?))
              && (Asleep in p.workers ==> |p.tasks| <= p.notifies + AwakeCount(p.workers))
  {
    FreshHolds(n);
    RunKeeps(Fresh(n), es);
    var p := Run(Fresh(n), es);
    if p.tasks != [] && p.notifies == 0 {
      SomeAwake(p.workers);
      assert p.workers[0] in p.workers;
    }
  }

  /** Tasks queued, wake-ups outstanding and what the workers still have to do. */
  function Measure(p: Pool): nat {
    2 * |p.tasks| + p.notifies + (if p.notifyAll then 1 else 0) + Weights(p.workers)
  }

  /** After the stop flag is set, every step but a refused `enqueue` brings the end nearer. */
  lemma StoppedStepDecreases(p: Pool, e: Event)
    requires Inv(p) && p.stop && Enabled(p, e) && !e.Enqueue?
    ensures Step(p, e).stop && Measure(Step(p, e)) < Measure(p)
  {
    match e
    case NotifyOne(i) => if Asleep in p.workers { Update(p.workers, i, Awake); }
    case Spurious(i) => Update(p.workers, i, Awake);
    case Check(i) => Update(p.workers, i, Step(p, e).workers[i]);
    case Finish(i) => Update(p.workers, i, Awake);
    case NotifyEveryone => WakeAllCounts(p.workers);
  }

  /** After the stop flag is set, a worker that has not returned can always be brought further. */
  lemma StoppedNeverStuck(p: Pool, i: nat) returns (e: Event)
    requires Inv(p) && p.stop && i < |p.workers| && p.workers[i] != Exited
    ensures Enabled(p, e) && !e.Enqueue?
  {
    if p.workers[i] == Asleep {
      assert p.workers[i] in p.workers;
      e := NotifyEveryone;
    } else if p.workers[i] == Awake {
      e := Check(i);
    } else {
      e := Finish(i);
    }
  }

  /** From the stop flag on, a run without refused calls is bounded, so the joins return. */
  lemma {:induction false} StoppedRunIsBounded(p: Pool, es: seq<Event>)
    requires Inv(p) && p.stop && Legal(p, es) && forall e | e in es :: !e.Enqueue?
    ensures |es| <= Measure(p)
    decreases |es|
  {
    if es != [] {
      assert es[0] in es;
      StoppedStepDecreases(p, es[0]);
      StepKeeps(p, es[0]);
      StoppedRunIsBounded(Step(p, es[0]), es[1..]);
    }
  }

  /** The tasks offered ahead of the first `Stop`, in order. */
  function Offered(es: seq<Event>): seq<Task> {
    if es == [] || es[0].Stop? then []
    else (if es[0].Enqueue? then [es[0].task] else []) + Offered(es[1..])
  }

  function NotifyOnes(es: seq<Event>): nat {
    if es == [] then 0 else (if es[0].NotifyOne? then 1 else 0) + NotifyOnes(es[1..])
  }

  lemma StepRecords(p: Pool, e: Event)
    requires Enabled(p, e)
    ensures var q := Step(p, e);
            && q.stop == (p.stop || e == Stop)
            && q.accepted == p.accepted + (if e.Enqueue? && !p.stop then [e.task] else [])
            && q.notifies + (if e.NotifyOne? then 1 else 0) == p.notifies + |q.accepted| - |p.accepted|
            && p.dequeued <= q.dequeued && p.finished <= q.finished
  {
  }

  lemma {:induction false} RunAccepts(p: Pool, es: seq<Event>)
    requires Legal(p, es)
    ensures Run(p, es).stop == (p.stop || Stop in es)
    ensures Run(p, es).accepted == p.accepted + (if p.stop then [] else Offered(es))
    decreases |es|
  {
    if es != [] {
      var next, rest := Step(p, es[0]), es[1..];
      StepRecords(p, es[0]);
      RunAccepts(next, rest);
      assert Stop in es <==> es[0] == Stop || Stop in rest;
    }
  }

  lemma {:induction false} RunRecords(p: Pool, es: seq<Event>)
    requires Legal(p, es)
    ensures var q := Run(p, es);
            && q.notifies + NotifyOnes(es) == p.notifies + |q.accepted| - |p.accepted|
            && p.dequeued <= q.dequeued && p.finished <= q.finished
    decreases |es|
  {
    if es != [] {
      StepRecords(p, es[0]);
      RunRecords(Step(p, es[0]), es[1..]);
    }
  }

  predicate AllExited(p: Pool) {
    forall w | w in p.workers :: w == Exited
  }

  lemma AllExitedRanAll(p: Pool)
    requires Inv(p) && p.workers != [] && AllExited(p)
    ensures p.stop && p.tasks == [] && multiset(p.finished) == multiset(p.accepted)
  {
    assert p.workers[0] in p.workers;
    NoneHeld(p.workers);
    assert p.dequeued + [] == p.dequeued;
  }

  /**
   * In every interleaving the tasks taken so far and the queue behind them are the tasks offered ahead of the
   * stop flag, in that order, and those are the finished, the running and the queued ones. With at least
   * one worker, when all have returned the queue is empty and each of those tasks has run exactly once.
   */
  lemma ExactlyOnce(n: nat, es: seq<Event>)
    requires Legal(Fresh(n), es)
    ensures var p := Run(Fresh(n), es);
            && p.stop == (Stop in es)
            && p.dequeued + p.tasks == p.accepted == Offered(es)
            && p.notifies + NotifyOnes(es) == |Offered(es)|
            && multiset(Offered(es)) == multiset(p.finished) + Held(p.workers) + multiset(p.tasks)
            && (n > 0 && AllExited(p) ==> p.stop && p.tasks == [] && multiset(p.finished) == multiset(Offered(es)))
  {
    FreshHolds(n);
    RunKeeps(Fresh(n), es);
    RunAccepts(Fresh(n), es);
    RunRecords(Fresh(n), es);
    var p := Run(Fresh(n), es);
    assert [] + Offered(es) == Offered(es);
    assert multiset(p.dequeued + p.tasks) == multiset(p.dequeued) + multiset(p.tasks);
    if n > 0 && AllExited(p) {
      AllExitedRanAll(p);
    }
  }

  /** After `notify_all` nobody sleeps, and nobody goes to sleep again. */
  lemma NobodySleepsAfterNotifyAll(n: nat, es: seq<Event>)
    requires Legal(Fresh(n), es)
    ensures var p := Run(Fresh(n), es); p.stop && !p.notifyAll ==> Asleep !in p.workers
  {
    FreshHolds(n);
    RunKeeps(Fresh(n), es);
  }

  /**
   * From the moment the stop flag is set, whatever the scheduler does: the workers take a bounded number
   * of steps, nothing more is accepted, and when no step is left all have returned and every accepted
   * task has run exactly once.
   */
  lemma ShutdownCompletes(n: nat, before: seq<Event>, after: seq<Event>)
    requires n > 0 && Legal(Fresh(n), before) && Run(Fresh(n), before).stop
    requires Legal(Run(Fresh(n), before), after) && forall e | e in after :: !e.Enqueue?
    ensures var p := Run(Fresh(n), before);
            var q := Run(p, after);
            && |after| <= Measure(p)
            && q.accepted == p.accepted == Offered(before)
            && p.finished <= q.finished
            && ((forall e | Enabled(q, e) :: e.Enqueue?) ==>
                 AllExited(q) && q.tasks == [] && multiset(q.finished) == multiset(Offered(before)))
  {
    FreshHolds(n);
    RunKeeps(Fresh(n), before);
    var p := Run(Fresh(n), before);
    StoppedRunIsBounded(p, after);
    RunAccepts(Fresh(n), before);
    RunAccepts(p, after);
    RunRecords(p, after);
    RunKeeps(p, after);
    StuckMeansDone(Run(p, after));
  }

  lemma StuckMeansDone(q: Pool)
    requires Inv(q) && q.stop && q.workers != []
    ensures (forall e | Enabled(q, e) :: e.Enqueue?) ==>
              AllExited(q) && q.tasks == [] && multiset(q.finished) == multiset(q.accepted)
  {
    if forall e | Enabled(q, e) :: e.Enqueue? {
      forall w | w in q.workers
        ensures w == Exited
      {
        var i :| 0 <= i < |q.workers| && q.workers[i] == w;
        if w != Exited {
          var e := StoppedNeverStuck(q, i);
        }
      }
      AllExitedRanAll(q);
    }
  }

  /** With no worker at all an accepted task is never run: one worker is needed above. */
  lemma NoWorkers(t: Task)
    ensures var es := [Enqueue(t), Stop, NotifyEveryone];
            Legal(Fresh(0), es) && AllExited(Run(Fresh(0), es)) && Run(Fresh(0), es).tasks == [t]
  {
    var es := [Enqueue(t), Stop, NotifyEveryone];
    var p1 := Step(Fresh(0), es[0]);
    var p2 := Step(p1, es[1]);
    assert es[1..] == [Stop, NotifyEveryone] && es[1..][1..] == [NotifyEveryone] && es[1..][1..][1..] == [];
    assert Legal(p2, [NotifyEveryone]);
    assert Legal(p1, [Stop, NotifyEveryone]);
  }

  /** The pool's fields; each method is one locked block, one notification or one return of a task. */
  class Workers {
    var workers: seq<Worker>
    var tasks: seq<Task>
    var stop: bool
    var notifies: nat
    var notifyAll: bool
    ghost var accepted: seq<Task>
    ghost var dequeued: seq<Task>
    ghost var finished: seq<Task>

    ghost function State(): Pool
      reads this
    {
      Pool(workers, tasks, stop, notifies, notifyAll, accepted, dequeued, finished)
    }

    constructor (numThreads: nat)
      ensures State() == Fresh(numThreads)
    {
      workers := seq(numThreads, _ => Awake);
      tasks, stop, notifies, notifyAll := [], false, 0, false;
      accepted, dequeued, finished := [], [], [];
    }

    /** `enqueue`; false stands for the exception. */
    method TryEnqueue(t: Task) returns (ok: bool)
      requires Inv(State())
      modifies this
      ensures Inv(State()) && State() == Step(old(State()), Enqueue(t)) && ok == !old(stop)
    {
      StepKeeps(State(), Enqueue(t));
      ok := !stop;
      if ok {
        tasks := tasks + [t];
        accepted := accepted + [t];
        notifies := notifies + 1;
      }
    }

    /** Worker `i` holds the mutex inside `condition.wait` and goes on from there. */
    method HoldMutex(i: nat)
      requires Inv(State()) && Enabled(State(), Check(i))
      modifies this
      ensures Inv(State()) && State() == Step(old(State()), Check(i))
    {
      StepKeeps(State(), Check(i));
      TestPredicate(i);
    }

    /** What the worker finds there: nothing to do, the end, or the oldest task. */
    method TestPredicate(i: nat)
      requires Enabled(State(), Check(i))
      modifies this
      ensures State() == Step(old(State()), Check(i))
    {
      if !(stop || tasks != []) {
        workers := workers[i := Asleep];
      } else if stop && tasks == [] {
        workers := workers[i := Exited];
      } else {
        workers := workers[i := Running(tasks[0])];
        dequeued := dequeued + [tasks[0]];
        tasks := tasks[1..];
      }
    }

    /** `task()` returns in worker `i`. */
    method TaskReturns(i: nat)
      requires Inv(State()) && Enabled(State(), Finish(i))
      modifies this
      ensures Inv(State()) && State() == Step(old(State()), Finish(i))
    {
      StepKeeps(State(), Finish(i));
      finished := finished + [workers[i].task];
      workers := workers[i := Awake];
    }

    /** The locked block of the destructor. */
    method SetStop()
      requires Inv(State()) && !stop
      modifies this
      ensures Inv(State()) && State() == Step(old(State()), Stop)
    {
      StepKeeps(State(), Stop);
      stop, notifyAll := true, true;
    }

    /** The destructor's `notify_all`. */
    method NotifyAll()
      requires Inv(State()) && notifyAll
      modifies this
      ensures Inv(State()) && State() == Step(old(State()), NotifyEveryone)
    {
      StepKeeps(State(), NotifyEveryone);
      workers, notifyAll := WakeAll(workers), false;
    }
  }
}
