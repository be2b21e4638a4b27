/** Session accounting in qwen/server.cpp. */
module SessionAccounts {
  type Id = nat

  /** A session that was closed, by removal or by expiry. */
  datatype Closed = Closed(id: Id, start: int, end: int)

  /**
   * `sessions`, `lastActive` and `starts` stand for the three maps. `openedAt` records when each id was
   * accepted, `closed` what was added to the total, `absent` the removals of ids not registered.
   */
  datatype Accounts = Accounts(nextId: nat, sessions: set<Id>, lastActive: map<Id, int>, starts: map<Id, int>,
                               active: int, total: int, openedAt: map<Id, int>, closed: seq<Closed>, absent: nat)

  datatype Event =
    | Accept(now: int)
    | Touch(id: Id, now: int)
    | Remove(id: Id, now: int)
    | Expire(now: int, maxIdle: int, order: seq<Id>)

  const Fresh: Accounts := Accounts(1, {}, map[], map[], 0, 0, map[], [], 0)

  predicate Idle(a: Accounts, id: Id, now: int, maxIdle: int) {
    id in a.lastActive && now - a.lastActive[id] > maxIdle
  }

  predicate Distinct(order: seq<Id>) {
    forall i, j | 0 <= i < j < |order| :: order[i] != order[j]
  }

  /** `order` is the order in which the loop meets the idle sessions. */
  ghost predicate Enabled(a: Accounts, e: Event) {
    e.Expire? ==> Distinct(e.order) && forall id :: id in e.order <==> Idle(a, id, e.now, e.maxIdle)
  }

  /** The part that `remove_session` and the expiry loop share, for an id with metadata. */
  function CloseOne(a: Accounts, id: Id, now: int): Accounts {
    var b := if id in a.starts
             then a.(total := a.total + (now - a.starts[id]), starts := a.starts - {id},
                     closed := a.closed + [Closed(id, a.starts[id], now)])
             else a;
    b.(lastActive := b.lastActive - {id})
  }

  /** `remove_session`: the counter goes down even when the id is not registered. */
  function RemoveOne(a: Accounts, id: Id, now: int): Accounts {
    var b := a.(sessions := a.sessions - {id}, absent := if id in a.sessions then a.absent else a.absent + 1);
    var c := if id in b.lastActive then CloseOne(b, id, now) else b;
    c.(active := c.active - 1)
  }

  function ExpireOne(a: Accounts, id: Id, now: int): Accounts {
    var b := CloseOne(a.(sessions := a.sessions - {id}), id, now);
    b.(active := b.active - 1)
  }

  function ExpireAll(a: Accounts, order: seq<Id>, now: int): Accounts
    decreases |order|
  {
    if order == [] then a else ExpireAll(ExpireOne(a, order[0], now), order[1..], now)
  }

  function Step(a: Accounts, e: Event): Accounts {
    match e
    case Accept(now) =>
      a.(nextId := a.nextId + 1, sessions := a.sessions + {a.nextId}, lastActive := a.lastActive[a.nextId := now],
         starts := a.starts[a.nextId := now], active := a.active + 1, openedAt := a.openedAt[a.nextId := now])
    case Touch(id, now) => if id in a.lastActive then a.(lastActive := a.lastActive[id := now]) else a
    case Remove(id, now) => RemoveOne(a, id, now)
    case Expire(now, _, order) => ExpireAll(a, order, now)
  }

  function TotalTime(closed: seq<Closed>): int {
    if closed == [] then 0 else TotalTime(closed[..|closed| - 1]) + closed[|closed| - 1].end - closed[|closed| - 1].start
  }

  ghost predicate ClosedOnce(a: Accounts) {
    && (forall i, j | 0 <= i < j < |a.closed| :: a.closed[i].id != a.closed[j].id)
    && (forall c | c in a.closed :: c.id !in a.sessions && c.id in a.openedAt && a.openedAt[c.id] == c.start)
  }

  ghost predicate Inv(a: Accounts) {
    && a.sessions == a.lastActive.Keys == a.starts.Keys
    && |a.sessions| - a.active == a.absent
    && a.total == TotalTime(a.closed)
    && ClosedOnce(a)
    && (forall id | id in a.openedAt :: id < a.nextId)
    && (forall id | id in a.sessions :: id in a.openedAt && a.openedAt[id] == a.starts[id])
    && |a.openedAt| == |a.sessions| + |a.closed| == a.nextId - 1
  }

  /** Closing a registered session is counted once. */
  lemma ExpireOneKeeps(a: Accounts, id: Id, now: int)
    requires Inv(a) && id in a.sessions
    ensures Inv(ExpireOne(a, id, now))
    ensures ExpireOne(a, id, now).lastActive == a.lastActive - {id}
    ensures ExpireOne(a, id, now).closed == a.closed + [Closed(id, a.starts[id], now)]
  {
    var b := ExpireOne(a, id, now);
    var c := Closed(id, a.starts[id], now);
    assert b.closed == a.closed + [c] && b.closed[..|b.closed| - 1] == a.closed;
    assert |b.sessions| == |a.sessions| - 1;
    assert forall i | 0 <= i < |a.closed| :: a.closed[i] in a.closed;
  }

  lemma RemoveKeeps(a: Accounts, id: Id, now: int)
    requires Inv(a)
    ensures Inv(RemoveOne(a, id, now))
  {
    if id in a.sessions {
      ExpireOneKeeps(a, id, now);
    } else {
      assert a.sessions - {id} == a.sessions;
    }
  }

  lemma {:induction false} ExpireAllAppend(a: Accounts, order: seq<Id>, id: Id, now: int)
    ensures ExpireAll(a, order + [id], now) == ExpireOne(ExpireAll(a, order, now), id, now)
    decreases |order|
  {
    if order == [] {
      assert order + [id] == [id] && [id][1..] == [];
    } else {
      assert (order + [id])[1..] == order[1..] + [id];
      ExpireAllAppend(ExpireOne(a, order[0], now), order[1..], id, now);
    }
  }

  lemma {:induction false} ExpireAllKeeps(a: Accounts, order: seq<Id>, now: int)
    requires Inv(a) && Distinct(order) && forall id | id in order :: id in a.sessions
    ensures Inv(ExpireAll(a, order, now))
    decreases |order|
  {
    if order != [] {
      assert order[0] in order;
      ExpireOneKeeps(a, order[0], now);
      var next, rest := ExpireOne(a, order[0], now), order[1..];
      assert forall id | id in rest :: id in next.sessions by {
        assert forall id | id in rest :: id in order && id != order[0];
      }
      ExpireAllKeeps(next, rest, now);
    }
  }

  lemma StepKeeps(a: Accounts, e: Event)
    requires Inv(a) && Enabled(a, e)
    ensures Inv(Step(a, e))
  {
    match e
    case Accept(now) => assert a.nextId !in a.openedAt;
    case Touch(_, _) =>
    case Remove(id, now) => RemoveKeeps(a, id, now);
    case Expire(now, _, order) => ExpireAllKeeps(a, order, now);
  }

  ghost predicate Legal(a: Accounts, es: seq<Event>)
    decreases |es|
  {
    es == [] || (Enabled(a, es[0]) && Legal(Step(a, es[0]), es[1..]))
  }

  function Run(a: Accounts, es: seq<Event>): Accounts
    decreases |es|
  {
    if es == [] then a else Run(Step(a, es[0]), es[1..])
  }

  lemma {:induction false} RunKeeps(a: Accounts, es: seq<Event>)
    requires Inv(a) && Legal(a, es)
    ensures Inv(Run(a, es))
    decreases |es|
  {
    if es != [] {
      StepKeeps(a, es[0]);
      RunKeeps(Step(a, es[0]), es[1..]);
    }
  }

  /**
   * In every run: the three maps have the same keys; the sessions registered exceed the active counter by
   * the number of removals of absent ids; the total is the sum of end minus start over the closed
   * sessions; and every session accepted is registered or was closed once, with its own start time.
   */
  lemma Conservation(es: seq<Event>)
    requires Legal(Fresh, es)
    ensures var a := Run(Fresh, es);
            && a.sessions == a.lastActive.Keys == a.starts.Keys
            && |a.sessions| - a.active == a.absent
            && a.total == TotalTime(a.closed)
            && (forall i, j | 0 <= i < |a.closed| && 0 <= j < |a.closed| :: a.closed[i].id == a.closed[j].id ==> i == j)
            && (forall c | c in a.closed :: c.id !in a.sessions && c.id in a.openedAt && c.start == a.openedAt[c.id])
            && |a.sessions| + |a.closed| == Accepts(es)
  {
    RunKeeps(Fresh, es);
    IdsLaw(es);
  }

  // ----- what the events alone say -----

  lemma {:induction false} RunSnoc(a: Accounts, es: seq<Event>)
    requires Legal(a, es) && es != []
    ensures var init, last := es[..|es| - 1], es[|es| - 1];
            Legal(a, init) && Enabled(Run(a, init), last) && Run(a, es) == Step(Run(a, init), last)
    decreases |es|
  {
    var init := es[..|es| - 1];
    if |es| > 1 {
      RunSnoc(Step(a, es[0]), es[1..]);
      assert es[1..][..|es| - 2] == init[1..];
    }
  }

  function Accepts(es: seq<Event>): nat
    decreases |es|
  {
    if es == [] then 0 else Accepts(es[..|es| - 1]) + if es[|es| - 1].Accept? then 1 else 0
  }

  /** Event `j` accepted session `id`. */
  predicate AcceptedAt(es: seq<Event>, id: Id, j: nat) {
    j < |es| && es[j].Accept? && id == 1 + Accepts(es[..j])
  }

  predicate Closes(e: Event, id: Id) {
    (e.Remove? && e.id == id) || (e.Expire? && id in e.order)
  }

  predicate OpenFrom(es: seq<Event>, id: Id, j: nat) {
    forall k | j <= k < |es| :: !Closes(es[k], id)
  }

  /** When session `id`, accepted by event `j`, was last touched. */
  function SeenAt(es: seq<Event>, id: Id, j: nat): int
    requires j < |es| && es[j].Accept?
    decreases |es|
  {
    var last := es[|es| - 1];
    if j == |es| - 1 then es[j].now
    else if last.Touch? && last.id == id then last.now
    else SeenAt(es[..|es| - 1], id, j)
  }

  lemma {:induction false} ExpireAllSessions(a: Accounts, order: seq<Id>, now: int, id: Id)
    requires Inv(a) && Distinct(order) && forall x | x in order :: x in a.sessions
    ensures var b := ExpireAll(a, order, now);
            && b.nextId == a.nextId && b.absent == a.absent
            && (id in b.sessions <==> id in a.sessions && id !in order)
            && (id in b.sessions ==>
                  && id in b.starts && id in b.lastActive
                  && b.starts[id] == a.starts[id] && b.lastActive[id] == a.lastActive[id])
    decreases |order|
  {
    if order != [] {
      assert order[0] in order;
      ExpireOneKeeps(a, order[0], now);
      var next, rest := ExpireOne(a, order[0], now), order[1..];
      assert forall x :: x in order <==> x == order[0] || x in rest;
      ExpireAllSessions(next, rest, now, id);
    }
  }

  lemma {:induction false} ExpireAllRecords(a: Accounts, order: seq<Id>, now: int, c: Closed)
    requires Inv(a) && Distinct(order) && forall x | x in order :: x in a.sessions
    ensures c in ExpireAll(a, order, now).closed <==>
            c in a.closed || (c.id in order && c.start == a.starts[c.id] && c.end == now)
    decreases |order|
  {
    if order != [] {
      assert order[0] in order;
      ExpireOneKeeps(a, order[0], now);
      var next, rest := ExpireOne(a, order[0], now), order[1..];
      assert forall x :: x in order <==> x == order[0] || x in rest;
      ExpireAllRecords(next, rest, now, c);
    }
  }

  /** What event `e` does to session `id`. */
  ghost predicate Moves(a: Accounts, e: Event, b: Accounts, id: Id) {
    && b.nextId == a.nextId + (if e.Accept? then 1 else 0)
    && b.absent == a.absent + (if e.Remove? && e.id !in a.sessions then 1 else 0)
    && (id in a.sessions ==> id < a.nextId && id in a.starts && id in a.lastActive)
    && (id in b.sessions ==> id in b.starts && id in b.lastActive)
    && (if e.Accept? && id == a.nextId then id in b.sessions && b.starts[id] == b.lastActive[id] == e.now
        else id in b.sessions <==> id in a.sessions && !Closes(e, id))
    && (id in a.sessions && id in b.sessions ==>
          && b.starts[id] == a.starts[id]
          && b.lastActive[id] == if e.Touch? && e.id == id then e.now else a.lastActive[id])
  }

  lemma StepMoves(a: Accounts, e: Event, id: Id)
    requires Inv(a) && Enabled(a, e)
    ensures Moves(a, e, Step(a, e), id)
  {
    if e.Expire? {
      ExpireAllSessions(a, e.order, e.now, id);
    }
  }

  /** Closing registered session `c.id` by event `e` leaves the record `c`. */
  predicate Records(a: Accounts, e: Event, c: Closed) {
    c.id in a.sessions && c.id in a.starts && c.start == a.starts[c.id]
    && ((e.Remove? && e.id == c.id && c.end == e.now) || (e.Expire? && c.id in e.order && c.end == e.now))
  }

  lemma StepRecords(a: Accounts, e: Event, c: Closed)
    requires Inv(a) && Enabled(a, e)
    ensures c in Step(a, e).closed <==> c in a.closed || Records(a, e, c)
  {
    if e.Expire? {
      ExpireAllRecords(a, e.order, e.now, c);
    }
  }

  /** The last step of a run, as far as session `id` and record `c` go. */
  lemma LastStep(es: seq<Event>, id: Id, c: Closed)
    requires Legal(Fresh, es) && es != []
    ensures var init, last := es[..|es| - 1], es[|es| - 1];
            && Legal(Fresh, init)
            && Moves(Run(Fresh, init), last, Run(Fresh, es), id)
            && (c in Run(Fresh, es).closed <==> c in Run(Fresh, init).closed || Records(Run(Fresh, init), last, c))
  {
    RunSnoc(Fresh, es);
    RunKeeps(Fresh, es[..|es| - 1]);
    StepMoves(Run(Fresh, es[..|es| - 1]), es[|es| - 1], id);
    StepRecords(Run(Fresh, es[..|es| - 1]), es[|es| - 1], c);
  }

  lemma {:induction false} IdsLaw(es: seq<Event>)
    requires Legal(Fresh, es)
    ensures Run(Fresh, es).nextId == 1 + Accepts(es)
    decreases |es|
  {
    if es != [] {
      LastStep(es, 0, Closed(0, 0, 0));
      IdsLaw(es[..|es| - 1]);
    }
  }

  /** A session accepted by event `j` and not closed since is registered, with the times of its events. */
  lemma {:induction false} OpenIsRegistered(es: seq<Event>, id: Id, j: nat)
    requires Legal(Fresh, es) && AcceptedAt(es, id, j) && OpenFrom(es, id, j)
    ensures var a := Run(Fresh, es);
            && id in a.sessions && id in a.starts && id in a.lastActive
            && a.starts[id] == es[j].now && a.lastActive[id] == SeenAt(es, id, j)
    decreases |es|
  {
    var n := |es| - 1;
    var init := es[..n];
    LastStep(es, id, Closed(0, 0, 0));
    IdsLaw(init);
    if j < n {
      assert init[..j] == es[..j] && AcceptedAt(init, id, j) && OpenFrom(init, id, j);
      OpenIsRegistered(init, id, j);
    }
  }

  lemma {:induction false} RegisteredIsOpen(es: seq<Event>, id: Id) returns (j: nat)
    requires Legal(Fresh, es) && id in Run(Fresh, es).sessions
    ensures AcceptedAt(es, id, j) && OpenFrom(es, id, j)
    decreases |es|
  {
    var n := |es| - 1;
    var init := es[..n];
    LastStep(es, id, Closed(0, 0, 0));
    IdsLaw(init);
    if AcceptedAt(es, id, n) {
      j := n;
    } else {
      j := RegisteredIsOpen(init, id);
      assert init[..j] == es[..j];
    }
  }

  /**
   * In every run a session is registered if and only if some event accepted it and no removal or expiry of it
   * came since; it started at the time of that event and was last active at that of its last touch.
   */
  lemma RegisteredIffAccepted(es: seq<Event>, id: Id)
    requires Legal(Fresh, es)
    ensures var a := Run(Fresh, es);
            && (id in a.sessions <==> exists j: nat :: AcceptedAt(es, id, j) && OpenFrom(es, id, j))
            && (forall j: nat | AcceptedAt(es, id, j) && OpenFrom(es, id, j) ::
                  && id in a.starts && a.starts[id] == es[j].now
                  && id in a.lastActive && a.lastActive[id] == SeenAt(es, id, j))
  {
    if id in Run(Fresh, es).sessions {
      var j := RegisteredIsOpen(es, id);
    }
    forall j: nat | AcceptedAt(es, id, j) && OpenFrom(es, id, j)
      ensures id in Run(Fresh, es).sessions
      ensures id in Run(Fresh, es).starts && Run(Fresh, es).starts[id] == es[j].now
      ensures id in Run(Fresh, es).lastActive && Run(Fresh, es).lastActive[id] == SeenAt(es, id, j)
    {
      OpenIsRegistered(es, id, j);
    }
  }

  /** Event `k` closed the session that event `j` had accepted. */
  predicate ClosedBy(es: seq<Event>, id: Id, j: nat, k: nat) {
    j < k < |es| && AcceptedAt(es[..k], id, j) && OpenFrom(es[..k], id, j) && Closes(es[k], id)
  }

  /** Every closing is on record with the times of its two events. */
  lemma {:induction false} ClosingIsRecorded(es: seq<Event>, id: Id, j: nat, k: nat)
    requires Legal(Fresh, es) && ClosedBy(es, id, j, k)
    ensures Closed(id, es[j].now, es[k].now) in Run(Fresh, es).closed
    decreases |es|
  {
    var n := |es| - 1;
    var init := es[..n];
    LastStep(es, id, Closed(id, es[j].now, es[k].now));
    if k < n {
      assert init[..k] == es[..k];
      ClosingIsRecorded(init, id, j, k);
    } else {
      OpenIsRegistered(init, id, j);
      assert Records(Run(Fresh, init), es[n], Closed(id, es[j].now, es[k].now));
    }
  }

  /** And nothing else is. */
  lemma {:induction false} RecordedWasClosed(es: seq<Event>, c: Closed) returns (j: nat, k: nat)
    requires Legal(Fresh, es) && c in Run(Fresh, es).closed
    ensures ClosedBy(es, c.id, j, k) && c == Closed(c.id, es[j].now, es[k].now)
    decreases |es|
  {
    var n := |es| - 1;
    var init := es[..n];
    LastStep(es, c.id, c);
    if c in Run(Fresh, init).closed {
      j, k := RecordedWasClosed(init, c);
      assert init[..k] == es[..k];
    } else {
      k := n;
      j := RegisteredIsOpen(init, c.id);
      OpenIsRegistered(init, c.id, j);
    }
  }

  /** An expiry check closes exactly the open sessions that have been idle for longer than the limit, each once. */
  lemma ExpiryLaw(es: seq<Event>, now: int, maxIdle: int, order: seq<Id>)
    requires Legal(Fresh, es + [Expire(now, maxIdle, order)])
    ensures forall i, k | 0 <= i < k < |order| :: order[i] != order[k]
    ensures forall id :: id in order <==>
              exists j: nat :: AcceptedAt(es, id, j) && OpenFrom(es, id, j) && now - SeenAt(es, id, j) > maxIdle
  {
    var all := es + [Expire(now, maxIdle, order)];
    RunSnoc(Fresh, all);
    assert all[..|es|] == es;
    RunKeeps(Fresh, es);
    forall id
      ensures id in order <==>
              exists j: nat :: AcceptedAt(es, id, j) && OpenFrom(es, id, j) && now - SeenAt(es, id, j) > maxIdle
    {
      RegisteredIffAccepted(es, id);
    }
  }

  /** Removals of sessions that were not open. */
  ghost function AbsentRemovals(es: seq<Event>): nat
    decreases |es|
  {
    if es == [] then 0
    else
      var init, last := es[..|es| - 1], es[|es| - 1];
      AbsentRemovals(init) +
      if last.Remove? && !(exists j: nat :: AcceptedAt(init, last.id, j) && OpenFrom(init, last.id, j)) then 1 else 0
  }

  lemma {:induction false} AbsentLaw(es: seq<Event>)
    requires Legal(Fresh, es)
    ensures Run(Fresh, es).absent == AbsentRemovals(es)
    decreases |es|
  {
    if es != [] {
      var init, last := es[..|es| - 1], es[|es| - 1];
      LastStep(es, 0, Closed(0, 0, 0));
      AbsentLaw(init);
      if last.Remove? {
        RegisteredIffAccepted(init, last.id);
      }
    }
  }

  /** So the counter is the number of registered sessions exactly as long as no absent id was removed. */
  lemma CounterExact(es: seq<Event>)
    requires Legal(Fresh, es)
    ensures Run(Fresh, es).active == |Run(Fresh, es).sessions| - AbsentRemovals(es)
    ensures Run(Fresh, es).active == |Run(Fresh, es).sessions| <==> AbsentRemovals(es) == 0
  {
    Conservation(es);
    AbsentLaw(es);
  }

  /** Removing a session twice, as a heartbeat timeout and a read error do, leaves the counter at -1. */
  lemma DoubleRemoval()
    ensures Run(Fresh, [Accept(0), Remove(1, 5), Remove(1, 5)]).active == -1
  {
    var es := [Accept(0), Remove(1, 5), Remove(1, 5)];
    assert es[1..] == [Remove(1, 5), Remove(1, 5)] && es[1..][1..] == [Remove(1, 5)];
    var a1 := Step(Fresh, es[0]);
    var a2 := Step(a1, Remove(1, 5));
    assert Run(a2, [Remove(1, 5)]) == Step(a2, Remove(1, 5)) by {
      assert [Remove(1, 5)][1..] == [];
    }
  }

  /** The session maps and counters of `server`. */
  class Registry {
    var nextId: nat
    var sessions: set<Id>
    var lastActive: map<Id, int>
    var starts: map<Id, int>
    var active: int
    var total: int
    ghost var openedAt: map<Id, int>
    ghost var closed: seq<Closed>
    ghost var absent: nat

    ghost function State(): Accounts
      reads this
    {
      Accounts(nextId, sessions, lastActive, starts, active, total, openedAt, closed, absent)
    }

    constructor ()
      ensures State() == Fresh
    {
      nextId, sessions, lastActive, starts, active, total := 1, {}, map[], map[], 0, 0;
      openedAt, closed, absent := map[], [], 0;
    }

    /** The accept handler in `start_accept`. */
    method AcceptSession(now: int) returns (id: Id)
      requires Inv(State())
      modifies this
      ensures Inv(State()) && State() == Step(old(State()), Accept(now)) && id == old(nextId)
    {
      StepKeeps(State(), Accept(now));
      id := nextId;
      nextId := nextId + 1;
      sessions := sessions + {id};
      lastActive := lastActive[id := now];
      starts := starts[id := now];
      active := active + 1;
      openedAt := openedAt[id := now];
    }

    /** The times of one session go to the total. */
    method Settle(id: Id, now: int)
      modifies this`total, this`starts, this`lastActive, this`closed
      ensures State() == CloseOne(old(State()), id, now)
    {
      if id in starts {
        total := total + (now - starts[id]);
        closed := closed + [Closed(id, starts[id], now)];
        starts := starts - {id};
      }
      lastActive := lastActive - {id};
    }

    /** `remove_session`. */
    method RemoveSession(id: Id, now: int)
      requires Inv(State())
      modifies this
      ensures Inv(State()) && State() == Step(old(State()), Remove(id, now))
    {
      StepKeeps(State(), Remove(id, now));
      EraseSession(id, now);
    }

    method EraseSession(id: Id, now: int)
      modifies this
      ensures State() == RemoveOne(old(State()), id, now)
    {
      if id !in sessions {
        absent := absent + 1;
      }
      sessions := sessions - {id};
      if id in lastActive {
        Settle(id, now);
      }
      active := active - 1;
    }

    /** One idle session in the loop of `check_expired_sessions`. */
    method ExpireSession(id: Id, now: int)
      modifies this`sessions, this`total, this`starts, this`lastActive, this`closed, this`active
      ensures State() == ExpireOne(old(State()), id, now) && lastActive == old(lastActive) - {id}
    {
      sessions := sessions - {id};
      Settle(id, now);
      active := active - 1;
    }

    /** `check_expired_sessions`. */
    method CheckExpired(now: int, maxIdle: int) returns (order: seq<Id>)
      requires Inv(State())
      modifies this
      ensures old(Enabled(State(), Expire(now, maxIdle, order)))
      ensures Inv(State()) && State() == Step(old(State()), Expire(now, maxIdle, order))
    {
      ghost var before := State();
      order := WalkSessions(now, maxIdle);
      StepKeeps(before, Expire(now, maxIdle, order));
    }

    /** Its loop, which erases from the map it walks over. */
    method WalkSessions(now: int, maxIdle: int) returns (order: seq<Id>)
      modifies this
      ensures old(Enabled(State(), Expire(now, maxIdle, order)))
      ensures State() == ExpireAll(old(State()), order, now)
    {
      ghost var before := State();
      order := [];
      var rest := lastActive.Keys;
      while rest != {}
        invariant rest <= before.lastActive.Keys
        invariant Distinct(order) && forall id | id in order :: id !in rest
        invariant forall id :: id in order <==> id !in rest && Idle(before, id, now, maxIdle)
        invariant State() == ExpireAll(before, order, now)
        invariant forall id | id in rest :: id in lastActive && lastActive[id] == before.lastActive[id]
        decreases rest
      {
        var id :| id in rest;
        rest := rest - {id};
        if now - lastActive[id] > maxIdle {
          ghost var was := order;
          order := order + [id];
          ExpireAllAppend(before, was, id, now);
          assert forall x :: x in order <==> x in was || x == id;
          ExpireSession(id, now);
        }
      }
    }
  }
}

/** Request correlation in qwen/server.cpp, where one request may go to many sessions. */
module Broadcasts {
  import opened Bytes

  /** How an entry left the map: its callback got a response, it was dropped, or its callback got the timeout. */
  datatype Outcome = Matched | Mismatched | TimedOut

  datatype Settled = Settled(sequence: U32, outcome: Outcome)

  /** `drawn`: numbers whose timer is started and whose entry is not registered yet. */
  datatype State = State(taken: nat, drawn: map<U32, Byte>, pending: map<U32, Byte>, log: seq<Settled>)

  datatype Event =
    | Draw(expected: Byte, hasCallback: bool)       // sequence number, and timer if tracked
    | Register(sequence: U32)                       // the locked insert
    | Incoming(sequence: U32, packetType: Byte)     // handle_response, for any session
    | TimerFires(sequence: U32)

  const Fresh: State := State(0, map[], map[], [])

  /** Without a callback or an expected type the packet is sent and forgotten. */
  predicate Tracked(expected: Byte, hasCallback: bool) {
    hasCallback && expected != 0
  }

  predicate Enabled(s: State, e: Event) {
    match e
    case Draw(_, _) => s.taken < WORD
    case Register(q) => q in s.drawn
    case Incoming(_, _) => true
    case TimerFires(_) => true
  }

  function Settle(s: State, q: U32, outcome: Outcome): State {
    s.(pending := s.pending - {q}, log := s.log + [Settled(q, outcome)])
  }

  function Step(s: State, e: Event): State
    requires Enabled(s, e)
  {
    match e
    case Draw(expected, hasCallback) =>
      s.(taken := s.taken + 1,
         drawn := if Tracked(expected, hasCallback) then s.drawn[SequenceOf(s.taken) := expected] else s.drawn)
    case Register(q) => s.(drawn := s.drawn - {q}, pending := s.pending[q := s.drawn[q]])
    case Incoming(q, packetType) =>
      if q in s.pending then Settle(s, q, if s.pending[q] == packetType then Matched else Mismatched) else s
    case TimerFires(q) => if q in s.pending then Settle(s, q, TimedOut) else s
  }

  ghost predicate Inv(s: State) {
    && s.taken <= WORD
    && s.drawn.Keys !! s.pending.Keys
    && (forall q | q in s.drawn || q in s.pending :: DrawOf(q) < s.taken)
    && (forall r | r in s.log :: DrawOf(r.sequence) < s.taken && r.sequence !in s.drawn && r.sequence !in s.pending)
    && (forall i, j | 0 <= i < j < |s.log| :: s.log[i].sequence != s.log[j].sequence)
  }

  lemma SettleKeeps(s: State, q: U32, outcome: Outcome)
    requires Inv(s) && q in s.pending
    ensures Inv(Settle(s, q, outcome))
  {
    assert forall i | 0 <= i < |s.log| :: s.log[i] in s.log;
  }

  lemma StepKeeps(s: State, e: Event)
    requires Inv(s) && Enabled(s, e)
    ensures Inv(Step(s, e))
  {
    match e
    case Draw(_, _) => DrawOfSequence(s.taken);
    case Register(_) =>
    case Incoming(q, t) => if q in s.pending { SettleKeeps(s, q, if s.pending[q] == t then Matched else Mismatched); }
    case TimerFires(q) => if q in s.pending { SettleKeeps(s, q, TimedOut); }
  }

  // ----- whole runs, from the first event on -----

  predicate Legal(es: seq<Event>)
    decreases |es|, 0
  {
    es == [] || (Legal(es[..|es| - 1]) && Enabled(Run(es[..|es| - 1]), es[|es| - 1]))
  }

  function Run(es: seq<Event>): State
    requires Legal(es)
    decreases |es|, 1
  {
    if es == [] then Fresh else Step(Run(es[..|es| - 1]), es[|es| - 1])
  }

  lemma {:induction false} RunKeeps(es: seq<Event>)
    requires Legal(es)
    ensures Inv(Run(es))
    decreases |es|
  {
    if es != [] {
      RunKeeps(es[..|es| - 1]);
      StepKeeps(Run(es[..|es| - 1]), es[|es| - 1]);
    }
  }

  /** Would this event settle `q`, were it pending? */
  predicate Settles(e: Event, q: U32) {
    (e.Incoming? || e.TimerFires?) && e.sequence == q
  }

  /** Nothing settles `q` from event `j` on. */
  predicate OpenFrom(es: seq<Event>, q: U32, j: nat) {
    forall k | j <= k < |es| :: !Settles(es[k], q)
  }

  /** The entry for `q` was inserted, and no response or timeout for it came since. */
  predicate RegisteredSince(es: seq<Event>, q: U32) {
    exists j: nat :: j < |es| && es[j] == Register(q) && OpenFrom(es, q, j)
  }

  lemma {:induction false} PendingIffRegistered(es: seq<Event>, q: U32)
    requires Legal(es)
    ensures q in Run(es).pending <==> RegisteredSince(es, q)
    decreases |es|
  {
    if es != [] {
      var n := |es| - 1;
      var init := es[..n];
      PendingIffRegistered(init, q);
      if RegisteredSince(es, q) {
        var j: nat :| j < |es| && es[j] == Register(q) && OpenFrom(es, q, j);
        assert j < n ==> init[j] == Register(q) && OpenFrom(init, q, j);
      }
      if RegisteredSince(init, q) {
        var j: nat :| j < |init| && init[j] == Register(q) && OpenFrom(init, q, j);
        assert es[j] == Register(q) && (OpenFrom(es, q, j) <==> !Settles(es[n], q));
      }
      if es[n] == Register(q) {
        assert OpenFrom(es, q, n);
      }
    }
  }

  function Draws(es: seq<Event>): nat
    decreases |es|
  {
    if es == [] then 0 else Draws(es[..|es| - 1]) + if es[|es| - 1].Draw? then 1 else 0
  }

  /** Event `k` drew number `q` for a tracked request. */
  predicate DrawnAt(es: seq<Event>, q: U32, k: nat) {
    k < |es| && es[k].Draw? && es[k].hasCallback && es[k].expected != 0 && SequenceOf(Draws(es[..k])) == q
  }

  lemma {:induction false} DrawsLaw(es: seq<Event>)
    requires Legal(es)
    ensures Run(es).taken == Draws(es)
    decreases |es|
  {
    if es != [] {
      DrawsLaw(es[..|es| - 1]);
    }
  }

  /** The type expected under a number is that of the call that drew it. */
  predicate ExpectedOf(s: State, q: U32, expected: Byte) {
    && DrawOf(q) < s.taken
    && (q in s.drawn ==> s.drawn[q] == expected)
    && (q in s.pending ==> s.pending[q] == expected)
  }

  lemma {:induction false} ExpectedLaw(es: seq<Event>, q: U32, k: nat)
    requires Legal(es) && DrawnAt(es, q, k)
    ensures ExpectedOf(Run(es), q, es[k].expected)
    decreases |es|
  {
    var n := |es| - 1;
    var init := es[..n];
    RunKeeps(init);
    DrawsLaw(init);
    if es[n].Draw? {
      DrawOfSequence(Draws(init));
    }
    if k < n {
      assert init[..k] == es[..k] && DrawnAt(init, q, k);
      ExpectedLaw(init, q, k);
    }
  }

  lemma {:induction false} TrackedWasDrawn(es: seq<Event>, q: U32) returns (k: nat)
    requires Legal(es) && (q in Run(es).drawn || q in Run(es).pending)
    ensures DrawnAt(es, q, k)
    decreases |es|
  {
    var n := |es| - 1;
    var init := es[..n];
    DrawsLaw(init);
    if DrawnAt(es, q, n) {
      k := n;
    } else {
      k := TrackedWasDrawn(init, q);
      assert init[..k] == es[..k];
    }
  }

  /** What an event makes of a request that expects `expected`. */
  function OutcomeOf(e: Event, expected: Byte): Outcome
    requires e.Incoming? || e.TimerFires?
  {
    if e.TimerFires? then TimedOut else if e.packetType == expected then Matched else Mismatched
  }

  /**
   * Whatever number of sessions answer, and however timer and responses race: the first event for a
   * registered request settles it, with the outcome of that event against the type given to the call that
   * drew the number, and no event settles it again.
   */
  lemma FirstEventSettles(es: seq<Event>, e: Event)
    requires Legal(es + [e]) && (e.Incoming? || e.TimerFires?)
    ensures Legal(es)
    ensures var s, s' := Run(es), Run(es + [e]);
            if RegisteredSince(es, e.sequence) then
              && (exists k: nat :: DrawnAt(es, e.sequence, k))
              && (forall k: nat | DrawnAt(es, e.sequence, k) ::
                    s'.log == s.log + [Settled(e.sequence, OutcomeOf(e, es[k].expected))])
              && e.sequence !in s'.pending
            else s' == s
    ensures forall i, j | 0 <= i < |Run(es + [e]).log| && 0 <= j < |Run(es + [e]).log| ::
              Run(es + [e]).log[i].sequence == Run(es + [e]).log[j].sequence ==> i == j
  {
    assert (es + [e])[..|es|] == es;
    PendingIffRegistered(es, e.sequence);
    RunKeeps(es + [e]);
    if RegisteredSince(es, e.sequence) {
      var m := TrackedWasDrawn(es, e.sequence);
      forall k: nat | DrawnAt(es, e.sequence, k)
        ensures Run(es).pending[e.sequence] == es[k].expected
      {
        ExpectedLaw(es, e.sequence, k);
      }
    }
  }

  /** The number was drawn for a request that nothing is kept of. */
  ghost predicate Untracked(s: State, q: U32) {
    && DrawOf(q) < s.taken && q !in s.drawn && q !in s.pending
    && forall r | r in s.log :: r.sequence != q
  }

  lemma StepUntracked(s: State, e: Event, q: U32)
    requires Inv(s) && Enabled(s, e) && Untracked(s, q)
    ensures Untracked(Step(s, e), q)
  {
    if e.Draw? {
      DrawOfSequence(s.taken);
    }
  }

  /** Whatever follows a request without callback or expected type, nothing ever settles it. */
  lemma {:induction false} UntrackedNeverSettles(es: seq<Event>, j: nat)
    requires Legal(es) && j < |es| && Legal(es[..j])
    requires es[j].Draw? && !(es[j].hasCallback && es[j].expected != 0)
    ensures Untracked(Run(es), SequenceOf(Draws(es[..j])))
    decreases |es|
  {
    var init, last := es[..|es| - 1], es[|es| - 1];
    RunKeeps(init);
    DrawsLaw(init);
    if j == |es| - 1 {
      DrawOfSequence(Run(init).taken);
    } else {
      assert init[..j] == es[..j];
      UntrackedNeverSettles(init, j);
      StepUntracked(Run(init), last, SequenceOf(Draws(es[..j])));
    }
  }

  /** `pending_requests_`, under its mutex. */
  class PendingRequests {
    var taken: nat
    var drawn: map<U32, Byte>
    var pending: map<U32, Byte>
    var log: seq<Settled>

    ghost function Abstract(): State
      reads this
    {
      State(taken, drawn, pending, log)
    }

    constructor ()
      ensures Abstract() == Fresh
    {
      taken, drawn, pending, log := 0, map[], map[], [];
    }

    /** `send_request_to_session` and `send_request_to_all`, up to the lock. */
    method StartTimer(expected: Byte, hasCallback: bool) returns (sequence: U32)
      requires Inv(Abstract()) && taken < WORD
      modifies this
      ensures Inv(Abstract()) && Abstract() == Step(old(Abstract()), Draw(expected, hasCallback))
      ensures sequence == SequenceOf(old(taken)) && (sequence in drawn <==> Tracked(expected, hasCallback))
    {
      StepKeeps(Abstract(), Draw(expected, hasCallback));
      DrawOfSequence(taken);
      sequence := SequenceOf(taken);
      taken := taken + 1;
      if hasCallback && expected != 0 {
        drawn := drawn[sequence := expected];
      }
    }

    /** Their locked insert. */
    method Track(sequence: U32)
      requires Inv(Abstract()) && sequence in drawn
      modifies this
      ensures Inv(Abstract()) && Abstract() == Step(old(Abstract()), Register(sequence))
    {
      StepKeeps(Abstract(), Register(sequence));
      pending := pending[sequence := drawn[sequence]];
      drawn := drawn - {sequence};
    }

    /** `handle_response`. */
    method HandleResponse(sequence: U32, packetType: Byte)
      requires Inv(Abstract())
      modifies this
      ensures Inv(Abstract()) && Abstract() == Step(old(Abstract()), Incoming(sequence, packetType))
    {
      StepKeeps(Abstract(), Incoming(sequence, packetType));
      if sequence in pending {
        var outcome := Mismatched;
        if pending[sequence] == packetType {
          outcome := Matched;
        }
        log := log + [Settled(sequence, outcome)];
        pending := pending - {sequence};
      }
    }

    /** The timer's handler. */
    method OnTimer(sequence: U32)
      requires Inv(Abstract())
      modifies this
      ensures Inv(Abstract()) && Abstract() == Step(old(Abstract()), TimerFires(sequence))
    {
      StepKeeps(Abstract(), TimerFires(sequence));
      if sequence in pending {
        log := log + [Settled(sequence, TimedOut)];
        pending := pending - {sequence};
      }
    }
  }
}
