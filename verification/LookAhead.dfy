/**
  No look-ahead: two runs whose data agree on every row available by a horizon agree on every
  decision, signal and fill up to the horizon, and on cash and positions once the instants up to
  the horizon are over.  An order's execution bar may differ only if it lies after the horizon.
*/
module LookAhead {
  import opened Sequences
  import opened Contracts
  import opened Selector
  import opened Accounting
  import opened Engine
  import opened DecisionEvents
  import opened Scheduler

  /** Two worlds that cannot be told apart by looking at instants up to the horizon. */
  ghost predicate WorldsAgree(w: World, v: World, horizon: int) {
    && w.capital == v.capital
    && (forall t :: t <= horizon ==> EventsAt(w.events, t) == EventsAt(v.events, t))
    && (forall id, t :: t <= horizon ==> w.inputs(id, t) == v.inputs(id, t))
    && (forall bars :: w.intent(bars) == v.intent(bars))
    && (forall id, o, t :: t <= horizon ==> BarsMatch(w.execution(id, o, t), v.execution(id, o, t), horizon))
    && (forall n, id, text :: w.key(n, id, text) == v.key(n, id, text))
    && (forall side, q, p :: w.price(side, q, p) == v.price(side, q, p))
    && (forall a, id, f :: w.book(a, id, f) == v.book(a, id, f))
  }

  ghost predicate BarsMatch(x: Option<Bar>, y: Option<Bar>, horizon: int) {
    x == y || (UnresolvedBy(x, horizon) && UnresolvedBy(y, horizon))
  }

  /** Equal orders, except that execution bars after the horizon are not compared. */
  ghost predicate OrdersMatch(a: Order, b: Order, horizon: int) {
    BarsMatch(a.execution, b.execution, horizon) && a.(execution := None) == b.(execution := None)
  }

  /** Two states of the same run as far as the horizon shows. */
  ghost predicate Same(s: Sim, z: Sim, horizon: int) {
    && s.past == z.past
    && (forall t :: t <= horizon ==> (t in s.future <==> t in z.future))
    && s.queue == z.queue && s.agenda == z.agenda
    && (forall e :: e in s.agenda ==> e.ts <= horizon)
    && (forall t :: t <= horizon ==> PendingAt(s.pending, t) == PendingAt(z.pending, t))
    && s.decisions == z.decisions && s.signals == z.signals && s.fills == z.fills
    && |s.orders| == |z.orders|
    && (forall i :: 0 <= i < |s.orders| ==> OrdersMatch(s.orders[i], z.orders[i], horizon))
    && s.attempts == z.attempts && s.account == z.account && s.aborted == z.aborted
  }

  lemma EventTimesShown(es: seq<Event>, t: int)
    ensures t in EventTimes(es) <==> EventsAt(es, t) != []
  {
    FilterMembers(EventAt(t), es);
    if t in EventTimes(es) {
      var e :| e in es && e.ts == t;
      assert e in EventsAt(es, t);
    }
    if EventsAt(es, t) != [] { assert EventsAt(es, t)[0] in EventsAt(es, t); }
  }

  lemma SameInit(w: World, v: World, horizon: int)
    requires WorldsAgree(w, v, horizon)
    ensures Same(Init(w), Init(v), horizon)
  {
    forall t | t <= horizon ensures t in Init(w).future <==> t in Init(v).future {
      EventTimesShown(w.events, t);
      EventTimesShown(v.events, t);
    }
  }

  lemma SameAttempt(w: World, v: World, horizon: int, s: Sim, z: Sim)
    requires WorldsAgree(w, v, horizon) && Same(s, z, horizon) && s.queue != []
    ensures Same(Attempt(w, s), Attempt(v, z), horizon)
  {
    assert Settle(w, s.account, s.queue[0]) == Settle(v, z.account, z.queue[0]);
    AttemptHasShape(w, s);
    AttemptHasShape(v, z);
    SameAttempted(s, z, Attempt(w, s), Attempt(v, z), horizon);
  }

  lemma SameAttempted(s: Sim, z: Sim, s': Sim, z': Sim, horizon: int)
    requires Same(s, z, horizon) && AttemptShape(s, s') && AttemptShape(z, z')
    requires s'.fills == z'.fills && s'.account == z'.account && s'.aborted == z'.aborted
    ensures Same(s', z', horizon)
  {
  }

  lemma FilingMatches(s: Sim, z: Sim, a: Order, b: Order, horizon: int, t: int)
    requires Same(s, z, horizon) && OrdersMatch(a, b, horizon) && t <= horizon
    ensures t in Place(s, a).future <==> t in Place(z, b).future
    ensures PendingAt(Place(s, a).pending, t) == PendingAt(Place(z, b).pending, t)
  {
    assert t in s.future <==> t in z.future;
    assert PendingAt(s.pending, t) == PendingAt(z.pending, t);
    if a.execution == b.execution {
      assert a == a.(execution := None).(execution := a.execution);
      assert b == b.(execution := None).(execution := b.execution);
    }
  }

  lemma SamePlace(s: Sim, z: Sim, a: Order, b: Order, horizon: int)
    requires Same(s, z, horizon) && OrdersMatch(a, b, horizon)
    ensures Same(Place(s, a), Place(z, b), horizon)
  {
    hide Place;
    var s', z' := Place(s, a), Place(z, b);
    PlaceShape(s, a);
    PlaceShape(z, b);
    forall t | t <= horizon
      ensures t in s'.future <==> t in z'.future
      ensures PendingAt(s'.pending, t) == PendingAt(z'.pending, t)
    {
      FilingMatches(s, z, a, b, horizon, t);
    }
    assert a.signal == a.(execution := None).signal;
    assert s'.orders == s.orders + [a] && z'.orders == z.orders + [b];
    forall i | 0 <= i < |s'.orders| ensures OrdersMatch(s'.orders[i], z'.orders[i], horizon) {
      if i < |s.orders| { assert OrdersMatch(s.orders[i], z.orders[i], horizon); }
    }
  }

  lemma SameDecide(w: World, v: World, horizon: int, s: Sim, z: Sim)
    requires WorldsAgree(w, v, horizon) && Same(s, z, horizon) && s.agenda != []
    ensures Same(Decide(w, s), Decide(v, z), horizon)
  {
    var e := s.agenda[0];
    assert e in s.agenda;
    var d := DecisionFor(w, s, e);
    assert d == DecisionFor(v, z, e);
    var a, b := OrderFor(w, d, w.intent(d.inputs)), OrderFor(v, d, v.intent(d.inputs));
    assert OrdersMatch(a, b, horizon);
    assert Same(Taken(s, d), Taken(z, d), horizon) by {
      assert forall x :: x in s.agenda[1..] ==> x in s.agenda;
    }
    SamePlace(Taken(s, d), Taken(z, d), a, b, horizon);
  }

  lemma SameMinimum(s: set<int>, z: set<int>, horizon: int)
    requires forall t :: t <= horizon ==> (t in s <==> t in z)
    ensures s != {} && Minimum(s) <= horizon <==> z != {} && Minimum(z) <= horizon
    ensures s != {} && Minimum(s) <= horizon ==> Minimum(z) == Minimum(s)
  {
    if s != {} && Minimum(s) <= horizon { assert Minimum(s) in z; }
    if z != {} && Minimum(z) <= horizon { assert Minimum(z) in s; }
  }

  lemma SameAdvance(w: World, v: World, horizon: int, s: Sim, z: Sim)
    requires WorldsAgree(w, v, horizon) && Same(s, z, horizon)
    requires s.future != {} && z.future != {} && Minimum(s.future) == Minimum(z.future) <= horizon
    ensures Same(Advance(w, s), Advance(v, z), horizon)
  {
    var t := Minimum(s.future);
    var s', z' := Advance(w, s), Advance(v, z);
    assert s'.agenda == z'.agenda;
    FilterMembers(EventAt(t), w.events);
    forall u | u <= horizon ensures PendingAt(s'.pending, u) == PendingAt(z'.pending, u) {
      assert PendingAt(s.pending, u) == PendingAt(z.pending, u);
    }
  }

  lemma SameStep(w: World, v: World, horizon: int, s: Sim, z: Sim)
    requires WorldsAgree(w, v, horizon) && Same(s, z, horizon)
    ensures Same(Next(w, Some(horizon), s), Next(v, Some(horizon), z), horizon)
  {
    if s.aborted {
    } else if s.queue != [] {
      SameAttempt(w, v, horizon, s, z);
    } else if s.agenda != [] {
      SameDecide(w, v, horizon, s, z);
    } else {
      SameMinimum(s.future, z.future, horizon);
      if s.future != {} && Minimum(s.future) <= horizon {
        SameAdvance(w, v, horizon, s, z);
      }
    }
  }

  /** Runs up to the horizon proceed in lockstep. */
  lemma {:induction false} Lockstep(w: World, v: World, horizon: int, k: nat)
    requires WorldsAgree(w, v, horizon)
    ensures Same(Run(w, Some(horizon), k), Run(v, Some(horizon), k), horizon)
  {
    if k == 0 {
      SameInit(w, v, horizon);
    } else {
      Lockstep(w, v, horizon, k - 1);
      SameRun(w, v, horizon, k);
    }
  }

  lemma SameRun(w: World, v: World, horizon: int, k: nat)
    requires WorldsAgree(w, v, horizon) && 0 < k
    requires Same(Run(w, Some(horizon), k - 1), Run(v, Some(horizon), k - 1), horizon)
    ensures Same(Run(w, Some(horizon), k), Run(v, Some(horizon), k), horizon)
  {
    SameStep(w, v, horizon, Run(w, Some(horizon), k - 1), Run(v, Some(horizon), k - 1));
  }

  // ---- what the engine does after the horizon does not touch what came before ----------------

  function DecidedBy(t: int): Decision -> bool { (d: Decision) => d.ts <= t }
  function SignalledBy(t: int): Signal -> bool { (g: Signal) => g.ts <= t }
  function PlacedBy(t: int): Order -> bool { (o: Order) => o.submittedAt <= t }
  function FilledBy(t: int): Fill -> bool { (f: Fill) => f.fillTs <= t }

  /** The journal of `z` is what the journal of `s` shows up to the horizon. */
  ghost predicate Shows(s: Sim, z: Sim, horizon: int) {
    && Filter(DecidedBy(horizon), s.decisions) == z.decisions
    && Filter(SignalledBy(horizon), s.signals) == z.signals
    && Filter(PlacedBy(horizon), s.orders) == z.orders
    && Filter(FilledBy(horizon), s.fills) == z.fills
  }

  ghost predicate PastBy(s: Sim, horizon: int) {
    forall p :: p in s.past ==> p <= horizon
  }

  /** Either the full run is still at or before the horizon, or it has left `z` behind for good. */
  ghost predicate Trails(s: Sim, z: Sim, horizon: int) {
    && Shows(s, z, horizon)
    && (|| (s == z && PastBy(s, horizon))
        || (Idle(Some(horizon), z) && s.past != [] && horizon < s.past[|s.past| - 1]))
  }

  /** Appending entries dated at `t` shows by the horizon exactly if `t` does. */
  lemma ShowsAttempt(w: World, s: Sim, z: Sim, horizon: int, t: int)
    requires s.queue != [] && s.queue[0].execution.Some? && s.queue[0].execution.value.effective == t
    requires Shows(s, z, horizon)
    ensures t <= horizon && s == z ==> Shows(Attempt(w, s), Attempt(w, s), horizon)
    ensures horizon < t ==> Shows(Attempt(w, s), z, horizon)
  {
    var outcome := Settle(w, s.account, s.queue[0]);
    AttemptHasShape(w, s);
    if outcome.Booked? {
      FilterSnoc(FilledBy(horizon), s.fills, outcome.fill);
    }
  }

  lemma ShowsDecide(s: Sim, s': Sim, z: Sim, d: Decision, o: Order, horizon: int)
    requires Shows(s, z, horizon) && DecideShape(s, s', d, o)
    requires d.ts == o.submittedAt == o.signal.ts
    ensures d.ts <= horizon && s == z ==> Shows(s', s', horizon)
    ensures horizon < d.ts ==> Shows(s', z, horizon)
  {
    FilterSnoc(DecidedBy(horizon), s.decisions, d);
    FilterSnoc(SignalledBy(horizon), s.signals, o.signal);
    FilterSnoc(PlacedBy(horizon), s.orders, o);
  }

  /** Work at hand belongs to the current instant, and future instants are later. */
  ghost predicate QueueInv(s: Sim) {
    && (s.queue != [] || s.agenda != [] ==> s.past != [])
    && (forall p, f :: p in s.past && f in s.future ==> p < f)
    && (s.agenda != [] ==> Now(s, s.agenda[0].ts))
    && (s.queue != [] ==> s.queue[0].execution.Some? && Now(s, s.queue[0].execution.value.effective))
  }

  lemma QueueHolds(w: World, universe: set<int>, limit: Option<int>, k: nat)
    requires Schedulable(w, universe)
    ensures QueueInv(Run(w, limit, k))
  {
    SoundHolds(w, universe, limit, k);
    var s := Run(w, limit, k);
    assert s.agenda != [] ==> s.agenda[0] in s.agenda;
    assert s.queue != [] ==> s.queue[0] in s.queue;
  }

  lemma TogetherAdvance(w: World, horizon: int, s: Sim)
    requires !s.aborted && s.queue == [] && s.agenda == [] && s.future != {}
    requires Shows(s, s, horizon) && PastBy(s, horizon)
    ensures Trails(Next(w, None, s), Next(w, Some(horizon), s), horizon)
  {
    var s' := Advance(w, s);
    assert s'.decisions == s.decisions && s'.signals == s.signals && s'.orders == s.orders && s'.fills == s.fills;
    assert Shows(s', s', horizon) && Shows(s', s, horizon);
    if Minimum(s.future) <= horizon {
      assert forall p :: p in s'.past <==> p in s.past || p == Minimum(s.future);
    }
  }

  lemma TogetherWork(w: World, horizon: int, s: Sim)
    requires !s.aborted && (s.queue != [] || s.agenda != [])
    requires QueueInv(s) && Shows(s, s, horizon) && PastBy(s, horizon)
    ensures Trails(Next(w, None, s), Next(w, Some(horizon), s), horizon)
  {
    var t := s.past[|s.past| - 1];
    assert t in s.past;
    if s.queue != [] {
      ShowsAttempt(w, s, s, horizon, t);
      AttemptHasShape(w, s);
    } else {
      DecideHasShape(w, s);
      var d := DecisionFor(w, s, s.agenda[0]);
      ShowsDecide(s, Decide(w, s), s, d, OrderFor(w, d, w.intent(d.inputs)), horizon);
    }
  }

  lemma BehindWork(w: World, horizon: int, s: Sim, z: Sim)
    requires !s.aborted && (s.queue != [] || s.agenda != [])
    requires QueueInv(s) && Shows(s, z, horizon) && Idle(Some(horizon), z)
    requires s.past != [] && horizon < s.past[|s.past| - 1]
    ensures Trails(Next(w, None, s), z, horizon)
  {
    var t := s.past[|s.past| - 1];
    if s.queue != [] {
      ShowsAttempt(w, s, z, horizon, t);
      AttemptHasShape(w, s);
    } else {
      DecideHasShape(w, s);
      var d := DecisionFor(w, s, s.agenda[0]);
      ShowsDecide(s, Decide(w, s), z, d, OrderFor(w, d, w.intent(d.inputs)), horizon);
    }
  }

  lemma BehindAdvance(w: World, horizon: int, s: Sim, z: Sim)
    requires !s.aborted && s.queue == [] && s.agenda == []
    requires QueueInv(s) && Shows(s, z, horizon) && Idle(Some(horizon), z)
    requires s.past != [] && horizon < s.past[|s.past| - 1]
    ensures Trails(Next(w, None, s), z, horizon)
  {
    if s.future != {} {
      var s' := Advance(w, s);
      assert s'.decisions == s.decisions && s'.signals == s.signals && s'.orders == s.orders && s'.fills == s.fills;
      assert s.past[|s.past| - 1] in s.past;
    }
  }

  lemma {:induction false} RunTrails(w: World, universe: set<int>, horizon: int, k: nat)
    requires Schedulable(w, universe)
    ensures Trails(Run(w, None, k), Run(w, Some(horizon), k), horizon)
  {
    if k == 0 {
      TrailsInit(w, horizon);
    } else {
      RunTrails(w, universe, horizon, k - 1);
      QueueHolds(w, universe, None, k - 1);
      TrailsRun(w, horizon, k);
    }
  }

  lemma TrailsInit(w: World, horizon: int)
    ensures Trails(Init(w), Init(w), horizon)
  {
  }

  lemma TrailsStep(w: World, horizon: int, s: Sim, z: Sim)
    requires QueueInv(s) && Trails(s, z, horizon)
    ensures Trails(Next(w, None, s), Next(w, Some(horizon), z), horizon)
  {
    if s == z && PastBy(s, horizon) {
      if s.aborted {
      } else if s.queue != [] || s.agenda != [] {
        TogetherWork(w, horizon, s);
      } else if s.future != {} {
        TogetherAdvance(w, horizon, s);
      }
    } else {
      assert Next(w, Some(horizon), z) == z;
      if s.aborted {
      } else if s.queue != [] || s.agenda != [] {
        BehindWork(w, horizon, s, z);
      } else {
        BehindAdvance(w, horizon, s, z);
      }
    }
  }

  lemma TrailsRun(w: World, horizon: int, k: nat)
    requires 0 < k && QueueInv(Run(w, None, k - 1))
    requires Trails(Run(w, None, k - 1), Run(w, Some(horizon), k - 1), horizon)
    ensures Trails(Run(w, None, k), Run(w, Some(horizon), k), horizon)
  {
    TrailsStep(w, horizon, Run(w, None, k - 1), Run(w, Some(horizon), k - 1));
  }

  /** A run up to the horizon is an initial part of the unlimited run. */
  lemma {:induction false} LimitedIsPrefix(w: World, horizon: int, k: nat) returns (j: nat)
    ensures j <= k && Run(w, Some(horizon), k) == Run(w, None, j)
  {
    if k == 0 {
      j := 0;
    } else {
      j := LimitedIsPrefix(w, horizon, k - 1);
      j := LimitedStep(w, horizon, k, j);
    }
  }

  lemma LimitedStep(w: World, horizon: int, k: nat, i: nat) returns (j: nat)
    requires 0 < k && i < k && Run(w, Some(horizon), k - 1) == Run(w, None, i)
    ensures j <= k && Run(w, Some(horizon), k) == Run(w, None, j)
  {
    var s := Run(w, None, i);
    if Idle(Some(horizon), s) {
      j := i;
    } else {
      assert Next(w, Some(horizon), s) == Next(w, None, s);
      j := i + 1;
    }
  }

  // ---- the theorem -------------------------------------------------------------------------

  /** Orders placed by the horizon, compared up to execution bars after it. */
  ghost predicate PlacedAlike(a: seq<Order>, b: seq<Order>, horizon: int) {
    && |a| == |b|
    && forall i :: 0 <= i < |a| ==> OrdersMatch(a[i], b[i], horizon)
  }

  /** The journals of two states are the same up to the horizon. */
  ghost predicate AgreeBy(s: Sim, z: Sim, horizon: int) {
    && Filter(DecidedBy(horizon), s.decisions) == Filter(DecidedBy(horizon), z.decisions)
    && Filter(SignalledBy(horizon), s.signals) == Filter(SignalledBy(horizon), z.signals)
    && Filter(FilledBy(horizon), s.fills) == Filter(FilledBy(horizon), z.fills)
    && PlacedAlike(Filter(PlacedBy(horizon), s.orders), Filter(PlacedBy(horizon), z.orders), horizon)
  }

  lemma WorldsAgreeRunsAgree(w: World, v: World, universe: set<int>, horizon: int, k: nat)
    requires Schedulable(w, universe) && Schedulable(v, universe) && WorldsAgree(w, v, horizon)
    ensures AgreeBy(Run(w, None, k), Run(v, None, k), horizon)
    ensures Run(w, Some(horizon), k).account == Run(v, Some(horizon), k).account
  {
    Lockstep(w, v, horizon, k);
    RunTrails(w, universe, horizon, k);
    RunTrails(v, universe, horizon, k);
  }

  /** Data sets that agree on every row available by the horizon. */
  ghost predicate DataAgree(a: map<int, seq<Bar>>, b: map<int, seq<Bar>>, horizon: int) {
    forall id :: Agree(RowsOf(a, id), RowsOf(b, id), horizon)
  }

  ghost predicate AllMonotone(rows: map<int, seq<Bar>>) {
    forall id :: VisibilityMonotone(RowsOf(rows, id))
  }

  lemma ConfigsAgree(c: Config, d: Config, horizon: int)
    requires c.request == d.request
    requires DataAgree(c.data.signal, d.data.signal, horizon)
    requires DataAgree(c.data.execution, d.data.execution, horizon)
    requires AllMonotone(c.data.execution) && AllMonotone(d.data.execution)
    ensures WorldsAgree(WorldOf(c), WorldOf(d), horizon)
  {
    var w, v := WorldOf(c), WorldOf(d);
    forall t | t <= horizon ensures EventsAt(w.events, t) == EventsAt(v.events, t) { EventsAgree(c, d, t, horizon); }
    forall id, t | t <= horizon ensures w.inputs(id, t) == v.inputs(id, t) { InputsAgree(c, d, id, t, horizon); }
    forall id, o, t | t <= horizon ensures BarsMatch(w.execution(id, o, t), v.execution(id, o, t), horizon) {
      ExecutionsAgree(c, d, id, o, t, horizon);
    }
  }

  lemma InputsAgree(c: Config, d: Config, id: int, t: int, horizon: int)
    requires c.request == d.request && t <= horizon
    requires Agree(RowsOf(c.data.signal, id), RowsOf(d.data.signal, id), horizon)
    ensures Inputs(c, id, t) == Inputs(d, id, t)
  {
    VisibleAgrees(RowsOf(c.data.signal, id), RowsOf(d.data.signal, id), t, horizon);
  }

  lemma ExecutionsAgree(c: Config, d: Config, id: int, o: int, t: int, horizon: int)
    requires c.request == d.request
    requires Agree(RowsOf(c.data.execution, id), RowsOf(d.data.execution, id), horizon)
    requires VisibilityMonotone(RowsOf(c.data.execution, id)) && VisibilityMonotone(RowsOf(d.data.execution, id))
    ensures BarsMatch(Execution(c, id, o, t), Execution(d, id, o, t), horizon)
  {
    hide NextExecution, VisibilityMonotone, Agree, RowsOf, LagOf;
    NextExecutionAgrees(RowsOf(c.data.execution, id), RowsOf(d.data.execution, id), o,
                        t + LagOf(c.request.instruments, id), horizon);
  }

  lemma SchedulableGrows(w: World, u: set<int>, v: set<int>)
    requires Schedulable(w, u) && u <= v
    ensures Schedulable(w, v)
  {
  }

  /**
    No look-ahead.  Two completed simulations of one request over data that agree on all rows
    available by the horizon, with execution visibility monotone in bar open, have identical
    decisions, signals and fills up to the horizon, orders that differ at most in execution bars
    after it, and equal cash and positions at the end of the instants up to it.
  */
  lemma NoLookAhead(c: Config, d: Config, horizon: int, j: nat, k: nat)
    requires ValidRequest(c.request) && c.request == d.request
    requires DataAgree(c.data.signal, d.data.signal, horizon)
    requires DataAgree(c.data.execution, d.data.execution, horizon)
    requires AllMonotone(c.data.execution) && AllMonotone(d.data.execution)
    requires Done(Run(WorldOf(c), None, j)) && Done(Run(WorldOf(d), None, k))
    ensures AgreeBy(Run(WorldOf(c), None, j), Run(WorldOf(d), None, k), horizon)
    ensures forall n :: Run(WorldOf(c), Some(horizon), n).account == Run(WorldOf(d), Some(horizon), n).account
  {
    var w, v := WorldOf(c), WorldOf(d);
    var universe := Universe(c) + Universe(d);
    ConfigSchedulable(c);
    ConfigSchedulable(d);
    SchedulableGrows(w, Universe(c), universe);
    SchedulableGrows(v, Universe(d), universe);
    ConfigsAgree(c, d, horizon);
    var m := if j < k then k else j;
    DoneStays(w, None, j, m);
    DoneStays(v, None, k, m);
    WorldsAgreeRunsAgree(w, v, universe, horizon, m);
    forall n ensures Run(w, Some(horizon), n).account == Run(v, Some(horizon), n).account {
      WorldsAgreeRunsAgree(w, v, universe, horizon, n);
    }
  }
}
