/**
  The scheduler: the time list stays strictly increasing, its processed part never changes, every
  decision event is handled once and in order, every order is attempted exactly once at its
  execution instant unless that is the instant it was placed, and every run ends.
*/
module Scheduler {
  import opened Sequences
  import opened Contracts
  import opened Selector
  import opened Accounting
  import opened Engine
  import opened DecisionEvents

  ghost predicate Now(s: Sim, t: int) {
    s.past != [] && s.past[|s.past| - 1] == t
  }

  /**
    What the scheduler needs of its world: events come in time order, no execution bar lies before
    the placement of its order, and all instants come from one finite set.
  */
  ghost predicate Schedulable(w: World, universe: set<int>) {
    && (forall i, j :: 0 <= i < j < |w.events| ==> w.events[i].ts <= w.events[j].ts)
    && (forall e :: e in w.events ==> e.ts in universe)
    && (forall id, o, t :: w.execution(id, o, t).Some? ==>
          t <= w.execution(id, o, t).value.effective && w.execution(id, o, t).value.effective in universe)
  }

  /** All instants a run can ever visit: decision instants and availabilities of execution rows. */
  function Universe(c: Config): set<int> {
    EventTimes(Events(c)) + set id, b | id in c.data.execution && b in c.data.execution[id] :: b.effective
  }

  lemma ExecutionInstant(c: Config, id: int, after: int, t: int)
    requires ValidRequest(c.request)
    ensures var x := Execution(c, id, after, t);
            x.Some? ==> t <= x.value.effective && x.value.effective in Universe(c)
  {
    var rows := RowsOf(c.data.execution, id);
    LagNonNegative(c.request.instruments, id);
    NextExecutionFinds(rows, after, t + LagOf(c.request.instruments, id));
  }

  lemma EventsSortedByTime(c: Config)
    ensures forall i, j :: 0 <= i < j < |Events(c)| ==> Events(c)[i].ts <= Events(c)[j].ts
  {
    var r := c.request;
    EventBeforeIsPreorder();
    SortSorted(EventBefore, RawEvents(r.instruments, c.data.signal, r.eventFrom, r.eventTo));
  }

  /** The world of every valid configuration is schedulable. */
  lemma ConfigSchedulable(c: Config)
    requires ValidRequest(c.request)
    ensures Schedulable(WorldOf(c), Universe(c))
  {
    var w := WorldOf(c);
    EventsSortedByTime(c);
    forall id, o, t | w.execution(id, o, t).Some?
      ensures t <= w.execution(id, o, t).value.effective && w.execution(id, o, t).value.effective in Universe(c)
    {
      ExecutionInstant(c, id, o, t);
    }
  }

  // ---- times -----------------------------------------------------------------------------

  ghost predicate TimesInv(w: World, universe: set<int>, s: Sim) {
    && Increasing(s.past)
    && (forall p, f :: p in s.past && f in s.future ==> p < f)
    && (forall p :: p in s.past ==> p in universe)
    && s.future <= universe
    && (s.queue != [] || s.agenda != [] ==> s.past != [])
    && (forall e :: e in s.agenda ==> Now(s, e.ts) && e in w.events)
  }

  lemma NowIsLatest(s: Sim, t: int, p: int)
    requires Increasing(s.past) && Now(s, t) && p in s.past
    ensures p <= t
  {
  }

  /** Whatever order is placed at an instant is not due before that instant. */
  ghost predicate Placeable(universe: set<int>, o: Order, now: int) {
    && o.submittedAt == now
    && (o.execution.Some? ==> now <= o.execution.value.effective && o.execution.value.effective in universe)
  }

  lemma TimesDecide(w: World, universe: set<int>, s: Sim, s': Sim, d: Decision, o: Order)
    requires TimesInv(w, universe, s) && DecideShape(s, s', d, o) && Placeable(universe, o, s.agenda[0].ts)
    ensures TimesInv(w, universe, s')
  {
    var t := s.agenda[0].ts;
    assert s.agenda[0] in s.agenda;
    assert forall f :: f in s'.future ==>
      f in s.future || (o.execution.Some? && f == o.execution.value.effective && f !in s.past);
    forall p, f | p in s'.past && f in s'.future ensures p < f {
      NowIsLatest(s, t, p);
    }
    assert forall e :: e in s'.agenda ==> e in s.agenda;
    assert forall u :: Now(s, u) ==> Now(s', u);
  }

  lemma TimesAdvance(w: World, universe: set<int>, s: Sim)
    requires TimesInv(w, universe, s) && s.future != {}
    ensures TimesInv(w, universe, Advance(w, s))
  {
    var t := Minimum(s.future);
    var s' := Advance(w, s);
    assert forall p :: p in s'.past <==> p in s.past || p == t;
    assert Increasing(s'.past) by {
      forall i | 0 <= i < |s.past| ensures s.past[i] < t { assert s.past[i] in s.past; }
    }
    FilterMembers(EventAt(t), w.events);
    assert Now(s', t);
  }

  /** The time list only grows ahead: its processed prefix is never touched again. */
  lemma {:induction false} ProcessedPrefixFixed(w: World, limit: Option<int>, j: nat, k: nat)
    requires j <= k
    ensures Run(w, limit, j).past <= Run(w, limit, k).past
  {
    hide Next;
    if j < k {
      ProcessedPrefixFixed(w, limit, j, k - 1);
      PastGrows(w, limit, Run(w, limit, k - 1));
    }
  }

  lemma PastGrows(w: World, limit: Option<int>, s: Sim)
    ensures s.past <= Next(w, limit, s).past
  {
  }

  // ---- every decision event is handled once, in order ---------------------------------------

  function EventUpTo(t: int): Event -> bool { (e: Event) => e.ts <= t }

  function EventOf(d: Decision): Event { Event(d.ts, d.instrument, d.trigger) }

  function EventsOf(ds: seq<Decision>): seq<Event> {
    if ds == [] then [] else EventsOf(ds[..|ds| - 1]) + [EventOf(ds[|ds| - 1])]
  }

  /** Decisions taken so far plus the rest of the agenda are the events up to the instant. */
  ghost predicate AgendaInv(w: World, s: Sim) {
    && (forall e :: e in w.events ==> e.ts in s.past || e.ts in s.future)
    && EventsOf(s.decisions) + s.agenda
       == (if s.past == [] then [] else Filter(EventUpTo(s.past[|s.past| - 1]), w.events))
  }

  /** In a list sorted by time, the events up to `t` end with those at `t`. */
  lemma {:induction false} UpToSplits(es: seq<Event>, u: int, t: int)
    requires forall i, j :: 0 <= i < j < |es| ==> es[i].ts <= es[j].ts
    requires u < t && forall e :: e in es && e.ts <= t ==> e.ts <= u || e.ts == t
    ensures Filter(EventUpTo(t), es) == Filter(EventUpTo(u), es) + Filter(EventAt(t), es)
  {
    if es != [] {
      var tail := es[1..];
      assert es[0] in es;
      assert forall e :: e in tail ==> e in es;
      UpToSplits(tail, u, t);
      if u < es[0].ts {
        forall e | e in tail ensures !EventUpTo(u)(e) { assert es[0].ts <= e.ts; }
        FilterNone(EventUpTo(u), tail);
      }
    }
  }

  lemma AgendaAdvance(w: World, universe: set<int>, s: Sim)
    requires Schedulable(w, universe) && TimesInv(w, universe, s) && AgendaInv(w, s)
    requires s.agenda == [] && s.future != {}
    ensures AgendaInv(w, Advance(w, s))
  {
    var t := Minimum(s.future);
    var s' := Advance(w, s);
    assert forall p :: p in s'.past <==> p in s.past || p == t;
    EventsReached(w, s, t);
    assert EventsOf(s.decisions) + [] == EventsOf(s.decisions);
    assert s'.past[|s'.past| - 1] == t;
  }

  lemma EventsReached(w: World, s: Sim, t: int)
    requires forall i, j :: 0 <= i < j < |w.events| ==> w.events[i].ts <= w.events[j].ts
    requires Increasing(s.past) && s.future != {} && t == Minimum(s.future)
    requires forall p :: p in s.past ==> p < t
    requires forall e :: e in w.events ==> e.ts in s.past || e.ts in s.future
    ensures Filter(EventUpTo(t), w.events)
         == (if s.past == [] then [] else Filter(EventUpTo(s.past[|s.past| - 1]), w.events)) + EventsAt(w.events, t)
  {
    var es := w.events;
    if s.past == [] {
      FilterSame(EventUpTo(t), EventAt(t), es);
      assert [] + EventsAt(es, t) == EventsAt(es, t);
    } else {
      var u := s.past[|s.past| - 1];
      assert u in s.past;
      forall e | e in es && e.ts <= t ensures e.ts <= u || e.ts == t {
        if e.ts in s.past { NowIsLatest(s, u, e.ts); }
      }
      UpToSplits(es, u, t);
    }
  }

  lemma EventsOfSnoc(ds: seq<Decision>, d: Decision)
    ensures EventsOf(ds + [d]) == EventsOf(ds) + [EventOf(d)]
  {
    assert (ds + [d])[..|ds|] == ds;
  }

  lemma AgendaDecide(w: World, s: Sim, s': Sim, d: Decision, o: Order)
    requires AgendaInv(w, s) && DecideShape(s, s', d, o) && EventOf(d) == s.agenda[0]
    ensures AgendaInv(w, s')
  {
    assert s.future <= s'.future;
    EventsOfSnoc(s.decisions, d);
    assert s.agenda == [EventOf(d)] + s.agenda[1..];
    assert EventsOf(s.decisions) + s.agenda == EventsOf(s.decisions) + [EventOf(d)] + s.agenda[1..];
  }

  // ---- every order is attempted exactly once -------------------------------------------------

  function ExecutesAt(t: int): Order -> bool {
    (o: Order) => o.execution.Some? && o.execution.value.effective == t
  }

  /** Orders due at `t` that were placed before `t`. */
  function DueAt(t: int): Order -> bool {
    (o: Order) => o.execution.Some? && o.execution.value.effective == t && o.submittedAt < t
  }

  /** Orders due at the very instant `t` they were placed. */
  function StuckAt(t: int): Order -> bool {
    (o: Order) => o.execution.Some? && o.execution.value.effective == t && o.submittedAt == t
  }

  ghost predicate QueueAt(s: Sim, t: int) {
    Filter(ExecutesAt(t), s.attempts) + (if Now(s, t) then s.queue else [])
      == Sort(KeyBefore, Filter(DueAt(t), s.orders))
  }

  ghost predicate Filed(s: Sim, o: Order) {
    && o.submittedAt in s.past
    && (o.execution.Some? ==>
          && o.submittedAt <= o.execution.value.effective
          && (o.execution.value.effective in s.past || o.execution.value.effective in s.future))
  }

  /** What is filed: due orders ahead, and behind only those due when they were placed. */
  ghost predicate BooksInv(s: Sim) {
    && (forall o :: o in s.orders ==> Filed(s, o))
    && (forall t :: t in s.pending ==> t in s.past || t in s.future)
    && (forall t :: t in s.future ==> PendingAt(s.pending, t) == Filter(DueAt(t), s.orders))
    && (forall t :: t in s.past ==> PendingAt(s.pending, t) == Filter(StuckAt(t), s.orders))
  }

  /** What has been attempted or is queued: at each visited instant exactly the due orders. */
  ghost predicate AttemptsInv(s: Sim) {
    && (forall o :: o in s.attempts ==> o.execution.Some? && o.execution.value.effective in s.past)
    && (forall t :: t in s.past ==> QueueAt(s, t))
    && (forall o :: o in s.queue ==> o.execution.Some? && Now(s, o.execution.value.effective))
  }

  lemma BooksAdvance(w: World, universe: set<int>, s: Sim)
    requires TimesInv(w, universe, s) && BooksInv(s) && s.future != {}
    ensures BooksInv(Advance(w, s))
  {
    var t := Minimum(s.future);
    var s' := Advance(w, s);
    assert forall p :: p in s'.past <==> p in s.past || p == t;
    forall o | o in s.orders ensures !StuckAt(t)(o) { assert Filed(s, o); }
    FilterNone(StuckAt(t), s.orders);
    forall o | o in s'.orders ensures Filed(s', o) { assert Filed(s, o); }
  }

  lemma AttemptsAdvance(w: World, universe: set<int>, s: Sim)
    requires TimesInv(w, universe, s) && AttemptsInv(s) && s.queue == [] && s.future != {}
    requires PendingAt(s.pending, Minimum(s.future)) == Filter(DueAt(Minimum(s.future)), s.orders)
    ensures AttemptsInv(Advance(w, s))
  {
    hide Filter, Sort, EventsAt;
    var t := Minimum(s.future);
    var s' := Advance(w, s);
    assert forall p :: p in s'.past <==> p in s.past || p == t;
    assert Now(s', t);
    FilterNone(ExecutesAt(t), s.attempts);
    forall p | p in s'.past ensures QueueAt(s', p) {
      if p != t { assert QueueAt(s, p); }
    }
    SortMembers(KeyBefore, Filter(DueAt(t), s.orders));
    FilterMembers(DueAt(t), s.orders);
  }

  lemma BooksKept(s: Sim, s': Sim)
    requires BooksInv(s)
    requires s'.past == s.past && s'.future == s.future && s'.pending == s.pending && s'.orders == s.orders
    ensures BooksInv(s')
  {
    forall o | o in s'.orders ensures Filed(s', o) { assert Filed(s, o); }
  }

  lemma AttemptsAttempt(s: Sim, s': Sim)
    requires AttemptsInv(s) && AttemptShape(s, s')
    ensures AttemptsInv(s')
  {
    var o := s.queue[0];
    assert o in s.queue;
    assert s.queue == [o] + s'.queue;
    forall p | p in s'.past ensures QueueAt(s', p) { QueueMoves(s, s', o, p); }
  }

  lemma QueueMoves(s: Sim, s': Sim, o: Order, p: int)
    requires QueueAt(s, p)
    requires s.queue == [o] + s'.queue && s'.attempts == s.attempts + [o]
    requires s'.past == s.past && s'.orders == s.orders
    requires o.execution.Some? && Now(s, o.execution.value.effective)
    ensures QueueAt(s', p)
  {
    FilterSnoc(ExecutesAt(p), s.attempts, o);
    assert Now(s', p) == Now(s, p);
    var done := Filter(ExecutesAt(p), s.attempts);
    assert done + ([o] + s'.queue) == done + [o] + s'.queue;
  }

  /** Filing an order under its instant keeps the books. */
  lemma BooksDecide(w: World, universe: set<int>, s: Sim, s': Sim, d: Decision, o: Order)
    requires BooksInv(s) && TimesInv(w, universe, s)
    requires DecideShape(s, s', d, o) && Placeable(universe, o, s.agenda[0].ts)
    requires s'.orders == s.orders + [o] && s'.future == Place(s, o).future && s'.pending == Place(s, o).pending
    ensures BooksInv(s')
  {
    var now := s.agenda[0].ts;
    assert s.agenda[0] in s.agenda;
    forall x | x in s'.orders ensures Filed(s', x) {
      if x in s.orders { assert Filed(s, x); }
    }
    forall t | t in s'.future ensures PendingAt(s'.pending, t) == Filter(DueAt(t), s'.orders) {
      FilterSnoc(DueAt(t), s.orders, o);
      if t !in s.future {
        forall x | x in s.orders ensures !DueAt(t)(x) { assert Filed(s, x); }
        FilterNone(DueAt(t), s.orders);
      }
    }
    forall t | t in s'.past ensures PendingAt(s'.pending, t) == Filter(StuckAt(t), s'.orders) {
      NowIsLatest(s, now, t);
      FilterSnoc(StuckAt(t), s.orders, o);
    }
  }

  lemma AttemptsDecide(s: Sim, s': Sim, d: Decision, o: Order)
    requires AttemptsInv(s) && Increasing(s.past) && DecideShape(s, s', d, o)
    requires Now(s, o.submittedAt)
    ensures AttemptsInv(s')
  {
    forall t | t in s'.past ensures QueueAt(s', t) {
      assert QueueAt(s, t);
      NowIsLatest(s, o.submittedAt, t);
      FilterSnoc(DueAt(t), s.orders, o);
    }
  }

  // ---- all of it, in every reachable state ---------------------------------------------------

  ghost predicate Sound(w: World, universe: set<int>, s: Sim) {
    TimesInv(w, universe, s) && AgendaInv(w, s) && BooksInv(s) && AttemptsInv(s)
  }

  lemma SoundInit(w: World, universe: set<int>)
    requires Schedulable(w, universe)
    ensures Sound(w, universe, Init(w))
  {
    assert forall e :: e in w.events ==> e.ts in EventTimes(w.events);
  }

  lemma SoundAttempt(w: World, universe: set<int>, s: Sim, s': Sim)
    requires Sound(w, universe, s) && AttemptShape(s, s')
    ensures Sound(w, universe, s')
  {
    assert forall u :: Now(s, u) ==> Now(s', u);
    BooksKept(s, s');
    AttemptsAttempt(s, s');
  }

  lemma SoundDecide(w: World, universe: set<int>, s: Sim, s': Sim, d: Decision, o: Order)
    requires Sound(w, universe, s) && DecideShape(s, s', d, o)
    requires EventOf(d) == s.agenda[0] && Placeable(universe, o, s.agenda[0].ts)
    ensures Sound(w, universe, s')
  {
    assert s.agenda[0] in s.agenda;
    TimesDecide(w, universe, s, s', d, o);
    AgendaDecide(w, s, s', d, o);
    if s'.orders == s.orders {
      BooksKept(s, s');
    } else {
      BooksDecide(w, universe, s, s', d, o);
    }
    AttemptsDecide(s, s', d, o);
  }

  lemma SoundAdvance(w: World, universe: set<int>, s: Sim)
    requires Schedulable(w, universe) && Sound(w, universe, s)
    requires s.queue == [] && s.agenda == [] && s.future != {}
    ensures Sound(w, universe, Advance(w, s))
  {
    TimesAdvance(w, universe, s);
    AgendaAdvance(w, universe, s);
    BooksAdvance(w, universe, s);
    AttemptsAdvance(w, universe, s);
  }

  lemma SoundStep(w: World, universe: set<int>, limit: Option<int>, s: Sim)
    requires Schedulable(w, universe) && Sound(w, universe, s)
    ensures Sound(w, universe, Next(w, limit, s))
  {
    if s.aborted {
    } else if s.queue != [] {
      AttemptHasShape(w, s);
      SoundAttempt(w, universe, s, Attempt(w, s));
    } else if s.agenda != [] {
      DecideHasShape(w, s);
      var d := DecisionFor(w, s, s.agenda[0]);
      SoundDecide(w, universe, s, Decide(w, s), d, OrderFor(w, d, w.intent(d.inputs)));
    } else if s.future != {} && Within(limit, Minimum(s.future)) {
      SoundAdvance(w, universe, s);
    }
  }

  lemma {:induction false} SoundHolds(w: World, universe: set<int>, limit: Option<int>, k: nat)
    requires Schedulable(w, universe)
    ensures Sound(w, universe, Run(w, limit, k))
  {
    hide Next, Sound, Init, Schedulable;
    if k == 0 {
      SoundInit(w, universe);
    } else {
      SoundHolds(w, universe, limit, k - 1);
      SoundRun(w, universe, limit, k);
    }
  }

  lemma SoundRun(w: World, universe: set<int>, limit: Option<int>, k: nat)
    requires Schedulable(w, universe) && 0 < k && Sound(w, universe, Run(w, limit, k - 1))
    ensures Sound(w, universe, Run(w, limit, k))
  {
    hide Next, Sound, Schedulable;
    SoundStep(w, universe, limit, Run(w, limit, k - 1));
  }

  // ---- termination -----------------------------------------------------------------------

  ghost function Unvisited(universe: set<int>, s: Sim): set<int> {
    set t | t in universe && t !in s.past
  }

  lemma AdvanceVisits(w: World, universe: set<int>, s: Sim)
    requires TimesInv(w, universe, s) && s.future != {}
    ensures |Unvisited(universe, Advance(w, s))| < |Unvisited(universe, s)|
  {
    var t := Minimum(s.future);
    assert t in Unvisited(universe, s);
    assert Unvisited(universe, Advance(w, s)) == Unvisited(universe, s) - {t};
  }

  ghost predicate Idle(limit: Option<int>, s: Sim) {
    || s.aborted
    || (s.queue == [] && s.agenda == [] && (s.future == {} || !Within(limit, Minimum(s.future))))
  }

  lemma WorkShrinks(w: World, limit: Option<int>, s: Sim)
    requires !s.aborted && (s.queue != [] || s.agenda != [])
    ensures Next(w, limit, s).past == s.past
    ensures |Next(w, limit, s).queue| + |Next(w, limit, s).agenda| < |s.queue| + |s.agenda|
  {
  }

  /**
    Every run ends.  Each instant is visited at most once and instants come from a finite set;
    within an instant each step uses up one due order or one decision event.
  */
  lemma {:induction false} RunEnds(w: World, universe: set<int>, limit: Option<int>, k: nat) returns (n: nat)
    requires Schedulable(w, universe)
    ensures k <= n && Idle(limit, Run(w, limit, n))
    decreases |Unvisited(universe, Run(w, limit, k))|, |Run(w, limit, k).queue| + |Run(w, limit, k).agenda|
  {
    var s := Run(w, limit, k);
    assert Run(w, limit, k + 1) == Next(w, limit, s);
    if Idle(limit, s) {
      n := k;
    } else if s.queue != [] || s.agenda != [] {
      WorkShrinks(w, limit, s);
      n := RunEnds(w, universe, limit, k + 1);
    } else {
      SoundHolds(w, universe, limit, k);
      AdvanceVisits(w, universe, s);
      n := RunEnds(w, universe, limit, k + 1);
    }
  }

  /** `simulate` terminates on every valid configuration. */
  lemma SimulationEnds(c: Config) returns (n: nat)
    requires ValidRequest(c.request)
    ensures Done(Run(WorldOf(c), None, n))
  {
    ConfigSchedulable(c);
    n := RunEnds(WorldOf(c), Universe(c), None, 0);
  }

  /** A completed run has taken exactly the listed decisions, each once, in list order. */
  lemma DecisionsAreTheEvents(w: World, universe: set<int>, k: nat)
    requires Schedulable(w, universe)
    requires Done(Run(w, None, k)) && !Run(w, None, k).aborted
    ensures EventsOf(Run(w, None, k).decisions) == w.events
  {
    hide Run, Schedulable, BooksInv, AttemptsInv, Filter, EventsOf;
    var s := Run(w, None, k);
    SoundHolds(w, universe, None, k);
    assert EventsOf(s.decisions) + [] == EventsOf(s.decisions);
    assert w.events != [] ==> w.events[0] in w.events;
    if s.past != [] {
      var t := s.past[|s.past| - 1];
      forall e | e in w.events ensures EventUpTo(t)(e) { NowIsLatest(s, t, e.ts); }
      FilterAll(EventUpTo(t), w.events);
    }
  }

  /** An order that will be attempted: it has an execution instant after it was placed. */
  function Due(): Order -> bool {
    (o: Order) => o.execution.Some? && o.submittedAt < o.execution.value.effective
  }

  lemma {:induction false} FilterCounts<T(!new)>(p: T -> bool, s: seq<T>, x: T)
    ensures multiset(Filter(p, s))[x] == if p(x) then multiset(s)[x] else 0
  {
    if s != [] {
      FilterCounts(p, s[1..], x);
      assert s == [s[0]] + s[1..];
    }
  }

  lemma AttemptCount(s: Sim, x: Order)
    requires BooksInv(s) && AttemptsInv(s) && s.queue == [] && s.future == {}
    ensures multiset(s.attempts)[x] == multiset(Filter(Due(), s.orders))[x]
  {
    FilterCounts(Due(), s.orders, x);
    if x in s.orders { assert Filed(s, x); }
    if x.execution.Some? && x.execution.value.effective in s.past {
      var t := x.execution.value.effective;
      assert QueueAt(s, t);
      FilterCounts(ExecutesAt(t), s.attempts, x);
      FilterCounts(DueAt(t), s.orders, x);
      SortPermutes(KeyBefore, Filter(DueAt(t), s.orders));
      assert Filter(ExecutesAt(t), s.attempts) + [] == Filter(ExecutesAt(t), s.attempts);
    }
  }

  /**
    Exactly once: in a completed run the attempted orders are, with multiplicity, the orders whose
    execution instant is after their placement; the orders due at the instant they were placed
    are exactly what is left pending; and the attempts of each instant come in key order.
  */
  lemma AttemptedExactlyOnce(w: World, universe: set<int>, k: nat)
    requires Schedulable(w, universe)
    requires Done(Run(w, None, k)) && !Run(w, None, k).aborted
    ensures var s := Run(w, None, k);
            && multiset(s.attempts) == multiset(Filter(Due(), s.orders))
            && (forall t :: PendingAt(s.pending, t) == Filter(StuckAt(t), s.orders))
            && (forall t :: Filter(ExecutesAt(t), s.attempts) == Sort(KeyBefore, Filter(DueAt(t), s.orders)))
  {
    var s := Run(w, None, k);
    SoundHolds(w, universe, None, k);
    forall x ensures multiset(s.attempts)[x] == multiset(Filter(Due(), s.orders))[x] { AttemptCount(s, x); }
    forall t
      ensures PendingAt(s.pending, t) == Filter(StuckAt(t), s.orders)
      ensures Filter(ExecutesAt(t), s.attempts) == Sort(KeyBefore, Filter(DueAt(t), s.orders))
    {
      if t in s.past {
        assert QueueAt(s, t);
        assert Filter(ExecutesAt(t), s.attempts) + [] == Filter(ExecutesAt(t), s.attempts);
      } else {
        forall o | o in s.orders ensures !StuckAt(t)(o) && !DueAt(t)(o) { assert Filed(s, o); }
        FilterNone(StuckAt(t), s.orders);
        FilterNone(DueAt(t), s.orders);
        FilterNone(ExecutesAt(t), s.attempts);
      }
    }
  }
}
