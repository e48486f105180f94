/**
  In which order the orders of one instant are attempted.  Keys put decision numbers first, as
  text, so neither the decisions nor the instruments decide the order; this module states exactly
  when each of them does.
*/
module AttemptOrder {
  import opened Sequences
  import opened Contracts
  import opened Selector
  import opened Accounting
  import opened Engine
  import opened CanonicalNumber
  import opened DecisionEvents
  import opened Scheduler
  import opened Journal
  import opened KeyOrdering

  // ---- order keys are distinct ---------------------------------------------------------------

  ghost predicate KeysDistinct(orders: seq<Order>) {
    forall i, j :: 0 <= i < j < |orders| ==> orders[i].key != orders[j].key
  }

  lemma OrderKeyOf(c: Config, ds: seq<Decision>, o: Order)
    requires OrderOk(WorldOf(c), ds, o)
    ensures exists text :: o.key == OrderKey(c.request.runKey, o.signal.sequence, o.signal.instrument, text)
  {
    var d := ds[o.signal.sequence - 1];
    OrderOfConfig(c, d, Strategy(c.request.strategy, d.inputs));
  }

  /** No two orders of a run share a key. */
  lemma OrderKeysDistinct(c: Config, limit: Option<int>, k: nat)
    requires ValidRequest(c.request)
    ensures KeysDistinct(Run(WorldOf(c), limit, k).orders)
  {
    var w := WorldOf(c);
    var s := Run(w, limit, k);
    ConfigSchedulable(c);
    JournalHolds(w, Universe(c), limit, k);
    forall i, j | 0 <= i < j < |s.orders| ensures s.orders[i].key != s.orders[j].key {
      KeysOfPair(c, s, i, j);
    }
  }

  lemma KeysOfPair(c: Config, s: Sim, i: nat, j: nat)
    requires JournalInv(WorldOf(c), s) && i < j < |s.orders|
    ensures s.orders[i].key != s.orders[j].key
  {
    var o, p := s.orders[i], s.orders[j];
    OrderKeyOf(c, s.decisions, o);
    OrderKeyOf(c, s.decisions, p);
    var u :| o.key == OrderKey(c.request.runKey, o.signal.sequence, o.signal.instrument, u);
    var v :| p.key == OrderKey(c.request.runKey, p.signal.sequence, p.signal.instrument, v);
    if o.key == p.key {
      KeysDiffer(c.request.runKey, o.signal.sequence, o.signal.instrument, u,
                 p.signal.sequence, p.signal.instrument, v);
    }
  }

  lemma SameKeySameOrder(orders: seq<Order>, o: Order, p: Order)
    requires KeysDistinct(orders) && o in orders && p in orders && o.key == p.key
    ensures o == p
  {
    var i :| 0 <= i < |orders| && orders[i] == o;
    var j :| 0 <= j < |orders| && orders[j] == p;
    assert i == j;
  }

  // ---- attempts of one instant ---------------------------------------------------------------

  ghost predicate AttemptedBefore(s: Sim, o: Order, p: Order) {
    exists i, j :: 0 <= i < j < |s.attempts| && s.attempts[i] == o && s.attempts[j] == p
  }

  /** Two different orders of the journal that are due at the same instant. */
  ghost predicate DueTogether(s: Sim, o: Order, p: Order) {
    && o in s.orders && p in s.orders && o.signal.sequence != p.signal.sequence
    && Due()(o) && Due()(p) && o.execution.value.effective == p.execution.value.effective
  }

  lemma KeyBeforeIsPreorder()
    ensures TotalPreorder(KeyBefore)
  {
    forall x: Order, y: Order ensures KeyBefore(x, y) || KeyBefore(y, x) {
      TextOrder(x.key, y.key, "");
    }
    forall x: Order, y: Order, z: Order | KeyBefore(x, y) && KeyBefore(y, z)
      ensures KeyBefore(x, z)
    {
      TextOrder(x.key, y.key, z.key);
    }
  }

  /** A filter keeps the order of what it keeps. */
  lemma {:induction false} FilterInOrder<T(!new)>(p: T -> bool, s: seq<T>, a: nat, b: nat) returns (i: nat, j: nat)
    requires a < b < |Filter(p, s)|
    ensures i < j < |s| && s[i] == Filter(p, s)[a] && s[j] == Filter(p, s)[b]
  {
    var rest := Filter(p, s[1..]);
    if !p(s[0]) {
      i, j := FilterInOrder(p, s[1..], a, b);
      i, j := i + 1, j + 1;
    } else if a > 0 {
      i, j := FilterInOrder(p, s[1..], a - 1, b - 1);
      i, j := i + 1, j + 1;
    } else {
      FilterMembers(p, s[1..]);
      assert rest[b - 1] in rest;
      var n := IndexIn(s[1..], rest[b - 1]);
      i, j := 0, n + 1;
    }
  }

  /** The attempts of an instant, in a form that needs no run. */
  ghost predicate Ordered(s: Sim) {
    && NoDup(s.attempts) && KeysDistinct(s.orders)
    && forall t :: Filter(ExecutesAt(t), s.attempts) == Sort(KeyBefore, Filter(DueAt(t), s.orders))
  }

  lemma EarlierKeyFirst(s: Sim, o: Order, p: Order)
    requires Ordered(s) && DueTogether(s, o, p) && TextBefore(o.key, p.key) && o.key != p.key
    ensures AttemptedBefore(s, o, p)
  {
    var t := o.execution.value.effective;
    var due := Filter(DueAt(t), s.orders);
    var done := Filter(ExecutesAt(t), s.attempts);
    FilterMembers(DueAt(t), s.orders);
    SortMembers(KeyBefore, due);
    KeyBeforeIsPreorder();
    SortSorted(KeyBefore, due);
    var a := IndexIn(done, o);
    var b := IndexIn(done, p);
    TextOrder(o.key, p.key, "");
    assert a < b;
    var i, j := FilterInOrder(ExecutesAt(t), s.attempts, a, b);
  }

  lemma NotBothWays(s: Sim, o: Order, p: Order)
    requires NoDup(s.attempts) && AttemptedBefore(s, o, p)
    ensures !AttemptedBefore(s, p, o)
  {
  }

  /** Orders due together are attempted in the text order of their keys. */
  lemma KeysDecide(s: Sim, o: Order, p: Order)
    requires Ordered(s) && DueTogether(s, o, p)
    ensures AttemptedBefore(s, o, p) <==> TextBefore(o.key, p.key)
    ensures AttemptedBefore(s, p, o) <==> !TextBefore(o.key, p.key)
  {
    hide AttemptedBefore, Ordered, TextBefore;
    assert NoDup(s.attempts) && KeysDistinct(s.orders) by { OrderedParts(s); }
    if o.key == p.key { SameKeySameOrder(s.orders, o, p); }
    TextOrder(o.key, p.key, "");
    if TextBefore(o.key, p.key) {
      EarlierKeyFirst(s, o, p);
      NotBothWays(s, o, p);
    } else {
      EarlierKeyFirst(s, p, o);
      NotBothWays(s, p, o);
    }
  }

  lemma OrderedParts(s: Sim)
    requires Ordered(s)
    ensures NoDup(s.attempts) && KeysDistinct(s.orders)
  {
  }

  /** A finished simulation that met no pricing error. */
  ghost predicate Completed(c: Config, k: nat) {
    ValidRequest(c.request) && Done(Run(WorldOf(c), None, k)) && !Run(WorldOf(c), None, k).aborted
  }

  lemma CompletedOrdered(c: Config, k: nat)
    requires Completed(c, k)
    ensures Ordered(Run(WorldOf(c), None, k))
    ensures JournalInv(WorldOf(c), Run(WorldOf(c), None, k))
    ensures EventsOf(Run(WorldOf(c), None, k).decisions) == Events(c)
  {
    hide Run, Universe, Schedulable;
    var w := WorldOf(c);
    var s := Run(w, None, k);
    ConfigSchedulable(c);
    AttemptedExactlyOnce(w, Universe(c), k);
    DecisionsAreTheEvents(w, Universe(c), k);
    JournalHolds(w, Universe(c), None, k);
    OrderKeysDistinct(c, None, k);
    OrdersAttemptedOnce(s.orders, s.attempts);
  }

  lemma OrdersAttemptedOnce(orders: seq<Order>, attempts: seq<Order>)
    requires KeysDistinct(orders) && multiset(attempts) == multiset(Filter(Due(), orders))
    ensures NoDup(attempts)
  {
    FilterNoDup(Due(), orders);
    NoDupCounts(Filter(Due(), orders));
    CountsNoDup(attempts);
  }

  // ---- decision numbers ------------------------------------------------------------------------

  /** The earlier decision number is below the later one cut to its width. */
  predicate SortsFirst(m: nat, n: nat)
    requires |Digits(m)| <= |Digits(n)|
  {
    m < Cut(n, |Digits(n)| - |Digits(m)|)
  }

  lemma NumbersDecide(c: Config, s: Sim, o: Order, p: Order)
    requires JournalInv(WorldOf(c), s) && o in s.orders && p in s.orders && o.signal.sequence < p.signal.sequence
    ensures |Digits(o.signal.sequence)| <= |Digits(p.signal.sequence)|
    ensures TextBefore(o.key, p.key) <==> SortsFirst(o.signal.sequence, p.signal.sequence)
  {
    hide WorldOf, JournalInv, OrderKey, TextBefore, Digits, Cut;
    var key, m, n := c.request.runKey, o.signal.sequence, p.signal.sequence;
    OrderTracesBack(WorldOf(c), s, o);
    OrderTracesBack(WorldOf(c), s, p);
    OrderKeyOf(c, s.decisions, o);
    OrderKeyOf(c, s.decisions, p);
    var u :| o.key == OrderKey(key, m, o.signal.instrument, u);
    var v :| p.key == OrderKey(key, n, p.signal.instrument, v);
    KeysInOrderIff(key, m, o.signal.instrument, u, n, p.signal.instrument, v);
  }

  /**
    Of two orders due together in a finished run, that of the earlier decision is attempted first
    if and only if its number is below the later number cut to the same width.
  */
  lemma DecisionOrderIff(c: Config, k: nat, o: Order, p: Order)
    requires Completed(c, k) && DueTogether(Run(WorldOf(c), None, k), o, p)
    requires o.signal.sequence < p.signal.sequence
    ensures |Digits(o.signal.sequence)| <= |Digits(p.signal.sequence)|
    ensures var s, first := Run(WorldOf(c), None, k), SortsFirst(o.signal.sequence, p.signal.sequence);
            (AttemptedBefore(s, o, p) <==> first) && (AttemptedBefore(s, p, o) <==> !first)
  {
    hide Run, WorldOf, Ordered, JournalInv, AttemptedBefore, TextBefore, SortsFirst;
    var s := Run(WorldOf(c), None, k);
    CompletedOrdered(c, k);
    NumbersDecide(c, s, o, p);
    KeysDecide(s, o, p);
  }

  /** So the order of decision 10 is attempted before that of decision 9 whenever they are due together. */
  lemma TenBeforeNine(c: Config, k: nat, o: Order, p: Order)
    requires Completed(c, k) && DueTogether(Run(WorldOf(c), None, k), o, p)
    requires o.signal.sequence == 9 && p.signal.sequence == 10
    ensures AttemptedBefore(Run(WorldOf(c), None, k), p, o)
  {
    hide Run, WorldOf, DueTogether, AttemptedBefore;
    DecisionOrderIff(c, k, o, p);
    assert |Digits(9)| == 1 && Digits(10) == Digits(1) + Digits(0);
    assert Cut(10, 1) == Cut(1, 0) == 1;
  }

  // ---- instruments -----------------------------------------------------------------------------

  /** Ascending instrument, series and bar, as the documentation orders simultaneous fills. */
  predicate Listed(o: Order, p: Order) {
    var a, b := o.signal, p.signal;
    || a.instrument < b.instrument
    || (a.instrument == b.instrument
        && (|| a.trigger.series < b.trigger.series
            || (a.trigger.series == b.trigger.series && a.trigger.open < b.trigger.open)))
  }

  lemma {:induction false} EventsOfAt(ds: seq<Decision>)
    ensures |EventsOf(ds)| == |ds| && forall i :: 0 <= i < |ds| ==> EventsOf(ds)[i] == EventOf(ds[i])
  {
    if ds != [] { EventsOfAt(ds[..|ds| - 1]); }
  }

  lemma OrderEvent(c: Config, s: Sim, o: Order)
    requires JournalInv(WorldOf(c), s) && o in s.orders && EventsOf(s.decisions) == Events(c)
    ensures 1 <= o.signal.sequence <= |Events(c)|
    ensures Events(c)[o.signal.sequence - 1] == Event(o.submittedAt, o.signal.instrument, o.signal.trigger)
  {
    hide Events, JournalInv, EventsOf;
    OrderTracesBack(WorldOf(c), s, o);
    EventsOfAt(s.decisions);
    var d := s.decisions[o.signal.sequence - 1];
    assert o == OrderFor(WorldOf(c), d, Strategy(c.request.strategy, d.inputs));
  }

  /** An instrument's decision event is determined by its trigger's open. */
  lemma SameOpenSameEvent(c: Config, e: Event, f: Event)
    requires e in Events(c) && f in Events(c) && e.instrument == f.instrument && e.trigger.open == f.trigger.open
    ensures e == f
  {
    hide Events, FirstVisibility, Visible;
    EventsAreTheSchedule(c, e);
    EventsAreTheSchedule(c, f);
  }

  lemma EventsInOrder(c: Config, i: nat, j: nat)
    requires ValidRequest(c.request) && i < j < |Events(c)|
    ensures EventBefore(Events(c)[i], Events(c)[j]) && Events(c)[i] != Events(c)[j]
  {
    var r := c.request;
    EventBeforeIsPreorder();
    SortSorted(EventBefore, RawEvents(r.instruments, c.data.signal, r.eventFrom, r.eventTo));
    EventsDistinct(c);
  }

  /** Orders of different decisions are never tied, and those placed at one instant come listed. */
  lemma ListedTotal(c: Config, s: Sim, o: Order, p: Order)
    requires ValidRequest(c.request) && JournalInv(WorldOf(c), s) && EventsOf(s.decisions) == Events(c)
    requires o in s.orders && p in s.orders && o.signal.sequence < p.signal.sequence
    ensures Listed(o, p) <==> !Listed(p, o)
    ensures o.submittedAt == p.submittedAt ==> Listed(o, p)
  {
    hide Events, JournalInv, EventsOf, WorldOf;
    OrderEvent(c, s, o);
    OrderEvent(c, s, p);
    var e, f := Events(c)[o.signal.sequence - 1], Events(c)[p.signal.sequence - 1];
    assert e in Events(c) && f in Events(c);
    EventsInOrder(c, o.signal.sequence - 1, p.signal.sequence - 1);
    if e.instrument == f.instrument && e.trigger.open == f.trigger.open { SameOpenSameEvent(c, e, f); }
  }

  /** Two orders were attempted in the documented order. */
  ghost predicate Documented(s: Sim, o: Order, p: Order) {
    if Listed(o, p) then AttemptedBefore(s, o, p) else AttemptedBefore(s, p, o)
  }

  /**
    Exactly when two orders due together are attempted in ascending instrument, series and bar: if
    and only if the instruments stand in the order in which the decision numbers sort.  For orders
    placed at one instant that is if and only if the earlier number sorts first.
  */
  lemma DocumentedIff(c: Config, k: nat, o: Order, p: Order)
    requires Completed(c, k) && DueTogether(Run(WorldOf(c), None, k), o, p)
    requires o.signal.sequence < p.signal.sequence
    ensures |Digits(o.signal.sequence)| <= |Digits(p.signal.sequence)|
    ensures var s, first := Run(WorldOf(c), None, k), SortsFirst(o.signal.sequence, p.signal.sequence);
            && (Documented(s, o, p) <==> (Listed(o, p) <==> first))
            && (o.submittedAt == p.submittedAt ==> (Documented(s, o, p) <==> first))
  {
    hide Run, WorldOf, Ordered, JournalInv, AttemptedBefore, SortsFirst, Listed, EventsOf, Events;
    var s := Run(WorldOf(c), None, k);
    CompletedOrdered(c, k);
    DecisionOrderIff(c, k, o, p);
    ListedTotal(c, s, o, p);
  }

  // ---- a run that leaves the documented order ----------------------------------------------------

  /** A world with two events, each of which places an order due at `t` once it is bought for. */
  ghost predicate TwoBuys(w: World, e: Event, f: Event, t: int) {
    && w.events == [e, f] && e.ts < f.ts < t
    && Wants(w, DecisionOf(w, e, 1)) && Wants(w, DecisionOf(w, f, 2))
    && Fillable(w, OrderOf(w, e, 1), t) && Fillable(w, OrderOf(w, f, 2), t)
  }

  ghost predicate Fillable(w: World, o: Order, t: int) {
    o.execution.Some? && o.execution.value.effective == t && w.price(o.side, o.quantity, o.execution.value.close).Some?
  }

  /** The decision taken on an event while nothing is held. */
  function DecisionOf(w: World, e: Event, n: nat): Decision {
    Decision(n, e.instrument, e.ts, e.trigger, w.inputs(e.instrument, e.ts), w.capital, FLAT)
  }

  function OrderOf(w: World, e: Event, n: nat): Order {
    var d := DecisionOf(w, e, n);
    OrderFor(w, d, w.intent(d.inputs))
  }

  /** The account is untouched; `orders` are filed under `t`. */
  function Waiting(w: World, past: seq<int>, future: set<int>, queue: seq<Order>, agenda: seq<Event>,
                   pending: map<int, seq<Order>>, ds: seq<Decision>, signals: seq<Signal>, orders: seq<Order>): Sim
  {
    Sim(past, future, queue, agenda, pending, ds, signals, orders, [], [], Account(w.capital, map[]), false)
  }

  lemma EventsOfTwo(e: Event, f: Event)
    requires e.ts < f.ts
    ensures EventsAt([e, f], e.ts) == [e] && EventsAt([e, f], f.ts) == [f] && EventTimes([e, f]) == {e.ts, f.ts}
    ensures forall t :: f.ts < t ==> EventsAt([e, f], t) == []
  {
    assert [e, f] == [e] + [f] && [f] == [f] + [];
    forall t ensures EventsAt([e, f], t) == (if e.ts == t then [e] else []) + (if f.ts == t then [f] else []) {
      FilterCons(EventAt(t), e, [f]);
      FilterCons(EventAt(t), f, []);
    }
    assert [e] + [] == [e] && [] + [f] == [f];
  }

  /** One more decision on an event, with nothing booked so far. */
  lemma BuysOnce(w: World, past: seq<int>, future: set<int>, pending: map<int, seq<Order>>, ds: seq<Decision>,
                 signals: seq<Signal>, orders: seq<Order>, e: Event, t: int)
    requires Wants(w, DecisionOf(w, e, |ds| + 1)) && Fillable(w, OrderOf(w, e, |ds| + 1), t) && t !in past
    ensures var d, o := DecisionOf(w, e, |ds| + 1), OrderOf(w, e, |ds| + 1);
            Next(w, None, Waiting(w, past, future, [], [e], pending, ds, signals, orders)) ==
            Waiting(w, past, future + {t}, [], [], pending[t := PendingAt(pending, t) + [o]],
                    ds + [d], signals + [o.signal], orders + [o])
  {
    var s := Waiting(w, past, future, [], [e], pending, ds, signals, orders);
    var d := DecisionOf(w, e, |ds| + 1);
    assert DecisionFor(w, s, e) == d;
    assert Next(w, None, s) == Place(Taken(s, d), OrderFor(w, d, w.intent(d.inputs)));
  }

  /** On to the next instant. */
  lemma MovesOn(w: World, past: seq<int>, future: set<int>, pending: map<int, seq<Order>>, ds: seq<Decision>,
                signals: seq<Signal>, orders: seq<Order>, t: int)
    requires t in future && forall u :: u in future ==> t <= u
    ensures Next(w, None, Waiting(w, past, future, [], [], pending, ds, signals, orders))
         == Waiting(w, past + [t], future - {t}, Sort(KeyBefore, PendingAt(pending, t)), EventsAt(w.events, t),
                    pending - {t}, ds, signals, orders)
  {
  }

  lemma FirstBuy(w: World, e: Event, f: Event, t: int)
    requires TwoBuys(w, e, f, t)
    ensures var o := OrderOf(w, e, 1);
            Run(w, None, 2) ==
            Waiting(w, [e.ts], {f.ts, t}, [], [], map[t := [o]], [DecisionOf(w, e, 1)], [o.signal], [o])
  {
    hide Fillable, Wants, Next, Minimum;
    EventsOfTwo(e, f);
    MovesOn(w, [], {e.ts, f.ts}, map[], [], [], [], e.ts);
    var none: map<int, seq<Order>> := map[];
    assert [] + [e.ts] == [e.ts] && {e.ts, f.ts} - {e.ts} == {f.ts} && none - {e.ts} == none;
    SortNothing();
    BuysOnce(w, [e.ts], {f.ts}, map[], [], [], [], e, t);
    var d, o := DecisionOf(w, e, 1), OrderOf(w, e, 1);
    assert [] + [d] == [d] && [] + [o] == [o] && [] + [o.signal] == [o.signal] && {f.ts} + {t} == {f.ts, t};
    assert Run(w, None, 0) == Waiting(w, [], {e.ts, f.ts}, [], [], map[], [], [], []);
    assert Run(w, None, 1) == Waiting(w, [e.ts], {f.ts}, [], [e], map[], [], [], []);
    assert Run(w, None, 2) == Next(w, None, Run(w, None, 1));
  }

  lemma SecondBuy(w: World, e: Event, f: Event, t: int)
    requires TwoBuys(w, e, f, t)
    ensures var o, p := OrderOf(w, e, 1), OrderOf(w, f, 2);
            Run(w, None, 5) ==
            Waiting(w, [e.ts, f.ts, t], {}, Sort(KeyBefore, [o, p]), [], map[],
                    [DecisionOf(w, e, 1), DecisionOf(w, f, 2)], [o.signal, p.signal], [o, p])
  {
    hide Fillable, Wants, Next, Minimum, Sort, DecisionOf, OrderOf;
    var c, d, o, p := DecisionOf(w, e, 1), DecisionOf(w, f, 2), OrderOf(w, e, 1), OrderOf(w, f, 2);
    EventsOfTwo(e, f);
    FirstBuy(w, e, f, t);
    MovesOn(w, [e.ts], {f.ts, t}, map[t := [o]], [c], [o.signal], [o], f.ts);
    assert [e.ts] + [f.ts] == [e.ts, f.ts] && {f.ts, t} - {f.ts} == {t} && map[t := [o]] - {f.ts} == map[t := [o]];
    SortNothing();
    assert Run(w, None, 3) == Waiting(w, [e.ts, f.ts], {t}, [], [f], map[t := [o]], [c], [o.signal], [o]);
    BuysOnce(w, [e.ts, f.ts], {t}, map[t := [o]], [c], [o.signal], [o], f, t);
    assert [c] + [d] == [c, d] && [o] + [p] == [o, p] && [o.signal] + [p.signal] == [o.signal, p.signal];
    assert {t} + {t} == {t} && map[t := [o]][t := [o, p]] == map[t := [o, p]];
    assert Run(w, None, 4)
        == Waiting(w, [e.ts, f.ts], {t}, [], [], map[t := [o, p]], [c, d], [o.signal, p.signal], [o, p]);
    MovesOn(w, [e.ts, f.ts], {t}, map[t := [o, p]], [c, d], [o.signal, p.signal], [o, p], t);
    assert [e.ts, f.ts] + [t] == [e.ts, f.ts, t] && {t} - {t} == {};
    assert map[t := [o, p]] - {t} == map[];
    assert Run(w, None, 5) == Next(w, None, Run(w, None, 4));
  }

  lemma SortNothing()
    ensures Sort(KeyBefore, []) == []
  {
  }

  lemma TwoAttempts(w: World, s: Sim, o: Order, p: Order, t: int)
    requires !s.aborted && s.agenda == [] && s.future == {} && s.queue == [o, p]
    requires Fillable(w, o, t) && Fillable(w, p, t)
    ensures var s' := Next(w, None, Next(w, None, s)); Done(s') && !s'.aborted && s'.orders == s.orders
  {
    var s1 := Next(w, None, s);
    assert s1.queue == [p] && !s1.aborted;
  }

  /** Both orders are placed, and the run ends without an error. */
  lemma TwoBuysEnd(w: World, e: Event, f: Event, t: int)
    requires TwoBuys(w, e, f, t)
    ensures var s := Run(w, None, 7); Done(s) && !s.aborted && s.orders == [OrderOf(w, e, 1), OrderOf(w, f, 2)]
  {
    hide Fillable, Wants, Next, DecisionOf, OrderOf;
    var o, p := OrderOf(w, e, 1), OrderOf(w, f, 2);
    SecondBuy(w, e, f, t);
    SortTwo(o, p);
    assert Run(w, None, 7) == Next(w, None, Next(w, None, Run(w, None, 5)));
    if Sort(KeyBefore, [o, p]) == [o, p] {
      TwoAttempts(w, Run(w, None, 5), o, p, t);
    } else {
      TwoAttempts(w, Run(w, None, 5), p, o, t);
    }
  }

  lemma SortTwo(o: Order, p: Order)
    ensures Sort(KeyBefore, [o, p]) == [o, p] || Sort(KeyBefore, [o, p]) == [p, o]
  {
    assert [o, p][1..] == [p] && [p][1..] == [];
    SortNothing();
    assert Insert(KeyBefore, p, []) == [p] && Insert(KeyBefore, o, []) == [o];
    assert Sort(KeyBefore, [p]) == [p];
    assert [o] + [p] == [o, p] && [p] + [o] == [p, o];
  }

  const OPENING := Bar(1, 1, 1, 0, 0, 0, 1.0)
  const CLOSING := Bar(5, 1, 1, 30, 30, 30, 2.0)

  function RisingAt(t: int): Bar { Bar(2, 1, 1, t, t, t, 2.0) }

  /** A low close, a higher one that shows at `t`, and a last one at 30. */
  function RowsShown(t: int): seq<Bar> { [OPENING, RisingAt(t), CLOSING] }

  /** Instrument 2 turns long at 10 and instrument 1 at 20; both execute at 30. */
  function Crossing(): Config {
    var rows := map[1 := RowsShown(20), 2 := RowsShown(10)];
    Config(
      Request(10, 30, 100.0, Parameters(1, 2, 1.0, "1"), Costs(0.0, 0.0, 0.0),
              [Instrument(1, 0), Instrument(2, 0)], "run"),
      Data(rows, rows, rows))
  }

  lemma ShownFirst(t: int)
    ensures Opens(RowsShown(t)) == {1, 2, 5}
    ensures FirstVisibility(RowsShown(t), 1) == 0
    ensures FirstVisibility(RowsShown(t), 2) == t
    ensures FirstVisibility(RowsShown(t), 5) == 30
  {
    hide FirstVisibility;
    var rows := RowsShown(t);
    assert OPENING in rows && RisingAt(t) in rows && CLOSING in rows;
    OnlyFirst(rows, OPENING);
    OnlyFirst(rows, RisingAt(t));
    OnlyFirst(rows, CLOSING);
  }

  lemma InView(rows: seq<Bar>, t: int, b: Bar)
    requires b in rows && b.effective <= t && forall x :: x in rows && x.open == b.open ==> x == b
    ensures b in Visible(rows, t)
  {
    hide Visible;
    VisibleIsPointInTime(rows, t);
    var x :| x in Visible(rows, t) && x.open == b.open;
    ViewIsEarly(rows, t, x);
  }

  lemma ViewIsEarly(rows: seq<Bar>, t: int, x: Bar)
    requires x in Visible(rows, t)
    ensures x in rows && x.effective <= t
  {
    hide Visible;
    VisibleIsPointInTime(rows, t);
  }

  lemma ShownAt(t: int)
    requires 0 < t < 30
    ensures Visible(RowsShown(t), t) == [OPENING, RisingAt(t)]
  {
    hide Visible, Current, ByOpen;
    var rows, bars := RowsShown(t), Visible(RowsShown(t), t);
    assert OPENING in rows && RisingAt(t) in rows;
    InView(rows, t, OPENING);
    InView(rows, t, RisingAt(t));
    forall b | b in bars ensures b == OPENING || b == RisingAt(t) { ViewIsEarly(rows, t, b); }
    assert ByOpen(bars) by { VisibleIsPointInTime(rows, t); }
    var i := IndexIn(bars, OPENING);
    var j := IndexIn(bars, RisingAt(t));
    TwoByOpen(bars, OPENING, RisingAt(t), i, j);
  }

  lemma TwoByOpen(bars: seq<Bar>, a: Bar, b: Bar, i: nat, j: nat)
    requires ByOpen(bars) && a.open < b.open && i < |bars| && j < |bars| && bars[i] == a && bars[j] == b
    requires forall x :: x in bars ==> x == a || x == b
    ensures bars == [a, b]
  {
    if |bars| > 2 { OneOfTwo(bars, a, b, i, j, 2); }
    OneOfTwo(bars, a, b, i, j, 0);
    OneOfTwo(bars, a, b, i, j, 1);
  }

  lemma OneOfTwo(bars: seq<Bar>, a: Bar, b: Bar, i: nat, j: nat, n: nat)
    requires ByOpen(bars) && i < |bars| && j < |bars| && bars[i] == a && bars[j] == b && n < |bars|
    requires forall x :: x in bars ==> x == a || x == b
    ensures n == i || n == j
  {
    assert bars[n] in bars;
  }

  lemma ExecutesLast(t: int)
    requires 0 < t < 30
    ensures NextExecution(RowsShown(t), 2, t) == Some(CLOSING)
  {
    hide NextExecution, FirstVisibility;
    ShownFirst(t);
    NextExecutionFinds(RowsShown(t), 2, t);
    assert Executable(RowsShown(t), 5, 2, t);
  }

  lemma RisingGoesLong(t: int)
    ensures Strategy(Parameters(1, 2, 1.0, "1"), [OPENING, RisingAt(t)]) == Intent(1.0, "1", "SMA_CROSS_LONG")
  {
    var bars := [OPENING, RisingAt(t)];
    assert LastOf(bars, 1) == [RisingAt(t)] && LastOf(bars, 2) == bars && bars[1..] == [RisingAt(t)];
    assert SumClose([RisingAt(t)]) == 2.0 + SumClose([]);
  }

  /** The events of the example: instrument 2 first, then instrument 1. */
  lemma CrossingEvents()
    ensures Events(Crossing()) == [Event(10, 2, RisingAt(10)), Event(20, 1, RisingAt(20))]
  {
    hide Events, FirstVisibility, Visible;
    var c := Crossing();
    var e, f := Event(10, 2, RisingAt(10)), Event(20, 1, RisingAt(20));
    CrossingIsValid();
    forall x ensures x in Events(c) <==> x == e || x == f { CrossingEvent(x); }
    EventsDistinct(c);
    assert forall i, j :: 0 <= i < j < |Events(c)| ==> EventBefore(Events(c)[i], Events(c)[j]) by {
      forall i, j | 0 <= i < j < |Events(c)| ensures EventBefore(Events(c)[i], Events(c)[j]) { EventsInOrder(c, i, j); }
    }
    SortedUnique(EventBefore, [e, f], Events(c));
  }

  lemma CrossingIsValid()
    ensures ValidRequest(Crossing().request)
  {
  }

  lemma CrossingEvent(x: Event)
    ensures x in Events(Crossing()) <==> x == Event(10, 2, RisingAt(10)) || x == Event(20, 1, RisingAt(20))
  {
    hide Events, FirstVisibility, Visible;
    var c := Crossing();
    EventsAreTheSchedule(c, x);
    assert Ids(c.request.instruments) == {1, 2} by {
      assert Instrument(1, 0) in c.request.instruments && Instrument(2, 0) in c.request.instruments;
    }
    ShownFirst(10);
    ShownFirst(20);
    ShownAt(10);
    ShownAt(20);
    FindRising(10);
    FindRising(20);
  }

  lemma FindRising(t: int)
    ensures FindOpen([OPENING, RisingAt(t)], 2) == Some(RisingAt(t))
  {
    assert [OPENING, RisingAt(t)][1..] == [RisingAt(t)];
  }

  lemma CrossingBuys(id: int, t: int, n: nat)
    requires (id, t) == (1, 20) || (id, t) == (2, 10)
    ensures var w, e := WorldOf(Crossing()), Event(t, id, RisingAt(t));
            && Wants(w, DecisionOf(w, e, n)) && Fillable(w, OrderOf(w, e, n), 30)
            && OrderOf(w, e, n).signal.instrument == id && OrderOf(w, e, n).signal.sequence == n
            && OrderOf(w, e, n).submittedAt == t
  {
    hide Visible, NextExecution, Events, Strategy;
    var c := Crossing();
    var w, e := WorldOf(c), Event(t, id, RisingAt(t));
    assert RowsOf(c.data.signal, id) == RowsShown(t) && RowsOf(c.data.execution, id) == RowsShown(t);
    ShownAt(t);
    assert Inputs(c, id, t) == [OPENING, RisingAt(t)];
    RisingGoesLong(t);
    assert LagOf(c.request.instruments, id) == 0 by {
      assert c.request.instruments[1..] == [Instrument(2, 0)] && [Instrument(2, 0)][1..] == [];
    }
    ExecutesLast(t);
    OrderOfConfig(c, DecisionOf(w, e, n), Intent(1.0, "1", "SMA_CROSS_LONG"));
  }

  /**
    The documented order is not kept: a valid configuration whose run ends with the order of
    instrument 2 attempted before that of instrument 1, both due at instant 30.
  */
  lemma DocumentedOrderFails() returns (o: Order, p: Order)
    ensures Completed(Crossing(), 7)
    ensures var s := Run(WorldOf(Crossing()), None, 7);
            && DueTogether(s, o, p) && o.execution.value.effective == 30
            && o.signal.instrument == 2 && p.signal.instrument == 1 && Listed(p, o)
            && AttemptedBefore(s, o, p) && !Documented(s, o, p)
  {
    hide WorldOf, Run, Wants, DecisionOf, OrderOf, Events, AttemptedBefore, Crossing;
    var w := WorldOf(Crossing());
    var e, f := Event(10, 2, RisingAt(10)), Event(20, 1, RisingAt(20));
    CrossingIsValid();
    CrossingBuys(2, 10, 1);
    CrossingBuys(1, 20, 2);
    assert w.events == [e, f] by { CrossingEvents(); WorldEvents(Crossing()); }
    assert TwoBuys(w, e, f, 30);
    TwoBuysEnd(w, e, f, 30);
    o, p := OrderOf(w, e, 1), OrderOf(w, f, 2);
    assert DueTogether(Run(w, None, 7), o, p);
    DocumentedIff(Crossing(), 7, o, p);
    DecisionOrderIff(Crossing(), 7, o, p);
    assert |Digits(1)| == |Digits(2)| == 1 && Cut(2, 0) == 2;
  }
}
