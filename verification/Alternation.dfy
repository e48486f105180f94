/**
  Long/flat alternation.  When bars show strictly in bar order and no lag exceeds the gap to the
  next bar, an order is always settled before its instrument decides again; so every position is
  flat or the target, purchases and sales alternate, no sale is refused and trades always pair.
*/
module Alternation {
  import opened Sequences
  import opened Contracts
  import opened Selector
  import opened Accounting
  import opened Engine
  import opened DecisionEvents
  import opened Scheduler
  import opened Journal
  import opened Conservation
  import opened Service

  // ---- what alternation needs of the world -----------------------------------------------------

  /** Events of one instrument come one per instant, and orders execute before the next of them. */
  ghost predicate Paced(w: World) {
    && (forall i, j :: 0 <= i < j < |w.events| && w.events[i].ts == w.events[j].ts
          ==> w.events[i].instrument != w.events[j].instrument)
    && (forall e :: e in w.events ==> PacedOrder(w.events, w.execution(e.instrument, e.trigger.open, e.ts), e))
  }

  ghost predicate PacedOrder(events: seq<Event>, x: Option<Bar>, e: Event) {
    x.Some? ==>
      && e.ts < x.value.effective
      && (forall f :: f in events && f.instrument == e.instrument && e.ts < f.ts ==> x.value.effective <= f.ts)
  }

  /** Targets are flat or `target`; pricing keeps side and size; booking moves one position. */
  ghost predicate LongFlat(w: World, target: real) {
    && 0.0 < target
    && (forall bars :: w.intent(bars).target == target || w.intent(bars).target == 0.0)
    && (forall side, q, p :: w.price(side, q, p).Some? ==>
          w.price(side, q, p).value.side == side && w.price(side, q, p).value.quantity == q)
    && (forall a, id, f :: Books(w, a, id, f))
  }

  function QuantityOf(a: Account, id: int): real { PositionOf(a, id).quantity }

  ghost predicate Books(w: World, a: Account, id: int, f: PricedFill) {
    match w.book(a, id, f)
    case None => f.side.Buy? || QuantityOf(a, id) < f.quantity
    case Some(b) =>
      && QuantityOf(b, id) == QuantityOf(a, id) + (if f.side.Buy? then f.quantity else -f.quantity)
      && (forall i :: i != id ==> PositionOf(b, i) == PositionOf(a, i))
  }

  // ---- the invariant ---------------------------------------------------------------------------

  ghost predicate Outstanding(s: Sim, o: Order) {
    || o in s.queue
    || (o in s.orders && o.execution.Some? && o.execution.value.effective in s.future)
  }

  /** The order turns the position it was placed on into the other one. */
  ghost predicate Fits(a: Account, target: real, o: Order) {
    && o.quantity == target
    && QuantityOf(a, o.signal.instrument) == (if o.side.Buy? then 0.0 else target)
  }

  ghost predicate PlacedPaced(w: World, o: Order) {
    o.execution.Some? ==>
      && o.submittedAt < o.execution.value.effective
      && (forall e :: e in w.events && e.instrument == o.signal.instrument && o.submittedAt < e.ts
            ==> o.execution.value.effective <= e.ts)
  }

  ghost predicate FlatOrLong(a: Account, target: real) {
    forall id :: QuantityOf(a, id) == 0.0 || QuantityOf(a, id) == target
  }

  ghost predicate OneEach(s: Sim, target: real) {
    && (forall o :: Outstanding(s, o) ==> Fits(s.account, target, o))
    && (forall o, p :: Outstanding(s, o) && Outstanding(s, p) && o != p ==> o.signal.instrument != p.signal.instrument)
  }

  ghost predicate AgendaFresh(w: World, s: Sim) {
    && (forall o :: o in s.orders ==> PlacedPaced(w, o))
    && (forall o, e :: o in s.orders && e in s.agenda && o.submittedAt == e.ts ==> o.signal.instrument != e.instrument)
    && (forall i, j :: 0 <= i < j < |s.agenda| ==> s.agenda[i].instrument != s.agenda[j].instrument)
  }

  /** The fills alternate, and the open entries are the positions held. */
  ghost predicate Paired(s: Sim, target: real) {
    && Alternating(s.fills) && ClosedTrades(s.fills).Some?
    && var entries := ClosedTrades(s.fills).value.entries;
       && (forall id :: id in entries <==> QuantityOf(s.account, id) == target)
       && (forall id :: id in entries ==> entries[id].economics.quantity == target)
  }

  ghost predicate SalesFilled(s: Sim) {
    forall o :: o in s.attempts && o.side.Sell? ==> s.aborted || exists f :: f in s.fills && f.order == o
  }

  ghost predicate AltInv(w: World, target: real, s: Sim) {
    FlatOrLong(s.account, target) && OneEach(s, target) && AgendaFresh(w, s) && Paired(s, target) && SalesFilled(s)
  }

  // ---- moving on -------------------------------------------------------------------------------

  lemma AltAdvance(w: World, universe: set<int>, target: real, s: Sim)
    requires Sound(w, universe, s) && Paced(w) && AltInv(w, target, s)
    requires s.queue == [] && s.agenda == [] && s.future != {}
    ensures AltInv(w, target, Advance(w, s))
  {
    var t := Minimum(s.future);
    var s' := Advance(w, s);
    SortMembers(KeyBefore, PendingAt(s.pending, t));
    FilterMembers(DueAt(t), s.orders);
    forall o | Outstanding(s', o) ensures Outstanding(s, o) {}
    AgendaAtInstant(w, t);
    FilterMembers(EventAt(t), w.events);
    assert forall e :: e in s'.agenda ==> e.ts == t;
    forall o | o in s'.orders ensures o.submittedAt != t { assert Filed(s, o); }
  }

  lemma {:induction false} FilterKeepsOrder(es: seq<Event>, t: int)
    requires forall i, j :: 0 <= i < j < |es| && es[i].ts == es[j].ts ==> es[i].instrument != es[j].instrument
    ensures forall i, j :: 0 <= i < j < |EventsAt(es, t)| ==>
              EventsAt(es, t)[i].instrument != EventsAt(es, t)[j].instrument
  {
    if es != [] {
      FilterKeepsOrder(es[1..], t);
      FilterMembers(EventAt(t), es[1..]);
      var r := EventsAt(es[1..], t);
      forall j | 0 <= j < |r| && es[0].ts == t ensures es[0].instrument != r[j].instrument {
        assert r[j] in r;
      }
    }
  }

  lemma AgendaAtInstant(w: World, t: int)
    requires Paced(w)
    ensures var es := EventsAt(w.events, t); forall i, j :: 0 <= i < j < |es| ==> es[i].instrument != es[j].instrument
  {
    FilterKeepsOrder(w.events, t);
  }

  // ---- attempting ------------------------------------------------------------------------------

  lemma OutstandingAfterAttempt(s: Sim, s': Sim)
    requires AttemptShape(s, s') && NoDup(s.queue)
    requires s.queue[0].execution.Some? && s.queue[0].execution.value.effective !in s.future
    ensures forall o :: Outstanding(s', o) ==> Outstanding(s, o) && o != s.queue[0]
  {
    forall o | Outstanding(s', o) ensures Outstanding(s, o) && o != s.queue[0] {
      if o in s'.queue {
        var i :| 0 <= i < |s'.queue| && s'.queue[i] == o;
        assert s.queue[i + 1] == o;
      }
    }
  }

  lemma AltUnfilled(w: World, target: real, s: Sim, s': Sim)
    requires AltInv(w, target, s) && AttemptShape(s, s')
    requires forall o :: Outstanding(s', o) ==> Outstanding(s, o)
    requires s'.fills == s.fills && s'.account == s.account && (s.aborted ==> s'.aborted)
    requires s.queue[0].side.Buy? || s'.aborted
    ensures AltInv(w, target, s')
  {
  }

  lemma PairedBooked(s: Sim, target: real, f: Fill, b: Account)
    requires Paired(s, target) && FlatOrLong(s.account, target) && 0.0 < target
    requires f.economics.quantity == target
    requires QuantityOf(s.account, InstrumentOf(f)) == (if f.economics.side.Buy? then 0.0 else target)
    requires QuantityOf(b, InstrumentOf(f)) == (if f.economics.side.Buy? then target else 0.0)
    requires forall i :: i != InstrumentOf(f) ==> PositionOf(b, i) == PositionOf(s.account, i)
    ensures Paired(s.(fills := s.fills + [f], account := b), target)
  {
    var fills := s.fills + [f];
    assert fills[..|s.fills|] == s.fills;
    var entries := ClosedTrades(s.fills).value.entries;
    assert Alternates(entries, f);
  }

  lemma AltBooked(w: World, target: real, s: Sim, s': Sim, f: Fill, b: Account)
    requires AltInv(w, target, s) && AttemptShape(s, s') && 0.0 < target
    requires forall o :: Outstanding(s', o) ==> Outstanding(s, o) && o != s.queue[0]
    requires s'.fills == s.fills + [f] && s'.account == b && s'.aborted == s.aborted
    requires f.order == s.queue[0] && f.economics.quantity == target && f.economics.side == s.queue[0].side
    requires QuantityOf(b, InstrumentOf(f)) == (if f.economics.side.Buy? then target else 0.0)
    requires forall i :: i != InstrumentOf(f) ==> PositionOf(b, i) == PositionOf(s.account, i)
    ensures AltInv(w, target, s')
  {
    assert Outstanding(s, s.queue[0]);
    PairedBooked(s, target, f, b);
    assert Paired(s', target);
    forall o | Outstanding(s', o) ensures Fits(s'.account, target, o) {
      assert o.signal.instrument != s.queue[0].signal.instrument;
      assert Fits(s.account, target, o);
    }
    SalesStayFilled(s, s', f);
  }

  lemma SalesStayFilled(s: Sim, s': Sim, f: Fill)
    requires SalesFilled(s) && AttemptShape(s, s') && s'.aborted == s.aborted
    requires s'.fills == s.fills + [f] && f.order == s.queue[0]
    ensures SalesFilled(s')
  {
    forall o | o in s'.attempts && o.side.Sell? ensures s'.aborted || exists g :: g in s'.fills && g.order == o {
      if o == s.queue[0] {
        assert f in s'.fills;
      } else if !s.aborted {
        assert o in s.attempts;
        var g :| g in s.fills && g.order == o;
        assert g in s'.fills;
      }
    }
  }

  lemma AltAttempt(w: World, universe: set<int>, target: real, s: Sim)
    requires TimesInv(w, universe, s) && AttemptsInv(s) && LongFlat(w, target) && AltInv(w, target, s)
    requires s.queue != [] && NoDup(s.queue)
    ensures AltInv(w, target, Attempt(w, s))
  {
    var o := s.queue[0];
    var s' := Attempt(w, s);
    assert o in s.queue;
    assert Outstanding(s, o) && Fits(s.account, target, o);
    AttemptHasShape(w, s);
    var t := o.execution.value.effective;
    assert t !in s.future by { assert t in s.past; }
    OutstandingAfterAttempt(s, s');
    var outcome := Settle(w, s.account, o);
    var f := w.price(o.side, o.quantity, o.execution.value.close);
    if f.Some? { assert Books(w, s.account, o.signal.instrument, f.value); }
    if outcome.Booked? {
      AltBooked(w, target, s, s', outcome.fill, outcome.account);
    } else {
      AltUnfilled(w, target, s, s');
    }
  }

  // ---- deciding --------------------------------------------------------------------------------

  /** When an instrument decides, none of its orders is outstanding. */
  lemma NothingOutstanding(w: World, universe: set<int>, s: Sim, o: Order)
    requires TimesInv(w, universe, s) && BooksInv(s) && AgendaFresh(w, s)
    requires s.queue == [] && s.agenda != [] && Outstanding(s, o)
    ensures o.signal.instrument != s.agenda[0].instrument
  {
    var e := s.agenda[0];
    assert e in s.agenda;
    assert Filed(s, o) && PlacedPaced(w, o);
    NowIsLatest(s, e.ts, o.submittedAt);
    assert e.ts in s.past;
  }

  lemma AltQuiet(w: World, target: real, s: Sim, s': Sim, d: Decision, o: Order)
    requires AltInv(w, target, s) && DecideShape(s, s', d, o)
    requires s'.orders == s.orders && s'.future == s.future
    ensures AltInv(w, target, s')
  {
    forall x | Outstanding(s', x) ensures Outstanding(s, x) {}
    assert forall e :: e in s'.agenda ==> e in s.agenda;
  }

  lemma AltPlaces(w: World, target: real, s: Sim, s': Sim, d: Decision, o: Order)
    requires AltInv(w, target, s) && BooksInv(s) && DecideShape(s, s', d, o)
    requires s'.orders == s.orders + [o] && s'.future == Place(s, o).future
    requires PlacedPaced(w, o) && Fits(s.account, target, o)
    requires o.signal.instrument == s.agenda[0].instrument
    requires forall x :: Outstanding(s, x) ==> x.signal.instrument != o.signal.instrument
    ensures AltInv(w, target, s')
  {
    forall x | Outstanding(s', x) ensures x == o || Outstanding(s, x) {
      StillOutstanding(s, s', d, o, x);
    }
    forall x, e | x in s'.orders && e in s'.agenda && x.submittedAt == e.ts
      ensures x.signal.instrument != e.instrument
    {
      var j :| 0 <= j < |s'.agenda| && s'.agenda[j] == e;
      assert s.agenda[j + 1] == e;
    }
  }

  lemma StillOutstanding(s: Sim, s': Sim, d: Decision, o: Order, x: Order)
    requires DecideShape(s, s', d, o) && s'.orders == s.orders + [o] && s'.future == Place(s, o).future
    requires BooksInv(s) && Outstanding(s', x)
    ensures x == o || Outstanding(s, x)
  {
    if x in s.orders { assert Filed(s, x); }
  }

  lemma AltDecide(w: World, universe: set<int>, target: real, s: Sim)
    requires TimesInv(w, universe, s) && BooksInv(s) && LongFlat(w, target) && Paced(w) && AltInv(w, target, s)
    requires s.queue == [] && s.agenda != []
    ensures AltInv(w, target, Decide(w, s))
  {
    var e := s.agenda[0];
    assert e in s.agenda;
    var d := DecisionFor(w, s, e);
    var i := w.intent(d.inputs);
    var o := OrderFor(w, d, i);
    DecideHasShape(w, s);
    if i.target == d.state.quantity {
      AltQuiet(w, target, s, Decide(w, s), d, o);
    } else {
      assert PacedOrder(w.events, w.execution(e.instrument, e.trigger.open, e.ts), e);
      assert QuantityOf(s.account, e.instrument) == d.state.quantity;
      assert Fits(s.account, target, o);
      forall x | Outstanding(s, x) ensures x.signal.instrument != e.instrument {
        NothingOutstanding(w, universe, s, x);
      }
      AltPlaces(w, target, s, Decide(w, s), d, o);
    }
  }

  // ---- every reachable state -------------------------------------------------------------------

  lemma AltInit(w: World, target: real)
    requires 0.0 < target
    ensures AltInv(w, target, Init(w))
  {
  }

  lemma QueueNoDup(w: World, s: Sim)
    requires AttemptsInv(s) && JournalInv(w, s) && s.queue != []
    ensures NoDup(s.queue)
  {
    assert s.queue[0] in s.queue;
    var t := s.queue[0].execution.value.effective;
    assert QueueAt(s, t);
    FilterNoDup(DueAt(t), s.orders);
    SortKeepsNoDup(KeyBefore, Filter(DueAt(t), s.orders));
    SuffixNoDup(Filter(ExecutesAt(t), s.attempts), s.queue);
  }

  lemma SuffixNoDup<T>(a: seq<T>, b: seq<T>)
    requires NoDup(a + b)
    ensures NoDup(b)
  {
    forall i, j | 0 <= i < j < |b| ensures b[i] != b[j] {
      assert (a + b)[|a| + i] == b[i] && (a + b)[|a| + j] == b[j];
    }
  }

  lemma AltStep(w: World, universe: set<int>, limit: Option<int>, target: real, s: Sim)
    requires Paced(w) && LongFlat(w, target)
    requires Sound(w, universe, s) && JournalInv(w, s) && AltInv(w, target, s)
    ensures AltInv(w, target, Next(w, limit, s))
  {
    if s.aborted {
    } else if s.queue != [] {
      QueueNoDup(w, s);
      AltAttempt(w, universe, target, s);
    } else if s.agenda != [] {
      AltDecide(w, universe, target, s);
    } else if s.future != {} && Within(limit, Minimum(s.future)) {
      AltAdvance(w, universe, target, s);
    }
  }

  ghost predicate Recorded(w: World, universe: set<int>, s: Sim) {
    Sound(w, universe, s) && JournalInv(w, s)
  }

  lemma AllRecorded(w: World, universe: set<int>, limit: Option<int>, k: nat)
    requires Schedulable(w, universe)
    ensures Recorded(w, universe, Run(w, limit, k))
  {
    SoundHolds(w, universe, limit, k);
    JournalHolds(w, universe, limit, k);
  }

  lemma AltNext(w: World, universe: set<int>, limit: Option<int>, target: real, k: nat)
    requires Paced(w) && LongFlat(w, target) && 0 < k
    requires Recorded(w, universe, Run(w, limit, k - 1)) && AltInv(w, target, Run(w, limit, k - 1))
    ensures AltInv(w, target, Run(w, limit, k))
  {
    AltStep(w, universe, limit, target, Run(w, limit, k - 1));
  }

  lemma {:induction false} AltHolds(w: World, universe: set<int>, limit: Option<int>, target: real, k: nat)
    requires Schedulable(w, universe) && Paced(w) && LongFlat(w, target)
    ensures AltInv(w, target, Run(w, limit, k))
  {
    hide Next, AltInv, Schedulable, Paced, Recorded;
    if k == 0 {
      AltInit(w, target);
    } else {
      hide LongFlat;
      AltHolds(w, universe, limit, target, k - 1);
      AllRecorded(w, universe, limit, k - 1);
      AltNext(w, universe, limit, target, k);
    }
  }

  // ---- configurations --------------------------------------------------------------------------

  /**
    Signals and executions read the same rows; bars show strictly in bar order; and the lag never
    exceeds the distance to the next bar's first visibility.
  */
  ghost predicate InStep(c: Config) {
    && c.data.signal == c.data.execution
    && forall id, o, p :: o in Opens(RowsOf(c.data.signal, id)) && p in Opens(RowsOf(c.data.signal, id)) && o < p
         ==> BarsApart(c, id, o, p)
  }

  ghost predicate BarsApart(c: Config, id: int, o: int, p: int) {
    var rows := RowsOf(c.data.signal, id);
    && FirstVisibility(rows, o) < FirstVisibility(rows, p)
    && FirstVisibility(rows, o) + LagOf(c.request.instruments, id) <= FirstVisibility(rows, p)
  }

  /** First visibility and bar order agree on the bars of an instrument. */
  lemma BarOrder(c: Config, id: int, o: int, p: int)
    requires InStep(c) && o in Opens(RowsOf(c.data.signal, id)) && p in Opens(RowsOf(c.data.signal, id))
    ensures o < p ==> BarsApart(c, id, o, p)
    ensures o < p <==> FirstVisibility(RowsOf(c.data.signal, id), o) < FirstVisibility(RowsOf(c.data.signal, id), p)
  {
    assert o < p ==> BarsApart(c, id, o, p);
    assert p < o ==> BarsApart(c, id, p, o);
  }

  lemma SameInstantSameEvent(c: Config, e: Event, f: Event)
    requires InStep(c) && e in Events(c) && f in Events(c) && e.ts == f.ts && e.instrument == f.instrument
    ensures e == f
  {
    hide Events, FirstVisibility, Visible;
    EventsAreTheSchedule(c, e);
    EventsAreTheSchedule(c, f);
    BarOrder(c, e.instrument, e.trigger.open, f.trigger.open);
    BarOrder(c, e.instrument, f.trigger.open, e.trigger.open);
  }

  /** The bar found for an order shows after its trigger and no later than any later event. */
  lemma ExecutesBefore(c: Config, e: Event, x: Bar, f: Event)
    requires InStep(c) && e in Events(c) && f in Events(c) && f.instrument == e.instrument && e.ts < f.ts
    requires IsExecution(RowsOf(c.data.execution, e.instrument), x, e.trigger.open,
                         e.ts + LagOf(c.request.instruments, e.instrument))
    ensures x.effective <= f.ts
  {
    hide Events, FirstVisibility, Visible, Current;
    EventsAreTheSchedule(c, e);
    EventsAreTheSchedule(c, f);
    BarOrder(c, e.instrument, e.trigger.open, f.trigger.open);
    assert Executable(RowsOf(c.data.execution, e.instrument), f.trigger.open, e.trigger.open,
                      e.ts + LagOf(c.request.instruments, e.instrument));
    BarOrder(c, e.instrument, f.trigger.open, x.open);
  }

  lemma ExecutesAfter(c: Config, e: Event, x: Bar)
    requires InStep(c) && e in Events(c)
    requires IsExecution(RowsOf(c.data.execution, e.instrument), x, e.trigger.open,
                         e.ts + LagOf(c.request.instruments, e.instrument))
    ensures e.ts < x.effective
  {
    EventsAreTheSchedule(c, e);
    BarOrder(c, e.instrument, e.trigger.open, x.open);
  }

  lemma ExecutionPaced(c: Config, e: Event, x: Bar)
    requires InStep(c) && e in Events(c)
    requires IsExecution(RowsOf(c.data.execution, e.instrument), x, e.trigger.open,
                         e.ts + LagOf(c.request.instruments, e.instrument))
    ensures e.ts < x.effective
    ensures forall f :: f in Events(c) && f.instrument == e.instrument && e.ts < f.ts ==> x.effective <= f.ts
  {
    ExecutesAfter(c, e, x);
    forall f | f in Events(c) && f.instrument == e.instrument && e.ts < f.ts ensures x.effective <= f.ts {
      ExecutesBefore(c, e, x, f);
    }
  }

  lemma ExecutesNextBar(c: Config, e: Event)
    requires InStep(c) && e in Events(c)
    ensures PacedOrder(Events(c), Execution(c, e.instrument, e.trigger.open, e.ts), e)
  {
    hide Events, FirstVisibility, Visible, Current;
    var x := Execution(c, e.instrument, e.trigger.open, e.ts);
    if x.Some? {
      ExecutionFound(c, e, x.value);
      ExecutionPaced(c, e, x.value);
    }
  }

  lemma ExecutionFound(c: Config, e: Event, x: Bar)
    requires Execution(c, e.instrument, e.trigger.open, e.ts) == Some(x)
    ensures IsExecution(RowsOf(c.data.execution, e.instrument), x, e.trigger.open,
                        e.ts + LagOf(c.request.instruments, e.instrument))
  {
    hide NextExecution, IsExecution;
    NextExecutionFinds(RowsOf(c.data.execution, e.instrument), e.trigger.open,
                       e.ts + LagOf(c.request.instruments, e.instrument));
  }

  lemma ConfigPaced(c: Config)
    requires ValidRequest(c.request) && InStep(c)
    ensures Paced(WorldOf(c))
  {
    var w := WorldOf(c);
    EventsDistinct(c);
    forall i, j | 0 <= i < j < |w.events| && w.events[i].ts == w.events[j].ts
      ensures w.events[i].instrument != w.events[j].instrument
    {
      if w.events[i].instrument == w.events[j].instrument {
        SameInstantSameEvent(c, w.events[i], w.events[j]);
      }
    }
    forall e | e in w.events ensures PacedOrder(w.events, w.execution(e.instrument, e.trigger.open, e.ts), e) {
      ExecutesNextBar(c, e);
    }
  }

  lemma ConfigLongFlat(c: Config)
    requires ValidRequest(c.request)
    ensures LongFlat(WorldOf(c), c.request.strategy.target)
  {
    var w := WorldOf(c);
    forall a, id, f ensures Books(w, a, id, f) { ApplyBooks(a, id, f); }
  }

  lemma ApplyBooks(a: Account, id: int, f: PricedFill)
    ensures match ApplyFill(a, id, f)
            case None => f.side.Buy? || QuantityOf(a, id) < f.quantity
            case Some(b) =>
              && QuantityOf(b, id) == QuantityOf(a, id) + (if f.side.Buy? then f.quantity else -f.quantity)
              && (forall i :: i != id ==> PositionOf(b, i) == PositionOf(a, i))
  {
  }

  /**
    Long/flat alternation in every reachable state: each position is flat or the target, each
    instrument's fills alternate BUY, SELL starting with BUY and of the target size, no attempted
    sale is refused, and trades pair without error.
  */
  lemma LongFlatAlternation(c: Config, limit: Option<int>, k: nat)
    requires ValidRequest(c.request) && InStep(c)
    ensures var s := Run(WorldOf(c), limit, k);
            && FlatOrLong(s.account, c.request.strategy.target)
            && Alternating(s.fills)
            && ClosedTrades(s.fills).Some?
            && SalesFilled(s)
  {
    ConfigSchedulable(c);
    ConfigPaced(c);
    ConfigLongFlat(c);
    AltHolds(WorldOf(c), Universe(c), limit, c.request.strategy.target, k);
  }

  /** Hence, for such runs, the portfolio and the closed-trade list differ by exactly the closed slippage. */
  lemma RunReconciles(c: Config, k: nat)
    requires ValidRequest(c.request) && InStep(c)
    ensures var s := Run(WorldOf(c), None, k);
            && ClosedTrades(s.fills).Some?
            && Reconciled(IdList(c.request.instruments), ClosedTrades(s.fills).value, s.account)
  {
    var s := Run(WorldOf(c), None, k);
    LongFlatAlternation(c, None, k);
    FillsTradable(c, None, k);
    IdListLists(c.request.instruments);
    TradesReconcile(IdList(c.request.instruments), c.request.costs, c.request.initialCapital, s.fills);
  }
}
