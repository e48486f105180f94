/**
  `simulate`, step by step: a time list that grows while it is walked, a dictionary of pending
  orders drained before the decisions of each instant, and a mutable portfolio.  The loop is
  proved to perform a complete run of the machine in `Engine`.
*/
module Simulator {
  import opened Sequences
  import opened Contracts
  import opened Selector
  import opened ArtifactSelector
  import opened Accounting
  import opened Engine
  import opened FinalValuation
  import opened DecisionEvents
  import opened Scheduler

  /** The selectors hold exactly the rows of the configuration. */
  ghost predicate Backed(selectors: map<int, ArtifactBarSelector>, rows: map<int, seq<Bar>>) {
    && selectors.Keys == rows.Keys
    && forall id :: id in selectors ==> selectors[id].Valid() && selectors[id].rows == rows[id]
  }

  // ---- decision events -------------------------------------------------------------------------

  /** The lookup that the source indexes a dictionary for; it always succeeds. */
  method TriggerFor(selector: ArtifactBarSelector, ts: int, open: int) returns (trigger: Bar)
    requires selector.Valid() && open in Opens(selector.rows) && ts == FirstVisibility(selector.rows, open)
    ensures FindOpen(Visible(selector.rows, ts), open) == Some(trigger)
  {
    var visible := selector.VisibleBars(ts);
    TriggerNeverMisses(selector.rows, open);
    trigger := FindOpen(visible, open).value;
  }

  method EventsOn(id: int, selector: ArtifactBarSelector, schedule: seq<(int, int)>, from: int, to: int)
    returns (events: seq<Event>)
    requires selector.Valid()
    requires forall p :: p in schedule ==> p.1 in Opens(selector.rows) && p.0 == FirstVisibility(selector.rows, p.1)
    ensures events == InstrumentEvents(id, selector.rows, schedule, from, to)
  {
    events := [];
    ghost var whole := InstrumentEvents(id, selector.rows, schedule, from, to);
    ghost var rest := whole;
    for i := 0 to |schedule|
      invariant rest == InstrumentEvents(id, selector.rows, schedule[i..], from, to)
      invariant events + rest == whole
    {
      assert schedule[i] in schedule;
      var own := EventOn(id, selector, schedule[i], from, to);
      rest := SplitSchedule(id, selector.rows, schedule[i..], from, to, events, own, whole);
      events := events + own;
      assert schedule[i..][1..] == schedule[i + 1..];
    }
  }

  /** The event of one schedule entry, if it falls in the window. */
  method EventOn(id: int, selector: ArtifactBarSelector, entry: (int, int), from: int, to: int)
    returns (own: seq<Event>)
    requires selector.Valid()
    requires entry.1 in Opens(selector.rows) && entry.0 == FirstVisibility(selector.rows, entry.1)
    ensures own == InstrumentEvents(id, selector.rows, [entry], from, to)
  {
    own := [];
    if from <= entry.0 < to {
      var trigger := TriggerFor(selector, entry.0, entry.1);
      own := [Event(entry.0, id, trigger)];
    }
  }

  lemma SplitSchedule(
    id: int,
    rows: seq<Bar>,
    schedule: seq<(int, int)>,
    from: int,
    to: int,
    events: seq<Event>,
    own: seq<Event>,
    whole: seq<Event>)
    returns (tail: seq<Event>)
    requires schedule != [] && events + InstrumentEvents(id, rows, schedule, from, to) == whole
    requires own == InstrumentEvents(id, rows, [schedule[0]], from, to)
    ensures tail == InstrumentEvents(id, rows, schedule[1..], from, to) && events + own + tail == whole
  {
    tail := InstrumentEvents(id, rows, schedule[1..], from, to);
    assert InstrumentEvents(id, rows, schedule, from, to) == own + tail;
    Regroup(events, own, tail, InstrumentEvents(id, rows, schedule, from, to), whole);
  }

  method EventsOfInstrument(id: int, selector: ArtifactBarSelector, from: int, to: int) returns (events: seq<Event>)
    requires selector.Valid()
    ensures events == InstrumentEvents(id, selector.rows, Schedule(selector.rows), from, to)
  {
    var schedule := selector.DecisionSchedule();
    ScheduleMembers(selector.rows);
    events := EventsOn(id, selector, schedule, from, to);
  }

  method EventsOfAll(
    instruments: seq<Instrument>,
    signal: map<int, ArtifactBarSelector>,
    ghost rows: map<int, seq<Bar>>,
    from: int,
    to: int)
    returns (raw: seq<Event>)
    requires Backed(signal, rows) && forall i :: i in instruments ==> i.id in signal
    ensures raw == RawEvents(instruments, rows, from, to)
  {
    raw := [];
    ghost var whole := RawEvents(instruments, rows, from, to);
    ghost var rest := whole;
    for i := 0 to |instruments|
      invariant rest == RawEvents(instruments[i..], rows, from, to)
      invariant raw + rest == whole
    {
      assert instruments[i] in instruments;
      var own := EventsOfInstrument(instruments[i].id, signal[instruments[i].id], from, to);
      rest := SplitEvents(instruments[i..], rows, from, to, raw, own, whole);
      raw := raw + own;
      assert instruments[i..][1..] == instruments[i + 1..];
    }
  }

  lemma SplitEvents(
    instruments: seq<Instrument>,
    rows: map<int, seq<Bar>>,
    from: int,
    to: int,
    raw: seq<Event>,
    own: seq<Event>,
    whole: seq<Event>)
    returns (tail: seq<Event>)
    requires instruments != [] && raw + RawEvents(instruments, rows, from, to) == whole
    requires own == InstrumentEvents(instruments[0].id, RowsOf(rows, instruments[0].id),
                                     Schedule(RowsOf(rows, instruments[0].id)), from, to)
    ensures tail == RawEvents(instruments[1..], rows, from, to) && raw + own + tail == whole
  {
    tail := RawEvents(instruments[1..], rows, from, to);
    Regroup(raw, own, tail, RawEvents(instruments, rows, from, to), whole);
  }

  lemma Regroup<T>(a: seq<T>, b: seq<T>, c: seq<T>, rest: seq<T>, whole: seq<T>)
    requires rest == b + c && a + rest == whole
    ensures a + b + c == whole
  {
  }

  method AllEvents(c: Config, signal: map<int, ArtifactBarSelector>) returns (events: seq<Event>)
    requires Backed(signal, c.data.signal) && forall i :: i in c.request.instruments ==> i.id in signal
    ensures events == Events(c)
  {
    var raw := EventsOfAll(c.request.instruments, signal, c.data.signal, c.request.eventFrom, c.request.eventTo);
    events := Sort(EventBefore, raw);
  }

  // ---- the time list ---------------------------------------------------------------------------

  predicate NotAfter(a: int, b: int) { a <= b }

  /** Appending an absent instant and sorting keeps the list strictly increasing. */
  lemma SortedTimes(times: seq<int>, t: int)
    requires Increasing(times) && t !in times
    ensures var r := Sort(NotAfter, times + [t]);
            Increasing(r) && |r| == |times| + 1 && forall x :: x in r <==> x in times || x == t
  {
    var a := times + [t];
    var r := Sort(NotAfter, a);
    assert TotalPreorder(NotAfter);
    SortSorted(NotAfter, a);
    SortMembers(NotAfter, a);
    assert NoDup(a);
    SortKeepsNoDup(NotAfter, a);
  }

  /** A later instant joins the unprocessed part and leaves the processed part alone. */
  lemma ExtendTimes(before: seq<int>, after: seq<int>, t: int, n: nat)
    requires Increasing(before) && Increasing(after) && 0 < n <= |before|
    requires t !in before && before[n - 1] < t && forall x :: x in after <==> x in before || x == t
    ensures n <= |after| && after[..n] == before[..n]
    ensures forall x :: x in after[n..] <==> x in before[n..] || x == t
  {
    var later := (set x | x in before[n..]) + {t};
    var tail := Ascending(later);
    AscendingLists(later);
    JoinIncreasing(before[..n], tail, before, n, t);
    assert before == before[..n] + before[n..];
    IncreasingUnique(after, before[..n] + tail);
  }

  lemma JoinIncreasing(head: seq<int>, tail: seq<int>, times: seq<int>, n: nat, t: int)
    requires Increasing(times) && 0 < n <= |times| && head == times[..n] && times[n - 1] < t
    requires Increasing(tail) && forall x :: x in tail ==> x in times[n..] || x == t
    ensures Increasing(head + tail)
  {
    forall i | 0 <= i < |tail| ensures times[n - 1] < tail[i] { assert tail[i] in tail; }
  }

  // ---- one run ---------------------------------------------------------------------------------

  /** One call of `simulate`: its arguments and its local state. */
  class SimulationRun {
    const c: Config
    const signal: map<int, ArtifactBarSelector>
    const execution: map<int, ArtifactBarSelector>
    const events: seq<Event>
    const portfolio: LongOnlyPortfolio
    ghost const w: World

    var pending: map<int, seq<Order>>
    var allTimes: seq<int>
    var decisions: seq<Decision>
    var signals: seq<Signal>
    var orders: seq<Order>
    var fills: seq<Fill>

    constructor (
      c: Config,
      signal: map<int, ArtifactBarSelector>,
      execution: map<int, ArtifactBarSelector>,
      events: seq<Event>,
      portfolio: LongOnlyPortfolio)
      requires events == Events(c) && portfolio.Value() == Account(c.request.initialCapital, map[])
      ensures this.c == c && this.signal == signal && this.execution == execution && this.events == events
      ensures this.portfolio == portfolio && w == WorldOf(c)
      ensures Matches(Init(w), 0)
    {
      this.c, this.signal, this.execution, this.events := c, signal, execution, events;
      this.portfolio := portfolio;
      this.w := WorldOf(c);
      pending := map[];
      allTimes := Ascending(EventTimes(events));
      decisions, signals, orders, fills := [], [], [], [];
      AscendingLists(EventTimes(events));
    }

    /** The selectors serve every run instrument, from the rows of the configuration. */
    ghost predicate Wired() {
      && ValidRequest(c.request) && w == WorldOf(c) && events == w.events
      && Backed(signal, c.data.signal) && Backed(execution, c.data.execution)
      && signal.Keys == execution.Keys == Ids(c.request.instruments)
    }

    /** The variables are the machine state `s` with `n` instants of the time list taken. */
    ghost predicate Matches(s: Sim, n: nat)
      reads this, portfolio
    {
      && s.pending == pending && s.decisions == decisions && s.signals == signals
      && s.orders == orders && s.fills == fills && s.account == portfolio.Value()
      && Increasing(allTimes) && n <= |allTimes| && allTimes[..n] == s.past
      && (forall t :: t in s.future <==> t in allTimes[n..])
    }

    /** Take the next instant and pop the orders due at it. */
    method PopDue(eventTs: int, ghost s: Sim, n: nat) returns (due: seq<Order>)
      requires Matches(s, n) && n < |allTimes| && eventTs == allTimes[n]
      requires s.future != {} && Minimum(s.future) == eventTs
      requires forall t :: t in s.future - {eventTs} <==> t in allTimes[n + 1..]
      modifies this`pending
      ensures due == Advance(w, s).queue && Matches(Advance(w, s), n + 1)
    {
      due := Sort(KeyBefore, if eventTs in pending then pending[eventTs] else []);
      pending := pending - {eventTs};
      assert allTimes[..n + 1] == allTimes[..n] + [eventTs];
    }

    /** Try one due order; true if the pricing error ends the run. */
    method AttemptOrder(order: Order, ghost s: Sim, ghost n: nat) returns (failed: bool)
      requires w == WorldOf(c)
      requires Matches(s, n) && !s.aborted && s.queue != [] && order == s.queue[0]
      modifies this, portfolio
      ensures failed == Attempt(w, s).aborted
      ensures Matches(Attempt(w, s), n)
    {
      failed := false;
      match order.execution {
        case None =>
        case Some(bar) =>
          var priced := PriceFill(order.side, order.quantity, bar.close, c.request.costs);
          if priced.None? { return true; }
          var booked := portfolio.Apply(order.signal.instrument, priced.value);
          if booked {
            fills := fills + [Fill(order, bar.effective, bar, bar.close, priced.value)];
          }
      }
    }

    /** Insert an instant at or after the current one into the sorted time list, if it is absent. */
    method InsertInstant(t: int, ghost n: nat)
      requires Increasing(allTimes) && 0 < n <= |allTimes| && allTimes[n - 1] <= t
      modifies this`allTimes
      ensures Increasing(allTimes) && n <= |allTimes| && allTimes[..n] == old(allTimes[..n])
      ensures forall x :: x in allTimes[n..] <==> x in old(allTimes[n..]) || (x == t && t !in old(allTimes[..n]))
    {
      hide Sort;
      ghost var before := allTimes;
      assert before == before[..n] + before[n..];
      if t !in allTimes {
        SortedTimes(allTimes, t);
        allTimes := Sort(NotAfter, allTimes + [t]);
        assert before[n - 1] in before;
        ExtendTimes(before, allTimes, t, n);
      }
    }

    /** File an order under its execution instant, extending the time list if needed. */
    method FileOrder(order: Order, ghost s: Sim, ghost n: nat)
      requires Matches(s, n) && 0 < n
      requires order.execution.Some? ==> allTimes[n - 1] <= order.execution.value.effective
      modifies this
      ensures Matches(Place(s, order), n) && decisions == old(decisions)
    {
      hide Increasing;
      signals := signals + [order.signal];
      orders := orders + [order];
      if order.execution.Some? {
        var t := order.execution.value.effective;
        pending := pending[t := (if t in pending then pending[t] else []) + [order]];
        InsertInstant(t, n);
      }
    }

    method DecisionOn(e: Event, ghost s: Sim, ghost n: nat) returns (d: Decision)
      requires ValidRequest(c.request)
      requires w == WorldOf(c) && Backed(signal, c.data.signal) && e.instrument in signal && Matches(s, n)
      ensures d == DecisionFor(w, s, e) && d.instrument == e.instrument && d.ts == e.ts
      ensures Newest(RowsOf(c.data.signal, e.instrument), e.ts, c.request.strategy.slow, d.inputs)
    {
      hide Newest, Visible;
      LastAreNewest(RowsOf(c.data.signal, e.instrument), e.ts, c.request.strategy.slow);
      var visible := signal[e.instrument].VisibleBars(e.ts);
      var state := portfolio.PositionFor(e.instrument);
      d := Decision(|decisions| + 1, e.instrument, e.ts, e.trigger, LastOf(visible, c.request.strategy.slow),
                    portfolio.cash, state);
    }

    method BarOn(d: Decision) returns (bar: Option<Bar>)
      requires ValidRequest(c.request) && Backed(execution, c.data.execution) && d.instrument in execution
      ensures bar == Execution(c, d.instrument, d.trigger.open, d.ts)
      ensures bar.Some? ==> d.ts <= bar.value.effective
    {
      bar := execution[d.instrument].NextExecutionBar(d.trigger.open, d.ts, LagOf(c.request.instruments, d.instrument));
      ExecutionInstant(c, d.instrument, d.trigger.open, d.ts);
    }

    method OrderOn(d: Decision, intent: Intent, bar: Option<Bar>) returns (order: Order)
      requires w == WorldOf(c) && bar == w.execution(d.instrument, d.trigger.open, d.ts)
      ensures order == OrderFor(w, d, intent)
    {
      order := Order(
        OrderKey(c.request.runKey, d.sequence, d.instrument, intent.text),
        Signal(d.sequence, d.instrument, d.ts, intent.target, intent.reason, d.trigger),
        if intent.target > d.state.quantity then Buy else Sell,
        Abs(intent.target - d.state.quantity), d.ts, bar);
    }

    /** Place the order a logged decision asks for, if any. */
    method ActOn(d: Decision, ghost s: Sim, ghost n: nat)
      requires ValidRequest(c.request) && w == WorldOf(c)
      requires Backed(execution, c.data.execution) && d.instrument in execution
      requires Matches(s, n) && 0 < n && allTimes[n - 1] == d.ts
      modifies this
      ensures Matches(if w.intent(d.inputs).target == d.state.quantity then s
                      else Place(s, OrderFor(w, d, w.intent(d.inputs))), n)
      ensures decisions == old(decisions)
    {
      var intent := Strategy(c.request.strategy, d.inputs);
      assert intent == w.intent(d.inputs);
      if intent.target != d.state.quantity {
        var bar := BarOn(d);
        var order := OrderOn(d, intent, bar);
        FileOrder(order, s, n);
      }
    }

    /** Take one decision and place its order. */
    method TakeDecision(e: Event, ghost s: Sim, ghost n: nat)
      requires ValidRequest(c.request) && w == WorldOf(c)
      requires Backed(signal, c.data.signal) && Backed(execution, c.data.execution)
      requires e.instrument in signal && e.instrument in execution
      requires Matches(s, n) && s.agenda != [] && e == s.agenda[0] && 0 < n && allTimes[n - 1] == e.ts
      modifies this
      ensures Matches(Decide(w, s), n)
      ensures decisions != []
      ensures Newest(RowsOf(c.data.signal, e.instrument), e.ts, c.request.strategy.slow,
                     decisions[|decisions| - 1].inputs)
    {
      hide Newest, Visible, Place, DecisionFor, OrderFor;
      var decision := DecisionOn(e, s, n);
      decisions := decisions + [decision];
      ActOn(decision, Taken(s, decision), n);
    }
  }

  // ---- simulate --------------------------------------------------------------------------------

  /** `s` is the state of the run after `k` steps. */
  ghost predicate Reached(w: World, s: Sim, k: nat) {
    s == Run(w, None, k)
  }

  lemma ReachNext(w: World, s: Sim, k: nat)
    requires Reached(w, s, k)
    ensures Reached(w, Next(w, None, s), k + 1)
  {
  }

  /** Attempt the due orders of the current instant, in key order. */
  method Drain(run: SimulationRun, due: seq<Order>, ghost s: Sim, ghost n: nat, ghost k: nat)
    returns (failed: bool, ghost s': Sim, ghost k': nat)
    requires run.w == WorldOf(run.c)
    requires run.Matches(s, n) && Reached(run.w, s, k) && !s.aborted && s.queue == due
    modifies run, run.portfolio
    ensures run.Matches(s', n) && Reached(run.w, s', k') && failed == s'.aborted
    ensures !failed ==> s'.queue == [] && s'.agenda == s.agenda && s'.past == s.past
  {
    s', k' := s, k;
    for i := 0 to |due|
      invariant run.Matches(s', n) && Reached(run.w, s', k') && !s'.aborted
      invariant s'.queue == due[i..] && s'.agenda == s.agenda && s'.past == s.past
    {
      failed := run.AttemptOrder(due[i], s', n);
      ReachNext(run.w, s', k');
      AttemptHasShape(run.w, s');
      s', k' := Attempt(run.w, s'), k' + 1;
      if failed { return; }
    }
    failed := false;
  }

  /** Take the decisions of the current instant. */
  method DecideAll(run: SimulationRun, agenda: seq<Event>, ghost s: Sim, ghost n: nat, ghost k: nat)
    returns (ghost s': Sim, ghost k': nat)
    requires ValidRequest(run.c.request) && run.w == WorldOf(run.c)
    requires Backed(run.signal, run.c.data.signal) && Backed(run.execution, run.c.data.execution)
    requires run.Matches(s, n) && Reached(run.w, s, k) && !s.aborted && s.queue == [] && s.agenda == agenda
    requires 0 < n && forall e :: e in agenda ==>
      e.ts == run.allTimes[n - 1] && e.instrument in run.signal && e.instrument in run.execution
    modifies run
    ensures run.Matches(s', n) && Reached(run.w, s', k') && !s'.aborted
    ensures s'.queue == [] && s'.agenda == [] && s'.past == s.past
  {
    hide Run, WorldOf, Decide;
    s', k' := s, k;
    ghost var now := run.allTimes[n - 1];
    for i := 0 to |agenda|
      invariant run.Matches(s', n) && Reached(run.w, s', k') && !s'.aborted
      invariant s'.queue == [] && s'.agenda == agenda[i..] && s'.past == s.past
      invariant run.allTimes[n - 1] == now
    {
      assert agenda[i] in agenda;
      run.TakeDecision(agenda[i], s', n);
      ReachNext(run.w, s', k');
      DecideHasShape(run.w, s');
      s', k' := Decide(run.w, s'), k' + 1;
      assert run.allTimes[n - 1] == run.allTimes[..n][n - 1];
    }
  }

  lemma NextInstant(times: seq<int>, n: nat, future: set<int>)
    requires Increasing(times) && n < |times| && forall t :: t in future <==> t in times[n..]
    ensures future != {} && Minimum(future) == times[n]
    ensures forall t :: t in future - {times[n]} <==> t in times[n + 1..]
  {
    var rest := times[n..];
    assert rest[0] == times[n] && rest[0] in rest;
    assert rest == [times[n]] + times[n + 1..];
    assert times[n] !in times[n + 1..];
    assert forall t :: t in rest ==> times[n] <= t;
  }

  lemma AdvanceReached(w: World, s: Sim, k: nat)
    requires Reached(w, s, k) && !s.aborted && s.queue == [] && s.agenda == [] && s.future != {}
    ensures Reached(w, Advance(w, s), k + 1)
  {
    ReachNext(w, s, k);
  }

  lemma FewerUnvisited(w: World, universe: set<int>, s: Sim, k: nat, s': Sim)
    requires Schedulable(w, universe) && Reached(w, s, k) && s.future != {}
    requires s'.past == Advance(w, s).past
    ensures |Unvisited(universe, s')| < |Unvisited(universe, s)|
  {
    SoundHolds(w, universe, None, k);
    AdvanceVisits(w, universe, s);
  }

  lemma AgendaInScope(c: Config, t: int)
    ensures forall e :: e in Filter(EventAt(t), Events(c)) ==> e.ts == t && e.instrument in Ids(c.request.instruments)
  {
    FilterMembers(EventAt(t), Events(c));
    forall e | e in Events(c) ensures e.instrument in Ids(c.request.instruments) { EventsAreTheSchedule(c, e); }
  }

  method AgendaFor(run: SimulationRun, eventTs: int) returns (agenda: seq<Event>)
    requires run.Wired()
    ensures agenda == EventsAt(run.w.events, eventTs)
    ensures forall e :: e in agenda ==> e.ts == eventTs && e.instrument in run.signal
  {
    agenda := Filter(EventAt(eventTs), run.events);
    AgendaInScope(run.c, eventTs);
  }

  /** Everything that happens at the next instant of the time list. */
  method ProcessInstant(run: SimulationRun, index: nat, ghost s: Sim, ghost k: nat)
    returns (failed: bool, ghost s': Sim, ghost k': nat)
    requires run.Wired()
    requires run.Matches(s, index) && index < |run.allTimes|
    requires Reached(run.w, s, k) && !s.aborted && s.queue == [] && s.agenda == []
    modifies run, run.portfolio
    ensures run.Matches(s', index + 1) && Reached(run.w, s', k') && failed == s'.aborted
    ensures !failed ==> s'.queue == [] && s'.agenda == []
    ensures !failed ==> s.future != {} && s'.past == Advance(run.w, s).past
  {
    hide Run, WorldOf, Schedulable;
    var eventTs := run.allTimes[index];
    NextInstant(run.allTimes, index, s.future);
    AdvanceReached(run.w, s, k);
    var agenda := AgendaFor(run, eventTs);
    var due := run.PopDue(eventTs, s, index);
    s' := Advance(run.w, s);
    ghost var past := s'.past;
    assert past[index] == eventTs;
    failed, s', k' := Drain(run, due, s', index + 1, k + 1);
    if !failed {
      assert run.allTimes[index] == past[index];
      s', k' := DecideAll(run, agenda, s', index + 1, k');
    }
  }

  /** Walk the growing time list to its end, or to the pricing error. */
  method Loop(run: SimulationRun, ghost universe: set<int>)
    returns (failed: bool, ghost s: Sim, ghost k: nat, ghost n: nat)
    requires run.Wired() && Schedulable(run.w, universe)
    requires run.Matches(Init(run.w), 0)
    modifies run, run.portfolio
    ensures Reached(run.w, s, k) && Done(s) && run.Matches(s, n) && failed == s.aborted
  {
    s, k := Run(run.w, None, 0), 0;
    var index := 0;
    failed := false;
    while index < |run.allTimes| && !failed
      invariant index <= |run.allTimes|
      invariant run.Matches(s, index) && Reached(run.w, s, k) && failed == s.aborted
      invariant !failed ==> s.queue == [] && s.agenda == []
      decreases !failed, |Unvisited(universe, s)|
    {
      ghost var before, j := s, k;
      failed, s, k := ProcessInstant(run, index, s, k);
      if !failed { FewerUnvisited(run.w, universe, before, j, s); }
      index := index + 1;
    }
    n := index;
    if !failed { NothingLeft(run.allTimes, s.future); }
  }

  lemma NothingLeft(times: seq<int>, future: set<int>)
    requires forall t :: t in future <==> t in times[|times|..]
    ensures future == {}
  {
    assert forall t :: t !in future;
  }

  /** The result of a completed loop. */
  method Conclude(run: SimulationRun, ids: set<int>, valuations: Option<seq<Valuation>>, ghost s: Sim)
    returns (r: Result<SimulationResult>)
    requires s.decisions == run.decisions && s.signals == run.signals && s.orders == run.orders
    requires s.fills == run.fills && s.account == run.portfolio.Value()
    ensures r == Valued(s, ids, valuations)
  {
    var account := Account(run.portfolio.cash, run.portfolio.positions);
    r := if valuations.None? then Err("Reference valuation component has no bar visible at event_to.")
         else Ok(SimulationResult(run.decisions, run.signals, run.orders, run.fills, account.cash,
                                  PositionsOf(ids, account), valuations.value,
                                  account.cash + SumMarket(valuations.value)));
  }

  /** One valuation per instrument at the end of the window, or nothing if a bar is missing. */
  method FinalValuations(
    instruments: seq<Instrument>,
    portfolio: LongOnlyPortfolio,
    selectors: map<int, ArtifactBarSelector>,
    ghost rows: map<int, seq<Bar>>,
    ts: int)
    returns (r: Option<seq<Valuation>>)
    requires Backed(selectors, rows) && forall i :: i in instruments ==> i.id in selectors
    ensures r == Valuations(instruments, rows, ts, portfolio.Value())
    ensures r.None? <==> Missing(instruments, rows, ts)
    ensures r.Some? ==> AllValued(instruments, rows, ts, portfolio.Value(), r.value)
  {
    hide Missing, AllValued, Valuations, LastValue;
    var done: seq<Valuation> := [];
    ghost var a := portfolio.Value();
    ghost var rest := Valuations(instruments, rows, ts, a);
    ValuationsAreLast(instruments, rows, ts, a);
    PrefixedNothing(rest);
    assert instruments[0..] == instruments;
    for i := 0 to |instruments|
      invariant rest == Valuations(instruments[i..], rows, ts, a)
      invariant Valuations(instruments, rows, ts, a) == Prefixed(done, rest)
    {
      assert instruments[i] in instruments;
      assert instruments[i..][1..] == instruments[i + 1..];
      ghost var tail := Valuations(instruments[i + 1..], rows, ts, a);
      ValuationsCons(instruments[i..], rows, ts, a);
      var value := ValueOf(instruments[i].id, portfolio, selectors[instruments[i].id], ts);
      if value.None? { return None; }
      PrefixedTwice(done, value.value, tail);
      done := done + [value.value];
      rest := tail;
    }
    ValuationsNone(rows, ts, a);
    assert instruments[|instruments|..] == [] && done + [] == done;
    r := Some(done);
  }

  method ValueOf(id: int, portfolio: LongOnlyPortfolio, selector: ArtifactBarSelector, ts: int)
    returns (v: Option<Valuation>)
    requires selector.Valid()
    ensures v == LastValue(id, selector.rows, ts, portfolio.Value())
  {
    var state := portfolio.PositionFor(id);
    var visible := selector.VisibleBars(ts);
    v := if visible == [] then None else Some(ValueAt(id, ts, visible[|visible| - 1], state));
  }

  function LastValue(id: int, rows: seq<Bar>, ts: int, a: Account): Option<Valuation> {
    var visible := Visible(rows, ts);
    if visible == [] then None else Some(ValueAt(id, ts, visible[|visible| - 1], PositionOf(a, id)))
  }

  lemma ValuationsCons(instruments: seq<Instrument>, rows: map<int, seq<Bar>>, ts: int, a: Account)
    requires instruments != []
    ensures Valuations(instruments, rows, ts, a)
         == match LastValue(instruments[0].id, RowsOf(rows, instruments[0].id), ts, a)
            case None => None
            case Some(v) => Prefixed([v], Valuations(instruments[1..], rows, ts, a))
  {
  }

  lemma ValuationsNone(rows: map<int, seq<Bar>>, ts: int, a: Account)
    ensures Valuations([], rows, ts, a) == Some([])
  {
  }

  ghost function Prefixed(done: seq<Valuation>, rest: Option<seq<Valuation>>): Option<seq<Valuation>> {
    match rest
    case None => None
    case Some(vs) => Some(done + vs)
  }

  lemma PrefixedNothing(rest: Option<seq<Valuation>>)
    ensures Prefixed([], rest) == rest
  {
    if rest.Some? { assert [] + rest.value == rest.value; }
  }

  lemma PrefixedTwice(done: seq<Valuation>, v: Valuation, rest: Option<seq<Valuation>>)
    ensures Prefixed(done, Prefixed([v], rest)) == Prefixed(done + [v], rest)
  {
    if rest.Some? { assert done + ([v] + rest.value) == (done + [v]) + rest.value; }
  }

  /** `r` is the outcome of a complete run of the machine. */
  ghost predicate Yields(c: Config, r: Result<SimulationResult>) {
    exists k :: Done(Run(WorldOf(c), None, k)) && r == Outcome(c, Run(WorldOf(c), None, k))
  }

  lemma YieldsValued(c: Config, r: Result<SimulationResult>)
    requires Yields(c, r)
    ensures r.Ok? ==> ResultValued(c, r.value)
    ensures Unvalued(c) ==> r.Err?
  {
    hide Run, WorldOf, Outcome, ResultValued, Unvalued;
    var k :| Done(Run(WorldOf(c), None, k)) && r == Outcome(c, Run(WorldOf(c), None, k));
    YieldIsValued(c, Run(WorldOf(c), None, k), r);
  }

  /** A fresh run over an untouched portfolio. */
  method Prepare(c: Config, signal: map<int, ArtifactBarSelector>, execution: map<int, ArtifactBarSelector>)
    returns (run: SimulationRun)
    requires ValidRequest(c.request)
    requires Backed(signal, c.data.signal) && Backed(execution, c.data.execution)
    requires signal.Keys == execution.Keys == Ids(c.request.instruments)
    ensures fresh(run) && fresh(run.portfolio)
    ensures run.c == c && run.Wired() && run.Matches(Init(run.w), 0)
  {
    hide WorldOf, Events, Init, ValidRequest;
    var portfolio := new LongOnlyPortfolio(c.request.initialCapital);
    var events := AllEvents(c, signal);
    run := new SimulationRun(c, signal, execution, events, portfolio);
    WorldEvents(c);
  }

  /** A run whose selectors cover the instruments: the loop, then the final valuation. */
  method RunBound(
    c: Config,
    signal: map<int, ArtifactBarSelector>,
    execution: map<int, ArtifactBarSelector>,
    valuation: map<int, ArtifactBarSelector>)
    returns (r: Result<SimulationResult>)
    requires ValidRequest(c.request)
    requires Backed(signal, c.data.signal) && Backed(execution, c.data.execution)
    requires Backed(valuation, ValuationRows(c.data))
    requires signal.Keys == execution.Keys == valuation.Keys == Ids(c.request.instruments)
    ensures Yields(c, r)
  {
    hide WorldOf, Run, Universe, Schedulable, Valuations, Valued, ValidRequest, Init, ValuationRows;
    var run := Prepare(c, signal, execution);
    ConfigSchedulable(c);
    ghost var s, k, n;
    var failed;
    failed, s, k, n := Loop(run, Universe(c));
    if failed {
      r := Err("Reference fills require positive quantity and price.");
    } else {
      var valuations :=
        FinalValuations(c.request.instruments, run.portfolio, valuation, ValuationRows(c.data), c.request.eventTo);
      r := Conclude(run, Ids(c.request.instruments), valuations, s);
    }
    assert Done(Run(WorldOf(c), None, k)) && r == Outcome(c, Run(WorldOf(c), None, k));
  }

  lemma BackedKeys(selectors: map<int, ArtifactBarSelector>, rows: map<int, seq<Bar>>)
    requires Backed(selectors, rows)
    ensures selectors.Keys == rows.Keys
  {
  }

  /** Valuing from the execution selectors when there are no others. */
  lemma FallbackBacked(d: Data, execution: map<int, ArtifactBarSelector>, valuation: map<int, ArtifactBarSelector>)
    requires Backed(execution, d.execution) && Backed(valuation, d.valuation)
    ensures var used := if valuation == map[] then execution else valuation;
            Backed(used, ValuationRows(d)) && used.Keys == ValuationRows(d).Keys
  {
    assert valuation == map[] <==> valuation.Keys == {};
    assert d.valuation == map[] <==> d.valuation.Keys == {};
  }

  /**
    The whole simulation.  It refuses configurations whose selectors do not cover exactly the run
    instruments; otherwise it returns what a complete run of the machine yields, and it always
    terminates.
  */
  method Simulate(
    c: Config,
    signal: map<int, ArtifactBarSelector>,
    execution: map<int, ArtifactBarSelector>,
    valuation: map<int, ArtifactBarSelector>)
    returns (r: Result<SimulationResult>)
    requires ValidRequest(c.request)
    requires Backed(signal, c.data.signal) && Backed(execution, c.data.execution)
    requires Backed(valuation, c.data.valuation)
    ensures !Bound(c) ==> r.Err?
    ensures Bound(c) ==> Yields(c, r)
    ensures r.Ok? ==> ResultValued(c, r.value)
    ensures Bound(c) && Unvalued(c) ==> r.Err?
  {
    hide Yields, ValidRequest, Backed, ValuationRows, Ids, ResultValued, Unvalued;
    BackedKeys(signal, c.data.signal);
    BackedKeys(execution, c.data.execution);
    FallbackBacked(c.data, execution, valuation);
    var ids := Ids(c.request.instruments);
    if signal.Keys != ids || execution.Keys != ids {
      return Err("Every explicit run instrument requires signal and execution data.");
    }
    var valuationData := if valuation == map[] then execution else valuation;
    if valuationData.Keys != ids {
      return Err("Every explicit run instrument requires valuation data.");
    }
    r := RunBound(c, signal, execution, valuationData);
    YieldsValued(c, r);
  }
}
