/**
  The journal of a run: every signal and order comes from one decision, every decision from one
  event, every fill from one attempted order; and fills are causal.
*/
module Journal {
  import opened Sequences
  import opened Contracts
  import opened Selector
  import opened Accounting
  import opened Engine
  import opened DecisionEvents
  import opened Scheduler

  // ---- decisions, signals and orders ---------------------------------------------------------

  ghost predicate DecisionOk(w: World, d: Decision, i: nat) {
    d.sequence == i + 1 && EventOf(d) in w.events && d.inputs == w.inputs(d.instrument, d.ts)
  }

  /** `o` is the order its decision asks for. */
  ghost predicate OrderOk(w: World, ds: seq<Decision>, o: Order) {
    && 1 <= o.signal.sequence <= |ds|
    && var d := ds[o.signal.sequence - 1];
       && Wants(w, d)
       && o == OrderFor(w, d, w.intent(d.inputs))
  }

  /** The decision calls for another quantity than is held. */
  ghost predicate Wants(w: World, d: Decision) { w.intent(d.inputs).target != d.state.quantity }

  ghost predicate Placed(orders: seq<Order>, sequence: nat) {
    exists j :: 0 <= j < |orders| && orders[j].signal.sequence == sequence
  }

  ghost predicate JournalInv(w: World, s: Sim) {
    && (forall i :: 0 <= i < |s.decisions| ==> DecisionOk(w, s.decisions[i], i))
    && |s.signals| == |s.orders|
    && (forall i :: 0 <= i < |s.orders| ==> s.orders[i].signal == s.signals[i] && OrderOk(w, s.decisions, s.orders[i]))
    && (forall i, j :: 0 <= i < j < |s.orders| ==> s.orders[i].signal.sequence < s.orders[j].signal.sequence)
    && (forall i :: 0 <= i < |s.decisions| && Wants(w, s.decisions[i]) ==> Placed(s.orders, i + 1))
  }

  lemma JournalKept(w: World, s: Sim, s': Sim)
    requires JournalInv(w, s)
    requires s'.decisions == s.decisions && s'.signals == s.signals && s'.orders == s.orders
    ensures JournalInv(w, s')
  {
  }

  lemma JournalPlaces(w: World, s: Sim, s': Sim, d: Decision, o: Order)
    requires DecideShape(s, s', d, o) && (s'.orders != s.orders <==> Wants(w, d))
    requires o.signal.sequence == |s.decisions| + 1
    requires forall i :: 0 <= i < |s.decisions| && Wants(w, s.decisions[i]) ==> Placed(s.orders, i + 1)
    ensures forall i :: 0 <= i < |s'.decisions| && Wants(w, s'.decisions[i]) ==> Placed(s'.orders, i + 1)
  {
    hide Wants, Place;
    forall i | 0 <= i < |s'.decisions| && Wants(w, s'.decisions[i]) ensures Placed(s'.orders, i + 1) {
      if i < |s.decisions| {
        assert Placed(s.orders, i + 1);
        var j :| 0 <= j < |s.orders| && s.orders[j].signal.sequence == i + 1;
        assert s'.orders[j] == s.orders[j];
      } else {
        assert s'.orders[|s.orders|] == o;
      }
    }
  }

  lemma JournalDecide(w: World, s: Sim, s': Sim, d: Decision, o: Order)
    requires JournalInv(w, s) && DecideShape(s, s', d, o)
    requires DecisionOk(w, d, |s.decisions|)
    requires o == OrderFor(w, d, w.intent(d.inputs))
    requires s'.orders != s.orders <==> Wants(w, d)
    ensures JournalInv(w, s')
  {
    hide Place;
    JournalPlaces(w, s, s', d, o);
    assert o.signal.sequence == d.sequence == |s.decisions| + 1;
    forall i | 0 <= i < |s'.orders|
      ensures s'.orders[i].signal == s'.signals[i] && OrderOk(w, s'.decisions, s'.orders[i])
    {
      if i < |s.orders| { assert OrderOk(w, s.decisions, s.orders[i]); }
    }
    forall i, j | 0 <= i < j < |s'.orders|
      ensures s'.orders[i].signal.sequence < s'.orders[j].signal.sequence
    {
      assert OrderOk(w, s.decisions, s.orders[i]);
    }
  }

  lemma JournalStep(w: World, universe: set<int>, limit: Option<int>, s: Sim)
    requires Sound(w, universe, s) && JournalInv(w, s)
    ensures JournalInv(w, Next(w, limit, s))
  {
    if s.aborted {
    } else if s.queue != [] {
      AttemptHasShape(w, s);
      JournalKept(w, s, Attempt(w, s));
    } else if s.agenda != [] {
      var d := DecisionFor(w, s, s.agenda[0]);
      DecideHasShape(w, s);
      assert s.agenda[0] in s.agenda;
      JournalDecide(w, s, Decide(w, s), d, OrderFor(w, d, w.intent(d.inputs)));
    } else if s.future != {} && Within(limit, Minimum(s.future)) {
      JournalKept(w, s, Advance(w, s));
    }
  }

  lemma {:induction false} JournalHolds(w: World, universe: set<int>, limit: Option<int>, k: nat)
    requires Schedulable(w, universe)
    ensures JournalInv(w, Run(w, limit, k))
  {
    hide Next, Schedulable;
    if k > 0 {
      JournalHolds(w, universe, limit, k - 1);
      JournalRun(w, universe, limit, k);
    }
  }

  lemma JournalRun(w: World, universe: set<int>, limit: Option<int>, k: nat)
    requires Schedulable(w, universe) && 0 < k && JournalInv(w, Run(w, limit, k - 1))
    ensures JournalInv(w, Run(w, limit, k))
  {
    hide Next, JournalInv, Schedulable, Sound;
    SoundHolds(w, universe, limit, k - 1);
    JournalStep(w, universe, limit, Run(w, limit, k - 1));
  }

  // ---- attempts and fills --------------------------------------------------------------------

  /** Anything attempted or queued is a due order of the journal. */
  lemma AttemptIsDue(s: Sim, o: Order)
    requires AttemptsInv(s) && (o in s.attempts || o in s.queue)
    ensures o in s.orders && Due()(o)
  {
    var t := o.execution.value.effective;
    var done := Filter(ExecutesAt(t), s.attempts);
    var due := Filter(DueAt(t), s.orders);
    FilterMembers(ExecutesAt(t), s.attempts);
    assert t in s.past;
    assert QueueAt(s, t);
    assert o in done + (if Now(s, t) then s.queue else []);
    SortMembers(KeyBefore, due);
    FilterMembers(DueAt(t), s.orders);
  }

  /** The next queued order has not been attempted before. */
  lemma QueueHeadIsNew(w: World, s: Sim)
    requires AttemptsInv(s) && JournalInv(w, s) && s.queue != []
    ensures s.queue[0] !in s.attempts
  {
    var o := s.queue[0];
    assert o in s.queue;
    var t := o.execution.value.effective;
    assert QueueAt(s, t);
    var due := Filter(DueAt(t), s.orders);
    var done := Filter(ExecutesAt(t), s.attempts);
    FilterMembers(ExecutesAt(t), s.attempts);
    FilterNoDup(DueAt(t), s.orders);
    SortKeepsNoDup(KeyBefore, due);
    HeadNotBefore(done, s.queue);
  }

  lemma HeadNotBefore<T>(a: seq<T>, b: seq<T>)
    requires NoDup(a + b) && b != []
    ensures b[0] !in a
  {
    assert (a + b)[|a|] == b[0];
    forall i | 0 <= i < |a| ensures a[i] != b[0] { assert (a + b)[i] == a[i]; }
  }

  lemma {:induction false} FilterNoDup<T(!new)>(p: T -> bool, s: seq<T>)
    requires NoDup(s)
    ensures NoDup(Filter(p, s))
  {
    if s != [] {
      FilterNoDup(p, s[1..]);
      FilterMembers(p, s[1..]);
      var r := Filter(p, s[1..]);
      assert s[0] !in s[1..];
      assert forall i :: 0 <= i < |r| ==> r[i] in r;
    }
  }

  /** `f` is the priced execution of its order. */
  ghost predicate FillOk(w: World, f: Fill) {
    && f.order.execution.Some?
    && w.price(f.order.side, f.order.quantity, f.order.execution.value.close) == Some(f.economics)
    && f == FillFor(f.order, f.order.execution.value, f.economics)
  }

  /** Booking the fills one after another from the opening cash. */
  function Replay(book: (Account, int, PricedFill) -> Option<Account>, capital: real, fills: seq<Fill>)
    : Option<Account>
  {
    if fills == [] then Some(Account(capital, map[]))
    else
      var last := fills[|fills| - 1];
      match Replay(book, capital, fills[..|fills| - 1])
      case None => None
      case Some(a) => book(a, last.order.signal.instrument, last.economics)
  }

  ghost predicate FillsInv(w: World, s: Sim) {
    && (forall f :: f in s.fills ==> FillOk(w, f) && f.order in s.attempts)
    && (forall i, j :: 0 <= i < j < |s.fills| ==> s.fills[i].order != s.fills[j].order)
    && Replay(w.book, w.capital, s.fills) == Some(s.account)
  }

  /** A fill of an order not attempted before extends the journal. */
  lemma FillsSnoc(w: World, s: Sim, o: Order, f: Fill, a: Account)
    requires FillsInv(w, s) && o !in s.attempts && FillOk(w, f) && f.order == o
    requires w.book(s.account, f.order.signal.instrument, f.economics) == Some(a)
    ensures FillsInv(w, s.(attempts := s.attempts + [o], fills := s.fills + [f], account := a))
  {
    hide FillOk, Replay;
    ReplaySnoc(w.book, w.capital, s.fills, f);
    forall i | 0 <= i < |s.fills| ensures s.fills[i].order != o { assert s.fills[i] in s.fills; }
  }

  lemma ReplaySnoc(book: (Account, int, PricedFill) -> Option<Account>, capital: real, fills: seq<Fill>, f: Fill)
    requires Replay(book, capital, fills).Some?
    ensures Replay(book, capital, fills + [f])
         == book(Replay(book, capital, fills).value, f.order.signal.instrument, f.economics)
  {
    assert (fills + [f])[..|fills|] == fills;
  }

  lemma FillsKept(w: World, s: Sim, s': Sim)
    requires FillsInv(w, s) && s'.fills == s.fills && s'.account == s.account
    requires forall o :: o in s.attempts ==> o in s'.attempts
    ensures FillsInv(w, s')
  {
    hide FillOk, Replay;
  }

  lemma FillsAttempt(w: World, s: Sim)
    requires FillsInv(w, s) && s.queue != [] && s.queue[0] !in s.attempts
    ensures FillsInv(w, Attempt(w, s))
  {
    hide FillsInv, Replay;
    var o, s' := s.queue[0], Attempt(w, s);
    AttemptHasShape(w, s);
    var outcome := Settle(w, s.account, o);
    if outcome.Booked? {
      FillsSnoc(w, s, o, outcome.fill, outcome.account);
      FillsKept(w, s.(attempts := s.attempts + [o], fills := s.fills + [outcome.fill], account := outcome.account), s');
    } else {
      FillsKept(w, s, s');
    }
  }

  lemma FillsStep(w: World, limit: Option<int>, s: Sim)
    requires FillsInv(w, s) && (s.queue != [] ==> s.queue[0] !in s.attempts)
    ensures FillsInv(w, Next(w, limit, s))
  {
    if s.aborted {
    } else if s.queue != [] {
      FillsAttempt(w, s);
    } else if s.agenda != [] {
      DecideHasShape(w, s);
    }
  }

  lemma NeverTwice(w: World, universe: set<int>, limit: Option<int>, k: nat)
    requires Schedulable(w, universe)
    ensures var s := Run(w, limit, k); s.queue != [] ==> s.queue[0] !in s.attempts
  {
    var s := Run(w, limit, k);
    SoundHolds(w, universe, limit, k);
    JournalHolds(w, universe, limit, k);
    if s.queue != [] { QueueHeadIsNew(w, s); }
  }

  lemma {:induction false} FillsHold(w: World, universe: set<int>, limit: Option<int>, k: nat)
    requires Schedulable(w, universe)
    ensures FillsInv(w, Run(w, limit, k))
  {
    hide Next, Schedulable;
    if k > 0 {
      FillsHold(w, universe, limit, k - 1);
      FillsRun(w, universe, limit, k);
    }
  }

  lemma FillsRun(w: World, universe: set<int>, limit: Option<int>, k: nat)
    requires Schedulable(w, universe) && 0 < k && FillsInv(w, Run(w, limit, k - 1))
    ensures FillsInv(w, Run(w, limit, k))
  {
    hide Next, FillsInv, Schedulable;
    NeverTwice(w, universe, limit, k - 1);
    FillsStep(w, limit, Run(w, limit, k - 1));
  }

  /** The decision behind a fill. */
  ghost predicate FillBehind(w: World, d: Decision, f: Fill) {
    && FillOk(w, f) && Due()(f.order)
    && EventOf(d) in w.events && d.inputs == w.inputs(d.instrument, d.ts)
    && d.sequence == f.order.signal.sequence
    && f.order == OrderFor(w, d, w.intent(d.inputs))
  }

  lemma OrderTracesBack(w: World, s: Sim, o: Order)
    requires JournalInv(w, s) && o in s.orders
    ensures OrderOk(w, s.decisions, o)
    ensures DecisionOk(w, s.decisions[o.signal.sequence - 1], o.signal.sequence - 1)
  {
    var i :| 0 <= i < |s.orders| && s.orders[i] == o;
    assert OrderOk(w, s.decisions, s.orders[i]);
  }

  lemma FillTracesBack(w: World, s: Sim, f: Fill)
    requires AttemptsInv(s) && JournalInv(w, s) && FillsInv(w, s) && f in s.fills
    ensures 1 <= f.order.signal.sequence <= |s.decisions|
    ensures FillBehind(w, s.decisions[f.order.signal.sequence - 1], f)
  {
    hide FillOk, JournalInv, Replay;
    AttemptIsDue(s, f.order);
    OrderTracesBack(w, s, f.order);
    assert FillOk(w, f);
  }

  // ---- causality -----------------------------------------------------------------------------

  /**
    A causal decision: its inputs are the newest bars of the slow window available when it was
    taken, each the highest revision of its bar, and its trigger is a bar that first showed at that
    instant.
  */
  ghost predicate CausalDecision(c: Config, d: Decision) {
    var signal := RowsOf(c.data.signal, d.instrument);
    && Newest(signal, d.ts, c.request.strategy.slow, d.inputs)
    && d.ts == FirstVisibility(signal, d.trigger.open) && Current(signal, d.trigger, d.ts)
  }

  /**
    A causal execution: strictly after the decision and no earlier than the lag allows, at the
    first visibility of the earliest-opening later bar that respects the lag, priced at the
    highest revision of that bar available then.
  */
  ghost predicate CausalExecution(c: Config, d: Decision, f: Fill, lag: int) {
    var execution := RowsOf(c.data.execution, d.instrument);
    var earliest := d.ts + lag;
    && Instrument(d.instrument, lag) in c.request.instruments
    && f.order.signal.instrument == d.instrument && f.order.submittedAt == d.ts
    && d.ts < f.fillTs && earliest <= f.fillTs
    && f.fillTs == f.referenceBar.effective
    && IsExecution(execution, f.referenceBar, d.trigger.open, earliest)
    && f.referencePrice == f.referenceBar.close == f.economics.referencePrice
  }

  lemma DecisionIsCausal(c: Config, d: Decision)
    requires ValidRequest(c.request) && EventOf(d) in Events(c) && d.inputs == Inputs(c, d.instrument, d.ts)
    ensures CausalDecision(c, d)
  {
    hide Visible, Newest, Events;
    LastAreNewest(RowsOf(c.data.signal, d.instrument), d.ts, c.request.strategy.slow);
    TriggerIsCurrent(c, d);
  }

  lemma TriggerIsCurrent(c: Config, d: Decision)
    requires EventOf(d) in Events(c)
    ensures var signal := RowsOf(c.data.signal, d.instrument);
            d.ts == FirstVisibility(signal, d.trigger.open) && Current(signal, d.trigger, d.ts)
  {
    hide Events, Current;
    var signal := RowsOf(c.data.signal, d.instrument);
    EventsAreTheSchedule(c, EventOf(d));
    VisibleIsPointInTime(signal, d.ts);
    FindOpenFinds(Visible(signal, d.ts), d.trigger.open);
  }

  /** A decision is about a requested instrument, and the lag is that instrument's. */
  lemma DecisionIsRequested(c: Config, d: Decision)
    requires ValidRequest(c.request) && EventOf(d) in Events(c)
    ensures Instrument(d.instrument, LagOf(c.request.instruments, d.instrument)) in c.request.instruments
  {
    hide Events;
    EventsAreTheSchedule(c, EventOf(d));
    var i :| i in c.request.instruments && i.id == d.instrument;
    LagIsRequested(c.request.instruments, i);
  }

  /** Every decision of every reachable state is causal. */
  lemma DecisionsAreCausal(c: Config, limit: Option<int>, k: nat, d: Decision)
    requires ValidRequest(c.request) && d in Run(WorldOf(c), limit, k).decisions
    ensures CausalDecision(c, d)
  {
    hide Run, Universe, Events, Inputs, CausalDecision;
    var w := WorldOf(c);
    var s := Run(w, limit, k);
    ConfigSchedulable(c);
    JournalHolds(w, Universe(c), limit, k);
    var i :| 0 <= i < |s.decisions| && s.decisions[i] == d;
    assert DecisionOk(w, s.decisions[i], i);
    DecisionIsCausal(c, d);
  }

  /** Every fill of every reachable state is causal. */
  lemma FillsAreCausal(c: Config, limit: Option<int>, k: nat, f: Fill) returns (lag: int)
    requires ValidRequest(c.request) && f in Run(WorldOf(c), limit, k).fills
    ensures var ds := Run(WorldOf(c), limit, k).decisions;
            && 1 <= f.order.signal.sequence <= |ds|
            && CausalDecision(c, ds[f.order.signal.sequence - 1])
            && CausalExecution(c, ds[f.order.signal.sequence - 1], f, lag)
  {
    hide Run, WorldOf, Universe, AttemptsInv, JournalInv, FillsInv, TimesInv, BooksInv, AgendaInv, FillBehind,
         CausalDecision, CausalExecution, IsExecution, Events, Inputs, Execution;
    var w := WorldOf(c);
    var s := Run(w, limit, k);
    ConfigSchedulable(c);
    SoundHolds(w, Universe(c), limit, k);
    JournalHolds(w, Universe(c), limit, k);
    FillsHold(w, Universe(c), limit, k);
    FillTracesBack(w, s, f);
    var d := s.decisions[f.order.signal.sequence - 1];
    FillBehindConfig(c, d, f);
    DecisionIsCausal(c, d);
    DecisionIsRequested(c, d);
    ExecutionIsCausal(c, d, f.referenceBar);
    CausalFromFacts(c, d, f);
    lag := LagOf(c.request.instruments, d.instrument);
  }

  /** What the order of a configuration says, spelled out. */
  lemma OrderOfConfig(c: Config, d: Decision, i: Intent)
    ensures var o := OrderFor(WorldOf(c), d, i);
            && o.execution == Execution(c, d.instrument, d.trigger.open, d.ts)
            && o.submittedAt == d.ts && o.signal.instrument == d.instrument && o.signal.sequence == d.sequence
            && o.key == OrderKey(c.request.runKey, d.sequence, d.instrument, i.text)
  {
  }

  lemma PriceOfConfig(c: Config, f: Fill)
    requires FillOk(WorldOf(c), f)
    ensures Priced(f.economics, c.request.costs)
    ensures f.economics.referencePrice == f.referencePrice == f.referenceBar.close
    ensures f.economics.side == f.order.side && f.economics.quantity == f.order.quantity
    ensures f.fillTs == f.referenceBar.effective && f.order.execution == Some(f.referenceBar)
  {
  }

  /** A fill of a configuration, in terms of the configuration alone. */
  ghost predicate FillFacts(c: Config, d: Decision, f: Fill) {
    && EventOf(d) in Events(c) && d.inputs == Inputs(c, d.instrument, d.ts)
    && f.order.signal.instrument == d.instrument && f.order.submittedAt == d.ts
    && d.ts < f.fillTs == f.referenceBar.effective
    && f.economics.referencePrice == f.referencePrice == f.referenceBar.close
    && Execution(c, d.instrument, d.trigger.open, d.ts) == Some(f.referenceBar)
  }

  lemma FillBehindConfig(c: Config, d: Decision, f: Fill)
    requires FillBehind(WorldOf(c), d, f)
    ensures FillFacts(c, d, f)
  {
    OrderOfConfig(c, d, Strategy(c.request.strategy, d.inputs));
    PriceOfConfig(c, f);
  }

  lemma CausalFromFacts(c: Config, d: Decision, f: Fill)
    requires f.order.signal.instrument == d.instrument && f.order.submittedAt == d.ts
    requires d.ts < f.fillTs == f.referenceBar.effective
    requires f.economics.referencePrice == f.referencePrice == f.referenceBar.close
    requires d.ts + LagOf(c.request.instruments, d.instrument) <= f.fillTs
    requires IsExecution(RowsOf(c.data.execution, d.instrument), f.referenceBar, d.trigger.open,
                         d.ts + LagOf(c.request.instruments, d.instrument))
    requires Instrument(d.instrument, LagOf(c.request.instruments, d.instrument)) in c.request.instruments
    ensures CausalExecution(c, d, f, LagOf(c.request.instruments, d.instrument))
  {
  }

  lemma ExecutionIsCausal(c: Config, d: Decision, b: Bar)
    requires Execution(c, d.instrument, d.trigger.open, d.ts) == Some(b)
    ensures IsExecution(RowsOf(c.data.execution, d.instrument), b, d.trigger.open,
                        d.ts + LagOf(c.request.instruments, d.instrument))
    ensures d.ts + LagOf(c.request.instruments, d.instrument) <= b.effective
  {
    hide NextExecution, Current, FirstVisibility;
    NextExecutionFinds(RowsOf(c.data.execution, d.instrument), d.trigger.open,
                       d.ts + LagOf(c.request.instruments, d.instrument));
  }
}
