/**
  What decisions look at and ask for, in every reachable state: the newest closes available, the
  account that the fills so far leave, and an order that takes the position to the target.
*/
module Decisions {
  import opened Sequences
  import opened Contracts
  import opened Selector
  import opened Accounting
  import opened Engine
  import opened Scheduler
  import opened Journal
  import opened Crossover

  // ---- the account a decision sees -------------------------------------------------------------

  function FilledUpTo(t: int): Fill -> bool { (f: Fill) => f.fillTs <= t }

  /** The decision saw exactly the fills up to and including its instant. */
  ghost predicate Saw(w: World, fills: seq<Fill>, d: Decision) {
    && Replay(w.book, w.capital, Filter(FilledUpTo(d.ts), fills)).Some?
    && var a := Replay(w.book, w.capital, Filter(FilledUpTo(d.ts), fills)).value;
       d.cash == a.cash && d.state == PositionOf(a, d.instrument)
  }

  ghost predicate UpToNow(s: Sim, t: int) { s.past != [] && t <= s.past[|s.past| - 1] }

  ghost predicate SeenInv(w: World, s: Sim) {
    && (forall f :: f in s.fills ==> UpToNow(s, f.fillTs))
    && (forall d :: d in s.decisions ==> UpToNow(s, d.ts) && Saw(w, s.fills, d))
    && (s.queue != [] ==> forall d :: d in s.decisions ==> !Now(s, d.ts))
  }

  lemma SawStays(w: World, fills: seq<Fill>, f: Fill, d: Decision)
    requires Saw(w, fills, d) && d.ts < f.fillTs
    ensures Saw(w, fills + [f], d)
  {
    FilterSnoc(FilledUpTo(d.ts), fills, f);
  }

  lemma SawAll(w: World, s: Sim, d: Decision)
    requires FillsInv(w, s) && Now(s, d.ts) && forall f :: f in s.fills ==> UpToNow(s, f.fillTs)
    requires d.cash == s.account.cash && d.state == PositionOf(s.account, d.instrument)
    ensures Saw(w, s.fills, d)
  {
    hide FillOk, Replay, PositionOf;
    FilterAll(FilledUpTo(d.ts), s.fills);
  }

  lemma SeenAttempt(w: World, s: Sim)
    requires SeenInv(w, s) && s.queue != [] && s.queue[0].execution.Some?
    requires Now(s, s.queue[0].execution.value.effective)
    ensures SeenInv(w, Attempt(w, s))
  {
    hide Saw;
    AttemptHasShape(w, s);
    var s', outcome := Attempt(w, s), Settle(w, s.account, s.queue[0]);
    forall d | d in s'.decisions ensures UpToNow(s', d.ts) && Saw(w, s'.fills, d) {
      assert UpToNow(s, d.ts) && !Now(s, d.ts);
      if outcome.Booked? { SawStays(w, s.fills, outcome.fill, d); }
    }
  }

  lemma SeenDecide(w: World, s: Sim, s': Sim, d: Decision, o: Order)
    requires SeenInv(w, s) && FillsInv(w, s) && DecideShape(s, s', d, o) && s.queue == []
    requires Now(s, d.ts) && d.cash == s.account.cash && d.state == PositionOf(s.account, d.instrument)
    ensures SeenInv(w, s')
  {
    hide Saw, Place, FillsInv, PositionOf;
    SawAll(w, s, d);
  }

  lemma SeenAdvance(w: World, universe: set<int>, s: Sim)
    requires SeenInv(w, s) && TimesInv(w, universe, s) && s.future != {}
    ensures SeenInv(w, Advance(w, s))
  {
    hide Saw, EventsAt, Sort;
    var s', t := Advance(w, s), Minimum(s.future);
    assert s'.past[|s'.past| - 1] == t;
    forall u | UpToNow(s, u) ensures UpToNow(s', u) && u < t { assert s.past[|s.past| - 1] in s.past; }
  }

  lemma SeenStep(w: World, universe: set<int>, limit: Option<int>, s: Sim)
    requires Sound(w, universe, s) && FillsInv(w, s) && SeenInv(w, s)
    ensures SeenInv(w, Next(w, limit, s))
  {
    hide SeenInv, FillsInv, Advance, BooksInv, AgendaInv;
    if s.aborted {
    } else if s.queue != [] {
      assert s.queue[0] in s.queue;
      SeenAttempt(w, s);
    } else if s.agenda != [] {
      assert s.agenda[0] in s.agenda;
      DecideHasShape(w, s);
      var d := DecisionFor(w, s, s.agenda[0]);
      SeenDecide(w, s, Decide(w, s), d, OrderFor(w, d, w.intent(d.inputs)));
    } else if s.future != {} && Within(limit, Minimum(s.future)) {
      SeenAdvance(w, universe, s);
    }
  }

  lemma {:induction false} SeenHolds(w: World, universe: set<int>, limit: Option<int>, k: nat)
    requires Schedulable(w, universe)
    ensures SeenInv(w, Run(w, limit, k))
  {
    hide Next, Schedulable;
    if k > 0 {
      SeenHolds(w, universe, limit, k - 1);
      SeenRun(w, universe, limit, k);
    }
  }

  lemma SeenRun(w: World, universe: set<int>, limit: Option<int>, k: nat)
    requires Schedulable(w, universe) && 0 < k && SeenInv(w, Run(w, limit, k - 1))
    ensures SeenInv(w, Run(w, limit, k))
  {
    hide Next, SeenInv, FillsInv, Schedulable, Sound;
    SoundHolds(w, universe, limit, k - 1);
    FillsHold(w, universe, limit, k - 1);
    SeenStep(w, universe, limit, Run(w, limit, k - 1));
  }

  /**
    Every decision of every reachable state saw the cash and the position left by exactly the
    fills up to and including its instant, whatever was filled later.
  */
  lemma DecisionsSeeFills(c: Config, limit: Option<int>, k: nat, d: Decision)
    requires ValidRequest(c.request) && d in Run(WorldOf(c), limit, k).decisions
    ensures Saw(WorldOf(c), Run(WorldOf(c), limit, k).fills, d)
  {
    hide Run, WorldOf, Universe, Saw;
    ConfigSchedulable(c);
    SeenHolds(WorldOf(c), Universe(c), limit, k);
  }

  // ---- the order a decision asks for -----------------------------------------------------------

  /** What the closes ask for: the target when they rise, nothing otherwise. */
  ghost function Wanted(p: Parameters, closes: seq<Bar>): real
    requires ValidParameters(p)
  {
    if Rises(p, closes) then p.target else 0.0
  }

  /** `o` takes the position a decision saw to the quantity its newest closes ask for. */
  ghost predicate OrderMeets(c: Config, d: Decision, o: Order)
    requires ValidParameters(c.request.strategy)
  {
    var p := c.request.strategy;
    && o.signal.target == Wanted(p, d.inputs) && 0.0 < o.quantity
    && d.state.quantity + (if o.side.Buy? then o.quantity else -o.quantity) == o.signal.target
    && o.signal.instrument == d.instrument && o.signal.ts == o.submittedAt == d.ts && o.signal.trigger == d.trigger
    && o.signal.reason == (if |d.inputs| < p.slow then "SMA_WARMUP"
                           else if Rises(p, d.inputs) then "SMA_CROSS_LONG" else "SMA_CROSS_FLAT")
    && o.key == OrderKey(c.request.runKey, d.sequence, d.instrument,
                         if Rises(p, d.inputs) then p.targetText else "0")
    && forall i :: i in c.request.instruments && i.id == d.instrument ==> BarMeets(c, d, o.execution, i.lag)
  }

  /** The earliest-opening bar after the trigger that shows late enough, or nothing if there is none. */
  ghost predicate Executes(rows: seq<Bar>, x: Option<Bar>, after: int, earliest: int) {
    match x
    case Some(b) => IsExecution(rows, b, after, earliest)
    case None => forall o :: !Executable(rows, o, after, earliest)
  }

  ghost predicate BarMeets(c: Config, d: Decision, x: Option<Bar>, lag: int) {
    Executes(RowsOf(c.data.execution, d.instrument), x, d.trigger.open, d.ts + lag)
  }

  lemma ExecutionMeets(c: Config, d: Decision, i: Instrument)
    requires ValidRequest(c.request) && i in c.request.instruments && i.id == d.instrument
    ensures BarMeets(c, d, Execution(c, d.instrument, d.trigger.open, d.ts), i.lag)
  {
    hide NextExecution, IsExecution, Executable;
    LagIsRequested(c.request.instruments, i);
    NextExecutionFinds(RowsOf(c.data.execution, d.instrument), d.trigger.open, d.ts + i.lag);
  }

  lemma OrderForMeets(c: Config, d: Decision)
    requires ValidRequest(c.request) && Wants(WorldOf(c), d)
    ensures OrderMeets(c, d, OrderFor(WorldOf(c), d, Strategy(c.request.strategy, d.inputs)))
  {
    hide Strategy, Rises, OrderKey, BarMeets, Execution;
    LongIff(c.request.strategy, d.inputs);
    forall i | i in c.request.instruments && i.id == d.instrument
      ensures BarMeets(c, d, Execution(c, d.instrument, d.trigger.open, d.ts), i.lag)
    {
      ExecutionMeets(c, d, i);
    }
  }

  lemma WantsIff(c: Config, d: Decision)
    requires ValidRequest(c.request)
    ensures Wants(WorldOf(c), d) <==> Wanted(c.request.strategy, d.inputs) != d.state.quantity
  {
    hide Strategy, Rises;
    LongIff(c.request.strategy, d.inputs);
  }

  /**
    In every reachable state a decision has an order if and only if the newest closes available to
    it ask for another quantity than is held, and that order takes the position there.
  */
  lemma OrdersFollowCloses(c: Config, limit: Option<int>, k: nat, i: nat)
    requires ValidRequest(c.request) && i < |Run(WorldOf(c), limit, k).decisions|
    ensures var s := Run(WorldOf(c), limit, k);
            var d := s.decisions[i];
            && d.sequence == i + 1 && CausalDecision(c, d)
            && (Placed(s.orders, i + 1) <==> Wanted(c.request.strategy, d.inputs) != d.state.quantity)
            && forall o :: o in s.orders && o.signal.sequence == i + 1 ==> OrderMeets(c, d, o)
  {
    hide Run, WorldOf, Universe, CausalDecision, OrderMeets, Wanted, OrderFor;
    var w := WorldOf(c);
    var s := Run(w, limit, k);
    var d := s.decisions[i];
    ConfigSchedulable(c);
    JournalHolds(w, Universe(c), limit, k);
    DecisionsAreCausal(c, limit, k, d);
    WantsIff(c, d);
    assert DecisionOk(w, d, i);
    forall o | o in s.orders && o.signal.sequence == i + 1 ensures Wants(w, d) && OrderMeets(c, d, o) {
      OrderTracesBack(w, s, o);
      OrderForMeets(c, d);
      IntentOf(c, d);
    }
  }

  lemma IntentOf(c: Config, d: Decision)
    ensures WorldOf(c).intent(d.inputs) == Strategy(c.request.strategy, d.inputs)
  {
  }
}
