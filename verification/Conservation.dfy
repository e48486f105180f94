/**
  Conservation of money: the portfolio is at all times the replay of the fills so far, and in
  every reachable state cash plus cost basis equals opening capital plus realized P&L.
*/
module Conservation {
  import opened Sequences
  import opened Contracts
  import opened Accounting
  import opened Engine
  import opened DecisionEvents
  import opened Scheduler
  import opened Journal

  function IdList(instruments: seq<Instrument>): seq<int> {
    if instruments == [] then [] else [instruments[0].id] + IdList(instruments[1..])
  }

  lemma {:induction false} IdListLists(instruments: seq<Instrument>)
    ensures forall id :: id in IdList(instruments) <==> id in Ids(instruments)
    ensures UniqueIds(instruments) ==> NoDup(IdList(instruments))
  {
    if instruments != [] {
      IdListLists(instruments[1..]);
      assert forall i :: i in instruments <==> i == instruments[0] || i in instruments[1..];
      var rest := IdList(instruments[1..]);
      forall j | 0 <= j < |rest| && UniqueIds(instruments) ensures rest[j] != instruments[0].id {
        assert rest[j] in rest;
      }
    }
  }

  function InstrumentOf(f: Fill): int { f.order.signal.instrument }

  /** The reference portfolio after booking the fills one after another. */
  function Book(capital: real, fills: seq<Fill>): Option<Account> {
    Replay(ApplyFill, capital, fills)
  }

  /** Fills of a run: priced by its cost model, in its instruments. */
  ghost predicate Tradable(ids: seq<int>, costs: Costs, fills: seq<Fill>) {
    forall f :: f in fills ==> Priced(f.economics, costs) && InstrumentOf(f) in ids
  }

  // ---- conservation and solvency -------------------------------------------------------------

  ghost predicate Conserved(ids: seq<int>, capital: real, a: Account) {
    a.cash + SumOver(CostBasis, ids, a) == capital + SumOver(Realized, ids, a)
  }

  /** Sound accounts: long-only, nothing lost, and solvent if sales cannot cost money. */
  ghost predicate Healthy(ids: seq<int>, costs: Costs, capital: real, a: Account) {
    && AllLong(a)
    && Conserved(ids, capital, a)
    && (SalesPay(costs) && 0.0 <= capital ==> 0.0 <= a.cash)
  }

  lemma ConservedStep(ids: seq<int>, capital: real, a: Account, id: int, f: PricedFill, b: Account)
    requires NoDup(ids) && id in ids && f.notional == f.executionPrice * f.quantity && 0.0 < f.quantity
    requires 0.0 <= PositionOf(a, id).quantity && ApplyFill(a, id, f) == Some(b)
    requires Conserved(ids, capital, a)
    ensures Conserved(ids, capital, b)
  {
    FillConserves(a, id, f);
    SumUpdated(CostBasis, ids, a, b, id);
    SumUpdated(Realized, ids, a, b, id);
  }

  lemma HealthyStep(ids: seq<int>, costs: Costs, capital: real, a: Account, id: int, f: PricedFill, b: Account)
    requires NoDup(ids) && id in ids && ValidCosts(costs) && Priced(f, costs)
    requires Healthy(ids, costs, capital, a) && ApplyFill(a, id, f) == Some(b)
    ensures Healthy(ids, costs, capital, b)
  {
    SolvencyKept(a, id, f, costs);
    ConservedStep(ids, capital, a, id, f, b);
    if f.side.Sell? { SaleNeverCosts(f, costs); }
  }

  function BookOne(a: Account, f: Fill): Option<Account> {
    ApplyFill(a, InstrumentOf(f), f.economics)
  }

  /** A property of accounts that every booking keeps holds after any sequence of bookings. */
  lemma {:induction false} BookInduction(capital: real, fills: seq<Fill>, holds: Account -> bool)
    requires holds(Account(capital, map[]))
    requires forall a, f :: f in fills && holds(a) && BookOne(a, f).Some? ==> holds(BookOne(a, f).value)
    ensures Book(capital, fills).Some? ==> holds(Book(capital, fills).value)
  {
    if fills != [] {
      var last := fills[|fills| - 1];
      assert last in fills;
      BookInduction(capital, fills[..|fills| - 1], holds);
      var before := Book(capital, fills[..|fills| - 1]);
      assert before.Some? ==> Book(capital, fills) == BookOne(before.value, last);
    }
  }

  lemma ConservedInit(ids: seq<int>, a: Account)
    requires a.positions == map[]
    ensures Conserved(ids, a.cash, a)
  {
    NothingHeld(ids, a);
  }

  lemma {:induction false} NothingHeld(ids: seq<int>, a: Account)
    requires a.positions == map[]
    ensures SumOver(CostBasis, ids, a) == 0.0
    ensures SumOver(Realized, ids, a) == 0.0
  {
    if ids != [] { NothingHeld(ids[1..], a); }
  }

  lemma HealthyInit(ids: seq<int>, costs: Costs, capital: real)
    ensures Healthy(ids, costs, capital, Account(capital, map[]))
  {
    ConservedInit(ids, Account(capital, map[]));
  }

  ghost function Health(ids: seq<int>, costs: Costs, capital: real): Account -> bool {
    (a: Account) => Healthy(ids, costs, capital, a)
  }

  /** Value conservation over any accepted sequence of priced fills; positions stay long-only. */
  lemma BookConserves(ids: seq<int>, costs: Costs, capital: real, fills: seq<Fill>)
    requires NoDup(ids) && ValidCosts(costs) && Tradable(ids, costs, fills) && Book(capital, fills).Some?
    ensures Healthy(ids, costs, capital, Book(capital, fills).value)
  {
    var holds := Health(ids, costs, capital);
    HealthyInit(ids, costs, capital);
    forall a, f | f in fills && holds(a) && BookOne(a, f).Some? ensures holds(BookOne(a, f).value) {
      HealthyStep(ids, costs, capital, a, InstrumentOf(f), f.economics, BookOne(a, f).value);
    }
    BookInduction(capital, fills, holds);
  }

  // ---- every reachable state -----------------------------------------------------------------

  lemma FillsTradable(c: Config, limit: Option<int>, k: nat)
    requires ValidRequest(c.request)
    ensures var s := Run(WorldOf(c), limit, k);
            && Book(c.request.initialCapital, s.fills) == Some(s.account)
            && Tradable(IdList(c.request.instruments), c.request.costs, s.fills)
  {
    var w := WorldOf(c);
    var s := Run(w, limit, k);
    ConfigSchedulable(c);
    FillsHold(w, Universe(c), limit, k);
    forall f | f in s.fills
      ensures Priced(f.economics, c.request.costs) && InstrumentOf(f) in IdList(c.request.instruments)
    {
      FillIsTradable(c, limit, k, f);
    }
  }

  lemma FillIsTradable(c: Config, limit: Option<int>, k: nat, f: Fill)
    requires ValidRequest(c.request) && f in Run(WorldOf(c), limit, k).fills
    ensures Priced(f.economics, c.request.costs)
    ensures InstrumentOf(f) in IdList(c.request.instruments)
  {
    var w := WorldOf(c);
    var s := Run(w, limit, k);
    ConfigSchedulable(c);
    SoundHolds(w, Universe(c), limit, k);
    JournalHolds(w, Universe(c), limit, k);
    FillsHold(w, Universe(c), limit, k);
    FillTracesBack(w, s, f);
    PriceOfConfig(c, f);
    var d := s.decisions[f.order.signal.sequence - 1];
    EventsAreTheSchedule(c, EventOf(d));
    IdListLists(c.request.instruments);
  }

  /**
    In every reachable state money is conserved, every position is long-only with a zero average
    cost when flat, and cash stays non-negative whenever the cost model cannot make a sale cost
    more than it brings.
  */
  lemma MoneyConserved(c: Config, limit: Option<int>, k: nat)
    requires ValidRequest(c.request)
    ensures var a := Run(WorldOf(c), limit, k).account;
            && Conserved(IdList(c.request.instruments), c.request.initialCapital, a)
            && AllLong(a)
            && (SalesPay(c.request.costs) ==> 0.0 <= a.cash)
  {
    FillsTradable(c, limit, k);
    IdListLists(c.request.instruments);
    BookConserves(IdList(c.request.instruments), c.request.costs, c.request.initialCapital,
                  Run(WorldOf(c), limit, k).fills);
  }

  // ---- final valuation -----------------------------------------------------------------------

  lemma ValueAtSplits(id: int, ts: int, bar: Bar, p: Position)
    ensures var v := ValueAt(id, ts, bar, p); v.marketValue == CostBasis(p) + v.unrealizedPnl
  {
    assert p.quantity * bar.close == p.averageCost * p.quantity + (bar.close - p.averageCost) * p.quantity;
  }

  /** Market value exceeds cost basis by exactly the unrealized P&L. */
  lemma {:induction false} ValuationSplits(instruments: seq<Instrument>, rows: map<int, seq<Bar>>, ts: int, a: Account)
    requires Valuations(instruments, rows, ts, a).Some?
    ensures var vs := Valuations(instruments, rows, ts, a).value;
            SumMarket(vs) == SumOver(CostBasis, IdList(instruments), a) + SumUnrealized(vs)
  {
    if instruments != [] {
      ValuationSplits(instruments[1..], rows, ts, a);
      var vs := Valuations(instruments, rows, ts, a).value;
      var rest := Valuations(instruments[1..], rows, ts, a).value;
      assert vs[1..] == rest;
      assert IdList(instruments)[1..] == IdList(instruments[1..]);
      ValueAtSplits(instruments[0].id, ts, vs[0].bar, PositionOf(a, instruments[0].id));
    }
  }

  /** Final equity is opening capital plus realized plus unrealized P&L. */
  lemma EquityReconciles(c: Config, k: nat, r: SimulationResult)
    requires ValidRequest(c.request)
    requires Done(Run(WorldOf(c), None, k)) && Outcome(c, Run(WorldOf(c), None, k)) == Ok(r)
    ensures r.equity - c.request.initialCapital
         == SumOver(Realized, IdList(c.request.instruments), Run(WorldOf(c), None, k).account)
            + SumUnrealized(r.valuations)
  {
    MoneyConserved(c, None, k);
    ValuationSplits(c.request.instruments, ValuationRows(c.data), c.request.eventTo, Run(WorldOf(c), None, k).account);
  }
}
