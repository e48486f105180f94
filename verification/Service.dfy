/**
  The run summary and the closed-trade list, and how they reconcile with the portfolio.
*/
module Service {
  import opened Sequences
  import opened Contracts
  import opened Accounting
  import opened Engine
  import opened Scheduler
  import opened Conservation

  // ---- sums over fills -----------------------------------------------------------------------

  function SumFills(g: PricedFill -> real, fills: seq<Fill>): real {
    if fills == [] then 0.0
    else SumFills(g, fills[..|fills| - 1]) + g(fills[|fills| - 1].economics)
  }

  lemma BookLast(capital: real, fills: seq<Fill>)
    requires fills != [] && Book(capital, fills).Some?
    ensures Book(capital, fills[..|fills| - 1]).Some?
    ensures BookOne(Book(capital, fills[..|fills| - 1]).value, fills[|fills| - 1]) == Book(capital, fills)
  {
  }

  lemma BookOneCash(a: Account, f: Fill)
    requires BookOne(a, f).Some?
    ensures BookOne(a, f).value.cash == a.cash + CashDelta(f.economics)
  {
  }

  /** Cash is opening capital plus the cash flows of the fills. */
  lemma {:induction false} CashIsFlows(capital: real, fills: seq<Fill>)
    requires Book(capital, fills).Some?
    ensures Book(capital, fills).value.cash == capital + SumFills(CashDelta, fills)
  {
    if fills != [] {
      var before := fills[..|fills| - 1];
      BookLast(capital, fills);
      CashIsFlows(capital, before);
      BookOneCash(Book(capital, before).value, fills[|fills| - 1]);
    }
  }

  lemma {:induction false} FlowsAndCosts(ids: seq<int>, costs: Costs, fills: seq<Fill>)
    requires ValidCosts(costs) && Tradable(ids, costs, fills)
    ensures SumFills(CashDelta, fills) + SumFills(CostOf, fills) == SumFills(ReferenceFlow, fills)
  {
    if fills != [] {
      var last := fills[|fills| - 1];
      assert last in fills;
      FlowsAndCosts(ids, costs, fills[..|fills| - 1]);
      CostsExplainCash(last.economics, costs);
    }
  }

  // ---- closed trades -------------------------------------------------------------------------

  datatype Trades = Trades(entries: map<int, Fill>, closed: seq<(Fill, Fill)>)

  function TradePnl(entry: PricedFill, exit: PricedFill): real {
    (exit.executionPrice - entry.executionPrice) * exit.quantity - CostOf(entry) - CostOf(exit)
  }

  function CloseOne(t: Trades, f: Fill): Option<Trades> {
    var id := InstrumentOf(f);
    if f.economics.side.Buy? then Some(Trades(t.entries[id := f], t.closed))
    else if id in t.entries then Some(Trades(t.entries - {id}, t.closed + [(t.entries[id], f)]))
    else None
  }

  /** Pairs each sale with the latest unpaired purchase; `None` if there is none. */
  function ClosedTrades(fills: seq<Fill>): Option<Trades> {
    if fills == [] then Some(Trades(map[], []))
    else
      match ClosedTrades(fills[..|fills| - 1])
      case None => None
      case Some(t) => CloseOne(t, fills[|fills| - 1])
  }

  function Pnls(closed: seq<(Fill, Fill)>): seq<real> {
    if closed == [] then []
    else
      var last := closed[|closed| - 1];
      Pnls(closed[..|closed| - 1]) + [TradePnl(last.0.economics, last.1.economics)]
  }

  function SumReals(s: seq<real>): real {
    if s == [] then 0.0 else SumReals(s[..|s| - 1]) + s[|s| - 1]
  }

  /** Slippage of both legs of the closed trades. */
  function SumSlippage(closed: seq<(Fill, Fill)>): real {
    if closed == [] then 0.0
    else
      var last := closed[|closed| - 1];
      SumSlippage(closed[..|closed| - 1]) + last.0.economics.slippage + last.1.economics.slippage
  }

  lemma {:induction false} ClosedTradesPrefix(fills: seq<Fill>, n: nat)
    requires n <= |fills| && ClosedTrades(fills[..n]).None?
    ensures ClosedTrades(fills).None?
    decreases |fills| - n
  {
    if n < |fills| {
      assert fills[..n + 1][..n] == fills[..n];
      ClosedTradesPrefix(fills, n + 1);
    } else {
      assert fills[..n] == fills;
    }
  }

  lemma PnlsSnoc(closed: seq<(Fill, Fill)>, entry: Fill, exit: Fill)
    ensures Pnls(closed + [(entry, exit)]) == Pnls(closed) + [TradePnl(entry.economics, exit.economics)]
  {
    assert (closed + [(entry, exit)])[..|closed|] == closed;
  }

  /** The P&L list of closed trades, or the error that a sale has no matching entry. */
  method ClosedTradePnls(fills: seq<Fill>) returns (r: Result<seq<real>>)
    ensures r.Ok? <==> ClosedTrades(fills).Some?
    ensures r.Ok? ==> r.value == Pnls(ClosedTrades(fills).value.closed)
  {
    var entries: map<int, Fill> := map[];
    var completed: seq<real> := [];
    ghost var closed: seq<(Fill, Fill)> := [];
    for n := 0 to |fills|
      invariant ClosedTrades(fills[..n]) == Some(Trades(entries, closed))
      invariant completed == Pnls(closed)
    {
      var fill := fills[n];
      var id := InstrumentOf(fill);
      assert fills[..n + 1][..n] == fills[..n];
      if fill.economics.side.Buy? {
        entries := entries[id := fill];
      } else {
        if id !in entries {
          ClosedTradesPrefix(fills, n + 1);
          return Err("Reference sell has no matching entry fill.");
        }
        var entry := entries[id];
        completed := completed + [TradePnl(entry.economics, fill.economics)];
        PnlsSnoc(closed, entry, fill);
        closed := closed + [(entry, fill)];
        entries := entries - {id};
      }
    }
    assert fills[..|fills|] == fills;
    r := Ok(completed);
  }

  // ---- summary -------------------------------------------------------------------------------

  datatype Summary = Summary(
    totalReturn: real,
    tradeCount: nat,
    winning: nat,
    losing: nat,
    winRate: Option<real>,
    grossPnl: real,
    netPnl: real,
    totalCost: real,
    realizedPnl: real)

  function Above(): real -> bool { (x: real) => x > 0.0 }
  function Below(): real -> bool { (x: real) => x < 0.0 }

  /** `None` when the trade list cannot be paired. */
  function SummaryOf(q: Request, r: SimulationResult): Option<Summary> {
    match ClosedTrades(r.fills)
    case None => None
    case Some(t) =>
      var pnls := Pnls(t.closed);
      var net := r.equity - q.initialCapital;
      var cost := SumFills(CostOf, r.fills);
      var wins := |Filter(Above(), pnls)|;
      Some(Summary(
        if q.initialCapital == 0.0 then 0.0 else net / q.initialCapital,
        |pnls|, wins, |Filter(Below(), pnls)|,
        if |pnls| == 0 then None else Some(wins as real / |pnls| as real),
        net + cost, net, cost,
        SumOver(Realized, IdList(q.instruments), Account(r.cash, r.positions))))
  }

  /**
    Cost decomposition: gross P&L is what the same fills would have earned at their reference
    prices with no commission, slippage or tax, plus the final market value.
  */
  lemma GrossIsCostFree(c: Config, k: nat, r: SimulationResult, m: Summary)
    requires ValidRequest(c.request)
    requires Done(Run(WorldOf(c), None, k)) && Outcome(c, Run(WorldOf(c), None, k)) == Ok(r)
    requires SummaryOf(c.request, r) == Some(m)
    ensures m.grossPnl == SumFills(ReferenceFlow, r.fills) + SumMarket(r.valuations)
    ensures m.netPnl == m.grossPnl - m.totalCost
  {
    hide Run, WorldOf, SumFills, SumMarket, IdList;
    var s := Run(WorldOf(c), None, k);
    FillsTradable(c, None, k);
    CashIsFlows(c.request.initialCapital, s.fills);
    FlowsAndCosts(IdList(c.request.instruments), c.request.costs, s.fills);
  }

  lemma {:induction false} SumReads(g: Position -> real, ids: seq<int>, a: Account, b: Account)
    requires forall id :: id in ids ==> PositionOf(a, id) == PositionOf(b, id)
    ensures SumOver(g, ids, a) == SumOver(g, ids, b)
  {
    if ids != [] { SumReads(g, ids[1..], a, b); }
  }

  /** The summary's realized P&L is the portfolio's. */
  lemma SummaryRealized(c: Config, s: Sim, r: SimulationResult, m: Summary)
    requires Outcome(c, s) == Ok(r) && SummaryOf(c.request, r) == Some(m)
    ensures m.realizedPnl == SumOver(Realized, IdList(c.request.instruments), s.account)
  {
    IdListLists(c.request.instruments);
    SumReads(Realized, IdList(c.request.instruments), Account(r.cash, r.positions), s.account);
  }

  // ---- closed trades against the portfolio ---------------------------------------------------

  /** Each sale closes the one open purchase of its instrument, in full; no purchase is doubled. */
  ghost predicate Alternating(fills: seq<Fill>) {
    fills != [] ==>
      && Alternating(fills[..|fills| - 1])
      && ClosedTrades(fills[..|fills| - 1]).Some?
      && Alternates(ClosedTrades(fills[..|fills| - 1]).value.entries, fills[|fills| - 1])
  }

  ghost predicate Alternates(entries: map<int, Fill>, f: Fill) {
    var id := InstrumentOf(f);
    if f.economics.side.Buy? then id !in entries
    else id in entries && entries[id].economics.quantity == f.economics.quantity
  }

  /** A position held for one open purchase, at the cash that purchase cost, or no position. */
  ghost predicate Holding(p: Position, entry: Option<PricedFill>) {
    match entry
    case None => p.quantity == 0.0 && CostBasis(p) == 0.0
    case Some(e) => p.quantity == e.quantity && CostBasis(p) == -CashDelta(e)
  }

  function EntryOf(t: Trades, id: int): Option<PricedFill> {
    if id in t.entries then Some(t.entries[id].economics) else None
  }

  /** Every position stands in relation `r` to the open entry of its instrument. */
  ghost predicate Related(r: (Position, Option<PricedFill>) -> bool, t: Trades, a: Account) {
    forall id :: r(PositionOf(a, id), EntryOf(t, id))
  }

  /** The open trades are the positions held. */
  ghost predicate Mirrors(t: Trades, a: Account) {
    Related(Holding, t, a)
  }

  ghost predicate Reconciled(ids: seq<int>, t: Trades, a: Account) {
    SumOver(Realized, ids, a) == SumReals(Pnls(t.closed)) + SumSlippage(t.closed)
  }

  /** What pricing guarantees of a fill, as far as pairing needs it. */
  ghost predicate Sized(f: PricedFill) {
    0.0 < f.quantity && f.notional == f.executionPrice * f.quantity
  }

  lemma PricedIsSized(f: PricedFill, costs: Costs)
    requires Priced(f, costs)
    ensures Sized(f)
  {
  }

  lemma BoughtHolds(p: Position, f: PricedFill)
    requires Holding(p, None) && 0.0 < f.quantity
    ensures Holding(Bought(p, f), Some(f))
  {
    AverageTimes(p.averageCost * p.quantity - CashDelta(f), p.quantity + f.quantity);
  }

  lemma RelatedUpdated(r: (Position, Option<PricedFill>) -> bool, t: Trades, a: Account, t': Trades, b: Account,
      id: int)
    requires Related(r, t, a) && r(PositionOf(b, id), EntryOf(t', id))
    requires forall i :: i != id ==> PositionOf(b, i) == PositionOf(a, i) && EntryOf(t', i) == EntryOf(t, i)
    ensures Related(r, t', b)
  {
    forall i ensures r(PositionOf(b, i), EntryOf(t', i)) {
      assert r(PositionOf(a, i), EntryOf(t, i));
    }
  }

  lemma HoldingAt(t: Trades, a: Account, id: int)
    requires Mirrors(t, a)
    ensures Holding(PositionOf(a, id), EntryOf(t, id))
  {
  }

  /** A sale that closes its position realizes the trade P&L plus the slippage of both legs. */
  lemma SaleRealizes(p: Position, entry: PricedFill, f: PricedFill)
    requires Sized(entry) && entry.side.Buy? && f.quantity == entry.quantity && Holding(p, Some(entry))
    ensures Realized(Sold(p, f)) == Realized(p) + TradePnl(entry, f) + entry.slippage + f.slippage
    ensures Holding(Sold(p, f), None)
  {
    assert (f.executionPrice - p.averageCost) * f.quantity == f.executionPrice * f.quantity - CostBasis(p);
    assert (f.executionPrice - entry.executionPrice) * f.quantity
        == f.executionPrice * f.quantity - entry.notional;
  }

  ghost predicate BuysOpen(t: Trades, costs: Costs) {
    forall id :: id in t.entries ==> t.entries[id].economics.side.Buy? && Priced(t.entries[id].economics, costs)
  }

  lemma {:induction false} EntriesAreBuys(ids: seq<int>, costs: Costs, fills: seq<Fill>)
    requires Tradable(ids, costs, fills) && ClosedTrades(fills).Some?
    ensures BuysOpen(ClosedTrades(fills).value, costs)
  {
    if fills != [] {
      assert fills[|fills| - 1] in fills;
      EntriesAreBuys(ids, costs, fills[..|fills| - 1]);
    }
  }

  lemma ReconcileBuy(r: (Position, Option<PricedFill>) -> bool, ids: seq<int>, t: Trades, a: Account, f: Fill,
      b: Account, q: Position)
    requires Related(r, t, a) && Reconciled(ids, t, a)
    requires f.economics.side.Buy? && b.positions == a.positions[InstrumentOf(f) := q]
    requires r(q, Some(f.economics)) && q.realizedPnl == PositionOf(a, InstrumentOf(f)).realizedPnl
    ensures Related(r, CloseOne(t, f).value, b) && Reconciled(ids, CloseOne(t, f).value, b)
  {
    var id := InstrumentOf(f);
    RelatedUpdated(r, t, a, CloseOne(t, f).value, b, id);
    SumSameValues(Realized, ids, a, b);
  }

  lemma {:induction false} SumSameValues(g: Position -> real, ids: seq<int>, a: Account, b: Account)
    requires forall id :: g(PositionOf(b, id)) == g(PositionOf(a, id))
    ensures SumOver(g, ids, b) == SumOver(g, ids, a)
  {
    if ids != [] { SumSameValues(g, ids[1..], a, b); }
  }

  lemma ReconcileSell(r: (Position, Option<PricedFill>) -> bool, ids: seq<int>, t: Trades, a: Account, f: Fill,
      b: Account, q: Position)
    requires NoDup(ids) && InstrumentOf(f) in ids && InstrumentOf(f) in t.entries && f.economics.side.Sell?
    requires Related(r, t, a) && Reconciled(ids, t, a)
    requires b.positions == a.positions[InstrumentOf(f) := q] && r(q, None)
    requires q.realizedPnl == PositionOf(a, InstrumentOf(f)).realizedPnl
      + TradePnl(t.entries[InstrumentOf(f)].economics, f.economics)
      + t.entries[InstrumentOf(f)].economics.slippage + f.economics.slippage
    ensures Related(r, CloseOne(t, f).value, b) && Reconciled(ids, CloseOne(t, f).value, b)
  {
    var id := InstrumentOf(f);
    var entry := t.entries[id];
    var t' := CloseOne(t, f).value;
    RelatedUpdated(r, t, a, t', b, id);
    SumUpdated(Realized, ids, a, b, id);
    PnlsSnoc(t.closed, entry, f);
    SumRealsSnoc(Pnls(t.closed), TradePnl(entry.economics, f.economics));
    assert t'.closed[..|t.closed|] == t.closed;
  }

  lemma BookedPosition(a: Account, f: Fill, b: Account)
    requires BookOne(a, f) == Some(b)
    ensures var p := PositionOf(a, InstrumentOf(f));
            b.positions == a.positions[InstrumentOf(f) :=
              if f.economics.side.Buy? then Bought(p, f.economics) else Sold(p, f.economics)]
  {
  }

  lemma BuyStep(ids: seq<int>, t: Trades, a: Account, f: Fill, b: Account)
    requires Mirrors(t, a) && Reconciled(ids, t, a) && Sized(f.economics)
    requires f.economics.side.Buy? && InstrumentOf(f) !in t.entries
    requires b.positions == a.positions[InstrumentOf(f) := Bought(PositionOf(a, InstrumentOf(f)), f.economics)]
    ensures Mirrors(CloseOne(t, f).value, b) && Reconciled(ids, CloseOne(t, f).value, b)
  {
    var p := PositionOf(a, InstrumentOf(f));
    HoldingAt(t, a, InstrumentOf(f));
    BoughtHolds(p, f.economics);
    ReconcileBuy(Holding, ids, t, a, f, b, Bought(p, f.economics));
  }

  lemma SellStep(ids: seq<int>, t: Trades, a: Account, f: Fill, b: Account)
    requires NoDup(ids) && InstrumentOf(f) in ids && Alternates(t.entries, f) && f.economics.side.Sell?
    requires Sized(t.entries[InstrumentOf(f)].economics) && t.entries[InstrumentOf(f)].economics.side.Buy?
    requires Mirrors(t, a) && Reconciled(ids, t, a)
    requires b.positions == a.positions[InstrumentOf(f) := Sold(PositionOf(a, InstrumentOf(f)), f.economics)]
    ensures Mirrors(CloseOne(t, f).value, b) && Reconciled(ids, CloseOne(t, f).value, b)
  {
    var p := PositionOf(a, InstrumentOf(f));
    HoldingAt(t, a, InstrumentOf(f));
    SaleRealizes(p, t.entries[InstrumentOf(f)].economics, f.economics);
    ReconcileSell(Holding, ids, t, a, f, b, Sold(p, f.economics));
  }

  lemma SumRealsSnoc(s: seq<real>, x: real)
    ensures SumReals(s + [x]) == SumReals(s) + x
  {
    assert (s + [x])[..|s|] == s;
  }

  /**
    Closed-trade reconciliation: for alternating fills, realized P&L is the sum of the closed-trade
    P&Ls plus exactly the slippage of both legs of each closed trade.
  */
  lemma {:induction false} TradesReconcile(ids: seq<int>, costs: Costs, capital: real, fills: seq<Fill>)
    requires NoDup(ids) && Tradable(ids, costs, fills) && Alternating(fills) && Book(capital, fills).Some?
    ensures ClosedTrades(fills).Some?
    ensures Mirrors(ClosedTrades(fills).value, Book(capital, fills).value)
    ensures Reconciled(ids, ClosedTrades(fills).value, Book(capital, fills).value)
  {
    if fills == [] {
      NothingHeld(ids, Account(capital, map[]));
    } else {
      var before, last := fills[..|fills| - 1], fills[|fills| - 1];
      assert last in fills;
      BookLast(capital, fills);
      TradesReconcile(ids, costs, capital, before);
      EntriesAreBuys(ids, costs, before);
      var t, a, b := ClosedTrades(before).value, Book(capital, before).value, Book(capital, fills).value;
      BookedPosition(a, last, b);
      if last.economics.side.Buy? {
        PricedIsSized(last.economics, costs);
        BuyStep(ids, t, a, last, b);
      } else {
        PricedIsSized(t.entries[InstrumentOf(last)].economics, costs);
        SellStep(ids, t, a, last, b);
      }
    }
  }

  ghost predicate ClosedPriced(closed: seq<(Fill, Fill)>, costs: Costs) {
    forall i :: 0 <= i < |closed| ==> Priced(closed[i].0.economics, costs) && Priced(closed[i].1.economics, costs)
  }

  lemma SlippageSign(f: PricedFill, costs: Costs)
    requires Priced(f, costs) && ValidCosts(costs)
    ensures 0.0 <= f.slippage && (f.slippage == 0.0 <==> costs.slippageBps == 0.0)
  {
    CostsExplainCash(f, costs);
    var x := f.referencePrice * f.quantity;
    assert 0.0 < x;
    assert f.slippage == x * costs.slippageBps / 10000.0;
  }

  lemma {:induction false} ClosedSlippageSign(closed: seq<(Fill, Fill)>, costs: Costs)
    requires ClosedPriced(closed, costs) && ValidCosts(costs)
    ensures 0.0 <= SumSlippage(closed)
    ensures SumSlippage(closed) == 0.0 <==> costs.slippageBps == 0.0 || closed == []
  {
    if closed != [] {
      var n := |closed| - 1;
      ClosedSlippageSign(closed[..n], costs);
      SlippageSign(closed[n].0.economics, costs);
      SlippageSign(closed[n].1.economics, costs);
    }
  }

  lemma {:induction false} ClosedArePriced(ids: seq<int>, costs: Costs, fills: seq<Fill>)
    requires Tradable(ids, costs, fills) && ClosedTrades(fills).Some?
    ensures ClosedPriced(ClosedTrades(fills).value.closed, costs)
  {
    if fills != [] {
      var before := fills[..|fills| - 1];
      assert fills[|fills| - 1] in fills;
      ClosedArePriced(ids, costs, before);
      EntriesAreBuys(ids, costs, before);
    }
  }

  /** The portfolio and the trade list report the same total exactly when no slippage was closed. */
  lemma ViewsAgreeIff(ids: seq<int>, costs: Costs, capital: real, fills: seq<Fill>)
    requires NoDup(ids) && ValidCosts(costs) && Tradable(ids, costs, fills)
    requires Alternating(fills) && Book(capital, fills).Some?
    ensures ClosedTrades(fills).Some?
    ensures SumOver(Realized, ids, Book(capital, fills).value) == SumReals(Pnls(ClosedTrades(fills).value.closed))
       <==> costs.slippageBps == 0.0 || ClosedTrades(fills).value.closed == []
  {
    TradesReconcile(ids, costs, capital, fills);
    ClosedArePriced(ids, costs, fills);
    ClosedSlippageSign(ClosedTrades(fills).value.closed, costs);
  }
}
