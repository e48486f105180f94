/**
  What the final valuation shows: every requested instrument at the close of the last bar
  available at the end of the window.
*/
module FinalValuation {
  import opened Sequences
  import opened Contracts
  import opened Selector
  import opened Accounting
  import opened Engine

  /** `v` values a position at the current revision of the last bar available at `ts`. */
  ghost predicate ValuedAtLast(v: Valuation, id: int, rows: seq<Bar>, ts: int, p: Position) {
    && v.instrument == id && v.ts == ts
    && Current(rows, v.bar, ts)
    && (forall y :: y in rows && y.effective <= ts ==> y.open <= v.bar.open)
    && v.quantity == p.quantity && v.averageCost == p.averageCost && v.realizedPnl == p.realizedPnl
    && v.marketValue == p.quantity * v.bar.close
    && v.unrealizedPnl == v.marketValue - CostBasis(p)
  }

  /** Nothing of the instrument is available by `ts`. */
  ghost predicate Unseen(rows: seq<Bar>, ts: int) { forall y :: y in rows ==> ts < y.effective }

  lemma LastOfView(rows: seq<Bar>, ts: int)
    ensures Visible(rows, ts) == [] <==> Unseen(rows, ts)
    ensures var view := Visible(rows, ts);
            view != [] ==>
              && Current(rows, view[|view| - 1], ts)
              && forall y :: y in rows && y.effective <= ts ==> y.open <= view[|view| - 1].open
  {
    hide Visible, Current;
    var view := Visible(rows, ts);
    VisibleIsPointInTime(rows, ts);
    if view != [] {
      var last := view[|view| - 1];
      assert last in view;
      assert !Unseen(rows, ts) by { CurrentIsSeen(rows, last, ts); }
    }
    forall y | y in rows && y.effective <= ts ensures view != [] && y.open <= view[|view| - 1].open {
      AvailableIsShown(rows, ts, y);
      var x :| x in view && x.open == y.open;
      var i :| 0 <= i < |view| && view[i] == x;
    }
  }

  lemma CurrentIsSeen(rows: seq<Bar>, x: Bar, ts: int)
    requires Current(rows, x, ts)
    ensures !Unseen(rows, ts)
  {
  }

  lemma ValueIsAtLast(id: int, rows: seq<Bar>, ts: int, p: Position)
    requires Visible(rows, ts) != []
    ensures var view := Visible(rows, ts); ValuedAtLast(ValueAt(id, ts, view[|view| - 1], p), id, rows, ts, p)
  {
    hide Visible, Current;
    LastOfView(rows, ts);
  }

  /** One valuation per instrument, in request order, each at its last available bar. */
  ghost predicate AllValued(instruments: seq<Instrument>, rows: map<int, seq<Bar>>, ts: int, a: Account,
                            vs: seq<Valuation>) {
    && |vs| == |instruments|
    && forall i :: 0 <= i < |vs| ==>
         ValuedAtLast(vs[i], instruments[i].id, RowsOf(rows, instruments[i].id), ts, PositionOf(a, instruments[i].id))
  }

  ghost predicate Missing(instruments: seq<Instrument>, rows: map<int, seq<Bar>>, ts: int) {
    exists i :: i in instruments && Unseen(RowsOf(rows, i.id), ts)
  }

  /** Valuation fails exactly when some instrument has nothing available; otherwise all are valued. */
  lemma {:induction false} ValuationsAreLast(instruments: seq<Instrument>, rows: map<int, seq<Bar>>, ts: int,
                                             a: Account)
    ensures match Valuations(instruments, rows, ts, a)
            case None => Missing(instruments, rows, ts)
            case Some(vs) => !Missing(instruments, rows, ts) && AllValued(instruments, rows, ts, a, vs)
  {
    hide Visible, ValuedAtLast, Unseen, ValueAt;
    if instruments != [] {
      var id := instruments[0].id;
      ValuationsAreLast(instruments[1..], rows, ts, a);
      LastOfView(RowsOf(rows, id), ts);
      assert forall i :: i in instruments <==> i == instruments[0] || i in instruments[1..];
      if Visible(RowsOf(rows, id), ts) != [] { ValueIsAtLast(id, RowsOf(rows, id), ts, PositionOf(a, id)); }
    }
  }

  /** A result values each requested instrument's final position at its last available bar. */
  ghost predicate ResultValued(c: Config, r: SimulationResult) {
    var rows := if c.data.valuation == map[] then c.data.execution else c.data.valuation;
    && r.positions.Keys == Ids(c.request.instruments)
    && |r.valuations| == |c.request.instruments|
    && (forall i :: 0 <= i < |r.valuations| ==>
          var id := c.request.instruments[i].id;
          && id in r.positions
          && ValuedAtLast(r.valuations[i], id, RowsOf(rows, id), c.request.eventTo, r.positions[id]))
    && r.equity == r.cash + SumMarket(r.valuations)
  }

  /** Some requested instrument has nothing to value it at. */
  ghost predicate Unvalued(c: Config) {
    Missing(c.request.instruments, if c.data.valuation == map[] then c.data.execution else c.data.valuation,
            c.request.eventTo)
  }

  /** The result reports the journal, the cash and the positions a run ends with. */
  ghost predicate Reports(s: Sim, r: SimulationResult) {
    && r.decisions == s.decisions && r.signals == s.signals && r.orders == s.orders && r.fills == s.fills
    && r.cash == s.account.cash
    && forall id :: id in r.positions ==> r.positions[id] == PositionOf(s.account, id)
  }

  /**
    A run that met no pricing error fails if and only if some requested instrument has no row
    available at the end of the window; otherwise its result is valued at the last bars.
  */
  lemma OutcomeIsValued(c: Config, s: Sim)
    requires !s.aborted
    ensures Outcome(c, s).Err? <==> Unvalued(c)
    ensures Outcome(c, s).Ok? ==> Reports(s, Outcome(c, s).value) && ResultValued(c, Outcome(c, s).value)
  {
    hide ValuedAtLast, Missing, SumMarket, Valuations;
    var q := c.request;
    ValuationsAreLast(q.instruments, ValuationRows(c.data), q.eventTo, s.account);
    assert forall i :: 0 <= i < |q.instruments| ==> q.instruments[i] in q.instruments;
  }

  /** The same of whatever a simulation yields. */
  lemma YieldIsValued(c: Config, s: Sim, r: Result<SimulationResult>)
    requires r == Outcome(c, s)
    ensures r.Ok? ==> ResultValued(c, r.value)
    ensures Unvalued(c) ==> r.Err?
  {
    hide ResultValued, Unvalued, Valued;
    if !s.aborted { OutcomeIsValued(c, s); }
  }
}
