/**
  The persisted journal of a run: order, fill, event, cash and position tables built from the
  simulation result, and their agreement with the portfolio.
*/
module Ledger {
  import opened Sequences
  import opened Contracts
  import opened Accounting
  import opened Engine
  import opened Scheduler
  import opened Journal
  import opened Conservation
  import opened Service
  import opened AttemptOrder
  import opened Settlements

  // ---- tables --------------------------------------------------------------------------------

  datatype OrderRow = OrderRow(id: nat, key: string, filled: bool, rejectReason: Option<string>, order: Order)

  datatype FillRow = FillRow(id: nat, orderId: nat, fill: Fill)

  datatype EventKind = Submitted | Accepted | Filled | Rejected

  datatype EventRow = EventRow(
    orderId: nat,
    sequence: nat,
    ts: int,
    kind: EventKind,
    sourceFill: Option<nat>,
    filledDelta: Option<real>,
    remaining: real)

  datatype CashKind = InitialCapital | TradeNotional | Commission | Tax

  datatype CashRow = CashRow(ts: int, kind: CashKind, amount: real, fillId: Option<nat>)

  datatype PositionRow = PositionRow(instrument: int, ts: int, delta: real, unitCost: real, fillId: nat)

  /** Ids by key, as a dictionary filled in list order: a repeated key would keep the last id. */
  function IdsByKey(keys: seq<string>, base: nat): map<string, nat> {
    if keys == [] then map[]
    else IdsByKey(keys[..|keys| - 1], base)[keys[|keys| - 1] := base + |keys|]
  }

  lemma {:induction false} IdsByKeyDistinct(keys: seq<string>, base: nat)
    requires NoDup(keys)
    ensures IdsByKey(keys, base).Keys == set x | x in keys
    ensures forall i :: 0 <= i < |keys| ==>
              keys[i] in IdsByKey(keys, base) && IdsByKey(keys, base)[keys[i]] == base + i + 1
  {
    if keys != [] {
      var front := keys[..|keys| - 1];
      IdsByKeyDistinct(front, base);
      assert keys == front + [keys[|keys| - 1]];
      forall i | 0 <= i < |front| ensures keys[i] == front[i] && keys[i] != keys[|keys| - 1] {}
    }
  }

  function OrderKeys(orders: seq<Order>): seq<string> {
    if orders == [] then [] else OrderKeys(orders[..|orders| - 1]) + [orders[|orders| - 1].key]
  }

  function FillKeys(fills: seq<Fill>): seq<string> {
    if fills == [] then [] else FillKeys(fills[..|fills| - 1]) + [fills[|fills| - 1].order.key]
  }

  lemma {:induction false} OrderKeysAt(orders: seq<Order>)
    ensures |OrderKeys(orders)| == |orders|
    ensures forall i :: 0 <= i < |orders| ==> OrderKeys(orders)[i] == orders[i].key
  {
    if orders != [] { OrderKeysAt(orders[..|orders| - 1]); }
  }

  lemma {:induction false} FillKeysAt(fills: seq<Fill>)
    ensures |FillKeys(fills)| == |fills|
    ensures forall i :: 0 <= i < |fills| ==> FillKeys(fills)[i] == fills[i].order.key
  {
    if fills != [] { FillKeysAt(fills[..|fills| - 1]); }
  }

  /** Status and reason of an order: only a missing bar has its own reason; the rest is "cash". */
  function OrderRowFor(o: Order, id: nat, filled: bool): OrderRow {
    OrderRow(id, o.key, filled,
             if o.execution.None? then Some("NO_ELIGIBLE_EXECUTION_BAR")
             else if filled then None else Some("INSUFFICIENT_CASH"),
             o)
  }

  function OrderRows(orders: seq<Order>, filledKeys: seq<string>, base: nat): seq<OrderRow> {
    if orders == [] then []
    else
      var last := orders[|orders| - 1];
      OrderRows(orders[..|orders| - 1], filledKeys, base) + [OrderRowFor(last, base + |orders|, last.key in filledKeys)]
  }

  function FillRows(fills: seq<Fill>, orderIds: map<string, nat>, base: nat): seq<FillRow> {
    if fills == [] then []
    else
      var last := fills[|fills| - 1];
      FillRows(fills[..|fills| - 1], orderIds, base)
        + [FillRow(base + |fills|, if last.order.key in orderIds then orderIds[last.order.key] else 0, last)]
  }

  lemma NextOrderRow(list: seq<Order>, i: nat, filledKeys: seq<string>, base: nat)
    requires i < |list|
    ensures OrderRows(list[..i + 1], filledKeys, base)
         == OrderRows(list[..i], filledKeys, base) + [OrderRowFor(list[i], base + i + 1, list[i].key in filledKeys)]
    ensures IdsByKey(OrderKeys(list[..i + 1]), base)
         == IdsByKey(OrderKeys(list[..i]), base)[list[i].key := base + i + 1]
  {
    assert list[..i + 1][..i] == list[..i];
    OrderKeysAt(list[..i]);
    IdsByKeySnoc(OrderKeys(list[..i]), list[i].key, base);
  }

  lemma NextFillRow(list: seq<Fill>, i: nat, orderIds: map<string, nat>, base: nat)
    requires i < |list| && list[i].order.key in orderIds
    ensures FillRows(list[..i + 1], orderIds, base)
         == FillRows(list[..i], orderIds, base) + [FillRow(base + i + 1, orderIds[list[i].order.key], list[i])]
    ensures IdsByKey(FillKeys(list[..i + 1]), base)
         == IdsByKey(FillKeys(list[..i]), base)[list[i].order.key := base + i + 1]
  {
    assert list[..i + 1][..i] == list[..i];
    FillKeysAt(list[..i]);
    IdsByKeySnoc(FillKeys(list[..i]), list[i].order.key, base);
  }

  lemma IdsByKeySnoc(keys: seq<string>, key: string, base: nat)
    ensures IdsByKey(keys + [key], base) == IdsByKey(keys, base)[key := base + |keys| + 1]
  {
    assert (keys + [key])[..|keys|] == keys;
  }

  // ---- order events --------------------------------------------------------------------------

  function EventInstant(o: Order): int {
    if o.execution.Some? then o.execution.value.effective else o.submittedAt
  }

  /** Three events per order; the last says whether the order was filled. */
  function EventsFor(o: Order, orderId: nat, fillIds: map<string, nat>): seq<EventRow> {
    [EventRow(orderId, 1, o.submittedAt, Submitted, None, None, o.quantity),
     EventRow(orderId, 2, o.submittedAt, Accepted, None, None, o.quantity),
     if o.key in fillIds
     then EventRow(orderId, 3, EventInstant(o), Filled, Some(fillIds[o.key]), Some(o.quantity), 0.0)
     else EventRow(orderId, 3, EventInstant(o), Rejected, None, None, o.quantity)]
  }

  function AllEventRows(orders: seq<Order>, orderIds: map<string, nat>, fillIds: map<string, nat>): seq<EventRow> {
    if orders == [] then []
    else
      var last := orders[|orders| - 1];
      AllEventRows(orders[..|orders| - 1], orderIds, fillIds)
        + EventsFor(last, if last.key in orderIds then orderIds[last.key] else 0, fillIds)
  }

  // ---- cash and positions --------------------------------------------------------------------

  function CashFor(f: Fill, fillId: nat): seq<CashRow> {
    var e := f.economics;
    [CashRow(f.fillTs, TradeNotional, if e.side.Buy? then -e.notional else e.notional, Some(fillId)),
     CashRow(f.fillTs, Commission, -e.commission, Some(fillId))]
      + (if e.tax != 0.0 then [CashRow(f.fillTs, Tax, -e.tax, Some(fillId))] else [])
  }

  function AllCash(fills: seq<Fill>, fillIds: map<string, nat>): seq<CashRow> {
    if fills == [] then []
    else
      var last := fills[|fills| - 1];
      AllCash(fills[..|fills| - 1], fillIds)
        + CashFor(last, if last.order.key in fillIds then fillIds[last.order.key] else 0)
  }

  function DeltaOf(f: PricedFill): real {
    if f.side.Buy? then f.quantity else -f.quantity
  }

  function PositionFor(f: Fill, fillId: nat): PositionRow {
    PositionRow(InstrumentOf(f), f.fillTs, DeltaOf(f.economics), f.economics.executionPrice, fillId)
  }

  function AllPositions(fills: seq<Fill>, fillIds: map<string, nat>): seq<PositionRow> {
    if fills == [] then []
    else
      var last := fills[|fills| - 1];
      AllPositions(fills[..|fills| - 1], fillIds)
        + [PositionFor(last, if last.order.key in fillIds then fillIds[last.order.key] else 0)]
  }

  function SumAmounts(rows: seq<CashRow>): real {
    if rows == [] then 0.0 else rows[0].amount + SumAmounts(rows[1..])
  }

  function SumDeltas(rows: seq<PositionRow>, id: int): real {
    if rows == [] then 0.0
    else (if rows[0].instrument == id then rows[0].delta else 0.0) + SumDeltas(rows[1..], id)
  }

  lemma {:induction false} SumAmountsConcat(a: seq<CashRow>, b: seq<CashRow>)
    ensures SumAmounts(a + b) == SumAmounts(a) + SumAmounts(b)
  {
    if a == [] {
      assert a + b == b;
    } else {
      assert (a + b)[1..] == a[1..] + b;
      SumAmountsConcat(a[1..], b);
    }
  }

  lemma {:induction false} SumDeltasConcat(a: seq<PositionRow>, b: seq<PositionRow>, id: int)
    ensures SumDeltas(a + b, id) == SumDeltas(a, id) + SumDeltas(b, id)
  {
    if a == [] {
      assert a + b == b;
    } else {
      assert (a + b)[1..] == a[1..] + b;
      SumDeltasConcat(a[1..], b, id);
    }
  }

  lemma CashForSums(f: Fill, fillId: nat)
    ensures SumAmounts(CashFor(f, fillId)) == CashDelta(f.economics)
  {
    var rows := CashFor(f, fillId);
    var first := [rows[0], rows[1]];
    SumAmountsConcat(first, rows[2..]);
    assert rows == first + rows[2..];
    assert first[1..] == [rows[1]];
  }

  /** The fills' cash rows add up to the fills' cash flows. */
  lemma {:induction false} CashRowsSum(fills: seq<Fill>, fillIds: map<string, nat>)
    ensures SumAmounts(AllCash(fills, fillIds)) == SumFills(CashDelta, fills)
  {
    if fills != [] {
      var last := fills[|fills| - 1];
      var id := if last.order.key in fillIds then fillIds[last.order.key] else 0;
      CashRowsSum(fills[..|fills| - 1], fillIds);
      SumAmountsConcat(AllCash(fills[..|fills| - 1], fillIds), CashFor(last, id));
      CashForSums(last, id);
    }
  }

  lemma BookOneQuantity(a: Account, f: Fill, id: int)
    requires BookOne(a, f).Some?
    ensures PositionOf(BookOne(a, f).value, id).quantity
         == PositionOf(a, id).quantity + (if InstrumentOf(f) == id then DeltaOf(f.economics) else 0.0)
  {
  }

  /** Position rows add up, per instrument, to the quantity held. */
  lemma {:induction false} PositionRowsSum(capital: real, fills: seq<Fill>, fillIds: map<string, nat>, id: int)
    requires Book(capital, fills).Some?
    ensures SumDeltas(AllPositions(fills, fillIds), id) == PositionOf(Book(capital, fills).value, id).quantity
  {
    if fills != [] {
      var before, last := fills[..|fills| - 1], fills[|fills| - 1];
      var row := PositionFor(last, if last.order.key in fillIds then fillIds[last.order.key] else 0);
      BookLast(capital, fills);
      PositionRowsSum(capital, before, fillIds, id);
      SumDeltasConcat(AllPositions(before, fillIds), [row], id);
      assert SumDeltas([row], id) == (if row.instrument == id then row.delta else 0.0) + SumDeltas([], id);
      BookOneQuantity(Book(capital, before).value, last, id);
    }
  }

  // ---- round trips -----------------------------------------------------------------------------

  /** A round-trip trade: opened by a purchase and closed, once, by a sale; open trades have no net P&L. */
  datatype TradeRow = TradeRow(instrument: int, entry: Fill, exit: Option<Fill>, netPnl: Option<real>)

  function OpenRow(f: Fill): TradeRow { TradeRow(InstrumentOf(f), f, None, None) }

  function ClosedRow(entry: Fill, exit: Fill): TradeRow {
    TradeRow(InstrumentOf(exit), entry, Some(exit), Some(TradePnl(entry.economics, exit.economics)))
  }

  function IsBuy(): Fill -> bool { (f: Fill) => f.economics.side.Buy? }

  function EntriesOf(rows: seq<TradeRow>): seq<Fill> {
    if rows == [] then [] else EntriesOf(rows[..|rows| - 1]) + [rows[|rows| - 1].entry]
  }

  /** The closed trades of a table. */
  function PairsOf(rows: seq<TradeRow>): multiset<(Fill, Fill)> {
    if rows == [] then multiset{} else PairsOf(rows[..|rows| - 1]) + PairOf(rows[|rows| - 1])
  }

  function SumNet(rows: seq<TradeRow>): real {
    if rows == [] then 0.0
    else
      var last := rows[|rows| - 1];
      SumNet(rows[..|rows| - 1]) + if last.netPnl.Some? then last.netPnl.value else 0.0
  }

  lemma RowsSnoc(rows: seq<TradeRow>, f: Fill)
    ensures EntriesOf(rows + [OpenRow(f)]) == EntriesOf(rows) + [f]
    ensures PairsOf(rows + [OpenRow(f)]) == PairsOf(rows)
    ensures SumNet(rows + [OpenRow(f)]) == SumNet(rows)
  {
    assert (rows + [OpenRow(f)])[..|rows|] == rows;
  }

  lemma {:induction false} EntriesKept(rows: seq<TradeRow>, i: nat, row: TradeRow)
    requires i < |rows| && row.entry == rows[i].entry
    ensures EntriesOf(rows[i := row]) == EntriesOf(rows)
  {
    var n := |rows| - 1;
    if i < n {
      assert rows[i := row][..n] == rows[..n][i := row];
      EntriesKept(rows[..n], i, row);
    } else {
      assert rows[i := row][..n] == rows[..n];
    }
  }

  function PairOf(row: TradeRow): multiset<(Fill, Fill)> {
    if row.exit.Some? then multiset{(row.entry, row.exit.value)} else multiset{}
  }

  lemma {:induction false} PairsClosed(rows: seq<TradeRow>, i: nat, row: TradeRow)
    requires i < |rows| && rows[i].exit.None?
    ensures PairsOf(rows[i := row]) == PairsOf(rows) + PairOf(row)
  {
    hide PairOf;
    var n := |rows| - 1;
    if i < n {
      assert rows[i := row][..n] == rows[..n][i := row];
      PairsClosed(rows[..n], i, row);
      Commutes(PairsOf(rows[..n]), PairOf(row), PairOf(rows[n]));
    } else {
      assert rows[i := row][..n] == rows[..n];
      assert PairOf(rows[i]) == multiset{} by { OpenHasNoPair(rows[i]); }
    }
  }

  lemma OpenHasNoPair(row: TradeRow)
    requires row.exit.None?
    ensures PairOf(row) == multiset{}
  {
  }

  lemma Commutes<T>(a: multiset<T>, b: multiset<T>, c: multiset<T>)
    ensures a + b + c == a + c + b
  {
  }

  lemma {:induction false} NetClosed(rows: seq<TradeRow>, i: nat, row: TradeRow)
    requires i < |rows| && rows[i].netPnl.None? && row.netPnl.Some?
    ensures SumNet(rows[i := row]) == SumNet(rows) + row.netPnl.value
  {
    var n := |rows| - 1;
    if i < n {
      assert rows[i := row][..n] == rows[..n][i := row];
      NetClosed(rows[..n], i, row);
    } else {
      assert rows[i := row][..n] == rows[..n];
    }
  }

  /** A row is open as a purchase left it, or closed by a sale of the same instrument. */
  ghost predicate RowOk(row: TradeRow) {
    if row.exit.None? then row == OpenRow(row.entry)
    else row == ClosedRow(row.entry, row.exit.value) && InstrumentOf(row.entry) == InstrumentOf(row.exit.value)
  }

  /** The rows still waiting for a sale: the latest purchase of each instrument with an open entry. */
  ghost predicate OpenRows(rows: seq<TradeRow>, open: map<int, nat>, entries: map<int, Fill>) {
    && open.Keys == entries.Keys
    && (forall id :: id in open ==>
          && open[id] < |rows| && rows[open[id]] == OpenRow(entries[id]) && InstrumentOf(entries[id]) == id)
  }

  /** Every open row is the one the dictionary names for its instrument. */
  ghost predicate NothingSuperseded(rows: seq<TradeRow>, open: map<int, nat>) {
    forall i :: 0 <= i < |rows| && rows[i].exit.None? ==>
      rows[i].instrument in open && open[rows[i].instrument] == i
  }

  /**
    A trade table for a list of fills.  Every purchase opens one row, in order; the closed rows are
    the paired trades with their net P&L, and every open entry has its open row.  When purchases
    are never doubled, the open rows are exactly the open entries.
  */
  ghost predicate TradesOf(rows: seq<TradeRow>, fills: seq<Fill>)
    requires ClosedTrades(fills).Some?
  {
    var t := ClosedTrades(fills).value;
    && EntriesOf(rows) == Filter(IsBuy(), fills)
    && PairsOf(rows) == multiset(t.closed)
    && SumNet(rows) == SumReals(Pnls(t.closed))
    && (forall i :: 0 <= i < |rows| ==> RowOk(rows[i]))
    && (forall id :: id in t.entries ==> OpenRow(t.entries[id]) in rows)
    && (Alternating(fills) ==>
          && (forall i :: 0 <= i < |rows| && rows[i].exit.None? ==>
                rows[i].instrument in t.entries && rows[i].entry == t.entries[rows[i].instrument])
          && (forall i, j :: 0 <= i < j < |rows| && rows[i].exit.None? && rows[j].exit.None? ==>
                rows[i].instrument != rows[j].instrument))
  }

  /** What the loop over the fills knows after some of them. */
  ghost predicate TradesSoFar(rows: seq<TradeRow>, open: map<int, nat>, fills: seq<Fill>, t: Trades) {
    && EntriesOf(rows) == Filter(IsBuy(), fills)
    && PairsOf(rows) == multiset(t.closed)
    && SumNet(rows) == SumReals(Pnls(t.closed))
    && (forall i :: 0 <= i < |rows| ==> RowOk(rows[i]))
    && OpenRows(rows, open, t.entries)
    && (Alternating(fills) ==> NothingSuperseded(rows, open))
  }

  lemma OpensOnce(rows: seq<TradeRow>, open: map<int, nat>, f: Fill)
    requires NothingSuperseded(rows, open) && InstrumentOf(f) !in open
    ensures NothingSuperseded(rows + [OpenRow(f)], open[InstrumentOf(f) := |rows|])
  {
    var rows', open' := rows + [OpenRow(f)], open[InstrumentOf(f) := |rows|];
    forall i | 0 <= i < |rows'| && rows'[i].exit.None?
      ensures rows'[i].instrument in open' && open'[rows'[i].instrument] == i
    {
      if i < |rows| { assert rows[i].instrument in open; }
    }
  }

  lemma OpensRow(rows: seq<TradeRow>, open: map<int, nat>, entries: map<int, Fill>, f: Fill)
    requires OpenRows(rows, open, entries)
    ensures OpenRows(rows + [OpenRow(f)], open[InstrumentOf(f) := |rows|], entries[InstrumentOf(f) := f])
  {
  }

  lemma AlternatingSnoc(fills: seq<Fill>, f: Fill)
    requires ClosedTrades(fills).Some? && Alternating(fills + [f])
    ensures Alternating(fills) && Alternates(ClosedTrades(fills).value.entries, f)
  {
    assert (fills + [f])[..|fills|] == fills;
  }

  lemma TradeOpens(rows: seq<TradeRow>, open: map<int, nat>, fills: seq<Fill>, t: Trades, f: Fill)
    requires ClosedTrades(fills) == Some(t) && TradesSoFar(rows, open, fills, t) && f.economics.side.Buy?
    ensures TradesSoFar(rows + [OpenRow(f)], open[InstrumentOf(f) := |rows|], fills + [f],
                        Trades(t.entries[InstrumentOf(f) := f], t.closed))
  {
    hide ClosedTrades, Alternating, NothingSuperseded, EntriesOf, PairsOf, SumNet, Pnls, OpenRows;
    RowsSnoc(rows, f);
    OpensRow(rows, open, t.entries, f);
    FilterSnoc(IsBuy(), fills, f);
    if Alternating(fills + [f]) {
      AlternatingSnoc(fills, f);
      assert InstrumentOf(f) !in open by { OpenKeys(rows, open, t.entries); }
      OpensOnce(rows, open, f);
    }
  }

  lemma OpenKeys(rows: seq<TradeRow>, open: map<int, nat>, entries: map<int, Fill>)
    requires OpenRows(rows, open, entries)
    ensures open.Keys == entries.Keys
  {
  }

  lemma TradeCloses(rows: seq<TradeRow>, open: map<int, nat>, fills: seq<Fill>, t: Trades, f: Fill)
    requires ClosedTrades(fills) == Some(t) && TradesSoFar(rows, open, fills, t)
    requires f.economics.side.Sell? && InstrumentOf(f) in open
    ensures var id := InstrumentOf(f);
            var entry := t.entries[id];
            && open[id] < |rows| && rows[open[id]] == OpenRow(entry)
            && TradesSoFar(rows[open[id] := ClosedRow(entry, f)], open - {id}, fills + [f],
                           Trades(t.entries - {id}, t.closed + [(entry, f)]))
  {
    hide ClosedTrades, Alternating, NothingSuperseded, EntriesOf, PairsOf, SumNet, Pnls, RowOk, OpenRows, ClosedRow;
    var id := InstrumentOf(f);
    OpenEntry(rows, open, t.entries, id);
    var entry, i := t.entries[id], open[id];
    ClosedSums(rows, i, entry, f, t.closed);
    EntriesKept(rows, i, ClosedRow(entry, f));
    FilterSnoc(IsBuy(), fills, f);
    if Alternating(fills + [f]) { AlternatingSnoc(fills, f); }
    ClosedKeepsOpen(rows, open, t.entries, f);
  }

  lemma OpenEntry(rows: seq<TradeRow>, open: map<int, nat>, entries: map<int, Fill>, id: int)
    requires OpenRows(rows, open, entries) && id in open
    ensures id in entries && open[id] < |rows| && rows[open[id]] == OpenRow(entries[id])
  {
  }

  /** Closing an open row adds its pair and its net P&L. */
  lemma ClosedSums(rows: seq<TradeRow>, i: nat, entry: Fill, f: Fill, closed: seq<(Fill, Fill)>)
    requires i < |rows| && rows[i] == OpenRow(entry)
    requires PairsOf(rows) == multiset(closed) && SumNet(rows) == SumReals(Pnls(closed))
    ensures var rows', closed' := rows[i := ClosedRow(entry, f)], closed + [(entry, f)];
            && PairsOf(rows') == multiset(closed') && SumNet(rows') == SumReals(Pnls(closed'))
            && ClosedRow(entry, f).entry == entry
  {
    hide PairsOf, SumNet, Pnls, TradePnl;
    PairsClosed(rows, i, ClosedRow(entry, f));
    NetClosed(rows, i, ClosedRow(entry, f));
    PnlsSnoc(closed, entry, f);
    SumRealsSnoc(Pnls(closed), TradePnl(entry.economics, f.economics));
  }

  /** Closing one row leaves the other open rows where they are. */
  lemma ClosedKeepsOpen(rows: seq<TradeRow>, open: map<int, nat>, entries: map<int, Fill>, f: Fill)
    requires OpenRows(rows, open, entries) && InstrumentOf(f) in open
    ensures var id := InstrumentOf(f);
            var rows' := rows[open[id] := ClosedRow(entries[id], f)];
            && OpenRows(rows', open - {id}, entries - {id})
            && (NothingSuperseded(rows, open) ==> NothingSuperseded(rows', open - {id}))
            && ((forall i :: 0 <= i < |rows| ==> RowOk(rows[i])) ==> forall i :: 0 <= i < |rows'| ==> RowOk(rows'[i]))
  {
    var id := InstrumentOf(f);
    var rows' := rows[open[id] := ClosedRow(entries[id], f)];
    forall other | other in open - {id} ensures rows'[open[other]] == rows[open[other]] {
      assert rows[open[other]].instrument == other && rows[open[id]].instrument == id;
    }
  }

  lemma TradesFinished(rows: seq<TradeRow>, open: map<int, nat>, fills: seq<Fill>, t: Trades)
    requires ClosedTrades(fills) == Some(t) && TradesSoFar(rows, open, fills, t)
    ensures TradesOf(rows, fills)
  {
    forall id | id in t.entries ensures OpenRow(t.entries[id]) in rows { assert id in open; }
  }

  // ---- persisting ----------------------------------------------------------------------------

  /** The rows persisted for one run. */
  datatype Tables = Tables(
    orders: seq<OrderRow>,
    fills: seq<FillRow>,
    events: seq<EventRow>,
    cash: seq<CashRow>,
    positions: seq<PositionRow>,
    trades: seq<TradeRow>)

  const NOTHING := Tables([], [], [], [], [], [])

  /** The tables of one run. */
  class LedgerTables {
    var orders: seq<OrderRow>
    var fills: seq<FillRow>
    var events: seq<EventRow>
    var cash: seq<CashRow>
    var positions: seq<PositionRow>
    var trades: seq<TradeRow>

    ghost function Value(): Tables
      reads this
    {
      Tables(orders, fills, events, cash, positions, trades)
    }

    constructor ()
      ensures Value() == NOTHING
    {
      orders, fills, events, cash, positions, trades := [], [], [], [], [], [];
    }

    method InsertOrders(result: SimulationResult) returns (orderIds: map<string, nat>)
      modifies this`orders
      ensures orderIds == IdsByKey(OrderKeys(result.orders), |old(orders)|)
      ensures orders == old(orders) + OrderRows(result.orders, FillKeys(result.fills), |old(orders)|)
    {
      var filledKeys := FillKeys(result.fills);
      var list := result.orders;
      ghost var before := orders;
      orderIds := map[];
      for i := 0 to |list|
        invariant |orders| == |before| + i
        invariant orders == before + OrderRows(list[..i], filledKeys, |before|)
        invariant orderIds == IdsByKey(OrderKeys(list[..i]), |before|)
      {
        var o := list[i];
        var id := |orders| + 1;
        NextOrderRow(list, i, filledKeys, |before|);
        orders := orders + [OrderRowFor(o, id, o.key in filledKeys)];
        orderIds := orderIds[o.key := id];
      }
      assert list[..|list|] == list;
    }

    method InsertFills(list: seq<Fill>, orderIds: map<string, nat>) returns (fillIds: map<string, nat>)
      requires forall i :: 0 <= i < |list| ==> list[i].order.key in orderIds
      modifies this`fills
      ensures fillIds == IdsByKey(FillKeys(list), |old(fills)|)
      ensures fills == old(fills) + FillRows(list, orderIds, |old(fills)|)
    {
      ghost var before := fills;
      fillIds := map[];
      for i := 0 to |list|
        invariant |fills| == |before| + i
        invariant fills == before + FillRows(list[..i], orderIds, |before|)
        invariant fillIds == IdsByKey(FillKeys(list[..i]), |before|)
      {
        var f := list[i];
        var id := |fills| + 1;
        NextFillRow(list, i, orderIds, |before|);
        fills := fills + [FillRow(id, orderIds[f.order.key], f)];
        fillIds := fillIds[f.order.key := id];
      }
      assert list[..|list|] == list;
    }

    method InsertOrderEvents(list: seq<Order>, orderIds: map<string, nat>, fillIds: map<string, nat>)
      requires forall i :: 0 <= i < |list| ==> list[i].key in orderIds
      modifies this`events
      ensures events == old(events) + AllEventRows(list, orderIds, fillIds)
    {
      ghost var before := events;
      for i := 0 to |list|
        invariant events == before + AllEventRows(list[..i], orderIds, fillIds)
      {
        var o := list[i];
        events := events + EventsFor(o, orderIds[o.key], fillIds);
        assert list[..i + 1][..i] == list[..i];
      }
      assert list[..|list|] == list;
    }

    method InsertFillCash(f: Fill, id: nat)
      modifies this`cash
      ensures cash == old(cash) + CashFor(f, id)
    {
      var e := f.economics;
      var notional := if e.side.Buy? then -e.notional else e.notional;
      cash := cash + [CashRow(f.fillTs, TradeNotional, notional, Some(id))];
      cash := cash + [CashRow(f.fillTs, Commission, -e.commission, Some(id))];
      if e.tax != 0.0 {
        cash := cash + [CashRow(f.fillTs, Tax, -e.tax, Some(id))];
      }
    }

    method InsertCashAndPositions(list: seq<Fill>, fillIds: map<string, nat>)
      requires forall i :: 0 <= i < |list| ==> list[i].order.key in fillIds
      modifies this`cash, this`positions
      ensures cash == old(cash) + AllCash(list, fillIds)
      ensures positions == old(positions) + AllPositions(list, fillIds)
    {
      ghost var c, p := cash, positions;
      for i := 0 to |list|
        invariant cash == c + AllCash(list[..i], fillIds)
        invariant positions == p + AllPositions(list[..i], fillIds)
      {
        var f := list[i];
        var id := fillIds[f.order.key];
        InsertFillCash(f, id);
        positions := positions + [PositionFor(f, id)];
        assert list[..i + 1][..i] == list[..i];
      }
      assert list[..|list|] == list;
    }

    /**
      The trade table.  It fails exactly when closed-trade pairing fails, that is on a sale whose
      instrument has no open trade.
    */
    method InsertRoundTrips(list: seq<Fill>) returns (ok: bool)
      requires trades == []
      modifies this`trades
      ensures ok <==> ClosedTrades(list).Some?
      ensures ok ==> TradesOf(trades, list)
    {
      var open: map<int, nat> := map[];
      ghost var t := Trades(map[], []);
      for n := 0 to |list|
        invariant ClosedTrades(list[..n]) == Some(t)
        invariant TradesSoFar(trades, open, list[..n], t)
      {
        var f := list[n];
        var id := InstrumentOf(f);
        assert list[..n + 1] == list[..n] + [f] && list[..n + 1][..n] == list[..n];
        if f.economics.side.Buy? {
          TradeOpens(trades, open, list[..n], t, f);
          trades := trades + [OpenRow(f)];
          open := open[id := |trades| - 1];
          t := Trades(t.entries[id := f], t.closed);
        } else {
          if id !in open {
            ClosedTradesPrefix(list, n + 1);
            return false;
          }
          TradeCloses(trades, open, list[..n], t, f);
          var i := open[id];
          var entry := trades[i].entry;
          trades := trades[i := ClosedRow(entry, f)];
          open := open - {id};
          t := Trades(t.entries - {id}, t.closed + [(entry, f)]);
        }
      }
      assert list[..|list|] == list;
      TradesFinished(trades, open, list, t);
      ok := true;
    }

    /**
      The whole journal in table order, all or nothing: it is refused exactly when the run has
      neither a decision nor a fill to date the opening cash with, or when a sale has no open trade.
    */
    method Persist(result: SimulationResult, initialCapital: real) returns (ok: bool)
      requires Value() == NOTHING
      requires forall i :: 0 <= i < |result.fills| ==> result.fills[i].order in result.orders
      modifies this
      ensures ok <==> (result.decisions != [] || result.fills != []) && ClosedTrades(result.fills).Some?
      ensures Value() == NOTHING || ok
      ensures ok ==> Persisted(Value(), result, initialCapital)
    {
      hide IdsByKey, OrderKeys, FillKeys, OrderRows, FillRows, AllEventRows, AllCash, AllPositions,
           ClosedTrades, TradesOf;
      if result.decisions == [] && result.fills == [] { return false; }
      var ts := if result.decisions != [] then result.decisions[0].ts else result.fills[0].fillTs;
      cash := [CashRow(ts, InitialCapital, initialCapital, None)];
      var orderIds := InsertOrders(result);
      KeysFound(result, orderIds);
      var fillIds := InsertFills(result.fills, orderIds);
      FillKeysFound(result, fillIds);
      InsertOrderEvents(result.orders, orderIds, fillIds);
      ok := InsertRoundTrips(result.fills);
      if !ok {
        Rollback();
        return;
      }
      InsertCashAndPositions(result.fills, fillIds);
    }

    /** The caller's transaction takes back what was inserted before the error. */
    method Rollback()
      modifies this
      ensures Value() == NOTHING
    {
      orders, fills, events, cash, positions, trades := [], [], [], [], [], [];
    }
  }

  /** The opening cash, dated by the first decision or else the first fill. */
  function OpeningCash(result: SimulationResult, initialCapital: real): CashRow
    requires result.decisions != [] || result.fills != []
  {
    CashRow(if result.decisions != [] then result.decisions[0].ts else result.fills[0].fillTs,
            InitialCapital, initialCapital, None)
  }

  /** What persisting a result leaves in the tables. */
  ghost predicate Persisted(t: Tables, result: SimulationResult, initialCapital: real) {
    var orderIds := IdsByKey(OrderKeys(result.orders), 0);
    var fillIds := IdsByKey(FillKeys(result.fills), 0);
    && t.orders == OrderRows(result.orders, FillKeys(result.fills), 0)
    && t.fills == FillRows(result.fills, orderIds, 0)
    && t.events == AllEventRows(result.orders, orderIds, fillIds)
    && (result.decisions != [] || result.fills != [])
    && t.cash == [OpeningCash(result, initialCapital)] + AllCash(result.fills, fillIds)
    && t.positions == AllPositions(result.fills, fillIds)
    && ClosedTrades(result.fills).Some? && TradesOf(t.trades, result.fills)
  }

  lemma {:induction false} IdsByKeyCovers(keys: seq<string>, base: nat)
    ensures forall i :: 0 <= i < |keys| ==> keys[i] in IdsByKey(keys, base)
  {
    if keys != [] { IdsByKeyCovers(keys[..|keys| - 1], base); }
  }

  lemma KeysFound(result: SimulationResult, orderIds: map<string, nat>)
    requires forall i :: 0 <= i < |result.fills| ==> result.fills[i].order in result.orders
    requires orderIds == IdsByKey(OrderKeys(result.orders), 0)
    ensures forall i :: 0 <= i < |result.orders| ==> result.orders[i].key in orderIds
    ensures forall i :: 0 <= i < |result.fills| ==> result.fills[i].order.key in orderIds
  {
    OrderKeysAt(result.orders);
    IdsByKeyCovers(OrderKeys(result.orders), 0);
    forall i | 0 <= i < |result.orders| ensures result.orders[i].key in orderIds {
      assert OrderKeys(result.orders)[i] in orderIds;
    }
    forall i | 0 <= i < |result.fills| ensures result.fills[i].order.key in orderIds {
      var j := IndexIn(result.orders, result.fills[i].order);
      assert result.orders[j].key in orderIds;
    }
  }

  lemma FillKeysFound(result: SimulationResult, fillIds: map<string, nat>)
    requires fillIds == IdsByKey(FillKeys(result.fills), 0)
    ensures forall i :: 0 <= i < |result.fills| ==> result.fills[i].order.key in fillIds
  {
    FillKeysAt(result.fills);
    IdsByKeyCovers(FillKeys(result.fills), 0);
    forall i | 0 <= i < |result.fills| ensures result.fills[i].order.key in fillIds {
      assert FillKeys(result.fills)[i] in fillIds;
    }
  }

  // ---- agreement with the run ------------------------------------------------------------------

  /** A finished run and its result. */
  ghost predicate Returns(c: Config, k: nat, r: SimulationResult) {
    && ValidRequest(c.request)
    && Done(Run(WorldOf(c), None, k)) && Outcome(c, Run(WorldOf(c), None, k)) == Ok(r)
  }

  lemma ReturnedBooks(c: Config, k: nat, r: SimulationResult)
    requires Returns(c, k, r)
    ensures Book(c.request.initialCapital, r.fills).Some?
    ensures Book(c.request.initialCapital, r.fills).value.cash == r.cash
    ensures forall id :: id in r.positions ==>
              PositionOf(Book(c.request.initialCapital, r.fills).value, id) == r.positions[id]
  {
    hide Run, WorldOf, Book;
    FillsTradable(c, None, k);
  }

  /**
    Over the tables a finished run leaves: the cash ledger adds up to the final cash, the position
    ledger per instrument to the final quantity, and the trade table to the closed-trade P&Ls.
  */
  lemma LedgerMatchesPortfolio(c: Config, k: nat, r: SimulationResult, t: Tables)
    requires Returns(c, k, r) && Persisted(t, r, c.request.initialCapital)
    ensures SumAmounts(t.cash) == r.cash
    ensures forall id :: id in r.positions ==> SumDeltas(t.positions, id) == r.positions[id].quantity
    ensures SumNet(t.trades) == SumReals(Pnls(ClosedTrades(r.fills).value.closed))
  {
    hide Returns, Book, AllCash, AllPositions, IdsByKey, OrderRows, FillRows, AllEventRows;
    var capital, fillIds := c.request.initialCapital, IdsByKey(FillKeys(r.fills), 0);
    ReturnedBooks(c, k, r);
    CashIsFlows(capital, r.fills);
    CashRowsSum(r.fills, fillIds);
    forall id | id in r.positions ensures SumDeltas(t.positions, id) == r.positions[id].quantity {
      PositionRowsSum(capital, r.fills, fillIds, id);
    }
  }

  lemma {:induction false} EventRowsAt(orders: seq<Order>, orderIds: map<string, nat>, fillIds: map<string, nat>,
                                       i: nat, j: nat)
    requires i < |orders| && j < 3 && forall m :: 0 <= m < |orders| ==> orders[m].key in orderIds
    ensures |AllEventRows(orders, orderIds, fillIds)| == 3 * |orders|
    ensures AllEventRows(orders, orderIds, fillIds)[3 * i + j]
         == EventsFor(orders[i], orderIds[orders[i].key], fillIds)[j]
  {
    var n := |orders| - 1;
    if n > 0 {
      EventRowsAt(orders[..n], orderIds, fillIds, if i < n then i else 0, j);
    }
    var rows := AllEventRows(orders[..n], orderIds, fillIds);
    assert |rows| == 3 * n;
    assert i < n ==> 3 * i + j < 3 * n;
  }

  lemma {:induction false} FillRowsAt(fills: seq<Fill>, orderIds: map<string, nat>, base: nat, j: nat)
    requires j < |fills| && fills[j].order.key in orderIds
    ensures |FillRows(fills, orderIds, base)| == |fills|
    ensures FillRows(fills, orderIds, base)[j] == FillRow(base + j + 1, orderIds[fills[j].order.key], fills[j])
  {
    var n := |fills| - 1;
    FillRowsCount(fills, orderIds, base);
    FillRowsCount(fills[..n], orderIds, base);
    if j < n { FillRowsAt(fills[..n], orderIds, base, j); }
  }

  lemma {:induction false} FillRowsCount(fills: seq<Fill>, orderIds: map<string, nat>, base: nat)
    ensures |FillRows(fills, orderIds, base)| == |fills|
  {
    if fills != [] { FillRowsCount(fills[..|fills| - 1], orderIds, base); }
  }

  lemma {:induction false} OrderRowsAt(orders: seq<Order>, filledKeys: seq<string>, base: nat, i: nat)
    requires i < |orders|
    ensures |OrderRows(orders, filledKeys, base)| == |orders|
    ensures OrderRows(orders, filledKeys, base)[i] == OrderRowFor(orders[i], base + i + 1, orders[i].key in filledKeys)
  {
    var n := |orders| - 1;
    if n > 0 { OrderRowsAt(orders[..n], filledKeys, base, if i < n then i else 0); }
    assert |OrderRows(orders[..n], filledKeys, base)| == n;
  }

  lemma FillsAreOrders(c: Config, k: nat, f: Fill)
    requires ValidRequest(c.request) && f in Run(WorldOf(c), None, k).fills
    ensures f.order in Run(WorldOf(c), None, k).orders
  {
    hide WorldOf, Run, Universe, Replay, FillOk, QueueAt;
    var w := WorldOf(c);
    ConfigSchedulable(c);
    SoundHolds(w, Universe(c), None, k);
    FillsHold(w, Universe(c), None, k);
    AttemptIsDue(Run(w, None, k), f.order);
  }

  /** A run's orders have distinct keys, and its fills belong to distinct orders of it. */
  ghost predicate Keyed(orders: seq<Order>, fills: seq<Fill>) {
    && KeysDistinct(orders)
    && (forall f :: f in fills ==> f.order in orders)
    && (forall i, j :: 0 <= i < j < |fills| ==> fills[i].order != fills[j].order)
  }

  lemma ReturnedKeyed(c: Config, k: nat, r: SimulationResult)
    requires Returns(c, k, r)
    ensures Keyed(r.orders, r.fills)
  {
    hide Run, WorldOf, Universe, Replay, FillOk;
    ConfigSchedulable(c);
    OrderKeysDistinct(c, None, k);
    FillsHold(WorldOf(c), Universe(c), None, k);
    forall f | f in r.fills ensures f.order in r.orders { FillsAreOrders(c, k, f); }
  }

  /** Both key-indexed maps lose nothing: every order and every fill keeps its own id. */
  lemma IdsAreOwn(orders: seq<Order>, fills: seq<Fill>)
    requires Keyed(orders, fills)
    ensures NoDup(OrderKeys(orders)) && NoDup(FillKeys(fills))
    ensures var orderIds := IdsByKey(OrderKeys(orders), 0);
            forall i :: 0 <= i < |orders| ==> orders[i].key in orderIds && orderIds[orders[i].key] == i + 1
    ensures var fillIds := IdsByKey(FillKeys(fills), 0);
            forall j :: 0 <= j < |fills| ==> fills[j].order.key in fillIds && fillIds[fills[j].order.key] == j + 1
  {
    hide IdsByKey, OrderKeys, FillKeys;
    OrderKeysAt(orders);
    FillKeysAt(fills);
    forall i, j | 0 <= i < j < |fills| ensures fills[i].order.key != fills[j].order.key {
      assert fills[i] in fills && fills[j] in fills;
      if fills[i].order.key == fills[j].order.key { SameKeySameOrder(orders, fills[i].order, fills[j].order); }
    }
    IdsByKeyDistinct(OrderKeys(orders), 0);
    IdsByKeyDistinct(FillKeys(fills), 0);
    forall i | 0 <= i < |orders|
      ensures orders[i].key in IdsByKey(OrderKeys(orders), 0) && IdsByKey(OrderKeys(orders), 0)[orders[i].key] == i + 1
    {
      assert OrderKeys(orders)[i] == orders[i].key;
    }
    forall j | 0 <= j < |fills|
      ensures fills[j].order.key in IdsByKey(FillKeys(fills), 0)
           && IdsByKey(FillKeys(fills), 0)[fills[j].order.key] == j + 1
    {
      assert FillKeys(fills)[j] == fills[j].order.key;
    }
  }

  /** A key has a fill id exactly when its own order has a fill. */
  lemma FillIdMeansFilled(orders: seq<Order>, fills: seq<Fill>, o: Order)
    requires Keyed(orders, fills) && o in orders
    ensures o.key in FillKeys(fills) <==> HasFill(fills, o)
    ensures o.key in IdsByKey(FillKeys(fills), 0) <==> HasFill(fills, o)
  {
    FillKeysAt(fills);
    IdsByKeyKeys(FillKeys(fills), 0);
    if HasFill(fills, o) {
      var j :| 0 <= j < |fills| && fills[j].order == o;
      assert FillKeys(fills)[j] == o.key;
    }
    if o.key in FillKeys(fills) {
      var j := IndexIn(FillKeys(fills), o.key);
      assert fills[j] in fills;
      SameKeySameOrder(orders, o, fills[j].order);
    }
  }

  lemma {:induction false} IdsByKeyKeys(keys: seq<string>, base: nat)
    ensures forall x :: x in IdsByKey(keys, base) <==> x in keys
  {
    if keys != [] {
      IdsByKeyKeys(keys[..|keys| - 1], base);
      assert keys == keys[..|keys| - 1] + [keys[|keys| - 1]];
    }
  }

  /** The three events of the order at position `i`, told from the order and its fill alone. */
  ghost predicate EventsTell(events: seq<EventRow>, orders: seq<Order>, fills: seq<Fill>, i: nat)
    requires i < |orders| && |events| == 3 * |orders|
  {
    var first, second, third := events[3 * i], events[3 * i + 1], events[3 * i + 2];
    && first.orderId == second.orderId == third.orderId == i + 1
    && (first.sequence, second.sequence, third.sequence) == (1, 2, 3)
    && first.kind == Submitted && second.kind == Accepted
    && first.ts == second.ts == orders[i].submittedAt
    && third.ts == (if orders[i].execution.Some? then orders[i].execution.value.effective else orders[i].submittedAt)
    && first.remaining == second.remaining == orders[i].quantity
    && third.remaining == (if HasFill(fills, orders[i]) then 0.0 else orders[i].quantity)
    && third.filledDelta == (if HasFill(fills, orders[i]) then Some(orders[i].quantity) else None)
    && first.sourceFill == second.sourceFill == None && first.filledDelta == second.filledDelta == None
    && (third.kind == if HasFill(fills, orders[i]) then Filled else Rejected)
    && (!HasFill(fills, orders[i]) ==> third.sourceFill == None)
    && (forall j :: 0 <= j < |fills| && fills[j].order == orders[i] ==> third.sourceFill == Some(j + 1))
  }

  /** Why an order was not filled: there was no bar to execute it at, or else the cash. */
  ghost function ReasonFor(o: Order, filled: bool): Option<string> {
    match o.execution
    case None => Some("NO_ELIGIBLE_EXECUTION_BAR")
    case Some(_) => if filled then None else Some("INSUFFICIENT_CASH")
  }

  lemma EventRowsTell(orders: seq<Order>, fills: seq<Fill>, i: nat)
    requires Keyed(orders, fills) && i < |orders|
    ensures var rows := AllEventRows(orders, IdsByKey(OrderKeys(orders), 0), IdsByKey(FillKeys(fills), 0));
            |rows| == 3 * |orders| && EventsTell(rows, orders, fills, i)
  {
    hide IdsByKey, OrderKeys, FillKeys, AllEventRows;
    var orderIds, fillIds := IdsByKey(OrderKeys(orders), 0), IdsByKey(FillKeys(fills), 0);
    IdsAreOwn(orders, fills);
    FillIdMeansFilled(orders, fills, orders[i]);
    EventRowsAt(orders, orderIds, fillIds, i, 0);
    EventRowsAt(orders, orderIds, fillIds, i, 1);
    EventRowsAt(orders, orderIds, fillIds, i, 2);
  }

  /**
    Over the tables a finished run leaves, every row points at its own order and fill.  Order `i`
    has id i + 1 and is marked filled exactly when it has a fill; fill `j` has id j + 1 and names
    its own order's id; each order has exactly three events, the last FILLED by its own fill or
    REJECTED.
  */
  lemma RowsPointRight(c: Config, k: nat, r: SimulationResult, t: Tables)
    requires Returns(c, k, r) && Persisted(t, r, c.request.initialCapital)
    ensures |t.orders| == |r.orders| && |t.fills| == |r.fills| && |t.events| == 3 * |r.orders|
    ensures forall i :: 0 <= i < |r.orders| ==>
              && t.orders[i].id == i + 1 && t.orders[i].order == r.orders[i]
              && (t.orders[i].filled <==> HasFill(r.fills, r.orders[i]))
              && t.orders[i].key == r.orders[i].key
              && t.orders[i].rejectReason == ReasonFor(r.orders[i], HasFill(r.fills, r.orders[i]))
              && EventsTell(t.events, r.orders, r.fills, i)
    ensures forall j :: 0 <= j < |r.fills| ==>
              && t.fills[j].id == j + 1 && t.fills[j].fill == r.fills[j]
              && 1 <= t.fills[j].orderId <= |r.orders| && r.orders[t.fills[j].orderId - 1] == r.fills[j].order
  {
    hide Returns, IdsByKey, OrderKeys, FillKeys, AllEventRows, OrderRows, FillRows, TradesOf, AllCash, AllPositions;
    var orders, fills := r.orders, r.fills;
    ReturnedKeyed(c, k, r);
    IdsAreOwn(orders, fills);
    RowCounts(orders, fills);
    forall i | 0 <= i < |orders|
      ensures && t.orders[i].id == i + 1 && t.orders[i].order == orders[i]
              && (t.orders[i].filled <==> HasFill(fills, orders[i]))
              && t.orders[i].key == orders[i].key
              && t.orders[i].rejectReason == ReasonFor(orders[i], HasFill(fills, orders[i]))
              && EventsTell(t.events, orders, fills, i)
    {
      OrderRowsAt(orders, FillKeys(fills), 0, i);
      FillIdMeansFilled(orders, fills, orders[i]);
      EventRowsTell(orders, fills, i);
    }
    forall j | 0 <= j < |fills|
      ensures && t.fills[j].id == j + 1 && t.fills[j].fill == fills[j]
              && 1 <= t.fills[j].orderId <= |orders| && orders[t.fills[j].orderId - 1] == fills[j].order
    {
      assert fills[j] in fills;
      var i := IndexIn(orders, fills[j].order);
      FillRowsAt(fills, IdsByKey(OrderKeys(orders), 0), 0, j);
    }
  }

  lemma RowCounts(orders: seq<Order>, fills: seq<Fill>)
    ensures |OrderRows(orders, FillKeys(fills), 0)| == |orders|
    ensures |FillRows(fills, IdsByKey(OrderKeys(orders), 0), 0)| == |fills|
    ensures |AllEventRows(orders, IdsByKey(OrderKeys(orders), 0), IdsByKey(FillKeys(fills), 0))| == 3 * |orders|
  {
    hide IdsByKey, OrderKeys, FillKeys;
    if orders != [] { OrderRowsAt(orders, FillKeys(fills), 0, 0); }
    FillRowsCount(fills, IdsByKey(OrderKeys(orders), 0), 0);
    EventRowsCount(orders, IdsByKey(OrderKeys(orders), 0), IdsByKey(FillKeys(fills), 0));
  }

  lemma {:induction false} EventRowsCount(orders: seq<Order>, orderIds: map<string, nat>, fillIds: map<string, nat>)
    ensures |AllEventRows(orders, orderIds, fillIds)| == 3 * |orders|
  {
    if orders != [] { EventRowsCount(orders[..|orders| - 1], orderIds, fillIds); }
  }

  // ---- what the cash and position rows say -----------------------------------------------------

  /** `row` is the notional, the commission or, if there is one, the tax of fill `j`. */
  ghost predicate IsCashOf(row: CashRow, fills: seq<Fill>, j: nat) {
    && j < |fills| && row.fillId == Some(j + 1) && row.ts == fills[j].fillTs
    && var e := fills[j].economics;
       match row.kind
       case TradeNotional => row.amount == (if e.side.Buy? then -e.notional else e.notional)
       case Commission => row.amount == -e.commission
       case Tax => row.amount == -e.tax && e.tax != 0.0
       case InitialCapital => false
  }

  ghost predicate IdsInOrder(fills: seq<Fill>, fillIds: map<string, nat>) {
    forall j :: 0 <= j < |fills| ==> fills[j].order.key in fillIds && fillIds[fills[j].order.key] == j + 1
  }

  lemma CashForMeans(fills: seq<Fill>, j: nat, row: CashRow)
    requires j < |fills|
    ensures row in CashFor(fills[j], j + 1) <==> IsCashOf(row, fills, j)
  {
  }

  lemma {:induction false} CashMembers(fills: seq<Fill>, fillIds: map<string, nat>, row: CashRow)
    requires IdsInOrder(fills, fillIds)
    ensures row in AllCash(fills, fillIds) <==> exists j: nat :: IsCashOf(row, fills, j)
  {
    hide CashFor;
    if fills != [] {
      var n := |fills| - 1;
      CashMembers(fills[..n], fillIds, row);
      CashForMeans(fills, n, row);
      if j: nat :| IsCashOf(row, fills[..n], j) { assert IsCashOf(row, fills, j); }
      if j: nat :| IsCashOf(row, fills, j) { assert j < n ==> IsCashOf(row, fills[..n], j); }
    }
  }

  function Taxed(): Fill -> bool { (f: Fill) => f.economics.tax != 0.0 }

  lemma {:induction false} CashCount(fills: seq<Fill>, fillIds: map<string, nat>)
    ensures |AllCash(fills, fillIds)| == 2 * |fills| + |Filter(Taxed(), fills)|
  {
    if fills != [] {
      var n := |fills| - 1;
      CashCount(fills[..n], fillIds);
      assert fills == fills[..n] + [fills[n]];
      FilterSnoc(Taxed(), fills[..n], fills[n]);
    }
  }

  lemma {:induction false} PositionsAt(fills: seq<Fill>, fillIds: map<string, nat>)
    requires IdsInOrder(fills, fillIds)
    ensures |AllPositions(fills, fillIds)| == |fills|
    ensures forall j :: 0 <= j < |fills| ==> AllPositions(fills, fillIds)[j] == PositionFor(fills[j], j + 1)
  {
    if fills != [] { PositionsAt(fills[..|fills| - 1], fillIds); }
  }

  /**
    Over the tables a finished run leaves: the cash table opens with the capital, then holds for
    every fill its signed notional, its commission and its tax if there is one, and nothing else;
    the position table holds every fill's signed quantity at its execution price.
  */
  lemma BooksTellFills(c: Config, k: nat, r: SimulationResult, t: Tables)
    requires Returns(c, k, r) && Persisted(t, r, c.request.initialCapital)
    ensures t.cash != [] && t.cash[0] == OpeningCash(r, c.request.initialCapital)
    ensures |t.cash| == 1 + 2 * |r.fills| + |Filter(Taxed(), r.fills)|
    ensures forall row :: row in t.cash[1..] <==> exists j: nat :: IsCashOf(row, r.fills, j)
    ensures |t.positions| == |r.fills|
    ensures forall j :: 0 <= j < |r.fills| ==>
              var f, row := r.fills[j], t.positions[j];
              && row.instrument == f.order.signal.instrument && row.ts == f.fillTs && row.fillId == j + 1
              && row.delta == (if f.economics.side.Buy? then f.economics.quantity else -f.economics.quantity)
              && row.unitCost == f.economics.executionPrice
  {
    hide Returns, IdsByKey, FillKeys, OrderKeys, AllCash, AllPositions, IsCashOf, OrderRows, FillRows, AllEventRows,
         TradesOf, ClosedTrades;
    var fillIds := IdsByKey(FillKeys(r.fills), 0);
    ReturnedKeyed(c, k, r);
    IdsAreOwn(r.orders, r.fills);
    assert t.cash[1..] == AllCash(r.fills, fillIds);
    forall row ensures row in t.cash[1..] <==> exists j: nat :: IsCashOf(row, r.fills, j) {
      CashMembers(r.fills, fillIds, row);
    }
    CashCount(r.fills, fillIds);
    PositionsAt(r.fills, fillIds);
  }
}
