/**
  Exact accounting of the reference engine: pricing of a fill with basis-point costs and the
  long-only, no-leverage portfolio.
*/
module Accounting {
  import opened Sequences
  import opened Contracts

  datatype Side = Buy | Sell

  datatype PricedFill = PricedFill(
    side: Side,
    quantity: real,
    referencePrice: real,
    executionPrice: real,
    notional: real,
    commission: real,
    slippage: real,
    tax: real)

  datatype Position = Position(quantity: real, averageCost: real, realizedPnl: real)

  datatype Account = Account(cash: real, positions: map<int, Position>)

  const FLAT := Position(0.0, 0.0, 0.0)

  function CashDelta(f: PricedFill): real {
    if f.side.Buy? then -(f.notional + f.commission + f.tax) else f.notional - f.commission - f.tax
  }

  function CostOf(f: PricedFill): real {
    f.commission + f.slippage + f.tax
  }

  function Abs(x: real): real { if x < 0.0 then -x else x }

  /** `None` is the validation error for a non-positive quantity or price. */
  function PriceFill(side: Side, quantity: real, price: real, costs: Costs): Option<PricedFill> {
    if quantity <= 0.0 || price <= 0.0 then None
    else
      var direction := if side.Buy? then 1.0 else -1.0;
      var execution := price * (1.0 + direction * costs.slippageBps / 10000.0);
      var notional := execution * quantity;
      Some(PricedFill(side, quantity, price, execution, notional,
                      notional * costs.commissionBps / 10000.0,
                      Abs(execution - price) * quantity,
                      if side.Sell? then notional * costs.sellTaxBps / 10000.0 else 0.0))
  }

  function PositionOf(a: Account, id: int): Position {
    if id in a.positions then a.positions[id] else FLAT
  }

  /** Quantity is positive whenever a fill is booked, see `SolvencyKept`. */
  function Average(total: real, quantity: real): real {
    if quantity == 0.0 then 0.0 else total / quantity
  }

  function Bought(p: Position, f: PricedFill): Position {
    var quantity := p.quantity + f.quantity;
    Position(quantity, Average(p.averageCost * p.quantity - CashDelta(f), quantity), p.realizedPnl)
  }

  function Sold(p: Position, f: PricedFill): Position {
    var quantity := p.quantity - f.quantity;
    Position(quantity,
             if quantity == 0.0 then 0.0 else p.averageCost,
             p.realizedPnl + ((f.executionPrice - p.averageCost) * f.quantity - f.commission - f.tax))
  }

  /** `None` is a refusal: not enough cash, or a sale larger than the position. */
  function ApplyFill(a: Account, id: int, f: PricedFill): Option<Account> {
    var p := PositionOf(a, id);
    if f.side.Buy? then
      if a.cash < -CashDelta(f) then None
      else Some(Account(a.cash + CashDelta(f), a.positions[id := Bought(p, f)]))
    else
      if p.quantity < f.quantity then None
      else Some(Account(a.cash + CashDelta(f), a.positions[id := Sold(p, f)]))
  }

  /** The mutable portfolio of a run. */
  class LongOnlyPortfolio {
    var cash: real
    var positions: map<int, Position>

    ghost function Value(): Account
      reads this
    {
      Account(cash, positions)
    }

    constructor (cash: real)
      ensures Value() == Account(cash, map[])
    {
      this.cash := cash;
      positions := map[];
    }

    /** Negative opening cash is refused. */
    static method Create(cash: real) returns (r: Option<LongOnlyPortfolio>)
      ensures r.Some? <==> 0.0 <= cash
      ensures r.Some? ==> fresh(r.value) && r.value.Value() == Account(cash, map[])
    {
      if cash < 0.0 {
        r := None;
      } else {
        var portfolio := new LongOnlyPortfolio(cash);
        r := Some(portfolio);
      }
    }

    method PositionFor(id: int) returns (p: Position)
      ensures p == PositionOf(Value(), id)
    {
      p := if id in positions then positions[id] else FLAT;
    }

    /** Books the fill, or refuses it and changes nothing. */
    method Apply(id: int, f: PricedFill) returns (booked: bool)
      modifies this
      ensures booked == ApplyFill(old(Value()), id, f).Some?
      ensures Value() == if booked then ApplyFill(old(Value()), id, f).value else old(Value())
    {
      var state := PositionFor(id);
      if f.side.Buy? {
        if cash < -CashDelta(f) { return false; }
        state := Bought(state, f);
      } else {
        if state.quantity < f.quantity { return false; }
        state := Sold(state, f);
      }
      cash := cash + CashDelta(f);
      positions := positions[id := state];
      booked := true;
    }
  }

  // ---- what one fill does ----------------------------------------------------------------

  /** The fill was produced by `PriceFill` under these costs. */
  ghost predicate Priced(f: PricedFill, costs: Costs) {
    PriceFill(f.side, f.quantity, f.referencePrice, costs) == Some(f)
  }

  /** Signed value of the fill at its reference price, with no costs at all. */
  function ReferenceFlow(f: PricedFill): real {
    if f.side.Buy? then -(f.referencePrice * f.quantity) else f.referencePrice * f.quantity
  }

  lemma Scale(price: real, bps: real, q: real)
    requires 0.0 < price && 0.0 <= bps && 0.0 < q
    ensures price * (1.0 + bps / 10000.0) == price + price * bps / 10000.0
    ensures price * (1.0 - bps / 10000.0) == price - price * bps / 10000.0
    ensures 0.0 <= price * bps / 10000.0
    ensures 0.0 <= price * bps / 10000.0 * q
  {
    assert 0.0 <= price * bps;
  }

  /**
    What a fill is charged, each amount in basis points of what it is charged on: slippage moves
    the price against the trader, commission is due on both sides and tax on sales alone.
  */
  ghost predicate Charged(f: PricedFill, costs: Costs) {
    && 10000.0 * f.executionPrice
       == f.referencePrice * (if f.side.Buy? then 10000.0 + costs.slippageBps else 10000.0 - costs.slippageBps)
    && f.notional == f.executionPrice * f.quantity
    && 10000.0 * f.commission == f.notional * costs.commissionBps
    && 10000.0 * f.tax == (if f.side.Sell? then f.notional * costs.sellTaxBps else 0.0)
    && 10000.0 * f.slippage == f.referencePrice * costs.slippageBps * f.quantity
  }

  /** Pricing fails exactly on a non-positive quantity or price, and keeps the order it was asked for. */
  lemma PricesIff(side: Side, quantity: real, price: real, costs: Costs)
    ensures var f := PriceFill(side, quantity, price, costs);
            && (f.Some? <==> 0.0 < quantity && 0.0 < price)
            && (f.Some? ==> f.value.side == side && f.value.quantity == quantity && f.value.referencePrice == price)
            && (f.Some? ==> Priced(f.value, costs))
  {
  }

  lemma SlippedPrice(price: real, bps: real, q: real)
    requires 0.0 < price && 0.0 <= bps && 0.0 < q
    ensures Abs(price * (1.0 + bps / 10000.0) - price) * q == price * bps / 10000.0 * q
    ensures Abs(price * (1.0 - bps / 10000.0) - price) * q == price * bps / 10000.0 * q
  {
    Scale(price, bps, q);
  }

  /** A fill is priced if and only if quantity and price are positive and it is charged what is due. */
  lemma PricedIff(f: PricedFill, costs: Costs)
    requires ValidCosts(costs)
    ensures Priced(f, costs) <==> 0.0 < f.quantity && 0.0 < f.referencePrice && Charged(f, costs)
  {
    hide PriceFill, Charged;
    PricesIff(f.side, f.quantity, f.referencePrice, costs);
    if 0.0 < f.quantity && 0.0 < f.referencePrice {
      PriceIsCharged(f.side, f.quantity, f.referencePrice, costs);
      if Charged(f, costs) { ChargedUnique(f, PriceFill(f.side, f.quantity, f.referencePrice, costs).value, costs); }
    }
  }

  lemma ChargedUnique(f: PricedFill, g: PricedFill, costs: Costs)
    requires Charged(f, costs) && Charged(g, costs)
    requires f.side == g.side && f.quantity == g.quantity && f.referencePrice == g.referencePrice
    ensures f == g
  {
  }

  lemma PriceIsCharged(side: Side, quantity: real, price: real, costs: Costs)
    requires ValidCosts(costs) && 0.0 < quantity && 0.0 < price
    ensures Charged(PriceFill(side, quantity, price, costs).value, costs)
  {
    var g := PriceFill(side, quantity, price, costs).value;
    Scale(price, costs.slippageBps, quantity);
    SlippedPrice(price, costs.slippageBps, quantity);
    assert g.slippage == price * costs.slippageBps / 10000.0 * quantity;
  }

  /** Slippage is part of the price once: cash flow plus all costs is the reference flow. */
  lemma CostsExplainCash(f: PricedFill, costs: Costs)
    requires Priced(f, costs) && ValidCosts(costs)
    ensures CashDelta(f) + CostOf(f) == ReferenceFlow(f)
    ensures f.slippage == f.referencePrice * costs.slippageBps / 10000.0 * f.quantity
    ensures Charged(f, costs)
  {
    var s := f.referencePrice * costs.slippageBps / 10000.0;
    PricedIff(f, costs);
    Scale(f.referencePrice, costs.slippageBps, f.quantity);
    assert f.executionPrice == if f.side.Buy? then f.referencePrice + s else f.referencePrice - s;
    assert f.slippage == s * f.quantity;
    assert f.notional == if f.side.Buy? then f.referencePrice * f.quantity + s * f.quantity
                         else f.referencePrice * f.quantity - s * f.quantity;
  }

  function CostBasis(p: Position): real { p.averageCost * p.quantity }

  function Realized(p: Position): real { p.realizedPnl }

  lemma AverageTimes(total: real, q: real)
    requires q != 0.0
    ensures Average(total, q) * q == total
  {
  }

  /** One booked fill moves cash, cost basis and realized P&L so that nothing is lost. */
  lemma FillConserves(a: Account, id: int, f: PricedFill)
    requires f.notional == f.executionPrice * f.quantity
    requires 0.0 < f.quantity && 0.0 <= PositionOf(a, id).quantity
    requires ApplyFill(a, id, f).Some?
    ensures var b := ApplyFill(a, id, f).value;
            var p, q := PositionOf(a, id), PositionOf(b, id);
            b.cash + CostBasis(q) - Realized(q) == a.cash + CostBasis(p) - Realized(p)
  {
    BookingMoves(a, id, f);
  }

  /** Exactly when a fill is booked: cash covers the purchase, or the position covers the sale. */
  lemma BookedIff(a: Account, id: int, f: PricedFill)
    ensures ApplyFill(a, id, f).Some? <==>
            if f.side.Buy? then f.notional + f.commission + f.tax <= a.cash
            else f.quantity <= PositionOf(a, id).quantity
  {
  }

  /**
    What booking does: cash moves by the cash flow and only this instrument's position changes.  A
    purchase adds what it cost to the cost basis and realizes nothing; a sale takes the average
    cost of what it sold out of the basis and realizes the proceeds above it.
  */
  lemma BookingMoves(a: Account, id: int, f: PricedFill)
    requires f.notional == f.executionPrice * f.quantity
    requires 0.0 < f.quantity && 0.0 <= PositionOf(a, id).quantity
    requires ApplyFill(a, id, f).Some?
    ensures var b := ApplyFill(a, id, f).value;
            var p, q := PositionOf(a, id), PositionOf(b, id);
            && b.cash == a.cash + CashDelta(f)
            && (forall other :: other != id ==> PositionOf(b, other) == PositionOf(a, other))
            && (f.side.Buy? ==>
                  && q.quantity == p.quantity + f.quantity
                  && CostBasis(q) == CostBasis(p) - CashDelta(f)
                  && Realized(q) == Realized(p))
            && (f.side.Sell? ==>
                  && q.quantity == p.quantity - f.quantity
                  && CostBasis(q) == CostBasis(p) - p.averageCost * f.quantity
                  && Realized(q) == Realized(p) + CashDelta(f) - p.averageCost * f.quantity)
  {
    var p := PositionOf(a, id);
    if f.side.Buy? {
      AverageTimes(p.averageCost * p.quantity - CashDelta(f), p.quantity + f.quantity);
    } else {
      assert (f.executionPrice - p.averageCost) * f.quantity == f.notional - p.averageCost * f.quantity;
      assert p.averageCost * (p.quantity - f.quantity)
          == p.averageCost * p.quantity - p.averageCost * f.quantity;
    }
  }

  // ---- solvency --------------------------------------------------------------------------

  ghost predicate LongOnly(p: Position) {
    0.0 <= p.quantity && 0.0 <= p.averageCost && (p.quantity == 0.0 ==> p.averageCost == 0.0)
  }

  ghost predicate AllLong(a: Account) {
    forall id :: id in a.positions ==> LongOnly(a.positions[id])
  }

  lemma BuyCostsMoney(f: PricedFill, costs: Costs)
    requires Priced(f, costs) && ValidCosts(costs) && f.side.Buy?
    ensures CashDelta(f) <= 0.0
  {
    Scale(f.referencePrice, costs.slippageBps, f.quantity);
    assert 0.0 <= f.executionPrice;
    assert 0.0 <= f.notional;
    assert 0.0 <= f.notional * costs.commissionBps;
  }

  /** Booking keeps every position long-only; a booked purchase never overdraws cash. */
  lemma SolvencyKept(a: Account, id: int, f: PricedFill, costs: Costs)
    requires Priced(f, costs) && ValidCosts(costs)
    requires AllLong(a) && ApplyFill(a, id, f).Some?
    ensures AllLong(ApplyFill(a, id, f).value)
    ensures f.side.Buy? ==> 0.0 <= ApplyFill(a, id, f).value.cash
  {
    var p := PositionOf(a, id);
    var b := ApplyFill(a, id, f).value;
    assert LongOnly(p);
    if f.side.Buy? {
      BuyCostsMoney(f, costs);
      var total := p.averageCost * p.quantity - CashDelta(f);
      var quantity := p.quantity + f.quantity;
      assert 0.0 <= p.averageCost * p.quantity;
      assert 0.0 <= total && 0.0 < quantity;
      assert 0.0 <= total / quantity;
    }
    forall i | i in b.positions ensures LongOnly(b.positions[i]) {
      if i != id { assert i in a.positions; }
    }
  }

  /** Exactly when a sale can never take cash out of the account. */
  ghost predicate SalesPay(costs: Costs) {
    || (costs.slippageBps <= 10000.0 && costs.commissionBps + costs.sellTaxBps <= 10000.0)
    || (10000.0 <= costs.slippageBps && 10000.0 <= costs.commissionBps + costs.sellTaxBps)
  }

  lemma ProductSign(x: real, y: real)
    ensures 0.0 <= x * y <==> (0.0 <= x && 0.0 <= y) || (x <= 0.0 && y <= 0.0)
  {
  }

  lemma SaleProceeds(f: PricedFill, costs: Costs)
    requires Priced(f, costs) && f.side.Sell?
    ensures CashDelta(f) == f.referencePrice * f.quantity
      * ((1.0 - costs.slippageBps / 10000.0)
      * (1.0 - (costs.commissionBps + costs.sellTaxBps) / 10000.0))
  {
    var s := 1.0 - costs.slippageBps / 10000.0;
    var k := 1.0 - (costs.commissionBps + costs.sellTaxBps) / 10000.0;
    assert f.executionPrice == f.referencePrice * s;
    assert CashDelta(f) == f.notional * k;
    assert f.notional == f.referencePrice * s * f.quantity;
    calc {
      f.notional * k;
      f.referencePrice * s * f.quantity * k;
      f.referencePrice * f.quantity * (s * k);
    }
  }

  /** What a purchase takes from cash: the reference value with slippage and then commission on top. */
  lemma PurchaseCost(f: PricedFill, costs: Costs)
    requires Priced(f, costs) && f.side.Buy?
    ensures -CashDelta(f) == f.referencePrice * f.quantity
      * ((1.0 + costs.slippageBps / 10000.0) * (1.0 + costs.commissionBps / 10000.0))
  {
    var s := 1.0 + costs.slippageBps / 10000.0;
    var k := 1.0 + costs.commissionBps / 10000.0;
    assert f.executionPrice == f.referencePrice * s;
    assert -CashDelta(f) == f.notional * k;
    assert f.notional == f.referencePrice * s * f.quantity;
    calc {
      f.notional * k;
      f.referencePrice * s * f.quantity * k;
      f.referencePrice * f.quantity * (s * k);
    }
  }

  /** A sale leaves cash no lower than before if and only if the cost model satisfies `SalesPay`. */
  lemma SaleNeverCosts(f: PricedFill, costs: Costs)
    requires Priced(f, costs) && f.side.Sell?
    ensures 0.0 <= CashDelta(f) <==> SalesPay(costs)
  {
    var s := 1.0 - costs.slippageBps / 10000.0;
    var k := 1.0 - (costs.commissionBps + costs.sellTaxBps) / 10000.0;
    SaleProceeds(f, costs);
    ProductSign(s, k);
    assert 0.0 < f.referencePrice * f.quantity;
    ProductSign(f.referencePrice * f.quantity, s * k);
    if s * k <= 0.0 && 0.0 <= CashDelta(f) {
      assert s * k == 0.0;
    }
  }

  // ---- sums over the instruments of a run ------------------------------------------------

  function SumOver(g: Position -> real, ids: seq<int>, a: Account): real {
    if ids == [] then 0.0 else g(PositionOf(a, ids[0])) + SumOver(g, ids[1..], a)
  }

  lemma {:induction false} SumUntouched(g: Position -> real, ids: seq<int>, a: Account, b: Account, id: int)
    requires forall i :: i != id ==> PositionOf(a, i) == PositionOf(b, i)
    requires id !in ids
    ensures SumOver(g, ids, b) == SumOver(g, ids, a)
  {
    if ids != [] { SumUntouched(g, ids[1..], a, b, id); }
  }

  lemma {:induction false} SumUpdated(g: Position -> real, ids: seq<int>, a: Account, b: Account, id: int)
    requires forall i :: i != id ==> PositionOf(a, i) == PositionOf(b, i)
    requires NoDup(ids) && id in ids
    ensures SumOver(g, ids, b) == SumOver(g, ids, a) - g(PositionOf(a, id)) + g(PositionOf(b, id))
  {
    if ids[0] == id {
      SumUntouched(g, ids[1..], a, b, id);
    } else {
      SumUpdated(g, ids[1..], a, b, id);
    }
  }
}
