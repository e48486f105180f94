/**
  What pairing sales with purchases means, and what the run summary counts and sums: both told
  from the list of fills alone.
*/
module Pairing {
  import opened Sequences
  import opened Contracts
  import opened Accounting
  import opened Engine
  import opened Conservation
  import opened Service

  // ---- pairs -----------------------------------------------------------------------------------

  /** Fill `i` is `e`, a purchase of `id`, and no later fill is of that instrument. */
  ghost predicate OpenAt(fills: seq<Fill>, i: nat, id: int, e: Fill) {
    && i < |fills| && fills[i] == e && e.economics.side.Buy? && InstrumentOf(e) == id
    && forall k :: i < k < |fills| ==> InstrumentOf(fills[k]) != id
  }

  /** Fill `j` is the sale of pair `p`, and the fill of its instrument right before it is the purchase. */
  ghost predicate PairAt(fills: seq<Fill>, i: nat, j: nat, p: (Fill, Fill)) {
    && i < j < |fills| && fills[j] == p.1 && p.1.economics.side.Sell?
    && OpenAt(fills[..j], i, InstrumentOf(p.1), p.0)
  }

  /** Open entries are the instruments whose last fill is a purchase, with that purchase. */
  ghost predicate EntriesMean(fills: seq<Fill>, entries: map<int, Fill>) {
    && (forall id :: id in entries ==> exists i: nat :: OpenAt(fills, i, id, entries[id]))
    && (forall i: nat, id, e :: OpenAt(fills, i, id, e) ==> id in entries && entries[id] == e)
  }

  function IsSale(): Fill -> bool { (f: Fill) => f.economics.side.Sell? }

  function Sales(fills: seq<Fill>): nat { |Filter(IsSale(), fills)| }

  /** Closed trades are the pairs, one for each sale. */
  ghost predicate ClosedMean(fills: seq<Fill>, closed: seq<(Fill, Fill)>) {
    && (forall p :: p in closed ==> exists i: nat, j: nat :: PairAt(fills, i, j, p))
    && (forall i: nat, j: nat, p :: PairAt(fills, i, j, p) ==> p in closed)
    && |closed| == Sales(fills)
  }

  ghost predicate PairedAt(fills: seq<Fill>, j: nat) { exists i: nat, p :: PairAt(fills, i, j, p) }

  /** Every sale follows a purchase as the previous fill of its instrument. */
  ghost predicate AllPaired(fills: seq<Fill>) {
    forall j: nat :: j < |fills| && fills[j].economics.side.Sell? ==> PairedAt(fills, j)
  }

  lemma OpenGrows(fills: seq<Fill>, f: Fill, i: nat, id: int, e: Fill)
    ensures OpenAt(fills + [f], i, id, e) <==>
            || (i == |fills| && e == f && f.economics.side.Buy? && InstrumentOf(f) == id)
            || (OpenAt(fills, i, id, e) && InstrumentOf(f) != id)
  {
    var all := fills + [f];
    if i < |fills| && OpenAt(all, i, id, e) {
      assert InstrumentOf(all[|fills|]) != id;
      forall k | i < k < |fills| ensures InstrumentOf(fills[k]) != id { assert all[k] == fills[k]; }
    }
  }

  lemma PairGrows(fills: seq<Fill>, f: Fill, i: nat, j: nat, p: (Fill, Fill))
    ensures PairAt(fills + [f], i, j, p) <==>
            || PairAt(fills, i, j, p)
            || (j == |fills| && p.1 == f && f.economics.side.Sell? && OpenAt(fills, i, InstrumentOf(f), p.0))
  {
    hide OpenAt;
    var all := fills + [f];
    if j < |fills| { assert all[..j] == fills[..j]; }
    if j == |fills| {
      assert all[..j] == fills;
      OpenInRange(fills, i, InstrumentOf(f), p.0);
    }
  }

  lemma OpenInRange(fills: seq<Fill>, i: nat, id: int, e: Fill)
    ensures OpenAt(fills, i, id, e) ==> i < |fills|
  {
  }

  lemma OpenIsUnique(fills: seq<Fill>, i: nat, a: Fill, j: nat, b: Fill, id: int)
    requires OpenAt(fills, i, id, a) && OpenAt(fills, j, id, b)
    ensures a == b
  {
  }

  /** A fill of another instrument leaves an open entry open; a purchase opens its own. */
  lemma EntriesGrow(fills: seq<Fill>, entries: map<int, Fill>, f: Fill)
    requires EntriesMean(fills, entries)
    ensures EntriesMean(fills + [f],
                        if f.economics.side.Buy? then entries[InstrumentOf(f) := f] else entries - {InstrumentOf(f)})
  {
    hide OpenAt;
    var all, own := fills + [f], InstrumentOf(f);
    var after := if f.economics.side.Buy? then entries[own := f] else entries - {own};
    forall id | id in after ensures exists i: nat :: OpenAt(all, i, id, after[id]) {
      if id == own {
        OpenGrows(fills, f, |fills|, id, f);
        assert OpenAt(all, |fills|, id, after[id]);
      } else {
        var i: nat :| OpenAt(fills, i, id, entries[id]);
        OpenGrows(fills, f, i, id, entries[id]);
        assert OpenAt(all, i, id, after[id]);
      }
    }
    forall i: nat, id, e | OpenAt(all, i, id, e) ensures id in after && after[id] == e {
      OpenGrows(fills, f, i, id, e);
    }
  }

  /** A purchase closes nothing. */
  lemma ClosedBuy(fills: seq<Fill>, closed: seq<(Fill, Fill)>, f: Fill)
    requires ClosedMean(fills, closed) && f.economics.side.Buy?
    ensures ClosedMean(fills + [f], closed)
  {
    hide PairAt;
    FilterSnoc(IsSale(), fills, f);
    forall p | p in closed ensures exists i: nat, j: nat :: PairAt(fills + [f], i, j, p) {
      var i: nat, j: nat :| PairAt(fills, i, j, p);
      PairGrows(fills, f, i, j, p);
    }
    forall i: nat, j: nat, p | PairAt(fills + [f], i, j, p) ensures p in closed { PairGrows(fills, f, i, j, p); }
  }

  /** A sale closes the trade its instrument's last purchase opened. */
  lemma ClosedSell(fills: seq<Fill>, closed: seq<(Fill, Fill)>, f: Fill, i: nat, e: Fill)
    requires ClosedMean(fills, closed) && f.economics.side.Sell? && OpenAt(fills, i, InstrumentOf(f), e)
    ensures ClosedMean(fills + [f], closed + [(e, f)])
  {
    hide PairAt, OpenAt;
    var all, after := fills + [f], closed + [(e, f)];
    FilterSnoc(IsSale(), fills, f);
    assert after[|closed|] == (e, f);
    forall p | p in after ensures exists a: nat, b: nat :: PairAt(all, a, b, p) {
      if p in closed {
        var a: nat, b: nat :| PairAt(fills, a, b, p);
        PairGrows(fills, f, a, b, p);
      } else {
        PairGrows(fills, f, i, |fills|, p);
      }
    }
    forall a: nat, b: nat, p | PairAt(all, a, b, p) ensures p in after {
      PairGrows(fills, f, a, b, p);
      if !PairAt(fills, a, b, p) { OpenIsUnique(fills, a, p.0, i, e, InstrumentOf(f)); }
    }
  }

  lemma PairedGrows(fills: seq<Fill>, f: Fill, j: nat)
    ensures j < |fills| ==> (PairedAt(fills + [f], j) <==> PairedAt(fills, j))
  {
    hide PairAt;
    var all := fills + [f];
    if j < |fills| && PairedAt(all, j) {
      var i: nat, p :| PairAt(all, i, j, p);
      PairGrows(fills, f, i, j, p);
    }
    if j < |fills| && PairedAt(fills, j) {
      var i: nat, p :| PairAt(fills, i, j, p);
      PairGrows(fills, f, i, j, p);
    }
  }

  lemma AllPairedGrows(fills: seq<Fill>, f: Fill)
    ensures AllPaired(fills + [f]) <==>
            AllPaired(fills) && (f.economics.side.Sell? ==> PairedAt(fills + [f], |fills|))
  {
    hide PairedAt;
    var all := fills + [f];
    forall j: nat | j < |fills| ensures all[j] == fills[j] && (PairedAt(all, j) <==> PairedAt(fills, j)) {
      PairedGrows(fills, f, j);
    }
    assert all[|fills|] == f;
    if AllPaired(fills) && (f.economics.side.Sell? ==> PairedAt(all, |fills|)) {
      forall j: nat | j < |all| && all[j].economics.side.Sell? ensures PairedAt(all, j) {
        if j < |fills| { assert PairedAt(fills, j); }
      }
    }
  }

  lemma PairingStep(fills: seq<Fill>, t: Trades, f: Fill)
    requires EntriesMean(fills, t.entries) && ClosedMean(fills, t.closed)
    ensures CloseOne(t, f).Some? <==> (f.economics.side.Sell? ==> PairedAt(fills + [f], |fills|))
    ensures CloseOne(t, f).Some? ==>
              && EntriesMean(fills + [f], CloseOne(t, f).value.entries)
              && ClosedMean(fills + [f], CloseOne(t, f).value.closed)
  {
    hide ClosedMean, PairAt, OpenAt;
    EntriesGrow(fills, t.entries, f);
    if f.economics.side.Buy? {
      ClosedBuy(fills, t.closed, f);
    } else if InstrumentOf(f) in t.entries {
      var e := t.entries[InstrumentOf(f)];
      var i: nat :| OpenAt(fills, i, InstrumentOf(f), e);
      PairGrows(fills, f, i, |fills|, (e, f));
      ClosedSell(fills, t.closed, f, i, e);
    } else {
      NotPaired(fills, t.entries, f);
    }
  }

  lemma NotPaired(fills: seq<Fill>, entries: map<int, Fill>, f: Fill)
    requires EntriesMean(fills, entries) && InstrumentOf(f) !in entries
    ensures !PairedAt(fills + [f], |fills|)
  {
    hide PairAt, OpenAt;
    if PairedAt(fills + [f], |fills|) {
      var i: nat, p :| PairAt(fills + [f], i, |fills|, p);
      PairGrows(fills, f, i, |fills|, p);
      PairInRange(fills, i, |fills|, p);
    }
  }

  lemma PairInRange(fills: seq<Fill>, i: nat, j: nat, p: (Fill, Fill))
    ensures PairAt(fills, i, j, p) ==> j < |fills|
  {
  }

  lemma PairingNothing()
    ensures AllPaired([]) && EntriesMean([], map[]) && ClosedMean([], [])
  {
  }

  /**
    What pairing means: it succeeds if and only if the previous fill of every sale's instrument is
    a purchase; the closed trades are exactly those pairs, one per sale, and the open entries are
    the instruments whose last fill is a purchase.
  */
  lemma {:induction false} PairingIff(fills: seq<Fill>)
    ensures ClosedTrades(fills).Some? <==> AllPaired(fills)
    ensures ClosedTrades(fills).Some? ==>
              && EntriesMean(fills, ClosedTrades(fills).value.entries)
              && ClosedMean(fills, ClosedTrades(fills).value.closed)
  {
    hide EntriesMean, ClosedMean, AllPaired, PairedAt;
    if fills == [] {
      PairingNothing();
    } else {
      var front, f := fills[..|fills| - 1], fills[|fills| - 1];
      assert fills == front + [f];
      PairingIff(front);
      AllPairedGrows(front, f);
      if ClosedTrades(front).Some? { PairingStep(front, ClosedTrades(front).value, f); }
    }
  }

  // ---- the summary -----------------------------------------------------------------------------

  /** The trades with a gain and those with a loss, by position. */
  function Gains(pnls: seq<real>): set<nat> { set i: nat | i < |pnls| && pnls[i] > 0.0 }

  function Losses(pnls: seq<real>): set<nat> { set i: nat | i < |pnls| && pnls[i] < 0.0 }

  lemma {:induction false} Counted(g: real -> bool, pnls: seq<real>)
    ensures |Filter(g, pnls)| == |set i: nat | i < |pnls| && g(pnls[i])|
  {
    if pnls != [] {
      var n := |pnls| - 1;
      var front := pnls[..n];
      Counted(g, front);
      FilterSnoc(g, front, pnls[n]);
      assert front + [pnls[n]] == pnls;
      var before, all := set i: nat | i < n && g(front[i]), set i: nat | i < |pnls| && g(pnls[i]);
      if g(pnls[n]) {
        assert all == before + {n};
      } else {
        assert all == before;
      }
    }
  }

  lemma SignsCounted(pnls: seq<real>)
    ensures |Filter(Above(), pnls)| == |Gains(pnls)| && |Filter(Below(), pnls)| == |Losses(pnls)|
  {
    Counted(Above(), pnls);
    Counted(Below(), pnls);
    assert Gains(pnls) == set i: nat | i < |pnls| && Above()(pnls[i]);
    assert Losses(pnls) == set i: nat | i < |pnls| && Below()(pnls[i]);
  }

  /** Profits are listed trade by trade: price difference times quantity, less the costs of both legs. */
  lemma {:induction false} PnlsAt(closed: seq<(Fill, Fill)>)
    ensures |Pnls(closed)| == |closed|
    ensures forall i :: 0 <= i < |closed| ==>
              var entry, exit := closed[i].0.economics, closed[i].1.economics;
              Pnls(closed)[i] == (exit.executionPrice - entry.executionPrice) * exit.quantity
                                 - (entry.commission + entry.slippage + entry.tax)
                                 - (exit.commission + exit.slippage + exit.tax)
  {
    if closed != [] { PnlsAt(closed[..|closed| - 1]); }
  }

  /**
    What the summary says: it exists if and only if every sale is paired; it counts one trade per
    sale, those with a gain and those with a loss; the win rate is the share of gains; the return
    is net P&L per unit of capital; and gross is net plus the costs of all fills.
  */
  lemma SummaryMeans(q: Request, r: SimulationResult)
    ensures SummaryOf(q, r).Some? <==> AllPaired(r.fills)
    ensures SummaryOf(q, r).Some? ==>
              var m, pnls := SummaryOf(q, r).value, Pnls(ClosedTrades(r.fills).value.closed);
              && m.tradeCount == |pnls| == Sales(r.fills)
              && m.winning == |Gains(pnls)| && m.losing == |Losses(pnls)|
              && (m.winRate.None? <==> m.tradeCount == 0)
              && (m.winRate.Some? ==> m.winRate.value * m.tradeCount as real == m.winning as real)
              && m.netPnl == r.equity - q.initialCapital
              && (q.initialCapital != 0.0 ==> m.totalReturn * q.initialCapital == m.netPnl)
              && m.totalCost == SumFills(CostOf, r.fills) && m.grossPnl == m.netPnl + m.totalCost
  {
    hide ClosedTrades, AllPaired, SumFills, SumOver, IdList, Pnls, Gains, Losses, EntriesMean;
    PairingIff(r.fills);
    if SummaryOf(q, r).Some? {
      var closed := ClosedTrades(r.fills).value.closed;
      SignsCounted(Pnls(closed));
      PnlsAt(closed);
    }
  }
}
