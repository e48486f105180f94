/**
  How attempts end: in every reachable state an attempted order has its fill if and only if it
  could be priced and the account its predecessors left could carry it.
*/
module Settlements {
  import opened Sequences
  import opened Contracts
  import opened Accounting
  import opened Engine
  import opened Scheduler
  import opened Journal

  ghost predicate HasFill(fills: seq<Fill>, o: Order) {
    exists j :: 0 <= j < |fills| && fills[j].order == o
  }

  function FillsFrom(orders: seq<Order>): Fill -> bool { (f: Fill) => f.order in orders }

  /** The account after the fills of the first `i` attempts. */
  function AccountBefore(w: World, s: Sim, i: nat): Option<Account>
    requires i <= |s.attempts|
  {
    Replay(w.book, w.capital, Filter(FillsFrom(s.attempts[..i]), s.fills))
  }

  /** The order can be priced at its bar's close, and account `a` can carry the fill. */
  ghost predicate Bookable(w: World, a: Account, o: Order) {
    && o.execution.Some?
    && var f := w.price(o.side, o.quantity, o.execution.value.close);
       f.Some? && w.book(a, o.signal.instrument, f.value).Some?
  }

  ghost predicate SettledAt(w: World, s: Sim, i: nat)
    requires i < |s.attempts|
  {
    && AccountBefore(w, s, i).Some?
    && (HasFill(s.fills, s.attempts[i]) <==> Bookable(w, AccountBefore(w, s, i).value, s.attempts[i]))
  }

  /** The order has an execution bar whose close it cannot be priced at. */
  ghost predicate Unpriceable(w: World, o: Order) {
    o.execution.Some? && w.price(o.side, o.quantity, o.execution.value.close).None?
  }

  ghost predicate SettledInv(w: World, s: Sim) {
    && (forall i :: 0 <= i < |s.attempts| ==> SettledAt(w, s, i))
    && (s.aborted <==> exists o :: o in s.attempts && Unpriceable(w, o))
  }

  lemma SettledKept(w: World, s: Sim, s': Sim)
    requires SettledInv(w, s) && s'.attempts == s.attempts && s'.fills == s.fills && s'.aborted == s.aborted
    ensures SettledInv(w, s')
  {
    hide Bookable;
    forall i | 0 <= i < |s'.attempts| ensures SettledAt(w, s', i) { assert SettledAt(w, s, i); }
  }

  /** Fills of later orders change nothing about an earlier attempt. */
  lemma EarlierStays(w: World, s: Sim, s': Sim, o: Order, added: seq<Fill>, i: nat)
    requires i < |s.attempts| && SettledAt(w, s, i) && o !in s.attempts
    requires s'.attempts == s.attempts + [o] && s'.fills == s.fills + added && forall f :: f in added ==> f.order == o
    ensures SettledAt(w, s', i)
  {
    hide Bookable, Replay;
    var before := s.attempts[..i];
    assert s'.attempts[..i] == before;
    FilterConcat(FillsFrom(before), s.fills, added);
    FilterNone(FillsFrom(before), added);
    assert Filter(FillsFrom(before), s.fills) + [] == Filter(FillsFrom(before), s.fills);
    AddedElsewhere(s.fills, added, o, s.attempts[i]);
  }

  lemma AddedElsewhere(fills: seq<Fill>, added: seq<Fill>, o: Order, x: Order)
    requires x != o && forall f :: f in added ==> f.order == o
    ensures HasFill(fills + added, x) <==> HasFill(fills, x)
  {
    if HasFill(fills, x) {
      var j :| 0 <= j < |fills| && fills[j].order == x;
      assert (fills + added)[j].order == x;
    }
    if HasFill(fills + added, x) {
      var j :| 0 <= j < |fills + added| && (fills + added)[j].order == x;
      if j >= |fills| { assert added[j - |fills|] in added; }
    }
  }

  /** The account an order meets is the one that all fills so far leave. */
  lemma LastMeets(w: World, s: Sim, s': Sim, o: Order, added: seq<Fill>)
    requires FillsInv(w, s) && o !in s.attempts
    requires s'.attempts == s.attempts + [o] && s'.fills == s.fills + added && forall f :: f in added ==> f.order == o
    ensures AccountBefore(w, s', |s.attempts|) == Some(s.account)
    ensures HasFill(s'.fills, o) <==> added != []
  {
    hide FillOk, Replay;
    assert s'.attempts[..|s.attempts|] == s.attempts;
    FilterConcat(FillsFrom(s.attempts), s.fills, added);
    FilterAll(FillsFrom(s.attempts), s.fills);
    FilterNone(FillsFrom(s.attempts), added);
    assert s.fills + [] == s.fills;
    forall j | 0 <= j < |s.fills| ensures s.fills[j].order != o { assert s.fills[j] in s.fills; }
    if added != [] { assert s'.fills[|s.fills|] == added[0] && added[0] in added; }
  }

  lemma SettledAttempt(w: World, s: Sim)
    requires SettledInv(w, s) && FillsInv(w, s) && !s.aborted && s.queue != [] && s.queue[0] !in s.attempts
    ensures SettledInv(w, Attempt(w, s))
  {
    hide FillsInv, SettledAt, Replay;
    var s', o := Attempt(w, s), s.queue[0];
    AttemptHasShape(w, s);
    var outcome := Settle(w, s.account, o);
    var added := if outcome.Booked? then [outcome.fill] else [];
    assert s'.fills == s.fills + added;
    assert outcome.Booked? <==> Bookable(w, s.account, o);
    assert s'.aborted <==> Unpriceable(w, o);
    assert s'.aborted ==> o in s'.attempts;
    forall i | 0 <= i < |s'.attempts| ensures SettledAt(w, s', i) {
      if i < |s.attempts| {
        EarlierStays(w, s, s', o, added, i);
      } else {
        LastMeets(w, s, s', o, added);
        LastSettled(w, s', i, s.account);
      }
    }
  }

  lemma LastSettled(w: World, s: Sim, i: nat, a: Account)
    requires i < |s.attempts| && AccountBefore(w, s, i) == Some(a)
    requires HasFill(s.fills, s.attempts[i]) <==> Bookable(w, a, s.attempts[i])
    ensures SettledAt(w, s, i)
  {
  }

  lemma SettledStep(w: World, limit: Option<int>, s: Sim)
    requires SettledInv(w, s) && FillsInv(w, s) && (s.queue != [] ==> s.queue[0] !in s.attempts)
    ensures SettledInv(w, Next(w, limit, s))
  {
    hide SettledInv, FillsInv;
    if s.aborted {
    } else if s.queue != [] {
      SettledAttempt(w, s);
    } else {
      if s.agenda != [] { DecideHasShape(w, s); }
      SettledKept(w, s, Next(w, limit, s));
    }
  }

  lemma {:induction false} SettledHolds(w: World, universe: set<int>, limit: Option<int>, k: nat)
    requires Schedulable(w, universe)
    ensures SettledInv(w, Run(w, limit, k))
  {
    hide Next, Schedulable;
    if k > 0 {
      SettledHolds(w, universe, limit, k - 1);
      SettledRun(w, universe, limit, k);
    }
  }

  lemma SettledRun(w: World, universe: set<int>, limit: Option<int>, k: nat)
    requires Schedulable(w, universe) && 0 < k && SettledInv(w, Run(w, limit, k - 1))
    ensures SettledInv(w, Run(w, limit, k))
  {
    hide Next, FillsInv, SettledInv, Schedulable;
    NeverTwice(w, universe, limit, k - 1);
    FillsHold(w, universe, limit, k - 1);
    SettledStep(w, limit, Run(w, limit, k - 1));
  }

  // ---- in terms of the configuration -----------------------------------------------------------

  /** The account can pay for the order at this close, or holds what the order sells. */
  ghost predicate Affordable(costs: Costs, a: Account, o: Order, close: real) {
    if o.side.Buy?
    then close * o.quantity * ((1.0 + costs.slippageBps / 10000.0) * (1.0 + costs.commissionBps / 10000.0)) <= a.cash
    else o.quantity <= PositionOf(a, o.signal.instrument).quantity
  }

  lemma BookableIff(c: Config, a: Account, o: Order)
    requires o.execution.Some?
    ensures Bookable(WorldOf(c), a, o) <==>
            && 0.0 < o.quantity && 0.0 < o.execution.value.close
            && Affordable(c.request.costs, a, o, o.execution.value.close)
  {
    hide PriceFill, ApplyFill;
    var close := o.execution.value.close;
    PricesIff(o.side, o.quantity, close, c.request.costs);
    var f := PriceFill(o.side, o.quantity, close, c.request.costs);
    if f.Some? {
      BookedIff(a, o.signal.instrument, f.value);
      if o.side.Buy? { PurchaseCost(f.value, c.request.costs); }
    }
  }

  /**
    In every reachable state an attempted order has a fill if and only if quantity and price are
    positive and the account left by the fills of the orders attempted before it can pay the
    purchase with slippage and commission, or holds the quantity to be sold.
  */
  lemma FilledIff(c: Config, limit: Option<int>, k: nat, i: nat)
    requires ValidRequest(c.request) && i < |Run(WorldOf(c), limit, k).attempts|
    ensures var s := Run(WorldOf(c), limit, k);
            var o, a := s.attempts[i], AccountBefore(WorldOf(c), s, i);
            && o.execution.Some? && a.Some?
            && (HasFill(s.fills, o) <==>
                  && 0.0 < o.quantity && 0.0 < o.execution.value.close
                  && Affordable(c.request.costs, a.value, o, o.execution.value.close))
  {
    hide Run, WorldOf, Universe, Bookable, AccountBefore, HasFill, Affordable;
    var w := WorldOf(c);
    var s := Run(w, limit, k);
    ConfigSchedulable(c);
    SoundHolds(w, Universe(c), limit, k);
    SettledHolds(w, Universe(c), limit, k);
    assert SettledAt(w, s, i);
    assert s.attempts[i] in s.attempts;
    BookableIff(c, AccountBefore(w, s, i).value, s.attempts[i]);
  }

  /** A run is aborted if and only if some attempted order has a non-positive quantity or close. */
  lemma AbortedIff(c: Config, limit: Option<int>, k: nat)
    requires ValidRequest(c.request)
    ensures var s := Run(WorldOf(c), limit, k);
            s.aborted <==> exists o :: && o in s.attempts && o.execution.Some?
                                       && (o.quantity <= 0.0 || o.execution.value.close <= 0.0)
  {
    hide Run, Universe, SettledAt, Events;
    var w := WorldOf(c);
    ConfigSchedulable(c);
    SettledHolds(w, Universe(c), limit, k);
    forall o: Order
      ensures Unpriceable(w, o) <==> o.execution.Some? && (o.quantity <= 0.0 || o.execution.value.close <= 0.0)
    {
      if o.execution.Some? { PricesIff(o.side, o.quantity, o.execution.value.close, c.request.costs); }
    }
  }
}
