/**
  Values shared by the reference backtest: bars, run requests and the artifact rows bound to a
  run.  Instants are integers; money and quantities are exact reals.
*/
module Contracts {
  import opened Sequences

  datatype Bar = Bar(
    open: int,
    series: int,
    revision: int,
    available: int,
    systemAvailable: int,
    effective: int,
    close: real)

  /** Cost model, in basis points. */
  datatype Costs = Costs(commissionBps: real, slippageBps: real, sellTaxBps: real)

  /** SMA parameters; `targetText` is the decimal text of `target`. */
  datatype Parameters = Parameters(fast: int, slow: int, target: real, targetText: string)

  datatype Instrument = Instrument(id: int, lag: int)

  /** `runKey` is the run-specification digest that prefixes every order key. */
  datatype Request = Request(
    eventFrom: int,
    eventTo: int,
    initialCapital: real,
    strategy: Parameters,
    costs: Costs,
    instruments: seq<Instrument>,
    runKey: string)

  /** Artifact rows per instrument for the three roles of a run. */
  datatype Data = Data(
    signal: map<int, seq<Bar>>,
    execution: map<int, seq<Bar>>,
    valuation: map<int, seq<Bar>>)

  datatype Config = Config(request: Request, data: Data)

  ghost predicate ValidCosts(c: Costs) {
    0.0 <= c.commissionBps && 0.0 <= c.slippageBps && 0.0 <= c.sellTaxBps
  }

  ghost predicate ValidParameters(p: Parameters) {
    1 <= p.fast < p.slow && 0.0 < p.target
  }

  ghost predicate UniqueIds(instruments: seq<Instrument>) {
    forall i, j :: 0 <= i < j < |instruments| ==> instruments[i].id != instruments[j].id
  }

  /** What request validation guarantees before a run starts. */
  ghost predicate ValidRequest(r: Request) {
    && r.eventFrom < r.eventTo
    && 0.0 < r.initialCapital
    && ValidParameters(r.strategy)
    && ValidCosts(r.costs)
    && r.instruments != []
    && UniqueIds(r.instruments)
    && (forall i :: 0 <= i < |r.instruments| ==> 0 <= r.instruments[i].lag)
  }

  function Ids(instruments: seq<Instrument>): set<int> {
    set i | i in instruments :: i.id
  }

  function RowsOf(rows: map<int, seq<Bar>>, id: int): seq<Bar> {
    if id in rows then rows[id] else []
  }

  function LagOf(instruments: seq<Instrument>, id: int): int {
    if instruments == [] then 0
    else if instruments[0].id == id then instruments[0].lag
    else LagOf(instruments[1..], id)
  }

  /** The lag is that of the requested instrument with this id. */
  lemma {:induction false} LagIsRequested(instruments: seq<Instrument>, i: Instrument)
    requires UniqueIds(instruments) && i in instruments
    ensures LagOf(instruments, i.id) == i.lag
  {
    if instruments[0] != i {
      var j :| 0 <= j < |instruments| && instruments[j] == i;
      assert instruments[0].id != instruments[j].id && instruments[1..][j - 1] == i;
      LagIsRequested(instruments[1..], i);
    }
  }

  lemma {:induction false} LagNonNegative(instruments: seq<Instrument>, id: int)
    requires forall i :: 0 <= i < |instruments| ==> 0 <= instruments[i].lag
    ensures 0 <= LagOf(instruments, id)
  {
    if instruments != [] { LagNonNegative(instruments[1..], id); }
  }
}
