/**
  The deterministic scheduler of the reference backtest, as a machine that makes one small step
  at a time: attempt the next due order, take the next decision of the current instant, or move
  on to the next instant.  `Run(w, limit, k)` is the state after `k` steps; every state of every
  run is one of these, so a property of `Run` for all `k` is a property of every reachable state.

  `limit` bounds the instants the machine may move on to.  The engine has no limit; a run with
  limit T is what the engine has done once the instants up to T are over.
*/
module Engine {
  import Numbers = CanonicalNumber
  import opened Sequences
  import opened Contracts
  import opened Selector
  import opened Accounting

  // ---- strategy --------------------------------------------------------------------------

  datatype Intent = Intent(target: real, text: string, reason: string)

  function LastOf<T>(s: seq<T>, n: int): seq<T> {
    if 0 <= n <= |s| then s[|s| - n..] else s
  }

  function SumClose(bars: seq<Bar>): real {
    if bars == [] then 0.0 else bars[0].close + SumClose(bars[1..])
  }

  function Mean(bars: seq<Bar>, n: int): real {
    if n == 0 then 0.0 else SumClose(LastOf(bars, n)) / n as real
  }

  /** Long/flat moving-average crossover; flat until `slow` bars are visible. */
  function Strategy(p: Parameters, bars: seq<Bar>): (i: Intent)
    ensures i.target == p.target || i.target == 0.0
  {
    if |bars| < p.slow then Intent(0.0, "0", "SMA_WARMUP")
    else if Mean(bars, p.fast) > Mean(bars, p.slow) then
      Intent(p.target, p.targetText, if p.target == 0.0 then "SMA_CROSS_FLAT" else "SMA_CROSS_LONG")
    else Intent(0.0, "0", "SMA_CROSS_FLAT")
  }

  // ---- journal ---------------------------------------------------------------------------

  datatype Event = Event(ts: int, instrument: int, trigger: Bar)

  /** `cash` and `state` are what the decision's state digest is taken over. */
  datatype Decision = Decision(
    sequence: nat,
    instrument: int,
    ts: int,
    trigger: Bar,
    inputs: seq<Bar>,
    cash: real,
    state: Position)

  datatype Signal = Signal(
    sequence: nat,
    instrument: int,
    ts: int,
    target: real,
    reason: string,
    trigger: Bar)

  datatype Order = Order(
    key: string,
    signal: Signal,
    side: Side,
    quantity: real,
    submittedAt: int,
    execution: Option<Bar>)

  datatype Fill = Fill(
    order: Order,
    fillTs: int,
    referenceBar: Bar,
    referencePrice: real,
    economics: PricedFill)

  // ---- order keys ------------------------------------------------------------------------

  /** Run, decision number, instrument and target, separated by bars. */
  function OrderKey(runKey: string, sequence: nat, instrument: int, targetText: string): string {
    runKey + ("|" + (Numbers.Digits(sequence) + ("|" + (Numbers.IntegerText(instrument) + ("|" + targetText)))))
  }

  predicate KeyBefore(a: Order, b: Order) {
    TextBefore(a.key, b.key)
  }

  // ---- decision events -------------------------------------------------------------------

  function FindOpen(bars: seq<Bar>, o: int): Option<Bar> {
    if bars == [] then None else if bars[0].open == o then Some(bars[0]) else FindOpen(bars[1..], o)
  }

  /** The missing-trigger case is a lookup error in the source; `TriggerNeverMisses` excludes it. */
  function InstrumentEvents(id: int, rows: seq<Bar>, schedule: seq<(int, int)>, from: int, to: int): seq<Event> {
    if schedule == [] then []
    else
      var rest := InstrumentEvents(id, rows, schedule[1..], from, to);
      var (ts, o) := schedule[0];
      if from <= ts < to then
        match FindOpen(Visible(rows, ts), o)
        case Some(trigger) => [Event(ts, id, trigger)] + rest
        case None => rest
      else rest
  }

  function RawEvents(instruments: seq<Instrument>, signal: map<int, seq<Bar>>, from: int, to: int): seq<Event> {
    if instruments == [] then []
    else
      var id := instruments[0].id;
      var rows := RowsOf(signal, id);
      InstrumentEvents(id, rows, Schedule(rows), from, to) + RawEvents(instruments[1..], signal, from, to)
  }

  predicate EventBefore(a: Event, b: Event) {
    || a.ts < b.ts
    || (a.ts == b.ts
        && (|| a.instrument < b.instrument
            || (a.instrument == b.instrument
                && (|| a.trigger.series < b.trigger.series
                    || (a.trigger.series == b.trigger.series && a.trigger.open <= b.trigger.open)))))
  }

  function Events(c: Config): seq<Event> {
    var r := c.request;
    Sort(EventBefore, RawEvents(r.instruments, c.data.signal, r.eventFrom, r.eventTo))
  }

  function EventAt(t: int): Event -> bool { (e: Event) => e.ts == t }

  function EventsAt(events: seq<Event>, t: int): seq<Event> {
    Filter(EventAt(t), events)
  }

  function EventTimes(events: seq<Event>): set<int> {
    set e | e in events :: e.ts
  }

  // ---- what the scheduler consults ----------------------------------------------------------

  /**
    The scheduler reads its surroundings only through these: the decision events, the strategy
    inputs an instrument shows at an instant, the strategy, the execution bar for an order
    (instrument, trigger open, placement instant), order keys, pricing and booking.  What is
    proved of the machine for every world holds for the world of any configuration.
  */
  datatype World = World(
    capital: real,
    events: seq<Event>,
    inputs: (int, int) -> seq<Bar>,
    intent: seq<Bar> -> Intent,
    execution: (int, int, int) -> Option<Bar>,
    key: (nat, int, string) -> string,
    price: (Side, real, real) -> Option<PricedFill>,
    book: (Account, int, PricedFill) -> Option<Account>)

  function Inputs(c: Config, id: int, t: int): seq<Bar> {
    LastOf(Visible(RowsOf(c.data.signal, id), t), c.request.strategy.slow)
  }

  function Execution(c: Config, id: int, after: int, t: int): Option<Bar> {
    NextExecution(RowsOf(c.data.execution, id), after, t + LagOf(c.request.instruments, id))
  }

  function WorldOf(c: Config): World {
    World(c.request.initialCapital,
          Events(c),
          (id: int, t: int) => Inputs(c, id, t),
          (bars: seq<Bar>) => Strategy(c.request.strategy, bars),
          (id: int, after: int, t: int) => Execution(c, id, after, t),
          (n: nat, id: int, text: string) => OrderKey(c.request.runKey, n, id, text),
          (side: Side, quantity: real, price: real) => PriceFill(side, quantity, price, c.request.costs),
          ApplyFill)
  }

  lemma WorldEvents(c: Config)
    ensures WorldOf(c).events == Events(c)
  {
  }

  // ---- the machine -----------------------------------------------------------------------

  /**
    `past` and `future` are the processed and unprocessed parts of the time list; while an
    instant is being processed it is the last of `past`.  `queue` and `agenda` are the due orders
    and the decision events of that instant still to be handled.  `attempts` records every order
    taken from the queue.  `aborted` is the uncaught pricing error.
  */
  datatype Sim = Sim(
    past: seq<int>,
    future: set<int>,
    queue: seq<Order>,
    agenda: seq<Event>,
    pending: map<int, seq<Order>>,
    decisions: seq<Decision>,
    signals: seq<Signal>,
    orders: seq<Order>,
    fills: seq<Fill>,
    attempts: seq<Order>,
    account: Account,
    aborted: bool)

  function Init(w: World): Sim {
    Sim([], EventTimes(w.events), [], [], map[], [], [], [], [], [], Account(w.capital, map[]), false)
  }

  function PendingAt(pending: map<int, seq<Order>>, t: int): seq<Order> {
    if t in pending then pending[t] else []
  }

  /** Move on to the next instant: pop its pending orders by key, list its decision events. */
  function Advance(w: World, s: Sim): Sim
    requires s.future != {}
  {
    var t := Minimum(s.future);
    s.(past := s.past + [t],
       future := s.future - {t},
       queue := Sort(KeyBefore, PendingAt(s.pending, t)),
       agenda := EventsAt(w.events, t),
       pending := s.pending - {t})
  }

  function FillFor(o: Order, bar: Bar, f: PricedFill): Fill {
    Fill(o, bar.effective, bar, bar.close, f)
  }

  /** How an attempt ends: nothing to execute or refused, a pricing error, or booked. */
  datatype Settlement = Unfilled | PricingError | Booked(account: Account, fill: Fill)

  function Settle(w: World, a: Account, o: Order): Settlement {
    match o.execution
    case None => Unfilled
    case Some(bar) =>
      match w.price(o.side, o.quantity, bar.close)
      case None => PricingError
      case Some(f) =>
        match w.book(a, o.signal.instrument, f)
        case None => Unfilled
        case Some(account) => Booked(account, FillFor(o, bar, f))
  }

  /** Attempt the next due order; a refusal leaves the portfolio and the fills alone. */
  function Attempt(w: World, s: Sim): Sim
    requires s.queue != []
  {
    var s' := s.(queue := s.queue[1..], attempts := s.attempts + [s.queue[0]]);
    match Settle(w, s.account, s.queue[0])
    case Unfilled => s'
    case PricingError => s'.(aborted := true)
    case Booked(account, fill) => s'.(account := account, fills := s.fills + [fill])
  }

  /** An attempt touches only the queue, the attempts, the fills, the account and the abort flag. */
  ghost predicate AttemptShape(s: Sim, s': Sim) {
    && s.queue != [] && s'.queue == s.queue[1..] && s'.attempts == s.attempts + [s.queue[0]]
    && s'.past == s.past && s'.future == s.future && s'.agenda == s.agenda && s'.pending == s.pending
    && s'.decisions == s.decisions && s'.signals == s.signals && s'.orders == s.orders
  }

  lemma AttemptHasShape(w: World, s: Sim)
    requires s.queue != []
    ensures AttemptShape(s, Attempt(w, s))
  {
  }

  function DecisionFor(w: World, s: Sim, e: Event): Decision {
    Decision(|s.decisions| + 1, e.instrument, e.ts, e.trigger, w.inputs(e.instrument, e.ts),
             s.account.cash, PositionOf(s.account, e.instrument))
  }

  function OrderFor(w: World, d: Decision, i: Intent): Order {
    Order(w.key(d.sequence, d.instrument, i.text),
          Signal(d.sequence, d.instrument, d.ts, i.target, i.reason, d.trigger),
          if i.target > d.state.quantity then Buy else Sell,
          Abs(i.target - d.state.quantity),
          d.ts,
          w.execution(d.instrument, d.trigger.open, d.ts))
  }

  /** Record the order and, when it has an execution bar, file it under that bar's instant. */
  function Place(s: Sim, o: Order): Sim {
    var s' := s.(signals := s.signals + [o.signal], orders := s.orders + [o]);
    match o.execution
    case None => s'
    case Some(bar) =>
      var t := bar.effective;
      s'.(pending := s.pending[t := PendingAt(s.pending, t) + [o]],
          future := if t in s.past then s.future else s.future + {t})
  }

  /** Placing an order touches only the signals, the orders, the pending orders and the future. */
  lemma PlaceShape(s: Sim, o: Order)
    ensures var s' := Place(s, o);
            s' == s.(signals := s.signals + [o.signal], orders := s.orders + [o],
                     pending := s'.pending, future := s'.future)
  {
  }

  function Taken(s: Sim, d: Decision): Sim
    requires s.agenda != []
  {
    s.(agenda := s.agenda[1..], decisions := s.decisions + [d])
  }

  /** Take the next decision of the instant. */
  function Decide(w: World, s: Sim): Sim
    requires s.agenda != []
  {
    var d := DecisionFor(w, s, s.agenda[0]);
    var i := w.intent(d.inputs);
    if i.target == d.state.quantity then Taken(s, d) else Place(Taken(s, d), OrderFor(w, d, i))
  }

  /** A decision takes the head of the agenda, logs `d`, and may place `o`. */
  ghost predicate DecideShape(s: Sim, s': Sim, d: Decision, o: Order) {
    && s.agenda != [] && s'.agenda == s.agenda[1..] && s'.decisions == s.decisions + [d]
    && s'.past == s.past && s'.queue == s.queue && s'.attempts == s.attempts
    && s'.fills == s.fills && s'.account == s.account && s'.aborted == s.aborted
    && (|| (s'.orders == s.orders && s'.signals == s.signals && s'.future == s.future && s'.pending == s.pending)
        || (s'.orders == s.orders + [o] && s'.signals == s.signals + [o.signal]
            && s'.future == Place(s, o).future && s'.pending == Place(s, o).pending))
  }

  lemma DecideHasShape(w: World, s: Sim)
    requires s.agenda != []
    ensures var d := DecisionFor(w, s, s.agenda[0]);
            DecideShape(s, Decide(w, s), d, OrderFor(w, d, w.intent(d.inputs)))
  {
  }

  predicate Within(limit: Option<int>, t: int) {
    limit.None? || t <= limit.value
  }

  function Next(w: World, limit: Option<int>, s: Sim): Sim {
    if s.aborted then s
    else if s.queue != [] then Attempt(w, s)
    else if s.agenda != [] then Decide(w, s)
    else if s.future != {} && Within(limit, Minimum(s.future)) then Advance(w, s)
    else s
  }

  function Run(w: World, limit: Option<int>, k: nat): Sim {
    if k == 0 then Init(w) else Next(w, limit, Run(w, limit, k - 1))
  }

  predicate Done(s: Sim) {
    s.aborted || (s.queue == [] && s.agenda == [] && s.future == {})
  }

  /** A finished run stays as it is. */
  lemma {:induction false} DoneStays(w: World, limit: Option<int>, k: nat, n: nat)
    requires Done(Run(w, limit, k)) && k <= n
    ensures Run(w, limit, n) == Run(w, limit, k)
  {
    if k < n { DoneStays(w, limit, k, n - 1); }
  }

  // ---- result ----------------------------------------------------------------------------

  datatype Valuation = Valuation(
    instrument: int,
    ts: int,
    bar: Bar,
    quantity: real,
    averageCost: real,
    realizedPnl: real,
    marketValue: real,
    unrealizedPnl: real)

  datatype SimulationResult = SimulationResult(
    decisions: seq<Decision>,
    signals: seq<Signal>,
    orders: seq<Order>,
    fills: seq<Fill>,
    cash: real,
    positions: map<int, Position>,
    valuations: seq<Valuation>,
    equity: real)

  function ValueAt(id: int, ts: int, bar: Bar, p: Position): Valuation {
    Valuation(id, ts, bar, p.quantity, p.averageCost, p.realizedPnl,
              p.quantity * bar.close, (bar.close - p.averageCost) * p.quantity)
  }

  /** An absent or empty valuation binding falls back to the execution rows. */
  function ValuationRows(d: Data): map<int, seq<Bar>> {
    if d.valuation == map[] then d.execution else d.valuation
  }

  /** `None` is the error that some instrument has no bar visible at the end of the window. */
  function Valuations(instruments: seq<Instrument>, rows: map<int, seq<Bar>>, ts: int, a: Account)
    : Option<seq<Valuation>>
  {
    if instruments == [] then Some([])
    else
      var id := instruments[0].id;
      var visible := Visible(RowsOf(rows, id), ts);
      if visible == [] then None
      else
        match Valuations(instruments[1..], rows, ts, a)
        case None => None
        case Some(rest) => Some([ValueAt(id, ts, visible[|visible| - 1], PositionOf(a, id))] + rest)
  }

  function SumMarket(vs: seq<Valuation>): real {
    if vs == [] then 0.0 else vs[0].marketValue + SumMarket(vs[1..])
  }

  function SumUnrealized(vs: seq<Valuation>): real {
    if vs == [] then 0.0 else vs[0].unrealizedPnl + SumUnrealized(vs[1..])
  }

  predicate Bound(c: Config) {
    var ids := Ids(c.request.instruments);
    c.data.signal.Keys == ids && c.data.execution.Keys == ids && ValuationRows(c.data).Keys == ids
  }

  function PositionsOf(ids: set<int>, a: Account): map<int, Position> {
    map id | id in ids :: PositionOf(a, id)
  }

  function ResultOf(s: Sim, ids: set<int>, valuations: seq<Valuation>): SimulationResult {
    SimulationResult(s.decisions, s.signals, s.orders, s.fills, s.account.cash,
                     PositionsOf(ids, s.account), valuations, s.account.cash + SumMarket(valuations))
  }

  function Valued(s: Sim, ids: set<int>, valuations: Option<seq<Valuation>>): Result<SimulationResult> {
    match valuations
    case None => Err("Reference valuation component has no bar visible at event_to.")
    case Some(vs) => Ok(ResultOf(s, ids, vs))
  }

  /** What `simulate` returns once the loop has ended in state `s`. */
  function Outcome(c: Config, s: Sim): Result<SimulationResult> {
    if s.aborted then Err("Reference fills require positive quantity and price.")
    else Valued(s, Ids(c.request.instruments),
                Valuations(c.request.instruments, ValuationRows(c.data), c.request.eventTo, s.account))
  }
}
