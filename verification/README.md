# Verified model of the bisfin backtest, revision store, catalog and ingestion

This project models, in Dafny, the parts of bisfin where correctness is hardest to see from the
code, and proves what they promise for all inputs and all reachable states.

* **Reference backtest.** `Selector` and `ArtifactSelector` choose revisions as of an instant.
  `Engine` describes the event loop as a machine that makes one small step at a time; `Simulator`
  is the loop itself, over mutable pending orders, a time list that grows while it is walked and
  a mutable portfolio, proved to follow the machine. `DecisionEvents`, `Scheduler`, `LookAhead`,
  `Journal`, `Decisions`, `Settlements`, `Conservation`, `Alternation`, `Crossover`, `KeyOrdering`
  and `AttemptOrder` prove properties of every reachable state; `FinalValuation`, `Accounting`,
  `Service`, `Pairing` and `Ledger` tie together the portfolio, the valuation, the summary, the
  trade list and the persisted journal.
* **Revision store.** `RevisionStore` lets transactions interleave freely under per-bar locks;
  `FrozenReplay` relates what a snapshot froze to what could have been read directly.
* **Temporal catalog.** `Intervals`, `SpecificationHistory`, `Catalog` and `CatalogStore` cover
  symbol and specification histories as chains of half-open intervals; `CatalogAcceptance` says
  exactly which definitions are accepted.
* **Ingestion.** `CanonicalNumber`, `CanonicalJson` and `JsonGrammar` decide when two rows are the same value;
  `Duplicates`, `Canonicalization`, `BatchProtocol` and `BatchReplies` follow rows and batches from
  the response to the store, with failures at every step.

How to read the engine results: `Run(w, limit, k)` is the state after `k` small steps. A statement
for all `k` is a statement about every reachable state, and `Simulate` is proved to end in the
machine's final state.

Modelling decisions:

* Money is exact (`real`). The identities are those of the unrounded arithmetic; the decimal
  context's rounding is modelled only where numbers are printed.
* Digests are not computed. Where a decision records a digest, the model keeps what the digest is
  taken over; where the duplicate policy compares digests, the digest is an arbitrary function and
  freedom from collisions is an explicit hypothesis of the one lemma that needs it.
* Instants and dates are integers. Clocks, the catalog join and the series lookup are parameters.
* Local variables of `simulate` that several loops change are fields of `SimulationRun`.
  Dictionaries whose iteration order the source sorts away are enumerated in ascending order.
* Database tables are sequences or maps in classes; locks, commits, rollbacks and crashes are
  steps. Reads inside a transaction see committed rows and the transaction's own. The overlap guard
  of the catalog is the insertion function's own check; closing an interval only shrinks it, so the
  guard on updates cannot fire.
* `LedgerTables` holds the rows of one run, and a refused persistence is rolled back. The rows a
  batch protocol run commits are the bar revisions themselves, written by `RevisionStore.Writes`.
* Orders that were never attempted and orders that were refused are persisted alike, as rejected
  with reason INSUFFICIENT_CASH when they have an execution bar; the model keeps that.

Where code and documentation disagree, the model follows the code.
`docs/reference_backtest_engine_fa.md:45-47` promises that simultaneous fills are ordered by
ascending instrument, series and bar. The engine orders them by the text of their semantic key, in
which the decision number comes first. `AttemptOrder.DocumentedIff` states exactly when two orders
due together are attempted in the documented order, `AttemptOrder.DecisionOrderIff` when they are
attempted in decision order, and `AttemptOrder.DocumentedOrderFails` is a configuration whose run
leaves the documented order.

## Model

| member | source | states |
|---|---|---|
| `ArtifactSelector.ArtifactBarSelector.constructor` | src/bisfin/backtest/selector.py:15-26 | Groups the rows by bar open, each group ordered by availability then revision |
| `ArtifactSelector.ArtifactBarSelector.Create` | src/bisfin/backtest/selector.py:15-26 | A component without bars is refused, any other one is grouped |
| `ArtifactSelector.ArtifactBarSelector.DecisionSchedule` | src/bisfin/backtest/selector.py:28-39 | One (first visibility, bar open) pair per logical bar, in that order |
| `ArtifactSelector.ArtifactBarSelector.VisibleBars` | src/bisfin/backtest/selector.py:41-49 | Returns the point-in-time view of the rows at the instant |
| `ArtifactSelector.ArtifactBarSelector.NextExecutionBar` | src/bisfin/backtest/selector.py:51-70 | Returns the execution bar for a signal bar, submission time and lag |
| `Selector.RevisionsListed` | src/bisfin/backtest/selector.py:15-26 | The revisions of a bar are listed each as often as it occurs, by availability and then revision number |
| `Selector.VisibleIsPointInTime` | src/bisfin/backtest/selector.py:41-49 | The view holds, in bar order, exactly one bar for every logical bar with something available, each the highest revision available |
| `Selector.VisibleIgnoresLater` | src/bisfin/backtest/selector.py:41-49 | Rows that become available after the instant have no influence on the view |
| `Selector.LastAreNewest` | src/bisfin/backtest/engine.py:147-149 | The last bars of the view are the newest logical bars available, as many as asked for or all there are, in bar order, each at its current revision; everything else available opens earlier |
| `Selector.NextExecutionFinds` | src/bisfin/backtest/selector.py:60-70 | The result is the earliest-opening later bar whose first visibility respects the lag, at the highest revision visible then; none only if no such bar exists |
| `Selector.NextExecutionAgrees` | src/bisfin/backtest/selector.py:60-70 | When first visibility never decreases in bar order, two data sets that agree up to a horizon give the same execution bar, or both give none or one after the horizon |
| `Selector.ScanSettledIffMonotone` | src/bisfin/backtest/selector.py:60-70 | For every choice of signal bar, submission time and horizon the scan answers from all rows as it would from the rows known by the horizon (or neither resolves by then), if and only if first visibility never decreases in bar order |
| `Selector.ScanLooksAheadWithoutMonotonicity` | src/bisfin/backtest/selector.py:61-69 | An instance without that order: two data sets that agree up to instant 5 choose different bars |
| `Crossover.LongIff` | src/bisfin/backtest/strategies.py:18-34 | The target is long exactly when enough bars are given and the newest fast-window closes average above the older closes of the slow window; reason and target text say which case it is |
| `Crossover.RiseGoesLong` | src/bisfin/backtest/strategies.py:25-33 | A window whose newest closes are at or above a level that all older ones are below goes long |
| `Crossover.NoRiseStaysFlat` | src/bisfin/backtest/strategies.py:25-33 | A window whose newest closes do not exceed its older ones is flat |
| `Crossover.OnlyWindowMatters` | src/bisfin/backtest/strategies.py:24-28 | Bars before the slow window do not influence the intent |
| `DecisionEvents.TriggerNeverMisses` | src/bisfin/backtest/engine.py:256-259 | The trigger lookup always finds the bar, at a revision that first showed at that instant |
| `DecisionEvents.ScheduleListed` | src/bisfin/backtest/selector.py:28-39 | The decision schedule lists every logical bar once with its first visibility, by visibility and then bar open |
| `DecisionEvents.EventsAreTheSchedule` | src/bisfin/backtest/engine.py:253-262 | An event is listed exactly when it is the first visibility of a bar of a requested instrument inside the event window, with its trigger |
| `DecisionEvents.EventsDistinct` | src/bisfin/backtest/engine.py:253-262 | No decision event is listed twice |
| `DecisionEvents.EventsAgree` | src/bisfin/backtest/engine.py:253-262 | Data sets that agree up to a horizon have the same events at every instant up to it |
| `Scheduler.SoundHolds` | src/bisfin/backtest/engine.py:115-219 | In every reachable state the instants are strictly increasing, the agenda is what remains of the schedule, and every order is filed where its execution instant says |
| `Scheduler.ProcessedPrefixFixed` | src/bisfin/backtest/engine.py:117-119 | The processed part of the time list only ever grows at its end |
| `Scheduler.RunEnds` | src/bisfin/backtest/engine.py:118-219 | From every reachable state the machine stops, the unvisited instants of a finite set being the measure |
| `Scheduler.SimulationEnds` | src/bisfin/backtest/engine.py:118-219 | Every simulation of a valid request ends |
| `Scheduler.DecisionsAreTheEvents` | src/bisfin/backtest/engine.py:142-160 | A finished run has taken every decision event once, in order |
| `Scheduler.AttemptedExactlyOnce` | src/bisfin/backtest/engine.py:120-141 | A finished run has attempted exactly the orders whose execution instant is after submission, each once, in key order per instant; what is left pending is exactly the orders with equal instants |
| `KeyOrdering.KeysInOrderIff` | src/bisfin/backtest/engine.py:120-120 | The key texts of two decisions sort in decision order exactly when the earlier number is below the later number cut to the same width |
| `KeyOrdering.KeysDiffer` | src/bisfin/backtest/engine.py:194-201 | Keys of one run are equal only for the same decision number, instrument and target text |
| `AttemptOrder.OrderKeysDistinct` | src/bisfin/backtest/engine.py:194-213 | In every reachable state the order keys are pairwise distinct, so key-indexed maps lose nothing |
| `AttemptOrder.DecisionOrderIff` | src/bisfin/backtest/engine.py:120-120 | In a finished run, of two orders due at one instant that of the earlier decision is attempted first if and only if its number is below the later number cut to the same width, and second otherwise |
| `AttemptOrder.TenBeforeNine` | src/bisfin/backtest/engine.py:120-120 | In a finished run the order of decision 10 is attempted before that of decision 9 whenever both are due together |
| `AttemptOrder.DocumentedIff` | docs/reference_backtest_engine_fa.md:45-47 | In a finished run two orders due together are attempted by ascending instrument, series and bar if and only if that order agrees with how their decision numbers sort as text; for orders placed at one instant, if and only if the earlier number sorts first |
| `AttemptOrder.DocumentedOrderFails` | src/bisfin/backtest/engine.py:120-120 | A valid configuration whose finished run attempts the order of instrument 2 before that of instrument 1, both due at instant 30 |
| `LookAhead.NoLookAhead` | src/bisfin/backtest/engine.py:109-219 | Two data sets that agree on everything available up to T, with execution visibility in bar order, give the same decisions, signals and fills up to T, orders that differ at most in execution bars after T, and the same account once the instants up to T are over |
| `LookAhead.RunTrails` | src/bisfin/backtest/engine.py:118-219 | A run stopped at T has taken every step of the full run that falls at or before T and none after |
| `LookAhead.LimitedIsPrefix` | src/bisfin/backtest/engine.py:118-219 | A run stopped at T is a prefix of the full run |
| `Journal.FillsAreCausal` | src/bisfin/backtest/engine.py:120-215 | Every fill traces to a decision taken strictly earlier on the newest closes available then, happens at or after submission plus the lag of the requested instrument, at the first visibility of the right bar, priced at the highest revision visible then |
| `Journal.DecisionsAreCausal` | src/bisfin/backtest/engine.py:142-160 | Every decision of every reachable state was triggered by a bar first visible at its instant and took as inputs the newest available bars of the slow window, in bar order, each at the highest revision available, and whatever else was available opens earlier |
| `Journal.NeverTwice` | src/bisfin/backtest/engine.py:120-141 | No order is about to be attempted that was attempted before |
| `Journal.FillsHold` | src/bisfin/backtest/engine.py:123-141 | In every reachable state the account is the initial one with exactly the recorded fills booked in order, and every fill is an attempted order priced at its bar's close |
| `Journal.JournalHolds` | src/bisfin/backtest/engine.py:151-213 | In every reachable state decisions are numbered in order, every order belongs to the decision its number names and is the one that decision calls for, and every decision that calls for a change has its order |
| `Decisions.DecisionsSeeFills` | src/bisfin/backtest/engine.py:120-160 | Every decision of every reachable state saw the cash and the position left by exactly the fills up to and including its instant |
| `Decisions.OrdersFollowCloses` | src/bisfin/backtest/engine.py:161-213 | In every reachable state a decision has an order if and only if its newest closes ask for another quantity than is held; that order takes the position to the target, with its reason, key, and the earliest executable bar after the lag or none if there is none |
| `Settlements.FilledIff` | src/bisfin/backtest/engine.py:120-141 | In every reachable state an attempted order has a fill if and only if quantity and close are positive and the account left by the orders attempted before it can pay the purchase with slippage and commission, or holds the quantity sold |
| `Settlements.AbortedIff` | src/bisfin/backtest/engine.py:123-129 | A run is aborted if and only if some attempted order has a non-positive quantity or close |
| `Simulator.TriggerFor` | src/bisfin/backtest/engine.py:258-259 | Finds the trigger bar among the visible ones |
| `Simulator.AllEvents` | src/bisfin/backtest/engine.py:249-262 | Builds the event list the scheduler is defined over |
| `Simulator.SimulationRun.AttemptOrder` | src/bisfin/backtest/engine.py:123-141 | Prices and books one due order and moves the run to the machine's next state |
| `Simulator.SimulationRun.InsertInstant` | src/bisfin/backtest/engine.py:215-218 | Inserts an instant among the unvisited ones unless present, keeping the list strictly increasing and its visited part as it was |
| `Simulator.SimulationRun.FileOrder` | src/bisfin/backtest/engine.py:213-218 | Files an order under its execution instant and inserts that instant, keeping the time list strictly increasing |
| `Simulator.SimulationRun.TakeDecision` | src/bisfin/backtest/engine.py:145-218 | Takes one decision, on the newest bars of the slow window available at the instant, and places its order as the machine does |
| `Simulator.Drain` | src/bisfin/backtest/engine.py:120-141 | Attempts all due orders of an instant in key order |
| `Simulator.DecideAll` | src/bisfin/backtest/engine.py:142-218 | Takes all decisions of an instant |
| `Simulator.ProcessInstant` | src/bisfin/backtest/engine.py:119-219 | One turn of the outer loop reaches the machine's state after the instant |
| `Simulator.Loop` | src/bisfin/backtest/engine.py:117-219 | The loop over the growing time list ends in the machine's final state |
| `Simulator.FinalValuations` | src/bisfin/backtest/engine.py:265-293 | Values every instrument in request order at the current revision of its last bar available at the end of the window, or fails exactly when some instrument has nothing available |
| `Simulator.Simulate` | src/bisfin/backtest/engine.py:96-234 | The whole simulation returns the outcome of the machine's final state: binding errors, pricing errors and the result, whose valuations are at the last available bars |
| `FinalValuation.OutcomeIsValued` | src/bisfin/backtest/engine.py:220-293 | A run without a pricing error fails if and only if some requested instrument has no row available at the end of the window; otherwise the result reports the journal, cash and positions of the run, values every position at its last available close from the valuation rows or else the execution rows, and equity is cash plus market values |
| `Accounting.LongOnlyPortfolio.Apply` | src/bisfin/backtest/accounting.py:84-113 | Books a fill exactly as specified, or refuses it and changes nothing |
| `Accounting.PricesIff` | src/bisfin/backtest/accounting.py:36-69 | Pricing fails exactly on a non-positive quantity or price and keeps side, quantity and reference price |
| `Accounting.PricedIff` | src/bisfin/backtest/accounting.py:36-69 | A fill is priced if and only if quantity and price are positive, slippage moves the price against the trader by its basis points, notional is price times quantity, commission is its basis points of the notional on both sides, and tax is its basis points of the notional on sales and zero on purchases |
| `Accounting.CostsExplainCash` | src/bisfin/backtest/accounting.py:27-69 | The cash effect of a fill plus its costs is its flow at the reference price, slippage is its share of the reference price, and every amount is charged as due |
| `Accounting.PurchaseCost` | src/bisfin/backtest/accounting.py:41-69 | A purchase takes from cash the reference value with slippage and then commission on top |
| `Accounting.BookedIff` | src/bisfin/backtest/accounting.py:84-103 | A fill is booked if and only if cash covers the purchase or the position covers the sale |
| `Accounting.BookingMoves` | src/bisfin/backtest/accounting.py:84-113 | Booking moves cash by the cash effect and only this position: a purchase adds its cost to the basis and realizes nothing, a sale takes the average cost of what it sold out of the basis and realizes the proceeds above it |
| `Accounting.FillConserves` | src/bisfin/backtest/accounting.py:84-113 | Booking a fill keeps cash plus cost basis minus realized profit |
| `Accounting.SolvencyKept` | src/bisfin/backtest/accounting.py:84-113 | Booking keeps quantities and average costs non-negative, average cost zero on a flat position, and a purchase leaves cash non-negative |
| `Accounting.SaleNeverCosts` | src/bisfin/backtest/accounting.py:41-69 | A sale never costs money if and only if slippage and commission plus tax are both at most the whole (10000 basis points), or both at least the whole |
| `Conservation.MoneyConserved` | src/bisfin/backtest/accounting.py:84-113 | In every reachable state cash plus cost basis equals initial capital plus realized profit, positions are long or flat, and cash is non-negative when sales cannot cost money |
| `Conservation.EquityReconciles` | src/bisfin/backtest/engine.py:220-234 | Final equity minus initial capital is realized plus unrealized profit |
| `Service.ClosedTradePnls` | src/bisfin/backtest/service.py:344-371 | The pairing loop returns the profits of the paired entries and exits, or the error for an exit without entry |
| `Service.GrossIsCostFree` | src/bisfin/backtest/service.py:307-341 | Gross profit is the profit of the same fills at reference prices without any cost, plus final market value; net is gross minus total cost |
| `Service.SummaryRealized` | src/bisfin/backtest/service.py:307-341 | The realized profit the summary reports is that of the account |
| `Pairing.PairingIff` | src/bisfin/backtest/service.py:344-371 | Pairing succeeds if and only if the previous fill of every sale's instrument is a purchase; the closed trades are exactly those pairs, one per sale, and the open entries are the instruments whose last fill is a purchase |
| `Pairing.PnlsAt` | src/bisfin/backtest/service.py:356-369 | The profit of a trade is its price difference times quantity less commission, slippage and tax of both legs |
| `Pairing.SummaryMeans` | src/bisfin/backtest/service.py:307-341 | A summary exists if and only if every sale is paired; it counts one trade per sale, the gains and the losses, the share of gains, net profit per unit of capital, the cost of all fills, and gross as net plus cost |
| `Service.TradesReconcile` | src/bisfin/backtest/service.py:344-371 | For alternating fills pairing succeeds, open trades mirror positions, and realized profit is closed-trade profit plus the slippage of both legs |
| `Service.ViewsAgreeIff` | src/bisfin/backtest/service.py:344-371 | The two profit views agree if and only if slippage is zero or nothing was closed |
| `Alternation.LongFlatAlternation` | src/bisfin/backtest/engine.py:142-218 | When signals and executions read the same rows, bars show in bar order and the lag never exceeds the gap, every position is flat or at target, fills alternate buy and sell, and no sale is refused |
| `Alternation.RunReconciles` | src/bisfin/backtest/service.py:344-371 | Then both pairing routines succeed and the profit views reconcile over the whole run |
| `Ledger.LedgerTables.InsertRoundTrips` | src/bisfin/repositories/backtest_ledger_repository.py:269-360 | Fails exactly when pairing meets a sale without an open trade; otherwise one row per purchase, the closed rows exactly the paired trades with their net profit, every open entry with its open row, and exactly the open entries when purchases are never doubled |
| `Ledger.LedgerTables.InsertOrders` | src/bisfin/repositories/backtest_ledger_repository.py:157-197 | Appends one order row per order, in order, with the id map by key |
| `Ledger.LedgerTables.InsertFills` | src/bisfin/repositories/backtest_ledger_repository.py:199-267 | Appends one fill row per fill pointing at its order's id |
| `Ledger.LedgerTables.InsertOrderEvents` | src/bisfin/repositories/backtest_ledger_repository.py:376-429 | Appends the three events of every order |
| `Ledger.LedgerTables.InsertCashAndPositions` | src/bisfin/repositories/backtest_ledger_repository.py:431-493 | Appends the cash rows and the position row of every fill |
| `Ledger.LedgerTables.Persist` | src/bisfin/repositories/backtest_ledger_repository.py:23-61 | Persists all tables of the run, or refuses and leaves them empty; it refuses exactly when there is neither a decision nor a fill, or when a sale has no open trade |
| `Ledger.CashRowsSum` | src/bisfin/repositories/backtest_ledger_repository.py:431-493 | The cash rows of the fills add up to their cash effects |
| `Ledger.PositionRowsSum` | src/bisfin/repositories/backtest_ledger_repository.py:431-493 | The position deltas of an instrument add up to the booked quantity |
| `Ledger.LedgerMatchesPortfolio` | src/bisfin/repositories/backtest_ledger_repository.py:431-493 | Over the tables a finished run persists, the cash rows sum to the final cash, the position rows of each instrument to its final quantity, and the net profits of the trade rows to the closed-trade profits |
| `Ledger.IdsAreOwn` | src/bisfin/repositories/backtest_ledger_repository.py:157-267 | When orders have distinct keys and fills belong to distinct orders, order and fill keys are distinct and both key-indexed maps give every order and every fill its own id |
| `Ledger.RowsPointRight` | src/bisfin/repositories/backtest_ledger_repository.py:157-429 | Over the tables a finished run persists, every order row is marked filled exactly when it has a fill and otherwise gives its reason, every fill row names its own order, and every order has three events with their instants and quantities, the last FILLED by its own fill or REJECTED |
| `Ledger.BooksTellFills` | src/bisfin/repositories/backtest_ledger_repository.py:431-493 | Over the tables a finished run persists, the cash table holds the opening capital and then for every fill its signed notional, its commission and its tax if there is one, and nothing else; the position table holds every fill's signed quantity at its execution price |
| `RevisionStore.BarWriter.AppendRevisionIfChanged` | src/bisfin/repositories/bar_writer_repository.py:175-231 | Appends a revision with the candidate's values, availabilities and batch exactly when the latest one has other values, refuses inadmissible candidates, reports which of the three happened, and returns the highest revision of the bar |
| `RevisionStore.WritesStore` | src/bisfin/repositories/bar_writer_repository.py:213-222 | Every row a serial list of writes adds has the key, values, both availabilities and batch of one of its candidates |
| `RevisionStore.LastWriteShows` | src/bisfin/repositories/bar_writer_repository.py:184-231 | After a serial list of writes the highest revision of a bar has the values written last for it |
| `RevisionStore.WritesAreGood` | src/bisfin/repositories/bar_writer_repository.py:184-231 | Any serial list of admissible writes leaves every bar's history numbered 1..n with differing neighbours |
| `RevisionStore.WritesKeepGood` | src/bisfin/repositories/bar_writer_repository.py:184-231 | Any serial list of admissible writes keeps every history numbered 1..n with differing neighbours |
| `RevisionStore.InterleavingsAreSerial` | src/bisfin/repositories/bar_writer_repository.py:188-231 | Under every interleaving of transactions holding the per-bar lock to the end, the committed table is the one the admissible writes of the committed transactions make one after another in commit order, every history is good, every row stores one of those candidates, and the highest revision of a bar has the values committed last |
| `RevisionStore.CommittedRowsStay` | src/bisfin/repositories/bar_writer_repository.py:206-231 | Committed rows are never changed or removed |
| `FrozenReplay.FreezeExactIff` | src/bisfin/repositories/snapshot_bar_repository.py:34-60 | Freezing at a cutoff and then keeping what is usable at any earlier instant gives exactly the rows eligible then, if and only if no eligible row becomes usable before its bar has closed |
| `FrozenReplay.GoodTableClosedFirst` | src/bisfin/repositories/bar_writer_repository.py:179-182 | Every store the writers can build meets that condition |
| `FrozenReplay.FrozenIff` | src/bisfin/repositories/snapshot_bar_repository.py:34-60 | A row is frozen if and only if it is the artifact row of a final revision of the series whose bar opens inside the window, closed by the cutoff and was published by then in public replay, or had reached this system by then in actual replay |
| `FrozenReplay.FrozenInOrder` | src/bisfin/repositories/snapshot_bar_repository.py:34-60 | Frozen rows come by bar open and then revision, each eligible row once |
| `FrozenReplay.FrozenReplayIsDirect` | src/bisfin/repositories/snapshot_bar_repository.py:85-108 | For every reachable store, both replay modes, any cutoff and any earlier instant, selecting from the frozen rows shows, in bar order, exactly one bar for every bar with a row eligible at the instant, each at the highest revision among them |
| `FrozenReplay.LateRowsDoNotFreeze` | src/bisfin/repositories/snapshot_bar_repository.py:34-60 | Rows usable only after the cutoff never change what is frozen |
| `FrozenReplay.SnapshotStable` | src/bisfin/repositories/snapshot_bar_repository.py:85-108 | Later commits of such rows freeze to the same rows |
| `SpecificationHistory.SpecificationTable.ApplySpecification` | src/bisfin/repositories/catalog_writer_repository.py:393-436 | Leaves the table as the guarded close-and-append step demands, or refuses and changes nothing |
| `SpecificationHistory.HistoriesAreGood` | src/bisfin/repositories/catalog_writer_repository.py:393-436 | Over every sequence of changes the versions form a contiguous chain with only the last open and neighbours different |
| `SpecificationHistory.ActiveIsUnique` | src/bisfin/repositories/instrument_repository.py:203-233 | From the first start on exactly one version is active at any time, and none before |
| `SpecificationHistory.ChangeKeepsPast` | src/bisfin/repositories/catalog_writer_repository.py:419-436 | A successful change leaves the answer for every earlier time unchanged |
| `SpecificationHistory.RepeatedChangeIsSame` | src/bisfin/repositories/catalog_writer_repository.py:401-413 | Requesting a change that went through again finds it in place |
| `Catalog.CatalogStaysGood` | src/bisfin/repositories/catalog_writer_repository.py:225-391 | Over every sequence of applications no two intervals of one identifier overlap, every instrument has one open ISIN and a gapless chain of symbols whose open end is the canonical symbol, and its specification history is good |
| `Catalog.OwnerIsUnique` | src/bisfin/repositories/instrument_repository.py:84-133 | At any instant an identifier has at most one owner, so the as-of read never finds two |
| `Catalog.SymbolAtIsUnique` | src/bisfin/repositories/catalog_writer_repository.py:322-391 | From its first start on an instrument has exactly one symbol at any instant, and none before |
| `Catalog.RenameKeepsPast` | src/bisfin/repositories/catalog_writer_repository.py:364-385 | Closing one symbol and opening the next at T changes no as-of owner before T |
| `Catalog.ApplyKeepsPastOwners` | src/bisfin/repositories/catalog_writer_repository.py:225-391 | No application changes an as-of owner before its identifiers take effect |
| `Catalog.ApplyAgainIsUnchanged` | src/bisfin/repositories/catalog_writer_repository.py:225-320 | Applying an accepted definition again is accepted and changes nothing |
| `Catalog.UnchangedIff` | src/bisfin/repositories/catalog_writer_repository.py:310-320 | The result is reported unchanged exactly when no table changed |
| `CatalogAcceptance.CreateIff` | src/bisfin/repositories/catalog_writer_repository.py:249-285 | A new instrument is created if and only if all intervals of its ISIN and of its symbol have ended by its start |
| `CatalogAcceptance.RenameIff` | src/bisfin/repositories/catalog_writer_repository.py:322-391 | A rename is accepted if and only if the new symbol already names the instrument at the effective instant, or the old one is open for it from earlier on and the new one is free |
| `CatalogAcceptance.IdentifyIff` | src/bisfin/repositories/catalog_writer_repository.py:225-309 | A definition is accepted if and only if its ISIN and symbol are both free, or its ISIN names an instrument of the same identity whose symbol it is or may be renamed to; it creates exactly in the first case |
| `CatalogAcceptance.SpecificationIff` | src/bisfin/repositories/catalog_writer_repository.py:393-436 | A specification is taken on a good history if and only if there is none, it starts after the latest one, or it repeats the latest values and no earlier version starts with it |
| `CatalogAcceptance.ApplyIff` | src/bisfin/repositories/catalog_writer_repository.py:225-320 | An application is accepted if and only if its identity is, and the specification is acceptable for the instrument found |
| `CatalogStore.CatalogWriter.ActiveIdentifier` | src/bisfin/repositories/catalog_writer_repository.py:481-522 | Returns the one active row of an identifier, none, or the error for several |
| `CatalogStore.CatalogWriter.InsertIdentifier` | src/bisfin/repositories/catalog_writer_repository.py:524-547 | Inserts a row unless the overlap guard refuses it |
| `CatalogStore.CatalogWriter.RenameSymbol` | src/bisfin/repositories/catalog_writer_repository.py:322-391 | Closes the old interval, opens the adjacent one and updates the canonical symbol, or reports why not |
| `CatalogStore.CatalogWriter.ApplyInstrument` | src/bisfin/repositories/catalog_writer_repository.py:225-320 | Applies identity and specification as specified, or refuses and leaves every table as it was |
| `CanonicalNumber.NumberTextIff` | src/bisfin/integrations/brsapi/parser.py:234-242 | Two numbers print alike if and only if they are equal |
| `CanonicalNumber.NumberTextDenotes` | src/bisfin/integrations/brsapi/parser.py:234-242 | The text is a sign, digits and perhaps a point with more digits, and denotes the number |
| `CanonicalNumber.IntegerIsNumber` | src/bisfin/integrations/brsapi/parser.py:215-218 | An integer prints as the equal decimal does |
| `CanonicalNumber.RenderedIsFixed` | src/bisfin/integrations/brsapi/parser.py:239-242 | After normalization there is no trailing zero or point left to strip |
| `CanonicalNumber.RoundedIsNearest` | src/bisfin/integrations/brsapi/parser.py:239-239 | Rounding keeps 28 digits, or all if there are no more, and goes to the nearest number with as many, on a tie to the even one |
| `CanonicalNumber.RoundedExactIff` | src/bisfin/integrations/brsapi/parser.py:239-239 | Rounding to 28 digits keeps the number if and only if its digits beyond the 28th are zeros; a coefficient below 10^28 always qualifies |
| `CanonicalJson.StringReadsBack` | src/bisfin/integrations/brsapi/parser.py:219-220 | A printed string is read back by the escapes of section 7 of RFC 8259, whatever follows it |
| `CanonicalJson.TextSplits` | src/bisfin/integrations/brsapi/parser.py:221-231 | Whatever may follow two printed values, their texts agree only when equal |
| `JsonGrammar.TextSpells` | src/bisfin/integrations/brsapi/parser.py:208-231 | The canonical text of a value is a JSON text of it by the grammar of RFC 8259: literals, numbers that denote it, quoted strings that read back, comma-separated items in brackets and fields in braces with keys ascending, without whitespace |
| `CanonicalJson.TextIffAlike` | src/bisfin/integrations/brsapi/parser.py:208-242 | Two JSON values print to the same text if and only if they are equal up to object key order and numeric notation once decimals are rounded to 28 digits |
| `CanonicalJson.TextIffSame` | src/bisfin/integrations/brsapi/parser.py:208-242 | Two JSON values without nonzero digits beyond the 28th print to the same text if and only if they are the same value as read, up to object key order and numeric notation |
| `CanonicalJson.DecimalExactIff` | src/bisfin/integrations/brsapi/parser.py:234-242 | A decimal is printed as the number read if and only if its digits beyond the 28th are zeros, which at most 28 digits guarantee |
| `CanonicalJson.UnambiguousIffExact` | src/bisfin/integrations/brsapi/parser.py:208-242 | Among all values without nonzero digits beyond the 28th, the text of a value stands for that value alone if and only if it has no such digits itself |
| `CanonicalJson.LongDecimalsCollide` | src/bisfin/integrations/brsapi/parser.py:239-239 | An instance: 10^28 and 10^28 + 1 are different numbers with one text |
| `Duplicates.ApplyDuplicatePolicy` | src/bisfin/integrations/brsapi/parser.py:439-485 | Every row ends as the policy judges it by its peers of the same symbol and date |
| `Duplicates.GroupRows` | src/bisfin/integrations/brsapi/parser.py:442-447 | Groups the accepted rows by symbol and date, in order of appearance |
| `Duplicates.IncludedIff` | src/bisfin/integrations/brsapi/parser.py:450-485 | A row is canonicalized exactly when it is accepted, all rows of its symbol and date agree, and it is the first of them; it stays accepted exactly when they agree |
| `Duplicates.MarksTell` | src/bisfin/integrations/brsapi/parser.py:450-485 | Payload and candidate stay; agreeing duplicates get the identical warning, disagreeing ones the conflict error, and no row anything else |
| `Duplicates.IncludedOncePerKey` | src/bisfin/integrations/brsapi/parser.py:450-485 | At most one row per symbol and date is canonicalized |
| `Duplicates.AgreeingGroupKeepsOne` | src/bisfin/integrations/brsapi/parser.py:458-472 | Of an agreeing group one is canonicalized |
| `Duplicates.AgreedIffSamePayload` | src/bisfin/integrations/brsapi/parser.py:452-458 | Unless the digest collides on them, rows agree exactly when their payloads are equal as printed, and, when no payload has nonzero digits beyond the 28th, exactly when they are the same JSON value as read |
| `Canonicalization.Canonicalize` | src/bisfin/ingestion/service.py:451-694 | Every raw event is decided exactly once, validated exactly when its row is set aside as a duplicate or stored; the counters add up; afterwards every bar shows, field by field, the last row stored for it, and every added revision carries such a row with the response time, the clock reading and the batch |
| `Canonicalization.StatusIff` | src/bisfin/ingestion/service.py:485-663 | A raw event ends validated exactly when its row is accepted and either set aside as a duplicate or resolves to a proper session that was over, with the clock not behind the response |
| `Canonicalization.TerminalMeans` | src/bisfin/ingestion/daily_bars.py:77-88 | A batch succeeds when nothing was rejected, is quarantined when rows were rejected and none accepted, and is partial when both occur |
| `Canonicalization.TallyHolds` | src/bisfin/ingestion/service.py:485-663 | Both passes together decide every event once, as it should end, and count what they decide |
| `Canonicalization.KeptIsAdmissible` | src/bisfin/ingestion/service.py:611-655 | No candidate canonicalization builds is refused by the store |
| `Canonicalization.WrittenOncePerKey` | src/bisfin/ingestion/service.py:580-655 | At most one row per symbol and date is written, and it is the first of an agreeing group |
| `Canonicalization.EveryRowIsLast` | src/bisfin/ingestion/service.py:580-655 | After the duplicate policy every stored row is the last of its bar when different symbols and dates mean different bars |
| `BatchProtocol.BatchRepository.CreateBatchIfAbsent` | src/bisfin/repositories/ingestion_batch_repository.py:160-244 | A batch is created once per request; otherwise the existing one is returned unchanged |
| `BatchProtocol.BatchRepository.RecordAcquisition` | src/bisfin/repositories/ingestion_batch_repository.py:279-313 | Acquisition is recorded only while RUNNING |
| `BatchProtocol.BatchRepository.FinalizeBatch` | src/bisfin/repositories/ingestion_batch_repository.py:315-372 | A batch is finalized only from RUNNING, to a terminal status, with counts that fit |
| `BatchProtocol.ProtocolHolds` | src/bisfin/ingestion/service.py:156-209 | Records, workers, identities and the committed bar revisions satisfy the protocol invariant in every state reachable by any interleaving of ingestions, commits, aborts, ambiguous commits and crashes |
| `BatchProtocol.FinishedForGood` | src/bisfin/repositories/ingestion_batch_repository.py:432-459 | A started batch stays and keeps its identity and symbol, once it has left RUNNING its status, counts, raw events and bar revisions never change again, and committed bar revisions are never changed or removed |
| `BatchProtocol.BarsOnlyAfterSuccess` | src/bisfin/ingestion/service.py:649-682 | Every committed bar revision belongs to a batch that is SUCCEEDED or PARTIAL with every raw event decided and counted |
| `BatchProtocol.FailureKeepsRaw` | src/bisfin/ingestion/service.py:351-367 | A failed or unfinished batch has every raw event PENDING and no bar revision in the store |
| `BatchProtocol.EndedMeansFinished` | src/bisfin/ingestion/service.py:184-207 | An ingestion that ended by itself left its batch finished |
| `BatchProtocol.RequestStartsOnce` | src/bisfin/ingestion/service.py:211-255 | In every reachable state every batch was started by exactly one ingestion; all other ingestions of its request were declined |
| `BatchProtocol.AmbiguousCommitIsHarmless` | src/bisfin/ingestion/service.py:781-842 | When canonicalization commits but still raises, both failure handlers leave the finished batch and its bar revisions as they are |
| `BatchProtocol.CrashLeavesRunning` | src/bisfin/ingestion/service.py:211-255 | An ingestion that stops right after starting leaves its batch RUNNING |
| `BatchReplies.ReplyDecides` | src/bisfin/ingestion/service.py:257-367 | In every reachable state a batch that is neither RUNNING nor FAILED was replied to with malformed content and is QUARANTINED, without data and is SUCCEEDED, or with rows that were all received and is what its counts say |
| `BatchReplies.UndisturbedEnds` | src/bisfin/ingestion/service.py:257-367 | An ingestion whose transactions commit leaves its batch FAILED on HTTP, transport and provider errors and on unexpected ones, QUARANTINED on malformed content, SUCCEEDED without data, and as canonicalization decided on rows, with its bar revisions |
| `BatchReplies.AbortEndsFailed` | src/bisfin/ingestion/service.py:351-367 | A transaction that aborts leaves the batch FAILED once the next handler commits, with raw events and bars as they were |
| `BatchReplies.BatchWasBegun` | src/bisfin/ingestion/service.py:211-240 | Every batch carries a symbol its request was begun with, and starts RUNNING with nothing received or counted |

## Left out

- Decimal rounding of money at 28 significant digits: amounts are exact reals.
- Decimal exponents beyond the context's limits, non-finite decimals and lone surrogates in strings: the JSON reader's own concern.
- Validation of manifests and requests field by field: validated conditions (unique instruments, fast below slow, positive target and capital, non-negative costs and lag, a rename after the identifier's start) are preconditions.
- Row-level validation of provider responses, Jalali dates, Unicode normalization and time zones: library conversions and branch-by-branch checks.
- Diagnostics, metadata, watermarks and redaction in ingestion: only the statuses, counts and writes are modelled.
- Valuation, decision-input and summary rows of the persisted journal: they copy the result field by field.
- Fill allocation rows and the cost columns of the persisted round trips: copies of fill fields.
- Catalog.RenameKeepsPast: speaks of the owner; the instrument record an as-of read joins to it carries the canonical symbol of today, which a rename does change.
- Result hashing and snapshot artifact verification: comparisons of digests and paths.
- Deadlock and liveness of database locks: decided by the database.
- Currency, venue, provider, feed and timeframe writers: get-or-create with an equality check.
- RevisionStore.InterleavingsAreSerial: assumes reads see everything committed, as the isolation level the triggers insist on provides.
- Catalog.CatalogStaysGood: transactions on the catalog are taken one after another, since the per-identifier locks are held to the end; their interleaving is not modelled.
- BatchProtocol.EndedMeansFinished: says nothing of an ingestion that crashed, whose start raised after committing, or whose last handler failed; such a batch can stay RUNNING, as BatchProtocol.CrashLeavesRunning shows.
