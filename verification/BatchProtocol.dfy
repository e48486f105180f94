/**
  The ingestion batch as a protocol of separate transactions.  Any number of ingestions run
  interleaved; every transaction may commit, abort, or commit and still raise, and an ingestion
  may stop dead between any two steps.
*/
module BatchProtocol {
  import opened Sequences
  import opened Canonicalization
  import Store = RevisionStore

  /** A batch row with its raw events; `id` is what the bar revisions it wrote carry. */
  datatype Record = Record(
    id: nat,
    symbol: string,
    status: BatchStatus,
    received: nat,
    accepted: nat,
    rejected: nat,
    raw: seq<RawStatus>)

  /** Where an ingestion stands; each phase but the last three is about to run a transaction or a request. */
  datatype Phase =
    | Fetching(request: string)
    | AcquiringNothing(request: string, to: BatchStatus)
    | Failing(request: string, to: BatchStatus)
    | Acquiring(request: string, rows: nat, noData: bool)
    | FinishingEmpty(request: string)
    | Canonicalizing(request: string, rows: nat)
    | MarkingCanonicalFailure(request: string, rows: nat)
    | MarkingStartFailure(request: string)
    | Ended(request: string)
    | Orphaned(request: string)
    | Declined(request: string)

  /**
    The committed tables and the ingestions.  `started` lists the requests in the order their
    batches were created, so a batch's id is its position; `bars` is the table of bar revisions.
    Canonicalization holds its bar locks until it commits, so its writes are what its log writes to
    the table committed at that moment (see RevisionStore.InterleavingsAreSerial).
  */
  datatype World = World(
    batches: map<string, Record>,
    workers: map<nat, Phase>,
    started: seq<string>,
    bars: seq<Store.Revision>)

  /** What a canonicalization did: its outcome and the candidates it wrote. */
  datatype Work = Work(outcome: Outcome, log: seq<Store.Candidate>)

  datatype Reply = HttpError | TransportError | ProviderError | Malformed | NoData | Rows(n: nat) | Raises

  datatype Fate = Commits | Aborts | CommitsRaising

  datatype Event =
    | Begin(w: nat, request: string, symbol: string, fate: Fate)
    | Respond(w: nat, reply: Reply)
    | Transact(w: nat, fate: Fate, work: Work)
    | Crash(w: nat)

  // ---- the repository's guarded transitions ------------------------------------------------------

  /** `finalize_batch`: only from RUNNING, to a terminal status, with counts that fit. */
  function Finalize(rec: Record, to: BatchStatus, received: nat, accepted: nat, rejected: nat): Option<Record> {
    if to.Running? || accepted + rejected > received || !rec.status.Running? then None
    else Some(rec.(status := to, received := received, accepted := accepted, rejected := rejected))
  }

  /** `record_acquisition` with the raw events inserted beside it: only while RUNNING. */
  function Acquire(rec: Record, rows: nat): Option<Record> {
    if !rec.status.Running? then None
    else Some(rec.(received := rows, raw := rec.raw + seq(rows, _ => Pending)))
  }

  /** The batch table: a row is created once per request and changed only while RUNNING. */
  class BatchRepository {
    var batches: map<string, Record>

    method CreateBatchIfAbsent(request: string, symbol: string) returns (created: bool, rec: Record)
      modifies this
      ensures created <==> request !in old(batches)
      ensures batches == if created then old(batches)[request := Started(|old(batches)|, symbol)] else old(batches)
      ensures request in batches && rec == batches[request]
      ensures created ==> rec == Record(|old(batches)|, symbol, Running, 0, 0, 0, [])
    {
      created := request !in batches;
      if created { batches := batches[request := Started(|batches|, symbol)]; }
      rec := batches[request];
    }

    method RecordAcquisition(request: string, rows: nat) returns (r: Result<Record>)
      modifies this
      ensures r.Ok? <==> request in old(batches) && old(batches)[request].status.Running?
      ensures r.Ok? ==> Acquire(old(batches)[request], rows) == Some(r.value)
                        && batches == old(batches)[request := r.value]
                        && r.value.status.Running? && r.value.received == rows
                        && |r.value.raw| == |old(batches)[request].raw| + rows
      ensures r.Err? ==> batches == old(batches)
    {
      if request !in batches { return Err("The requested ingestion batch does not exist."); }
      var current := batches[request];
      if !current.status.Running? { return Err("invalid state transition"); }
      var next := current.(received := rows, raw := current.raw + seq(rows, _ => Pending));
      batches := batches[request := next];
      r := Ok(next);
    }

    method FinalizeBatch(request: string, to: BatchStatus, received: int, accepted: int, rejected: int)
      returns (r: Result<Record>)
      modifies this
      ensures r.Ok? <==> && !to.Running? && 0 <= received && 0 <= accepted && 0 <= rejected
                         && accepted + rejected <= received
                         && request in old(batches) && old(batches)[request].status.Running?
      ensures r.Ok? ==> Finalize(old(batches)[request], to, received, accepted, rejected) == Some(r.value)
                        && batches == old(batches)[request := r.value]
                        && r.value.status == to && r.value.received == received
                        && r.value.accepted == accepted && r.value.rejected == rejected
                        && r.value.raw == old(batches)[request].raw
      ensures r.Err? ==> batches == old(batches)
    {
      if to.Running? { return Err("status must be a terminal status"); }
      if received < 0 || accepted < 0 || rejected < 0 { return Err("ingestion counts must be nonnegative"); }
      if accepted + rejected > received { return Err("accepted and rejected counts must not exceed received count"); }
      if request !in batches { return Err("The requested ingestion batch does not exist."); }
      if !batches[request].status.Running? { return Err("invalid state transition"); }
      var next := batches[request].(status := to, received := received, accepted := accepted, rejected := rejected);
      batches := batches[request := next];
      r := Ok(next);
    }
  }

  // ---- one transaction ---------------------------------------------------------------------------

  /** The record a phase's transaction would commit; `None` when it raises instead. */
  function Transaction(phase: Phase, rec: Record, outcome: Outcome): Option<Record> {
    match phase
    case AcquiringNothing(_, _) => Acquire(rec, 0)
    case Failing(_, to) => Finalize(rec, to, rec.received, 0, 0)
    case Acquiring(_, rows, _) => Acquire(rec, rows)
    case FinishingEmpty(_) => Finalize(rec, Succeeded, 0, 0, 0)
    case Canonicalizing(_, rows) =>
      Finalize(rec.(raw := outcome.statuses), outcome.status, rows, outcome.accepted, outcome.rejected)
    case MarkingCanonicalFailure(_, rows) => Finalize(rec, Failed, rows, 0, 0)
    case MarkingStartFailure(_) =>
      if rec.status.Running? then Finalize(rec, Failed, rec.received, rec.accepted, rec.rejected) else Some(rec)
    case _ => None
  }

  predicate Transacts(phase: Phase) {
    !phase.Fetching? && !phase.Ended? && !phase.Orphaned? && !phase.Declined?
  }

  function AfterSuccess(phase: Phase): Phase {
    match phase
    case AcquiringNothing(request, to) => Failing(request, to)
    case Acquiring(request, rows, noData) => if noData then FinishingEmpty(request) else Canonicalizing(request, rows)
    case _ => Ended(phase.request)
  }

  /** The exception handlers: canonicalization has its own, everything else the best-effort one. */
  function AfterRaise(phase: Phase): Phase {
    match phase
    case Canonicalizing(request, rows) => MarkingCanonicalFailure(request, rows)
    case MarkingStartFailure(request) => Orphaned(request)
    case _ => MarkingStartFailure(phase.request)
  }

  function AfterReply(request: string, reply: Reply): Phase {
    match reply
    case HttpError => AcquiringNothing(request, Failed)
    case TransportError => Failing(request, Failed)
    case ProviderError => AcquiringNothing(request, Failed)
    case Malformed => AcquiringNothing(request, Quarantined)
    case NoData => Acquiring(request, 0, true)
    case Rows(n) => Acquiring(request, n, false)
    case Raises => MarkingStartFailure(request)
  }

  // ---- steps of the whole ------------------------------------------------------------------------

  function Started(id: nat, symbol: string): Record { Record(id, symbol, Running, 0, 0, 0, []) }

  /** `create_batch_if_absent` in its own transaction. */
  function Start(s: World, w: nat, request: string, symbol: string, fate: Fate): World {
    if request in s.batches || fate.Aborts? then s.(workers := s.workers[w := Declined(request)])
    else
      s.(batches := s.batches[request := Started(|s.started|, symbol)],
         workers := s.workers[w := if fate.Commits? then Fetching(request) else Orphaned(request)],
         started := s.started + [request])
  }

  /** A transaction is possible: its batch exists and a canonicalization has finished its work. */
  ghost predicate Enabled(s: World, w: nat, work: Work) {
    && w in s.workers && Transacts(s.workers[w]) && s.workers[w].request in s.batches
    && (s.workers[w].Canonicalizing? ==>
          Finished(work.outcome, work.log, s.workers[w].rows, s.batches[s.workers[w].request].id, s.bars))
  }

  /** The bar revisions a phase's transaction commits beside its record. */
  function NewBars(phase: Phase, bars: seq<Store.Revision>, work: Work): seq<Store.Revision> {
    if phase.Canonicalizing? then Store.Writes(bars, work.log) else []
  }

  function Settle(s: World, w: nat, fate: Fate, work: Work): World
    requires w in s.workers && s.workers[w].request in s.batches
  {
    var phase := s.workers[w];
    var after := Transaction(phase, s.batches[phase.request], work.outcome);
    if after.None? || fate.Aborts? then s.(workers := s.workers[w := AfterRaise(phase)])
    else
      s.(batches := s.batches[phase.request := after.value],
         workers := s.workers[w := if fate.Commits? then AfterSuccess(phase) else AfterRaise(phase)],
         bars := s.bars + NewBars(phase, s.bars, work))
  }

  predicate Busy(phase: Phase) { Transacts(phase) || phase.Fetching? }

  ghost function Step(s: World, e: Event): World {
    match e
    case Begin(w, request, symbol, fate) => if w in s.workers then s else Start(s, w, request, symbol, fate)
    case Respond(w, reply) =>
      if w in s.workers && s.workers[w].Fetching?
      then s.(workers := s.workers[w := AfterReply(s.workers[w].request, reply)]) else s
    case Transact(w, fate, work) => if Enabled(s, w, work) then Settle(s, w, fate, work) else s
    case Crash(w) =>
      if w in s.workers && Busy(s.workers[w])
      then s.(workers := s.workers[w := Orphaned(s.workers[w].request)]) else s
  }

  ghost function Run(events: seq<Event>): World {
    if events == [] then World(map[], map[], [], [])
    else Step(Run(events[..|events| - 1]), events[|events| - 1])
  }

  // ---- the invariant -----------------------------------------------------------------------------

  ghost predicate Untouched(raw: seq<RawStatus>) { forall i :: 0 <= i < |raw| ==> raw[i] == Pending }

  ghost predicate Decided(raw: seq<RawStatus>) { forall i :: 0 <= i < |raw| ==> raw[i] != Pending }

  ghost predicate RecordGood(r: Record) {
    && |r.raw| == r.received
    && (r.status.Running? || r.status.Failed? ==> Untouched(r.raw) && r.accepted == 0 && r.rejected == 0)
    && (!r.status.Running? && !r.status.Failed? ==>
          Decided(r.raw) && Balanced(r.raw, r.accepted, r.rejected) && r.accepted + r.rejected == r.received)
    && (r.status.Succeeded? ==> r.rejected == 0)
    && (r.status.Partial? ==> r.accepted > 0 && r.rejected > 0)
    && (r.status.Quarantined? ==> r.accepted == 0)
  }

  /** What a phase knows about its batch while the batch is still RUNNING. */
  ghost predicate PhaseFits(phase: Phase, r: Record) {
    match phase
    case Fetching(_) => r.status.Running? ==> r.received == 0
    case AcquiringNothing(_, to) => (to.Failed? || to.Quarantined?) && (r.status.Running? ==> r.received == 0)
    case Failing(_, to) => (to.Failed? || to.Quarantined?) && (r.status.Running? ==> r.received == 0)
    case Acquiring(_, rows, noData) => (noData ==> rows == 0) && (r.status.Running? ==> r.received == 0)
    case FinishingEmpty(_) => r.status.Running? ==> r.received == 0
    case Canonicalizing(_, rows) => r.status.Running? ==> r.received == rows
    case MarkingCanonicalFailure(_, rows) => r.status.Running? ==> r.received == rows
    case MarkingStartFailure(_) => true
    case Ended(_) => !r.status.Running?
    case Orphaned(_) => true
    case Declined(_) => true
  }

  ghost predicate WorkerFits(s: World, w: nat)
    requires w in s.workers
  {
    var phase := s.workers[w];
    !phase.Declined? ==> phase.request in s.batches && PhaseFits(phase, s.batches[phase.request])
  }

  ghost predicate RecordsInv(s: World) {
    forall request :: request in s.batches ==> RecordGood(s.batches[request])
  }

  ghost predicate WorkersFit(s: World) {
    forall w :: w in s.workers ==> WorkerFits(s, w)
  }

  /** An ingestion that was not declined. */
  ghost predicate Ingests(s: World, w: nat) { w in s.workers && !s.workers[w].Declined? }

  /** No request has two ingestions, and every batch has one. */
  ghost predicate OneEach(s: World) {
    && (forall v, w :: Ingests(s, v) && Ingests(s, w) && v != w ==> s.workers[v].request != s.workers[w].request)
    && (forall request :: request in s.batches ==> Ingested(s, request))
  }

  ghost predicate Ingested(s: World, request: string) {
    exists w :: Ingests(s, w) && s.workers[w].request == request
  }

  ghost predicate IdsInv(s: World) {
    && (forall i :: 0 <= i < |s.started| ==> s.started[i] in s.batches && s.batches[s.started[i]].id == i)
    && (forall request :: request in s.batches ==>
          s.batches[request].id < |s.started| && s.started[s.batches[request].id] == request)
  }

  /** A revision row belongs to a batch that finished with something accepted. */
  ghost predicate RowFits(s: World, row: Store.Revision) {
    && 0 <= row.batch < |s.started| && s.started[row.batch] in s.batches
    && var r := s.batches[s.started[row.batch]];
       (r.status.Succeeded? || r.status.Partial?) && r.accepted > 0
  }

  ghost predicate BarsInv(s: World) {
    Store.GoodTable(s.bars) && forall row :: row in s.bars ==> RowFits(s, row)
  }

  ghost predicate Inv(s: World) {
    RecordsInv(s) && WorkersFit(s) && OneEach(s) && IdsInv(s) && BarsInv(s)
  }

  // ---- one transaction keeps it ------------------------------------------------------------------

  lemma OutcomeGood(rec: Record, o: Outcome, rows: nat)
    requires rec.status.Running? && RecordGood(rec) && Complete(o, rows)
    ensures var after := Finalize(rec.(raw := o.statuses), o.status, rows, o.accepted, o.rejected);
            && after.Some? && RecordGood(after.value)
            && (o.inserted + o.corrected > 0 ==> after.value.accepted > 0)
            && (after.value.accepted > 0 ==> after.value.status.Succeeded? || after.value.status.Partial?)
  {
  }

  /** A transaction keeps the record good, and whichever way it ends the next phase fits. */
  lemma TransactionKeeps(phase: Phase, rec: Record, outcome: Outcome)
    requires RecordGood(rec) && Transacts(phase) && PhaseFits(phase, rec)
    requires phase.Canonicalizing? ==> Complete(outcome, phase.rows)
    ensures PhaseFits(AfterRaise(phase), rec)
    ensures Transaction(phase, rec, outcome).Some? ==>
              var after := Transaction(phase, rec, outcome).value;
              RecordGood(after) && PhaseFits(AfterSuccess(phase), after) && PhaseFits(AfterRaise(phase), after)
  {
    match phase
    case Canonicalizing(_, rows) => if rec.status.Running? { OutcomeGood(rec, outcome, rows); }
    case Failing(_, _) => if rec.status.Running? { assert rec.raw == []; }
    case FinishingEmpty(_) => if rec.status.Running? { assert rec.raw == []; }
    case AcquiringNothing(_, _) => if rec.status.Running? { assert rec.raw == []; }
    case Acquiring(_, rows, _) => if rec.status.Running? { assert rec.raw == []; }
    case _ =>
  }

  /** A terminal record is never changed again; identity and symbol never change. */
  lemma TransactionStays(phase: Phase, rec: Record, outcome: Outcome)
    requires Transaction(phase, rec, outcome).Some?
    ensures !rec.status.Running? ==> Transaction(phase, rec, outcome).value == rec && !phase.Canonicalizing?
    ensures Transaction(phase, rec, outcome).value.id == rec.id
    ensures Transaction(phase, rec, outcome).value.symbol == rec.symbol
  {
  }

  // ---- every step keeps it -----------------------------------------------------------------------

  /** `after` is `s` with one busy worker moved on, its record replaced and bars of its batch added. */
  ghost predicate Moves(s: World, after: World, w: nat, next: Phase, rec: Record, added: seq<Store.Revision>) {
    && w in s.workers && Busy(s.workers[w]) && next.request == s.workers[w].request && !next.Declined?
    && next.request in s.batches
    && rec.id == s.batches[next.request].id
    && (!s.batches[next.request].status.Running? ==> rec == s.batches[next.request])
    && after == World(s.batches[next.request := rec], s.workers[w := next], s.started, s.bars + added)
  }

  lemma MoveKeepsOne(s: World, after: World, w: nat, next: Phase, rec: Record, added: seq<Store.Revision>)
    requires OneEach(s) && Moves(s, after, w, next, rec, added)
    ensures OneEach(after)
  {
    assert forall v :: Ingests(after, v) <==> Ingests(s, v);
    assert forall v :: v in s.workers ==> after.workers[v].request == s.workers[v].request;
    forall request | request in after.batches ensures Ingested(after, request) {
      assert Ingested(s, request);
      var v :| Ingests(s, v) && s.workers[v].request == request;
      assert Ingests(after, v);
    }
  }

  lemma MoveFits(s: World, after: World, w: nat, next: Phase, rec: Record, added: seq<Store.Revision>)
    requires RecordsInv(s) && WorkersFit(s) && OneEach(s) && Moves(s, after, w, next, rec, added)
    requires RecordGood(rec) && PhaseFits(next, rec)
    ensures RecordsInv(after) && WorkersFit(after)
  {
    hide RecordGood, PhaseFits;
    assert Ingests(s, w);
    forall v | v in after.workers ensures WorkerFits(after, v) {
      assert v in s.workers && WorkerFits(s, v);
      if v != w && Ingests(s, v) { assert s.workers[v].request != next.request; }
    }
  }

  lemma MoveBars(s: World, after: World, w: nat, next: Phase, rec: Record, added: seq<Store.Revision>)
    requires IdsInv(s) && BarsInv(s) && Moves(s, after, w, next, rec, added)
    requires Store.GoodTable(s.bars + added) && forall row :: row in added ==> row.batch == rec.id
    requires added != [] ==> (rec.status.Succeeded? || rec.status.Partial?) && rec.accepted > 0
    ensures IdsInv(after) && BarsInv(after)
  {
    forall row | row in after.bars ensures RowFits(after, row) {
      if row in s.bars { assert RowFits(s, row); }
    }
  }

  /** One busy worker moves on, its record as it was. */
  lemma SameRecordMove(s: World, w: nat, next: Phase)
    requires Inv(s) && w in s.workers && Busy(s.workers[w])
    requires next.request == s.workers[w].request && !next.Declined?
    requires s.workers[w].request in s.batches && PhaseFits(next, s.batches[next.request])
    ensures Inv(s.(workers := s.workers[w := next]))
  {
    var rec, after := s.batches[next.request], s.(workers := s.workers[w := next]);
    assert s.batches[next.request := rec] == s.batches && s.bars + [] == s.bars;
    assert Moves(s, after, w, next, rec, []);
    MoveFits(s, after, w, next, rec, []);
    MoveKeepsOne(s, after, w, next, rec, []);
    MoveBars(s, after, w, next, rec, []);
  }

  /** What a transaction adds to the bars belongs to its batch, which then is finished. */
  lemma NewBarsFit(phase: Phase, rec: Record, bars: seq<Store.Revision>, work: Work)
    requires RecordGood(rec) && Store.GoodTable(bars) && Transaction(phase, rec, work.outcome).Some?
    requires phase.Canonicalizing? ==> Finished(work.outcome, work.log, phase.rows, rec.id, bars)
    ensures var after, added := Transaction(phase, rec, work.outcome).value, NewBars(phase, bars, work);
            && Store.GoodTable(bars + added)
            && (forall row :: row in added ==> row.batch == rec.id)
            && (added != [] ==> (after.status.Succeeded? || after.status.Partial?) && after.accepted > 0)
  {
    if phase.Canonicalizing? {
      assert Store.AllAdmissible(work.log);
      Store.WritesKeepGood(bars, work.log);
      Store.WritesOfBatch(bars, work.log, rec.id);
      OutcomeGood(rec, work.outcome, phase.rows);
    } else {
      assert bars + [] == bars;
    }
  }

  lemma SettleKeeps(s: World, w: nat, fate: Fate, work: Work)
    requires Inv(s) && Enabled(s, w, work)
    ensures Inv(Settle(s, w, fate, work))
  {
    hide Transaction, RecordGood, PhaseFits, Finished, NewBars, RecordsInv, WorkersFit, OneEach, IdsInv, BarsInv;
    var phase := s.workers[w];
    var rec := s.batches[phase.request];
    SettleFacts(s, w, work);
    var after := Transaction(phase, rec, work.outcome);
    if after.None? || fate.Aborts? {
      SameRecordMove(s, w, AfterRaise(phase));
    } else {
      var next := if fate.Commits? then AfterSuccess(phase) else AfterRaise(phase);
      var added := NewBars(phase, s.bars, work);
      TransactionStays(phase, rec, work.outcome);
      assert Moves(s, Settle(s, w, fate, work), w, next, after.value, added);
      MoveFits(s, Settle(s, w, fate, work), w, next, after.value, added);
      MoveKeepsOne(s, Settle(s, w, fate, work), w, next, after.value, added);
      MoveBars(s, Settle(s, w, fate, work), w, next, after.value, added);
    }
  }

  lemma SettleFacts(s: World, w: nat, work: Work)
    requires Inv(s) && Enabled(s, w, work)
    ensures var phase := s.workers[w];
            var rec := s.batches[phase.request];
            var after, added := Transaction(phase, rec, work.outcome), NewBars(phase, s.bars, work);
            && PhaseFits(AfterRaise(phase), rec)
            && (after.Some? ==>
                  && RecordGood(after.value)
                  && PhaseFits(AfterSuccess(phase), after.value) && PhaseFits(AfterRaise(phase), after.value)
                  && Store.GoodTable(s.bars + added)
                  && (forall row :: row in added ==> row.batch == rec.id)
                  && (added != [] ==> (after.value.status.Succeeded? || after.value.status.Partial?)
                                      && after.value.accepted > 0))
  {
    hide Transaction, RecordGood, PhaseFits, NewBars, OneEach, IdsInv;
    var phase := s.workers[w];
    var rec := s.batches[phase.request];
    assert WorkerFits(s, w) && RecordGood(rec);
    TransactionKeeps(phase, rec, work.outcome);
    if Transaction(phase, rec, work.outcome).Some? { NewBarsFit(phase, rec, s.bars, work); }
  }

  lemma TablesKept(s: World, after: World)
    requires RecordsInv(s) && IdsInv(s) && BarsInv(s)
    requires after.batches == s.batches && after.started == s.started && after.bars == s.bars
    ensures RecordsInv(after) && IdsInv(after) && BarsInv(after)
  {
    hide RecordGood, Store.GoodTable;
    forall row | row in after.bars ensures RowFits(after, row) { assert RowFits(s, row); }
  }

  lemma DeclineKeepsOne(s: World, w: nat, request: string)
    requires OneEach(s) && w !in s.workers
    ensures OneEach(s.(workers := s.workers[w := Declined(request)]))
  {
    var after := s.(workers := s.workers[w := Declined(request)]);
    assert forall v :: Ingests(after, v) <==> Ingests(s, v);
    assert forall v :: Ingests(s, v) ==> after.workers[v] == s.workers[v];
    forall other | other in after.batches ensures Ingested(after, other) {
      assert Ingested(s, other);
      var v :| Ingests(s, v) && s.workers[v].request == other;
      assert Ingests(after, v);
    }
  }

  /** A declined worker changes nothing for the others. */
  lemma DeclineKeeps(s: World, w: nat, request: string)
    requires Inv(s) && w !in s.workers
    ensures Inv(s.(workers := s.workers[w := Declined(request)]))
  {
    hide PhaseFits, RecordsInv, IdsInv, BarsInv, OneEach;
    var after := s.(workers := s.workers[w := Declined(request)]);
    forall v | v in after.workers ensures WorkerFits(after, v) {
      if v != w { assert WorkerFits(s, v); }
    }
    DeclineKeepsOne(s, w, request);
    TablesKept(s, after);
  }

  /** `after` is `s` with a new batch and the worker that started it. */
  ghost predicate Opens(s: World, after: World, w: nat, phase: Phase, rec: Record) {
    && w !in s.workers && phase.request !in s.batches && !phase.Declined? && rec.id == |s.started|
    && after == World(s.batches[phase.request := rec], s.workers[w := phase], s.started + [phase.request], s.bars)
  }

  lemma OpenFits(s: World, after: World, w: nat, phase: Phase, rec: Record)
    requires RecordsInv(s) && WorkersFit(s) && Opens(s, after, w, phase, rec)
    requires RecordGood(rec) && PhaseFits(phase, rec)
    ensures RecordsInv(after) && WorkersFit(after)
  {
    hide RecordGood, PhaseFits;
    forall v | v in after.workers ensures WorkerFits(after, v) {
      if v != w { assert WorkerFits(s, v); }
    }
  }

  lemma OpenKeepsOne(s: World, after: World, w: nat, phase: Phase, rec: Record)
    requires WorkersFit(s) && OneEach(s) && Opens(s, after, w, phase, rec)
    ensures OneEach(after)
  {
    hide PhaseFits;
    forall v | Ingests(s, v) ensures s.workers[v].request != phase.request { assert WorkerFits(s, v); }
    assert forall v :: Ingests(after, v) <==> Ingests(s, v) || v == w;
    forall other | other in after.batches ensures Ingested(after, other) {
      if other in s.batches {
        assert Ingested(s, other);
        var v :| Ingests(s, v) && s.workers[v].request == other;
        assert Ingests(after, v) && after.workers[v] == s.workers[v];
      } else {
        assert Ingests(after, w) && after.workers[w].request == other;
      }
    }
  }

  lemma OpenBars(s: World, after: World, w: nat, phase: Phase, rec: Record)
    requires IdsInv(s) && BarsInv(s) && Opens(s, after, w, phase, rec)
    ensures IdsInv(after) && BarsInv(after)
  {
    hide Store.GoodTable;
    forall row | row in after.bars ensures RowFits(after, row) { assert RowFits(s, row); }
  }

  lemma StartKeeps(s: World, w: nat, request: string, symbol: string, fate: Fate)
    requires Inv(s) && w !in s.workers
    ensures Inv(Start(s, w, request, symbol, fate))
  {
    hide RecordsInv, WorkersFit, OneEach, IdsInv, BarsInv;
    var after := Start(s, w, request, symbol, fate);
    if request in s.batches || fate.Aborts? {
      DeclineKeeps(s, w, request);
    } else {
      var phase := if fate.Commits? then Fetching(request) else Orphaned(request);
      var rec := Started(|s.started|, symbol);
      assert Opens(s, after, w, phase, rec);
      OpenFits(s, after, w, phase, rec);
      OpenKeepsOne(s, after, w, phase, rec);
      OpenBars(s, after, w, phase, rec);
    }
  }

  lemma StepKeeps(s: World, e: Event)
    requires Inv(s)
    ensures Inv(Step(s, e))
  {
    hide RecordsInv, OneEach, IdsInv, BarsInv, Enabled, Start, Settle;
    match e
    case Begin(w, request, symbol, fate) => if w !in s.workers { StartKeeps(s, w, request, symbol, fate); }
    case Respond(w, reply) =>
      if w in s.workers && s.workers[w].Fetching? {
        assert WorkerFits(s, w);
        SameRecordMove(s, w, AfterReply(s.workers[w].request, reply));
      }
    case Transact(w, fate, work) => if Enabled(s, w, work) { SettleKeeps(s, w, fate, work); }
    case Crash(w) =>
      if w in s.workers && Busy(s.workers[w]) {
        assert WorkerFits(s, w);
        SameRecordMove(s, w, Orphaned(s.workers[w].request));
      }
  }

  /** The invariant holds in every reachable state. */
  lemma {:induction false} ProtocolHolds(events: seq<Event>)
    ensures Inv(Run(events))
  {
    if events == [] {
      assert forall key :: Filter(Store.KeyIs(key), []) == [];
    } else {
      ProtocolHolds(events[..|events| - 1]);
      StepKeeps(Run(events[..|events| - 1]), events[|events| - 1]);
    }
  }

  // ---- what a caller may rely on -----------------------------------------------------------------

  function OfId(id: int): Store.Revision -> bool { (r: Store.Revision) => r.batch == id }

  /** The bar revisions a batch has committed. */
  function BarsOf(s: World, id: int): seq<Store.Revision> { Filter(OfId(id), s.bars) }

  /** Between two states a batch stays, keeps identity and symbol, and once finished keeps everything. */
  ghost predicate Preserved(s: World, after: World, request: string)
    requires request in s.batches
  {
    && request in after.batches && s.bars <= after.bars
    && var r, r' := s.batches[request], after.batches[request];
       && r'.id == r.id && r'.symbol == r.symbol
       && (!r.status.Running? ==> r' == r && BarsOf(after, r.id) == BarsOf(s, r.id))
  }

  lemma AddedElsewhere(bars: seq<Store.Revision>, added: seq<Store.Revision>, id: int)
    requires forall row :: row in added ==> row.batch != id
    ensures Filter(OfId(id), bars + added) == Filter(OfId(id), bars)
  {
    FilterConcat(OfId(id), bars, added);
    FilterNone(OfId(id), added);
    assert Filter(OfId(id), bars) + [] == Filter(OfId(id), bars);
  }

  lemma SettlePreserves(s: World, w: nat, fate: Fate, work: Work, request: string)
    requires Inv(s) && Enabled(s, w, work) && request in s.batches
    ensures Preserved(s, Settle(s, w, fate, work), request)
  {
    hide Transaction, RecordsInv, WorkersFit, OneEach, BarsInv, Complete;
    var phase := s.workers[w];
    var rec := s.batches[phase.request];
    if Transaction(phase, rec, work.outcome).Some? {
      TransactionStays(phase, rec, work.outcome);
      if phase.Canonicalizing? { Store.WritesOfBatch(s.bars, work.log, rec.id); }
      if !s.batches[request].status.Running? {
        AddedElsewhere(s.bars, NewBars(phase, s.bars, work), s.batches[request].id);
      }
    }
  }

  lemma StepPreserves(s: World, e: Event, request: string)
    requires Inv(s) && request in s.batches
    ensures Preserved(s, Step(s, e), request)
  {
    hide Inv, Enabled, Settle;
    if e.Transact? && Enabled(s, e.w, e.work) { SettlePreserves(s, e.w, e.fate, e.work, request); }
  }

  /**
    Whatever happens afterwards, a started batch stays, keeps its identity and symbol, and once it
    has left RUNNING nothing of it (status, counts, raw events, bar revisions) ever changes again;
    committed bar revisions are never changed or removed.
  */
  lemma {:induction false} FinishedForGood(events: seq<Event>, later: seq<Event>, request: string)
    requires request in Run(events).batches
    ensures Preserved(Run(events), Run(events + later), request)
  {
    if later == [] {
      assert events + later == events;
    } else {
      var front, e := later[..|later| - 1], later[|later| - 1];
      FinishedForGood(events, front, request);
      RunSnoc(events + front, e);
      assert events + later == events + front + [e];
      ProtocolHolds(events + front);
      StepPreserves(Run(events + front), e, request);
      PreservedTransitive(Run(events), Run(events + front), Run(events + later), request);
    }
  }

  lemma PreservedTransitive(s: World, t: World, u: World, request: string)
    requires request in s.batches && Preserved(s, t, request) && Preserved(t, u, request)
    ensures Preserved(s, u, request)
  {
  }

  lemma RunSnoc(events: seq<Event>, e: Event)
    ensures Run(events + [e]) == Step(Run(events), e)
  {
    assert (events + [e])[..|events|] == events;
  }

  /**
    Every committed bar revision belongs to a succeeded or partial batch with every raw event
    decided and counted.
  */
  lemma BarsOnlyAfterSuccess(events: seq<Event>, row: Store.Revision)
    requires row in Run(events).bars
    ensures var s := Run(events);
            && 0 <= row.batch < |s.started| && s.started[row.batch] in s.batches
            && var b := s.batches[s.started[row.batch]];
               && b.id == row.batch && (b.status.Succeeded? || b.status.Partial?)
               && Decided(b.raw) && |b.raw| == b.received
               && b.accepted + b.rejected == b.received && b.accepted > 0
  {
    ProtocolHolds(events);
    assert RowFits(Run(events), row);
    assert RecordGood(Run(events).batches[Run(events).started[row.batch]]);
  }

  /** A failed or unfinished batch has every raw event pending and no bar revision. */
  lemma FailureKeepsRaw(events: seq<Event>, request: string)
    requires request in Run(events).batches
    requires Run(events).batches[request].status.Failed? || Run(events).batches[request].status.Running?
    ensures var b := Run(events).batches[request];
            Untouched(b.raw) && |b.raw| == b.received && BarsOf(Run(events), b.id) == []
  {
    var s := Run(events);
    ProtocolHolds(events);
    assert RecordGood(s.batches[request]);
    forall row | row in s.bars ensures row.batch != s.batches[request].id { assert RowFits(s, row); }
    FilterNone(OfId(s.batches[request].id), s.bars);
  }

  /** An ingestion that ended by itself left its batch finished. */
  lemma EndedMeansFinished(events: seq<Event>, w: nat)
    requires w in Run(events).workers && Run(events).workers[w].Ended?
    ensures var request := Run(events).workers[w].request;
            request in Run(events).batches && !Run(events).batches[request].status.Running?
  {
    ProtocolHolds(events);
    assert WorkerFits(Run(events), w);
  }

  /**
    In every reachable state each batch was started by exactly one ingestion, and an ingestion that
    was not declined is the one of its request's batch.
  */
  lemma RequestStartsOnce(events: seq<Event>, request: string) returns (owner: nat)
    requires request in Run(events).batches
    ensures var s := Run(events);
            && Ingests(s, owner) && s.workers[owner].request == request
            && forall w :: Ingests(s, w) && s.workers[w].request == request ==> w == owner
  {
    var s := Run(events);
    ProtocolHolds(events);
    assert Ingested(s, request);
    owner :| Ingests(s, owner) && s.workers[owner].request == request;
  }

  /**
    A commit that takes effect but raises can leave canonicalization's own failure handler facing
    a finished batch: the handler is refused, the outer one stands down, and the batch and its bar
    revisions stay as canonicalization left them.
  */
  lemma AmbiguousCommitIsHarmless(s: World, w: nat, work: Work, fate: Fate)
    requires Inv(s) && Enabled(s, w, work) && s.workers[w].Canonicalizing?
    requires s.batches[s.workers[w].request].status.Running?
    ensures var request := s.workers[w].request;
            var committed := Step(s, Transact(w, CommitsRaising, work));
            var refused := Step(committed, Transact(w, Commits, work));
            var done := Step(refused, Transact(w, fate, work));
            && committed.bars == s.bars + Store.Writes(s.bars, work.log)
            && done.batches == committed.batches && done.bars == committed.bars
            && request in done.batches && done.batches[request].status == work.outcome.status
            && w in done.workers && !Busy(done.workers[w])
  {
    var committed := Step(s, Transact(w, CommitsRaising, work));
    var refused := Step(committed, Transact(w, Commits, work));
    CommitsThenRaises(s, w, work);
    HandlerIsRefused(committed, w, work);
    OuterStandsDown(refused, w, work, fate);
  }

  lemma CommitsThenRaises(s: World, w: nat, work: Work)
    requires Inv(s) && Enabled(s, w, work) && s.workers[w].Canonicalizing?
    requires s.batches[s.workers[w].request].status.Running?
    ensures var request := s.workers[w].request;
            var after := Step(s, Transact(w, CommitsRaising, work));
            && after.bars == s.bars + Store.Writes(s.bars, work.log)
            && request in after.batches && after.batches[request].status == work.outcome.status
            && !after.batches[request].status.Running?
            && w in after.workers && after.workers[w] == MarkingCanonicalFailure(request, s.workers[w].rows)
  {
    hide Balanced;
    OutcomeGood(s.batches[s.workers[w].request], work.outcome, s.workers[w].rows);
  }

  lemma HandlerIsRefused(s: World, w: nat, work: Work)
    requires w in s.workers && s.workers[w].MarkingCanonicalFailure?
    requires s.workers[w].request in s.batches && !s.batches[s.workers[w].request].status.Running?
    ensures var after := Step(s, Transact(w, Commits, work));
            after == s.(workers := s.workers[w := MarkingStartFailure(s.workers[w].request)])
  {
  }

  lemma OuterStandsDown(s: World, w: nat, work: Work, fate: Fate)
    requires w in s.workers && s.workers[w].MarkingStartFailure?
    requires s.workers[w].request in s.batches && !s.batches[s.workers[w].request].status.Running?
    ensures var after := Step(s, Transact(w, fate, work));
            && after.batches == s.batches && after.bars == s.bars
            && w in after.workers && !Busy(after.workers[w])
  {
    var request := s.workers[w].request;
    assert s.batches[request := s.batches[request]] == s.batches && s.bars + [] == s.bars;
  }

  /** An ingestion that stops right after starting leaves its batch RUNNING. */
  lemma CrashLeavesRunning(request: string, symbol: string)
    ensures Run([Begin(0, request, symbol, Commits), Crash(0)]).batches == map[request := Started(0, symbol)]
  {
    var first := Begin(0, request, symbol, Commits);
    RunSnoc([first], Crash(0));
    RunSnoc([], first);
    assert [] + [first] == [first] && [first] + [Crash(0)] == [first, Crash(0)];
  }
}
