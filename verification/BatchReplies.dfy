/**
  How the provider's reply decides the end of a batch: what any run can leave it as, whatever else
  happens, and what an undisturbed ingestion leaves it as.
*/
module BatchReplies {
  import opened Sequences
  import opened Canonicalization
  import opened BatchProtocol
  import Store = RevisionStore

  /** The reply an ingestion has received, if any. */
  ghost function ReplyTo(events: seq<Event>, w: nat): Option<Reply> {
    if events == [] then None
    else
      var front, e := events[..|events| - 1], events[|events| - 1];
      if e.Respond? && e.w == w && w in Run(front).workers && Run(front).workers[w].Fetching? then Some(e.reply)
      else ReplyTo(front, w)
  }

  /** What a batch can be while its ingestion is in a phase, told from the reply alone. */
  ghost predicate ReplyFits(phase: Phase, r: Record, reply: Option<Reply>) {
    match reply
    case None => (phase.Fetching? || phase.Orphaned?) && r.status.Running? && r.received == 0
    case Some(HttpError) => FailureFits(phase, r, Failed)
    case Some(ProviderError) => FailureFits(phase, r, Failed)
    case Some(TransportError) => FailureFits(phase, r, Failed)
    case Some(Malformed) => FailureFits(phase, r, Quarantined)
    case Some(NoData) =>
      && ((phase.Acquiring? && phase.rows == 0 && phase.noData) || phase.FinishingEmpty? || Handled(phase))
      && (r.status.Running? || r.status.Failed? || r.status.Succeeded?) && r.received == 0
    case Some(Rows(n)) =>
      && (|| (phase.Acquiring? && phase.rows == n && !phase.noData)
          || (phase.Canonicalizing? && phase.rows == n)
          || (phase.MarkingCanonicalFailure? && phase.rows == n)
          || Handled(phase))
      && (r.status.Running? || r.status.Failed?
          || (r.received == n && r.status == TerminalStatus(r.accepted, r.rejected)))
    case Some(Raises) => Handled(phase) && (r.status.Running? || r.status.Failed?) && r.received == 0
  }

  ghost predicate Handled(phase: Phase) { phase.MarkingStartFailure? || phase.Ended? || phase.Orphaned? }

  ghost predicate FailureFits(phase: Phase, r: Record, to: BatchStatus) {
    && ((phase.AcquiringNothing? && phase.to == to) || (phase.Failing? && phase.to == to) || Handled(phase))
    && (r.status.Running? || r.status.Failed? || r.status == to) && r.received == 0
  }

  ghost predicate WorkerReplied(s: World, w: nat, reply: Option<Reply>) {
    w in s.workers && !s.workers[w].Declined? ==>
      && s.workers[w].request in s.batches
      && ReplyFits(s.workers[w], s.batches[s.workers[w].request], reply)
  }

  lemma ReplyTransaction(phase: Phase, r: Record, outcome: Outcome, reply: Option<Reply>)
    requires ReplyFits(phase, r, reply) && Transacts(phase)
    requires phase.Canonicalizing? ==> Complete(outcome, phase.rows)
    ensures ReplyFits(AfterRaise(phase), r, reply)
    ensures var after := Transaction(phase, r, outcome);
            after.Some? ==>
              ReplyFits(AfterSuccess(phase), after.value, reply) && ReplyFits(AfterRaise(phase), after.value, reply)
  {
    hide Balanced;
  }

  /** A transaction of one ingestion keeps its own reply's promise and touches no other batch. */
  lemma SettleReplied(s: World, v: nat, fate: Fate, work: Work, w: nat, reply: Option<Reply>)
    requires Inv(s) && Enabled(s, v, work) && WorkerReplied(s, w, reply)
    ensures WorkerReplied(Settle(s, v, fate, work), w, reply)
  {
    hide ReplyFits, Transaction, RecordsInv, WorkersFit, IdsInv, BarsInv, Complete, NewBars;
    var phase := s.workers[v];
    if v == w {
      ReplyTransaction(phase, s.batches[phase.request], work.outcome, reply);
    } else if w in s.workers && !s.workers[w].Declined? {
      assert Ingests(s, v) && Ingests(s, w);
    }
  }

  lemma StartReplied(s: World, v: nat, request: string, symbol: string, fate: Fate, w: nat, reply: Option<Reply>)
    requires v !in s.workers && WorkerReplied(s, w, reply) && (v == w ==> reply == None)
    ensures WorkerReplied(Start(s, v, request, symbol, fate), w, reply)
  {
  }

  lemma ReplyStep(s: World, e: Event, w: nat, reply: Option<Reply>)
    requires Inv(s) && WorkerReplied(s, w, reply) && (w !in s.workers ==> reply == None)
    ensures var answered := e.Respond? && e.w == w && w in s.workers && s.workers[w].Fetching?;
            WorkerReplied(Step(s, e), w, if answered then Some(e.reply) else reply)
  {
    hide Inv, Enabled, Settle, Start;
    match e
    case Begin(v, request, symbol, fate) =>
      if v !in s.workers { StartReplied(s, v, request, symbol, fate, w, reply); }
    case Respond(v, answer) =>
    case Transact(v, fate, work) => if Enabled(s, v, work) { SettleReplied(s, v, fate, work, w, reply); }
    case Crash(v) =>
  }

  lemma {:induction false} RepliesHold(events: seq<Event>, w: nat)
    ensures WorkerReplied(Run(events), w, ReplyTo(events, w))
    ensures w !in Run(events).workers ==> ReplyTo(events, w) == None
  {
    hide Inv, WorkerReplied, Step;
    if events == [] {
      NothingReplied(w);
    } else {
      var front, e := events[..|events| - 1], events[|events| - 1];
      RepliesHold(front, w);
      ProtocolHolds(front);
      ReplyStep(Run(front), e, w, ReplyTo(front, w));
      WorkersStay(Run(front), e, w);
    }
  }

  lemma NothingReplied(w: nat)
    ensures WorkerReplied(Run([]), w, None)
  {
  }

  lemma WorkersStay(s: World, e: Event, w: nat)
    ensures w in s.workers ==> w in Step(s, e).workers
  {
  }

  /** What a reply allows a batch to be left as. */
  ghost predicate LeftAs(r: Record, reply: Option<Reply>) {
    r.status.Running? || r.status.Failed? ||
    match reply
    case Some(Malformed) => r.status.Quarantined? && r.received == 0
    case Some(NoData) => r.status.Succeeded? && r.received == 0
    case Some(Rows(n)) => r.received == n && r.status == TerminalStatus(r.accepted, r.rejected)
    case _ => false
  }

  /**
    Whatever happens, a batch that is neither RUNNING nor FAILED was replied to with malformed
    content and is QUARANTINED, or without data and is SUCCEEDED, or with rows that were all
    received and is what the counts of accepted and rejected rows say.
  */
  lemma ReplyDecides(events: seq<Event>, request: string) returns (owner: nat)
    requires request in Run(events).batches
    ensures Ingests(Run(events), owner) && Run(events).workers[owner].request == request
    ensures LeftAs(Run(events).batches[request], ReplyTo(events, owner))
  {
    owner := RequestStartsOnce(events, request);
    RepliesHold(events, owner);
  }

  /** How an undisturbed ingestion ends. */
  ghost predicate EndsAs(r: Record, reply: Reply, work: Work) {
    match reply
    case HttpError => r.status.Failed? && r.received == 0
    case TransportError => r.status.Failed? && r.received == 0
    case ProviderError => r.status.Failed? && r.received == 0
    case Malformed => r.status.Quarantined? && r.received == 0
    case NoData => r.status.Succeeded? && r.received == 0
    case Rows(n) => r.status == work.outcome.status && r.received == n && r.raw == work.outcome.statuses
    case Raises => r.status.Failed? && r.received == 0
  }

  /** The state after the reply and the one or two transactions it leads to, all committed. */
  ghost function Undisturbed(s: World, w: nat, reply: Reply, work: Work): World {
    Step(Step(Step(s, Respond(w, reply)), Transact(w, Commits, work)), Transact(w, Commits, work))
  }

  /**
    An ingestion whose transactions commit ends, and its batch is left as the reply says: errors
    FAILED, malformed content QUARANTINED, no data SUCCEEDED, rows as canonicalization decided,
    its bar revisions included.
  */
  lemma UndisturbedEnds(s: World, w: nat, reply: Reply, work: Work)
    requires Inv(s) && w in s.workers && s.workers[w].Fetching?
    requires s.workers[w].request in s.batches && s.batches[s.workers[w].request].status.Running?
    requires reply.Rows? ==>
               Finished(work.outcome, work.log, reply.n, s.batches[s.workers[w].request].id, s.bars)
    ensures var t, request := Undisturbed(s, w, reply, work), s.workers[w].request;
            && w in t.workers && t.workers[w] == Ended(request)
            && request in t.batches && EndsAs(t.batches[request], reply, work)
            && t.bars == s.bars + if reply.Rows? then Store.Writes(s.bars, work.log) else []
  {
    hide RecordsInv, OneEach, IdsInv, BarsInv, Step, NewBars, Finished;
    var request := s.workers[w].request;
    var rec := s.batches[request];
    StartsEmpty(s, w);
    var phase := AfterReply(request, reply);
    var s1 := s.(workers := s.workers[w := phase]);
    Replied(s, w, reply);
    assert s.bars + [] == s.bars;
    var mid := Transaction(phase, rec, work.outcome).value;
    var s2 := Committed(s1, w, work, mid);
    BarsAdded(phase, s.bars, work);
    assert s2.bars == s.bars;
    if phase.Failing? || phase.MarkingStartFailure? {
      EndedStays(s2, w, work);
    } else {
      if reply.Rows? { FinishedFits(work, reply.n, rec.id, s.bars); }
      var last := Transaction(AfterSuccess(phase), mid, work.outcome).value;
      var s3 := Committed(s2, w, work, last);
      BarsAdded(AfterSuccess(phase), s.bars, work);
    }
  }

  lemma StartsEmpty(s: World, w: nat)
    requires Inv(s) && w in s.workers && s.workers[w].Fetching?
    requires s.workers[w].request in s.batches && s.batches[s.workers[w].request].status.Running?
    ensures var r := s.batches[s.workers[w].request]; r.received == r.accepted == r.rejected == 0 && r.raw == []
  {
    assert WorkerFits(s, w);
    assert RecordGood(s.batches[s.workers[w].request]);
  }

  lemma Replied(s: World, w: nat, reply: Reply)
    requires w in s.workers && s.workers[w].Fetching?
    ensures Step(s, Respond(w, reply)) == s.(workers := s.workers[w := AfterReply(s.workers[w].request, reply)])
  {
  }

  lemma BarsAdded(phase: Phase, bars: seq<Store.Revision>, work: Work)
    ensures NewBars(phase, bars, work) == if phase.Canonicalizing? then Store.Writes(bars, work.log) else []
  {
  }

  lemma FinishedFits(work: Work, n: nat, id: nat, bars: seq<Store.Revision>)
    requires Finished(work.outcome, work.log, n, id, bars)
    ensures work.outcome.accepted + work.outcome.rejected == n && !work.outcome.status.Running?
  {
  }

  /** The state after a worker's transaction has committed `after`. */
  lemma Committed(s: World, w: nat, work: Work, after: Record) returns (t: World)
    requires w in s.workers && Transacts(s.workers[w]) && s.workers[w].request in s.batches
    requires s.workers[w].Canonicalizing? ==>
               Finished(work.outcome, work.log, s.workers[w].rows, s.batches[s.workers[w].request].id, s.bars)
    requires Transaction(s.workers[w], s.batches[s.workers[w].request], work.outcome) == Some(after)
    ensures t == Step(s, Transact(w, Commits, work))
    ensures var phase := s.workers[w];
            t == World(s.batches[phase.request := after], s.workers[w := AfterSuccess(phase)], s.started,
                       s.bars + NewBars(phase, s.bars, work))
  {
    hide Transaction, Finished, NewBars;
    t := Step(s, Transact(w, Commits, work));
  }

  lemma EndedStays(s: World, w: nat, work: Work)
    requires w in s.workers && s.workers[w].Ended?
    ensures Step(s, Transact(w, Commits, work)) == s
  {
  }

  /**
    A transaction that aborts leaves a FAILED batch once the next handler commits: every raw event
    as it was, nothing counted, no bar revision added.
  */
  lemma AbortEndsFailed(s: World, w: nat, work: Work)
    requires Inv(s) && Enabled(s, w, work) && !s.workers[w].MarkingStartFailure?
    requires s.batches[s.workers[w].request].status.Running?
    ensures var request := s.workers[w].request;
            var t := Step(Step(s, Transact(w, Aborts, work)), Transact(w, Commits, work));
            && w in t.workers && t.workers[w] == Ended(request)
            && request in t.batches && t.batches[request] == s.batches[request].(status := Failed)
            && t.bars == s.bars
  {
    hide RecordsInv, OneEach, IdsInv, BarsInv, Step, NewBars, Finished;
    var phase := s.workers[w];
    var rec := s.batches[phase.request];
    RunningIsClean(s, w);
    Aborted(s, w, work);
    var next := AfterRaise(phase);
    var s1 := s.(workers := s.workers[w := next]);
    var t := Committed(s1, w, work, rec.(status := Failed));
    BarsAdded(next, s.bars, work);
  }

  lemma RunningIsClean(s: World, w: nat)
    requires Inv(s) && w in s.workers && Transacts(s.workers[w]) && s.workers[w].request in s.batches
    requires s.batches[s.workers[w].request].status.Running?
    ensures var r := s.batches[s.workers[w].request];
            && r.accepted == r.rejected == 0
            && (s.workers[w].Canonicalizing? || s.workers[w].MarkingCanonicalFailure? ==>
                  r.received == s.workers[w].rows)
  {
    assert WorkerFits(s, w);
    assert RecordGood(s.batches[s.workers[w].request]);
  }

  lemma Aborted(s: World, w: nat, work: Work)
    requires Enabled(s, w, work)
    ensures Step(s, Transact(w, Aborts, work)) == s.(workers := s.workers[w := AfterRaise(s.workers[w])])
  {
  }

  /** Some ingestion of the run began with this request and symbol. */
  ghost predicate Begun(events: seq<Event>, request: string, symbol: string) {
    exists i :: 0 <= i < |events| && events[i].Begin? && events[i].request == request && events[i].symbol == symbol
  }

  lemma BegunStays(events: seq<Event>, request: string, symbol: string)
    requires events != [] && Begun(events[..|events| - 1], request, symbol)
    ensures Begun(events, request, symbol)
  {
    var front := events[..|events| - 1];
    var i :| 0 <= i < |front| && front[i].Begin? && front[i].request == request && front[i].symbol == symbol;
    assert events[i] == front[i];
  }

  /** Every batch carries a symbol its request was begun with. */
  lemma {:induction false} BatchWasBegun(events: seq<Event>, request: string)
    requires request in Run(events).batches
    ensures Begun(events, request, Run(events).batches[request].symbol)
  {
    hide Inv, Preserved;
    var front, e := events[..|events| - 1], events[|events| - 1];
    var s := Run(front);
    if request in s.batches {
      BatchWasBegun(front, request);
      ProtocolHolds(front);
      StepPreserves(s, e, request);
      PreservesSymbol(s, Step(s, e), request);
      BegunStays(events, request, s.batches[request].symbol);
    } else {
      NewIsBegun(s, e, request);
    }
  }

  lemma PreservesSymbol(s: World, after: World, request: string)
    requires request in s.batches && Preserved(s, after, request)
    ensures request in after.batches && after.batches[request].symbol == s.batches[request].symbol
  {
  }

  /** Only a beginning creates a batch: RUNNING, with nothing received or counted. */
  lemma NewIsBegun(s: World, e: Event, request: string)
    requires request !in s.batches && request in Step(s, e).batches
    ensures e.Begin? && e.request == request && !e.fate.Aborts?
    ensures Step(s, e).batches[request] == Record(|s.started|, e.symbol, Running, 0, 0, 0, [])
  {
  }
}
