/**
  Canonicalization of one response: every row of the batch is accepted or rejected exactly once,
  the counters add up, and the surviving rows are written to the revision store in order.
*/
module Canonicalization {
  import opened Sequences
  import opened Duplicates
  import Store = RevisionStore

  datatype RawStatus = Pending | Validated | Rejected

  datatype BatchStatus = Running | Succeeded | Partial | Quarantined | Failed

  /** An instrument and its regular session on a trading date, as the catalog join returns them. */
  datatype Resolution = Resolution(
    instrument: int,
    instrumentVenue: Option<int>,
    sessionVenue: int,
    tradingDay: bool,
    sessionOpen: Option<int>,
    sessionClose: Option<int>)

  /**
    What canonicalization reads from outside: the catalog, the response time, the clock (one
    reading per resolved row), and the series of an instrument.
  */
  datatype Context = Context(
    resolve: RowKey -> Option<Resolution>,
    received: int,
    clock: nat -> int,
    series: int -> int,
    batch: int)

  // ---- the decision on one row -------------------------------------------------------------------

  /** `_validate_resolution`. */
  predicate ValidResolution(r: Resolution) {
    && r.instrumentVenue == Some(r.sessionVenue)
    && r.tradingDay && r.sessionOpen.Some? && r.sessionClose.Some?
    && r.sessionOpen.value < r.sessionClose.value
  }

  datatype Verdict = Refuse | Skip | Keep(resolution: Resolution)

  function VerdictOn(ctx: Context, row: RowResult): Verdict {
    if !Accepted(row) then Refuse
    else if !row.included then Skip
    else
      match ctx.resolve(KeyOf(row))
      case None => Refuse
      case Some(r) => if !ValidResolution(r) || ctx.received < r.sessionClose.value then Refuse else Keep(r)
  }

  predicate Timely(ctx: Context, k: nat) { ctx.received <= ctx.clock(k) }

  /** Positions of the rows kept for writing among the first `n`, in order. */
  function Kept(ctx: Context, rows: seq<RowResult>, n: nat): seq<nat>
    requires n <= |rows|
  {
    if n == 0 then []
    else if VerdictOn(ctx, rows[n - 1]).Keep? then Kept(ctx, rows, n - 1) + [n - 1]
    else Kept(ctx, rows, n - 1)
  }

  lemma {:induction false} KeptMembers(ctx: Context, rows: seq<RowResult>, n: nat)
    requires n <= |rows|
    ensures forall i: nat :: i in Kept(ctx, rows, n) <==> i < n && VerdictOn(ctx, rows[i]).Keep?
    ensures NoDup(Kept(ctx, rows, n))
  {
    hide VerdictOn, NoDup;
    if n == 0 {
      NoDupNothing();
    } else {
      KeptMembers(ctx, rows, n - 1);
      if VerdictOn(ctx, rows[n - 1]).Keep? { NoDupSnoc(Kept(ctx, rows, n - 1), n - 1); }
    }
  }

  /** The rows kept before a kept row are those listed before it. */
  lemma {:induction false} KeptPrefix(ctx: Context, rows: seq<RowResult>, n: nat, a: nat)
    requires n <= |rows| && a < |Kept(ctx, rows, n)|
    ensures Kept(ctx, rows, n)[a] < n && Kept(ctx, rows, Kept(ctx, rows, n)[a]) == Kept(ctx, rows, n)[..a]
  {
    hide VerdictOn;
    var before, all := Kept(ctx, rows, n - 1), Kept(ctx, rows, n);
    if a < |before| {
      KeptPrefix(ctx, rows, n - 1, a);
      assert all[..a] == before[..a];
    } else {
      assert all[..a] == before;
    }
  }

  lemma NoDupNothing()
    ensures NoDup<nat>([])
  {
  }

  lemma NoDupSnoc(s: seq<nat>, x: nat)
    requires NoDup(s) && x !in s
    ensures NoDup(s + [x])
  {
  }

  // ---- what a row must meet and what it brings ---------------------------------------------------

  /** The row's symbol and date name an instrument with a proper regular session that was over. */
  ghost predicate Eligible(ctx: Context, row: RowResult) {
    && Accepted(row) && row.included
    && ctx.resolve((row.candidate.value.symbol, row.candidate.value.date)).Some?
    && var r := SessionOf(ctx, row);
       && r.instrumentVenue == Some(r.sessionVenue) && r.tradingDay
       && r.sessionOpen.Some? && r.sessionClose.Some?
       && r.sessionOpen.value < r.sessionClose.value <= ctx.received
  }

  ghost function SessionOf(ctx: Context, row: RowResult): Resolution
    requires Accepted(row) && ctx.resolve((row.candidate.value.symbol, row.candidate.value.date)).Some?
  {
    ctx.resolve((row.candidate.value.symbol, row.candidate.value.date)).value
  }

  /** How many eligible rows come before: the clock is read once for each. */
  ghost function Turn(ctx: Context, rows: seq<RowResult>, i: nat): nat
    requires i <= |rows|
  {
    |set j: nat | j < i && Eligible(ctx, rows[j])|
  }

  /** The row reaches the store: it is eligible and the clock is not behind the response. */
  ghost predicate Stored(ctx: Context, rows: seq<RowResult>, i: nat) {
    i < |rows| && Eligible(ctx, rows[i]) && ctx.received <= ctx.clock(Turn(ctx, rows, i))
  }

  /** `x` is the daily bar the row reports, field by field. */
  ghost predicate Carries(ctx: Context, row: RowResult, x: Store.Revision)
    requires Eligible(ctx, row)
  {
    var c, r := row.candidate.value, SessionOf(ctx, row);
    && x.key.series == ctx.series(r.instrument) && x.key.open == r.sessionOpen.value
    && x.values.closeTs == r.sessionClose.value && x.values.tradingDate == c.date
    && x.values.openPrice == c.openPrice && x.values.highPrice == c.highPrice
    && x.values.lowPrice == c.lowPrice && x.values.closePrice == c.closePrice
    && x.values.volume == Some(c.volume) && x.values.isFinal && x.values.qualityFlags == 0
    && x.values.officialClose == None && x.values.settlement == None && x.values.quoteVolume == None
    && x.values.tradeCount == None && x.values.vwap == None && x.values.openInterest == None
    && x.values.previousClose == None
  }

  ghost predicate SameBar(ctx: Context, a: RowResult, b: RowResult)
    requires Eligible(ctx, a) && Eligible(ctx, b)
  {
    && ctx.series(SessionOf(ctx, a).instrument) == ctx.series(SessionOf(ctx, b).instrument)
    && SessionOf(ctx, a).sessionOpen == SessionOf(ctx, b).sessionOpen
  }

  /** No later row that reaches the store is for the same bar. */
  ghost predicate LastOfBar(ctx: Context, rows: seq<RowResult>, i: nat)
    requires Stored(ctx, rows, i)
  {
    forall j: nat :: i < j && Stored(ctx, rows, j) ==> !SameBar(ctx, rows[i], rows[j])
  }

  /** The bar was last reported by this row: its highest revision carries it. */
  ghost predicate ShownBy(ctx: Context, row: RowResult, table: seq<Store.Revision>)
    requires Eligible(ctx, row)
  {
    exists x :: Store.IsLatest(table, x) && Carries(ctx, row, x)
  }

  /** The row was stored as a new revision, with the response time, the clock reading and the batch. */
  ghost predicate BroughtBy(ctx: Context, rows: seq<RowResult>, i: nat, x: Store.Revision) {
    && Stored(ctx, rows, i) && Carries(ctx, rows[i], x)
    && x.available == ctx.received && x.systemAvailable == ctx.clock(Turn(ctx, rows, i)) && x.batch == ctx.batch
  }

  lemma KeepIffEligible(ctx: Context, row: RowResult)
    ensures VerdictOn(ctx, row).Keep? <==> Eligible(ctx, row)
    ensures Eligible(ctx, row) ==> VerdictOn(ctx, row).resolution == SessionOf(ctx, row)
  {
  }

  lemma {:induction false} KeptTurn(ctx: Context, rows: seq<RowResult>, n: nat)
    requires n <= |rows|
    ensures |Kept(ctx, rows, n)| == Turn(ctx, rows, n)
  {
    hide VerdictOn, Eligible;
    if n > 0 {
      KeptTurn(ctx, rows, n - 1);
      KeepIffEligible(ctx, rows[n - 1]);
      var before, all := set j: nat | j < n - 1 && Eligible(ctx, rows[j]), set j: nat | j < n && Eligible(ctx, rows[j]);
      assert all == if Eligible(ctx, rows[n - 1]) then before + {n - 1} else before;
    }
  }

  /** The `k`-th kept row gets the `k`-th clock reading. */
  lemma KeptStored(ctx: Context, rows: seq<RowResult>, k: nat)
    requires k < |Kept(ctx, rows, |rows|)|
    ensures var i := Kept(ctx, rows, |rows|)[k];
            && i < |rows| && Eligible(ctx, rows[i]) && Turn(ctx, rows, i) == k
            && VerdictOn(ctx, rows[i]).Keep? && VerdictOn(ctx, rows[i]).resolution == SessionOf(ctx, rows[i])
            && (Stored(ctx, rows, i) <==> Timely(ctx, k))
  {
    hide VerdictOn, Eligible, Turn;
    var kept := Kept(ctx, rows, |rows|);
    var i := kept[k];
    KeptMembers(ctx, rows, |rows|);
    KeptPrefix(ctx, rows, |rows|, k);
    assert i in kept;
    KeepIffEligible(ctx, rows[i]);
    KeptTurn(ctx, rows, i);
  }

  /** A row reaches the store only by being kept. */
  lemma StoredIsKept(ctx: Context, rows: seq<RowResult>, i: nat) returns (k: nat)
    requires Stored(ctx, rows, i)
    ensures k < |Kept(ctx, rows, |rows|)| && Kept(ctx, rows, |rows|)[k] == i && Timely(ctx, k)
  {
    hide VerdictOn, Eligible, Turn;
    KeptMembers(ctx, rows, |rows|);
    KeepIffEligible(ctx, rows[i]);
    k := IndexIn(Kept(ctx, rows, |rows|), i);
    KeptStored(ctx, rows, k);
  }

  /**
    How a raw event ends: validated exactly when its row is accepted and either set aside as a
    duplicate or stored, rejected otherwise.
  */
  lemma StatusIff(ctx: Context, rows: seq<RowResult>, i: nat)
    requires i < |rows|
    ensures FinalStatus(ctx, rows, i)
         == if Accepted(rows[i]) && (!rows[i].included || Stored(ctx, rows, i)) then Validated else Rejected
  {
    KeepIffEligible(ctx, rows[i]);
    KeptTurn(ctx, rows, i);
  }

  /** What each raw event must end as. */
  function FinalStatus(ctx: Context, rows: seq<RowResult>, i: nat): RawStatus
    requires i < |rows|
  {
    match VerdictOn(ctx, rows[i])
    case Refuse => Rejected
    case Skip => Validated
    case Keep(_) => if Timely(ctx, |Kept(ctx, rows, i)|) then Validated else Rejected
  }

  function Skipped(ctx: Context, rows: seq<RowResult>, n: nat): nat
    requires n <= |rows|
  {
    if n == 0 then 0
    else Skipped(ctx, rows, n - 1) + if VerdictOn(ctx, rows[n - 1]).Skip? then 1 else 0
  }

  function CandidateFor(ctx: Context, row: RowResult, r: Resolution, now: int): Store.Candidate
    requires Accepted(row) && ValidResolution(r)
  {
    var c := row.candidate.value;
    Store.Candidate(
      Store.BarKey(ctx.series(r.instrument), r.sessionOpen.value),
      Store.BarValues(r.sessionClose.value, c.date, c.openPrice, c.highPrice, c.lowPrice, c.closePrice, Some(c.volume),
                      None, None, None, None, None, None, true, 0, None),
      ctx.received, now, ctx.batch)
  }

  /** The candidates written for the first `k` kept rows. */
  function Log(ctx: Context, rows: seq<RowResult>, kept: seq<nat>, k: nat): seq<Store.Candidate>
    requires k <= |kept| && forall i :: i in kept ==> i < |rows| && VerdictOn(ctx, rows[i]).Keep?
  {
    if k == 0 then []
    else
      assert kept[k - 1] in kept;
      var row := rows[kept[k - 1]];
      Log(ctx, rows, kept, k - 1)
      + if Timely(ctx, k - 1) then [CandidateFor(ctx, row, VerdictOn(ctx, row).resolution, ctx.clock(k - 1))] else []
  }

  /** The candidate of the `k`-th kept row. */
  function CandidateAt(ctx: Context, rows: seq<RowResult>, kept: seq<nat>, k: nat): Store.Candidate
    requires k < |kept| && forall i :: i in kept ==> i < |rows| && VerdictOn(ctx, rows[i]).Keep?
  {
    assert kept[k] in kept;
    CandidateFor(ctx, rows[kept[k]], VerdictOn(ctx, rows[kept[k]]).resolution, ctx.clock(k))
  }

  /** A row of the store that has a candidate's values carries the row the candidate was built from. */
  lemma CandidateCarries(ctx: Context, row: RowResult, now: int, x: Store.Revision)
    requires Eligible(ctx, row)
    ensures var c := CandidateFor(ctx, row, SessionOf(ctx, row), now);
            && (x.key == c.key && x.values == c.values <==> Carries(ctx, row, x))
            && c.available == ctx.received && c.systemAvailable == now && c.batch == ctx.batch
  {
  }

  lemma SameBarIff(ctx: Context, a: RowResult, b: RowResult, s: int, t: int)
    requires Eligible(ctx, a) && Eligible(ctx, b)
    ensures SameBar(ctx, a, b) <==>
            CandidateFor(ctx, a, SessionOf(ctx, a), s).key == CandidateFor(ctx, b, SessionOf(ctx, b), t).key
  {
  }

  /** No candidate canonicalization builds is refused by the store. */
  lemma KeptIsAdmissible(ctx: Context, row: RowResult, k: nat)
    requires VerdictOn(ctx, row).Keep? && Timely(ctx, k)
    ensures Store.Admissible(CandidateFor(ctx, row, VerdictOn(ctx, row).resolution, ctx.clock(k)))
  {
  }

  // ---- counting ----------------------------------------------------------------------------------

  ghost predicate Balanced(statuses: seq<RawStatus>, accepted: nat, rejected: nat) {
    multiset(statuses)[Validated] == accepted && multiset(statuses)[Rejected] == rejected
  }

  lemma {:induction false} AllCounted(statuses: seq<RawStatus>)
    requires forall i :: 0 <= i < |statuses| ==> statuses[i] != Pending
    ensures multiset(statuses)[Validated] + multiset(statuses)[Rejected] == |statuses|
  {
    if statuses != [] {
      AllCounted(statuses[1..]);
      assert statuses == [statuses[0]] + statuses[1..];
    }
  }

  lemma NoneCounted(n: nat)
    ensures Balanced(seq(n, _ => Pending), 0, 0)
  {
    var s := seq(n, _ => Pending);
    assert Validated !in s && Rejected !in s;
  }

  /** Event statuses, the events decided so far in order, and the two counters. */
  datatype Tally = Tally(statuses: seq<RawStatus>, decided: seq<nat>, accepted: nat, rejected: nat)

  function Decide(t: Tally, i: nat, to: RawStatus): Tally
    requires i < |t.statuses|
  {
    Tally(t.statuses[i := to], t.decided + [i],
          t.accepted + if to == Validated then 1 else 0,
          t.rejected + if to == Rejected then 1 else 0)
  }

  /** Some events decided, each once and as `finals` says; the others pending. */
  ghost predicate Progress(finals: seq<RawStatus>, t: Tally) {
    && |t.statuses| == |finals|
    && (forall i: nat :: i < |finals| ==> t.statuses[i] == if i in t.decided then finals[i] else Pending)
    && NoDup(t.decided)
    && (forall i :: i in t.decided ==> i < |finals|)
    && Balanced(t.statuses, t.accepted, t.rejected)
  }

  lemma DecideOne(finals: seq<RawStatus>, t: Tally, i: nat)
    requires Progress(finals, t) && i < |finals| && i !in t.decided && finals[i] != Pending
    ensures Progress(finals, Decide(t, i, finals[i]))
  {
    assert t.statuses[i] == Pending;
  }

  function TerminalStatus(accepted: nat, rejected: nat): BatchStatus {
    if accepted > 0 && rejected > 0 then Partial
    else if accepted > 0 then Succeeded
    else if rejected > 0 then Quarantined
    else Succeeded
  }

  /** A batch succeeds with nothing rejected, is quarantined with nothing accepted, else is partial. */
  lemma TerminalMeans(accepted: nat, rejected: nat)
    ensures var status := TerminalStatus(accepted, rejected);
            && (status.Succeeded? <==> rejected == 0)
            && (status.Quarantined? <==> accepted == 0 && rejected > 0)
            && (status.Partial? <==> accepted > 0 && rejected > 0)
  {
  }

  datatype Outcome = Outcome(
    statuses: seq<RawStatus>,
    accepted: nat,
    rejected: nat,
    inserted: nat,
    corrected: nat,
    same: nat,
    status: BatchStatus)

  // ---- the first pass ----------------------------------------------------------------------------

  function Finals(ctx: Context, rows: seq<RowResult>): seq<RawStatus> {
    seq(|rows|, i requires 0 <= i < |rows| => FinalStatus(ctx, rows, i))
  }

  /** The events decided after the first `n` rows of the first pass: those not kept. */
  ghost predicate DecidesUnkept(ctx: Context, rows: seq<RowResult>, n: nat, decided: seq<nat>)
    requires n <= |rows|
  {
    forall i: nat :: i in decided <==> i < n && !VerdictOn(ctx, rows[i]).Keep?
  }

  ghost predicate FirstPass(ctx: Context, rows: seq<RowResult>, n: nat, t: Tally)
    requires n <= |rows|
  {
    && Progress(Finals(ctx, rows), t)
    && DecidesUnkept(ctx, rows, n, t.decided)
    && t.accepted == Skipped(ctx, rows, n)
  }

  /** The first pass over the first `n` rows: refused and skipped rows are decided. */
  function FirstRun(ctx: Context, rows: seq<RowResult>, n: nat): (t: Tally)
    requires n <= |rows|
    ensures |t.statuses| == |rows|
  {
    if n == 0 then Tally(seq(|rows|, _ => Pending), [], 0, 0)
    else
      var before := FirstRun(ctx, rows, n - 1);
      match VerdictOn(ctx, rows[n - 1])
      case Refuse => Decide(before, n - 1, Rejected)
      case Skip => Decide(before, n - 1, Validated)
      case Keep(_) => before
  }

  lemma {:induction false} FirstRunHolds(ctx: Context, rows: seq<RowResult>, n: nat)
    requires n <= |rows|
    ensures FirstPass(ctx, rows, n, FirstRun(ctx, rows, n))
  {
    hide FirstPass, VerdictOn;
    if n == 0 {
      NothingDecidedYet(ctx, rows);
    } else {
      FirstRunHolds(ctx, rows, n - 1);
      var before := FirstRun(ctx, rows, n - 1);
      match VerdictOn(ctx, rows[n - 1])
      case Refuse => FirstPassDecides(ctx, rows, n, before, Rejected);
      case Skip => FirstPassDecides(ctx, rows, n, before, Validated);
      case Keep(_) => FirstPassKeeps(ctx, rows, n, before);
    }
  }

  lemma NothingDecidedYet(ctx: Context, rows: seq<RowResult>)
    ensures FirstPass(ctx, rows, 0, FirstRun(ctx, rows, 0))
  {
    NoneCounted(|rows|);
  }

  lemma FirstPassDecides(ctx: Context, rows: seq<RowResult>, n: nat, t: Tally, to: RawStatus)
    requires 0 < n <= |rows| && FirstPass(ctx, rows, n - 1, t)
    requires !VerdictOn(ctx, rows[n - 1]).Keep?
    requires to == if VerdictOn(ctx, rows[n - 1]).Skip? then Validated else Rejected
    ensures FirstPass(ctx, rows, n, Decide(t, n - 1, to))
  {
    UnkeptGrows(ctx, rows, n, t.decided);
    var finals := Finals(ctx, rows);
    assert finals[n - 1] == to;
    DecideOne(finals, t, n - 1);
  }

  lemma UnkeptGrows(ctx: Context, rows: seq<RowResult>, n: nat, decided: seq<nat>)
    requires 0 < n <= |rows| && DecidesUnkept(ctx, rows, n - 1, decided) && !VerdictOn(ctx, rows[n - 1]).Keep?
    ensures DecidesUnkept(ctx, rows, n, decided + [n - 1]) && n - 1 !in decided
  {
  }

  lemma FirstPassKeeps(ctx: Context, rows: seq<RowResult>, n: nat, t: Tally)
    requires 0 < n <= |rows| && FirstPass(ctx, rows, n - 1, t) && VerdictOn(ctx, rows[n - 1]).Keep?
    ensures FirstPass(ctx, rows, n, t)
  {
  }

  method DecideUnwritten(ctx: Context, rows: seq<RowResult>) returns (t: Tally, kept: seq<nat>)
    ensures t == FirstRun(ctx, rows, |rows|) && kept == Kept(ctx, rows, |rows|)
  {
    t, kept := Tally(seq(|rows|, _ => Pending), [], 0, 0), [];
    for n := 0 to |rows|
      invariant t == FirstRun(ctx, rows, n) && kept == Kept(ctx, rows, n)
    {
      match VerdictOn(ctx, rows[n])
      case Refuse => t := Decide(t, n, Rejected);
      case Skip => t := Decide(t, n, Validated);
      case Keep(_) => kept := kept + [n];
    }
  }

  // ---- the second pass ---------------------------------------------------------------------------

  /** The rows kept for writing: each ends accepted or rejected by the clock reading it gets. */
  ghost predicate Clocked(ctx: Context, kept: seq<nat>, finals: seq<RawStatus>) {
    forall k :: 0 <= k < |kept| ==>
      kept[k] < |finals| && finals[kept[k]] == if Timely(ctx, k) then Validated else Rejected
  }

  lemma KeptAreClocked(ctx: Context, rows: seq<RowResult>)
    ensures Clocked(ctx, Kept(ctx, rows, |rows|), Finals(ctx, rows))
  {
    KeptMembers(ctx, rows, |rows|);
    var kept := Kept(ctx, rows, |rows|);
    forall k | 0 <= k < |kept|
      ensures kept[k] < |rows| && FinalStatus(ctx, rows, kept[k]) == if Timely(ctx, k) then Validated else Rejected
    {
      assert kept[k] in kept;
      KeptPrefix(ctx, rows, |rows|, k);
    }
  }

  function TimelyCount(ctx: Context, k: nat): nat {
    if k == 0 then 0 else TimelyCount(ctx, k - 1) + if Timely(ctx, k - 1) then 1 else 0
  }

  lemma {:induction false} LogLength(ctx: Context, rows: seq<RowResult>, kept: seq<nat>, k: nat)
    requires k <= |kept| && InRange(ctx, rows, kept)
    ensures |Log(ctx, rows, kept, k)| == TimelyCount(ctx, k)
  {
    if k > 0 { LogLength(ctx, rows, kept, k - 1); }
  }

  /** The second pass over the first `k` kept rows: late ones are rejected, the others written. */
  function SecondRun(ctx: Context, kept: seq<nat>, start: Tally, k: nat): (t: Tally)
    requires k <= |kept| && forall i :: i in kept ==> i < |start.statuses|
    ensures |t.statuses| == |start.statuses|
  {
    if k == 0 then start
    else
      assert kept[k - 1] in kept;
      Decide(SecondRun(ctx, kept, start, k - 1), kept[k - 1], if Timely(ctx, k - 1) then Validated else Rejected)
  }

  /** After `k` kept rows: those decided before, then the first `k` kept ones, all as they should end. */
  ghost predicate AfterKept(finals: seq<RawStatus>, first: seq<nat>, kept: seq<nat>, k: nat, t: Tally)
    requires k <= |kept|
  {
    Progress(finals, t) && t.decided == first + kept[..k]
  }

  lemma KeptStep(finals: seq<RawStatus>, first: seq<nat>, kept: seq<nat>, k: nat, t: Tally, to: RawStatus)
    requires k < |kept| && AfterKept(finals, first, kept, k, t) && NoDup(first + kept)
    requires kept[k] < |finals| && finals[kept[k]] == to && to != Pending
    ensures kept[k] < |t.statuses| && AfterKept(finals, first, kept, k + 1, Decide(t, kept[k], to))
  {
    NotYet(first, kept, k);
    DecideOne(finals, t, kept[k]);
    assert kept[..k + 1] == kept[..k] + [kept[k]];
  }

  lemma {:induction false} SecondRunHolds(ctx: Context, kept: seq<nat>, start: Tally, finals: seq<RawStatus>, k: nat)
    requires k <= |kept| && Progress(finals, start) && Clocked(ctx, kept, finals)
    requires NoDup(start.decided + kept) && forall i :: i in kept ==> i < |start.statuses|
    ensures AfterKept(finals, start.decided, kept, k, SecondRun(ctx, kept, start, k))
  {
    hide Progress, Timely;
    if k == 0 {
      assert start.decided + kept[..0] == start.decided;
    } else {
      SecondRunHolds(ctx, kept, start, finals, k - 1);
      KeptStep(finals, start.decided, kept, k - 1, SecondRun(ctx, kept, start, k - 1),
               if Timely(ctx, k - 1) then Validated else Rejected);
    }
  }

  lemma {:induction false} SecondRunCounts(ctx: Context, kept: seq<nat>, start: Tally, k: nat)
    requires k <= |kept| && forall i :: i in kept ==> i < |start.statuses|
    ensures SecondRun(ctx, kept, start, k).accepted == start.accepted + TimelyCount(ctx, k)
  {
    if k > 0 { SecondRunCounts(ctx, kept, start, k - 1); }
  }

  lemma NotYet(a: seq<nat>, b: seq<nat>, k: nat)
    requires NoDup(a + b) && k < |b|
    ensures b[k] !in a + b[..k]
  {
    var s := a + b;
    assert s[|a| + k] == b[k];
    forall i | 0 <= i < |a| + k ensures (a + b[..k])[i] != b[k] { assert (a + b[..k])[i] == s[i]; }
  }

  /** Decided and kept rows together are all rows, each once. */
  lemma PassesPartition(ctx: Context, rows: seq<RowResult>, decided: seq<nat>)
    requires DecidesUnkept(ctx, rows, |rows|, decided) && NoDup(decided)
    ensures var all := decided + Kept(ctx, rows, |rows|);
            NoDup(all) && forall i: nat :: i in all <==> i < |rows|
  {
    var kept := Kept(ctx, rows, |rows|);
    KeptMembers(ctx, rows, |rows|);
    Disjoint(decided, kept);
  }

  lemma Disjoint(a: seq<nat>, b: seq<nat>)
    requires NoDup(a) && NoDup(b) && forall x :: x in a ==> x !in b
    ensures NoDup(a + b)
  {
    forall i, j | 0 <= i < j < |a + b| ensures (a + b)[i] != (a + b)[j] {
      if i < |a| <= j { assert a[i] in a && b[j - |a|] in b; }
    }
  }

  ghost predicate InRange(ctx: Context, rows: seq<RowResult>, kept: seq<nat>) {
    forall i :: i in kept ==> i < |rows| && VerdictOn(ctx, rows[i]).Keep?
  }

  lemma WritesSnoc(base: seq<Store.Revision>, log: seq<Store.Candidate>, c: Store.Candidate)
    ensures var rows := base + Store.Writes(base, log);
            rows + Store.NewRows(rows, c) == base + Store.Writes(base, log + [c])
  {
    Store.EmitSnoc(Store.NewRows, base, log, c);
  }

  method WriteKept(ctx: Context, rows: seq<RowResult>, kept: seq<nat>, start: Tally, writer: Store.BarWriter)
    returns (t: Tally, inserted: nat, corrected: nat, same: nat)
    requires InRange(ctx, rows, kept) && |start.statuses| == |rows|
    modifies writer
    ensures t == SecondRun(ctx, kept, start, |kept|)
    ensures inserted + corrected + same == |Log(ctx, rows, kept, |kept|)|
    ensures writer.rows == old(writer.rows) + Store.Writes(old(writer.rows), Log(ctx, rows, kept, |kept|))
    ensures |writer.rows| == |old(writer.rows)| + inserted + corrected
    ensures Store.Numbered(old(writer.rows)) ==> Store.Firsts(writer.rows) == Store.Firsts(old(writer.rows)) + inserted
  {
    hide Store.NewRows, Store.Firsts, Store.Numbered, Store.Shows, Store.IsLatest, Store.GoodTable, CandidateFor;
    t, inserted, corrected, same := start, 0, 0, 0;
    for k := 0 to |kept|
      invariant t == SecondRun(ctx, kept, start, k)
      invariant inserted + corrected + same == |Log(ctx, rows, kept, k)|
      invariant writer.rows == old(writer.rows) + Store.Writes(old(writer.rows), Log(ctx, rows, kept, k))
      invariant |writer.rows| == |old(writer.rows)| + inserted + corrected
      invariant Store.Numbered(old(writer.rows)) ==>
        Store.Numbered(writer.rows) && Store.Firsts(writer.rows) == Store.Firsts(old(writer.rows)) + inserted
    {
      var i := kept[k];
      assert i in kept;
      var now := ctx.clock(k);
      if now < ctx.received {
        assert Log(ctx, rows, kept, k + 1) == Log(ctx, rows, kept, k);
        t := Decide(t, i, Rejected);
      } else {
        KeptIsAdmissible(ctx, rows[i], k);
        var candidate := CandidateFor(ctx, rows[i], VerdictOn(ctx, rows[i]).resolution, now);
        assert Log(ctx, rows, kept, k + 1) == Log(ctx, rows, kept, k) + [candidate];
        WritesSnoc(old(writer.rows), Log(ctx, rows, kept, k), candidate);
        var write := writer.AppendRevisionIfChanged(candidate);
        match write.value.0 {
          case Inserted => inserted := inserted + 1;
          case Corrected => corrected := corrected + 1;
          case Unchanged => same := same + 1;
        }
        t := Decide(t, i, Validated);
      }
    }
  }

  // ---- the whole ---------------------------------------------------------------------------------

  /** A complete outcome: nothing pending, counters equal to the decisions, status as they demand. */
  ghost predicate Complete(o: Outcome, n: nat) {
    && |o.statuses| == n
    && (forall i :: 0 <= i < n ==> o.statuses[i] != Pending)
    && Balanced(o.statuses, o.accepted, o.rejected)
    && o.accepted + o.rejected == n
    && o.inserted + o.corrected + o.same <= o.accepted
    && o.status == TerminalStatus(o.accepted, o.rejected)
  }

  /** The candidates canonicalization writes, in order. */
  function Written(ctx: Context, rows: seq<RowResult>): seq<Store.Candidate> {
    KeptMembers(ctx, rows, |rows|);
    Log(ctx, rows, Kept(ctx, rows, |rows|), |Kept(ctx, rows, |rows|)|)
  }

  /** The candidates of the log are those of the rows kept and timely. */
  lemma {:induction false} LogMembers(ctx: Context, rows: seq<RowResult>, kept: seq<nat>, k: nat, c: Store.Candidate)
    returns (m: nat)
    requires k <= |kept| && InRange(ctx, rows, kept) && c in Log(ctx, rows, kept, k)
    ensures m < k && Timely(ctx, m) && c == CandidateAt(ctx, rows, kept, m)
  {
    hide CandidateFor, VerdictOn;
    if c in Log(ctx, rows, kept, k - 1) {
      m := LogMembers(ctx, rows, kept, k - 1, c);
    } else {
      m := k - 1;
    }
  }

  /** A kept and timely row is what its bar shows unless a later one is for the same bar. */
  lemma {:induction false} LogShows(ctx: Context, rows: seq<RowResult>, kept: seq<nat>, k: nat, m: nat,
                                    table: seq<Store.Revision>)
    requires m < k <= |kept| && InRange(ctx, rows, kept) && Timely(ctx, m)
    requires forall l :: m < l < k && Timely(ctx, l) ==>
               CandidateAt(ctx, rows, kept, l).key != CandidateAt(ctx, rows, kept, m).key
    ensures Store.Shows(table + Store.Writes(table, Log(ctx, rows, kept, k)), CandidateAt(ctx, rows, kept, m))
  {
    hide Store.Shows, Store.NewRows, CandidateFor, VerdictOn;
    var before := table + Store.Writes(table, Log(ctx, rows, kept, k - 1));
    if m < k - 1 { LogShows(ctx, rows, kept, k - 1, m, table); }
    if Timely(ctx, k - 1) {
      var c := CandidateAt(ctx, rows, kept, k - 1);
      assert Log(ctx, rows, kept, k) == Log(ctx, rows, kept, k - 1) + [c];
      WritesSnoc(table, Log(ctx, rows, kept, k - 1), c);
      if m == k - 1 {
        Store.WriteShows(before, c);
      } else {
        Store.WriteKeepsShown(before, c, CandidateAt(ctx, rows, kept, m));
      }
    } else {
      assert Log(ctx, rows, kept, k) == Log(ctx, rows, kept, k - 1);
    }
  }

  /** Every row added to the store was brought by a row of the response. */
  lemma AddedIsBrought(ctx: Context, rows: seq<RowResult>, table: seq<Store.Revision>, x: Store.Revision)
    requires x in Store.Writes(table, Written(ctx, rows))
    ensures exists i :: BroughtBy(ctx, rows, i, x)
  {
    hide VerdictOn, Eligible, Carries, CandidateFor, Turn;
    var kept := Kept(ctx, rows, |rows|);
    KeptMembers(ctx, rows, |rows|);
    Store.WritesStore(table, Written(ctx, rows), x);
    var c :| c in Written(ctx, rows) && Store.Stores(x, c);
    var m := LogMembers(ctx, rows, kept, |kept|, c);
    KeptStored(ctx, rows, m);
    CandidateCarries(ctx, rows[kept[m]], ctx.clock(m), x);
    assert BroughtBy(ctx, rows, kept[m], x);
  }

  /** Every bar shows the last row stored for it. */
  lemma LastIsShown(ctx: Context, rows: seq<RowResult>, table: seq<Store.Revision>, i: nat)
    requires Stored(ctx, rows, i) && LastOfBar(ctx, rows, i)
    ensures ShownBy(ctx, rows[i], table + Store.Writes(table, Written(ctx, rows)))
  {
    hide VerdictOn, Eligible, Carries, CandidateFor, Turn, SameBar;
    var kept := Kept(ctx, rows, |rows|);
    KeptMembers(ctx, rows, |rows|);
    var m := StoredIsKept(ctx, rows, i);
    KeptStored(ctx, rows, m);
    var c := CandidateAt(ctx, rows, kept, m);
    forall l | m < l < |kept| && Timely(ctx, l) ensures CandidateAt(ctx, rows, kept, l).key != c.key {
      KeptStored(ctx, rows, l);
      KeptInOrder(ctx, rows, m, l);
      SameBarIff(ctx, rows[i], rows[kept[l]], ctx.clock(m), ctx.clock(l));
    }
    LogShows(ctx, rows, kept, |kept|, m, table);
    var after := table + Store.Writes(table, Written(ctx, rows));
    var x :| Store.IsLatest(after, x) && x.key == c.key && x.values == c.values;
    CandidateCarries(ctx, rows[i], ctx.clock(m), x);
  }

  lemma KeptInOrder(ctx: Context, rows: seq<RowResult>, m: nat, l: nat)
    requires m < l < |Kept(ctx, rows, |rows|)|
    ensures Kept(ctx, rows, |rows|)[m] < Kept(ctx, rows, |rows|)[l]
  {
    var kept := Kept(ctx, rows, |rows|);
    KeptPrefix(ctx, rows, |rows|, l);
    KeptMembers(ctx, rows, kept[l]);
    assert kept[..l][m] == kept[m];
    assert kept[m] in Kept(ctx, rows, kept[l]);
  }

  /** Everything written is admissible and carries the batch. */
  lemma {:induction false} LogIsOfBatch(ctx: Context, rows: seq<RowResult>, kept: seq<nat>, k: nat)
    requires k <= |kept| && InRange(ctx, rows, kept)
    ensures OfBatch(Log(ctx, rows, kept, k), ctx.batch)
  {
    if k > 0 {
      LogIsOfBatch(ctx, rows, kept, k - 1);
      assert kept[k - 1] in kept;
      if Timely(ctx, k - 1) { KeptIsAdmissible(ctx, rows[kept[k - 1]], k - 1); }
    }
  }

  ghost predicate OfBatch(log: seq<Store.Candidate>, batch: int) {
    forall c :: c in log ==> Store.Admissible(c) && c.batch == batch
  }

  /**
    What a canonicalization of `n` rows leaves to be committed: a complete outcome, and a log of
    writes for the batch that adds as many revisions to the table as the counters say.
  */
  ghost predicate Finished(o: Outcome, log: seq<Store.Candidate>, n: nat, batch: int, table: seq<Store.Revision>) {
    && Complete(o, n)
    && OfBatch(log, batch)
    && |log| == o.inserted + o.corrected + o.same
    && |Store.Writes(table, log)| == o.inserted + o.corrected
  }

  /**
    `_canonicalize`: every raw event is decided once and as the rules say, accepted and rejected
    add up to the rows received, and the writes are the accepted rows less the skipped duplicates.
    Afterwards every bar shows the last row stored for it, and every added revision was brought by
    a row of the response.
  */
  method Canonicalize(ctx: Context, rows: seq<RowResult>, writer: Store.BarWriter)
    returns (outcome: Outcome, decided: seq<nat>)
    modifies writer
    ensures |outcome.statuses| == |rows|
    ensures forall i :: 0 <= i < |rows| ==> outcome.statuses[i] == FinalStatus(ctx, rows, i)
    ensures NoDup(decided) && forall i: nat :: i in decided <==> i < |rows|
    ensures Finished(outcome, Written(ctx, rows), |rows|, ctx.batch, old(writer.rows))
    ensures outcome.inserted + outcome.corrected + outcome.same == outcome.accepted - Skipped(ctx, rows, |rows|)
    ensures writer.rows == old(writer.rows) + Store.Writes(old(writer.rows), Written(ctx, rows))
    ensures Store.Numbered(old(writer.rows)) ==>
              Store.Firsts(writer.rows) == Store.Firsts(old(writer.rows)) + outcome.inserted
    ensures EndsAsStored(ctx, rows, outcome.statuses)
    ensures LastRowsShown(ctx, rows, writer.rows)
    ensures AllBrought(ctx, rows, writer.rows[|old(writer.rows)|..])
  {
    hide EndsAsStored, LastRowsShown, AllBrought, FinalStatus, VerdictOn, Finished, NoDup, Skipped, Store.Writes,
         Store.Firsts, Store.Numbered;
    var start, kept := DecideUnwritten(ctx, rows);
    KeptMembers(ctx, rows, |rows|);
    var t, inserted, corrected, same := WriteKept(ctx, rows, kept, start, writer);
    outcome := Outcome(t.statuses, t.accepted, t.rejected, inserted, corrected, same,
                       TerminalStatus(t.accepted, t.rejected));
    decided := t.decided;
    ghost var added := Store.Writes(old(writer.rows), Written(ctx, rows));
    assert writer.rows[|old(writer.rows)|..] == added && |added| == inserted + corrected;
    OutcomeFits(ctx, rows, old(writer.rows), outcome);
    WritesAreRight(ctx, rows, old(writer.rows));
  }

  /** The tally with the write counters makes the outcome canonicalization promises. */
  lemma OutcomeFits(ctx: Context, rows: seq<RowResult>, table: seq<Store.Revision>, o: Outcome)
    requires var t := Tallied(ctx, rows);
             && o.statuses == t.statuses && o.accepted == t.accepted && o.rejected == t.rejected
             && o.status == TerminalStatus(t.accepted, t.rejected)
    requires o.inserted + o.corrected + o.same == |Written(ctx, rows)|
    requires o.inserted + o.corrected == |Store.Writes(table, Written(ctx, rows))|
    ensures |o.statuses| == |rows| && forall i :: 0 <= i < |rows| ==> o.statuses[i] == FinalStatus(ctx, rows, i)
    ensures var decided := Tallied(ctx, rows).decided; NoDup(decided) && forall i: nat :: i in decided <==> i < |rows|
    ensures Finished(o, Written(ctx, rows), |rows|, ctx.batch, table)
    ensures o.inserted + o.corrected + o.same == o.accepted - Skipped(ctx, rows, |rows|)
    ensures EndsAsStored(ctx, rows, o.statuses)
  {
    hide EndsAsStored, FinalStatus, VerdictOn, Balanced, Store.Writes, OfBatch, Tallied;
    var kept := Kept(ctx, rows, |rows|);
    TallyHolds(ctx, rows);
    KeptMembers(ctx, rows, |rows|);
    LogIsOfBatch(ctx, rows, kept, |kept|);
    StatusesAreRight(ctx, rows, o.statuses);
  }

  /** Every raw event ends validated exactly when its row is set aside as a duplicate or stored. */
  ghost predicate EndsAsStored(ctx: Context, rows: seq<RowResult>, statuses: seq<RawStatus>) {
    && |statuses| == |rows|
    && forall i :: 0 <= i < |rows| ==>
         statuses[i] == (if Accepted(rows[i]) && (!rows[i].included || Stored(ctx, rows, i))
                         then Validated else Rejected)
  }

  /** Every bar shows the last row stored for it. */
  ghost predicate LastRowsShown(ctx: Context, rows: seq<RowResult>, table: seq<Store.Revision>) {
    forall i: nat :: Stored(ctx, rows, i) && LastOfBar(ctx, rows, i) ==> ShownBy(ctx, rows[i], table)
  }

  ghost predicate AllBrought(ctx: Context, rows: seq<RowResult>, added: seq<Store.Revision>) {
    forall x :: x in added ==> exists i :: BroughtBy(ctx, rows, i, x)
  }

  lemma StatusesAreRight(ctx: Context, rows: seq<RowResult>, statuses: seq<RawStatus>)
    requires |statuses| == |rows| && forall i :: 0 <= i < |rows| ==> statuses[i] == FinalStatus(ctx, rows, i)
    ensures EndsAsStored(ctx, rows, statuses)
  {
    hide FinalStatus, Stored;
    forall i | 0 <= i < |rows|
      ensures statuses[i] == if Accepted(rows[i]) && (!rows[i].included || Stored(ctx, rows, i))
                             then Validated else Rejected
    {
      StatusIff(ctx, rows, i);
    }
  }

  lemma WritesAreRight(ctx: Context, rows: seq<RowResult>, table: seq<Store.Revision>)
    ensures var added := Store.Writes(table, Written(ctx, rows));
            LastRowsShown(ctx, rows, table + added) && AllBrought(ctx, rows, added)
  {
    hide ShownBy, BroughtBy, Eligible, Turn, LastOfBar;
    var added := Store.Writes(table, Written(ctx, rows));
    forall i: nat | Stored(ctx, rows, i) && LastOfBar(ctx, rows, i) ensures ShownBy(ctx, rows[i], table + added) {
      LastIsShown(ctx, rows, table, i);
    }
    forall x | x in added ensures exists i :: BroughtBy(ctx, rows, i, x) { AddedIsBrought(ctx, rows, table, x); }
  }

  /** The tally after both passes. */
  function Tallied(ctx: Context, rows: seq<RowResult>): Tally {
    KeptMembers(ctx, rows, |rows|);
    SecondRun(ctx, Kept(ctx, rows, |rows|), FirstRun(ctx, rows, |rows|), |Kept(ctx, rows, |rows|)|)
  }

  lemma TallyDecidesAll(ctx: Context, rows: seq<RowResult>)
    ensures var t := Tallied(ctx, rows);
            Progress(Finals(ctx, rows), t) && forall i: nat :: i in t.decided <==> i < |rows|
  {
    var kept, start, finals := Kept(ctx, rows, |rows|), FirstRun(ctx, rows, |rows|), Finals(ctx, rows);
    FirstRunHolds(ctx, rows, |rows|);
    PassesPartition(ctx, rows, start.decided);
    KeptAreClocked(ctx, rows);
    KeptMembers(ctx, rows, |rows|);
    SecondRunHolds(ctx, kept, start, finals, |kept|);
    assert kept[..|kept|] == kept;
  }

  lemma TallyCounts(ctx: Context, rows: seq<RowResult>)
    ensures Tallied(ctx, rows).accepted == Skipped(ctx, rows, |rows|) + |Written(ctx, rows)|
  {
    var kept := Kept(ctx, rows, |rows|);
    KeptMembers(ctx, rows, |rows|);
    FirstRunHolds(ctx, rows, |rows|);
    SecondRunCounts(ctx, kept, FirstRun(ctx, rows, |rows|), |kept|);
    LogLength(ctx, rows, kept, |kept|);
  }

  /** Both passes decide every event once, as it should end, and count what they decide. */
  lemma TallyHolds(ctx: Context, rows: seq<RowResult>)
    ensures var t := Tallied(ctx, rows);
            && t.statuses == Finals(ctx, rows) && (forall i :: 0 <= i < |rows| ==> t.statuses[i] != Pending)
            && NoDup(t.decided) && (forall i: nat :: i in t.decided <==> i < |rows|)
            && Balanced(t.statuses, t.accepted, t.rejected) && t.accepted + t.rejected == |rows|
            && t.accepted == Skipped(ctx, rows, |rows|) + |Written(ctx, rows)|
  {
    TallyDecidesAll(ctx, rows);
    TallyCounts(ctx, rows);
    AllDecided(Finals(ctx, rows), Tallied(ctx, rows));
    assert forall i :: 0 <= i < |rows| ==> Finals(ctx, rows)[i] != Pending;
    AllCounted(Finals(ctx, rows));
  }

  lemma AllDecided(finals: seq<RawStatus>, t: Tally)
    requires Progress(finals, t) && forall i: nat :: i in t.decided <==> i < |finals|
    ensures t.statuses == finals
  {
  }

  /** At most one row per symbol and date is written, and it is one the duplicate policy includes. */
  lemma WrittenOncePerKey(ctx: Context, rows: seq<RowResult>, judged: seq<RowResult>, k: nat, l: nat)
    requires Fresh(rows) && |judged| == |rows| && forall i :: 0 <= i < |rows| ==> judged[i] == Judged(rows, i)
    requires k < |Kept(ctx, judged, |judged|)| && l < |Kept(ctx, judged, |judged|)|
    ensures var i, j := Kept(ctx, judged, |judged|)[k], Kept(ctx, judged, |judged|)[l];
            && i < |rows| && j < |rows| && Accepted(rows[i]) && Accepted(rows[j])
            && Agreed(rows, i) && First(rows, i)
            && (KeyOf(rows[i]) == KeyOf(rows[j]) ==> k == l)
  {
    var kept := Kept(ctx, judged, |judged|);
    KeptMembers(ctx, judged, |judged|);
    assert kept[k] in kept && kept[l] in kept;
    IncludedIff(rows, kept[k]);
    IncludedOncePerKey(rows, kept[k], kept[l]);
  }

  /**
    After the duplicate policy no two stored rows are of one symbol and date.  So when different
    symbols and dates mean different bars, every stored row is the last of its bar.
  */
  lemma EveryRowIsLast(ctx: Context, rows: seq<RowResult>, judged: seq<RowResult>, i: nat)
    requires Fresh(rows) && |judged| == |rows| && forall j :: 0 <= j < |rows| ==> judged[j] == Judged(rows, j)
    requires Stored(ctx, judged, i)
    requires forall j: nat :: Stored(ctx, judged, j) && KeyOf(judged[j]) != KeyOf(judged[i]) ==>
               !SameBar(ctx, judged[i], judged[j])
    ensures LastOfBar(ctx, judged, i)
  {
    hide SameBar, Turn, SessionOf;
    forall j: nat | i < j && Stored(ctx, judged, j) ensures KeyOf(judged[j]) != KeyOf(judged[i]) {
      IncludedIff(rows, i);
      IncludedIff(rows, j);
      IncludedOncePerKey(rows, i, j);
    }
  }
}
