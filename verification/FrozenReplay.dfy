/**
  Frozen replay.  A snapshot freezes the revisions eligible at a cutoff; a backtest then selects
  from them as of earlier instants.  The two-stage read equals reading the store directly.
*/
module FrozenReplay {
  import opened Sequences
  import opened Contracts
  import opened Selector
  import opened RevisionStore

  datatype Mode = PublicReplay | ActualReplay

  /** When a revision becomes usable: when published, or when this system had it. */
  function EffectiveAt(mode: Mode, r: Revision): int {
    match mode
    case PublicReplay => r.available
    case ActualReplay => r.systemAvailable
  }

  /** One component of a snapshot: a series, an event window and a replay mode. */
  datatype Component = Component(series: int, eventFrom: int, eventTo: int, mode: Mode)

  /** The eligibility predicate of the snapshot query at a cutoff. */
  function EligibleAt(q: Component, cutoff: int): Revision -> bool {
    (r: Revision) =>
      && r.key.series == q.series
      && q.eventFrom <= r.key.open < q.eventTo
      && r.values.closeTs <= cutoff
      && r.values.isFinal
      && EffectiveAt(q.mode, r) <= cutoff
  }

  function UsableBy(q: Component, t: int): Revision -> bool {
    (r: Revision) => EffectiveAt(q.mode, r) <= t
  }

  predicate RowBefore(a: Revision, b: Revision) {
    || a.key.open < b.key.open
    || (a.key.open == b.key.open
        && (|| a.key.series < b.key.series
            || (a.key.series == b.key.series && a.revision <= b.revision)))
  }

  lemma RowBeforeIsPreorder()
    ensures TotalPreorder(RowBefore)
  {
  }

  /** `eligible_revisions`: all eligible rows, by bar, series and revision. */
  function EligibleRows(rows: seq<Revision>, q: Component, cutoff: int): seq<Revision> {
    Sort(RowBefore, Filter(EligibleAt(q, cutoff), rows))
  }

  function BarOf(mode: Mode, r: Revision): Bar {
    Bar(r.key.open, r.key.series, r.revision, r.available, r.systemAvailable, EffectiveAt(mode, r), r.values.closePrice)
  }

  function BarsOf(mode: Mode, rows: seq<Revision>): seq<Bar> {
    if rows == [] then [] else [BarOf(mode, rows[0])] + BarsOf(mode, rows[1..])
  }

  /** The artifact rows of a snapshot component. */
  function Freeze(rows: seq<Revision>, q: Component, cutoff: int): seq<Bar> {
    BarsOf(q.mode, EligibleRows(rows, q, cutoff))
  }

  // ---- freezing and selecting commute ------------------------------------------------------------

  lemma {:induction false} FilterBoth<T(!new)>(p: T -> bool, q: T -> bool, both: T -> bool, s: seq<T>)
    requires forall x :: x in s ==> (both(x) <==> p(x) && q(x))
    ensures Filter(p, Filter(q, s)) == Filter(both, s)
  {
    if s != [] {
      FilterBoth(p, q, both, s[1..]);
      FilterCons(p, s[0], Filter(q, s[1..]));
    }
  }

  lemma {:induction false} KnownBars(q: Component, rows: seq<Revision>, t: int)
    ensures Known(BarsOf(q.mode, rows), t) == BarsOf(q.mode, Filter(UsableBy(q, t), rows))
  {
    if rows != [] {
      KnownBars(q, rows[1..], t);
      FilterCons(VisibleBy(t), BarOf(q.mode, rows[0]), BarsOf(q.mode, rows[1..]));
      var rest := Filter(UsableBy(q, t), rows[1..]);
      assert ([rows[0]] + rest)[1..] == rest;
    }
  }

  /** No eligible row becomes usable before its bar has closed. */
  ghost predicate ClosedFirst(rows: seq<Revision>, q: Component, cutoff: int) {
    forall r :: r in rows && EligibleAt(q, cutoff)(r) ==> r.values.closeTs <= EffectiveAt(q.mode, r)
  }

  lemma EligibleEarlier(rows: seq<Revision>, q: Component, t: int, cutoff: int)
    requires t <= cutoff && ClosedFirst(rows, q, cutoff)
    ensures Filter(UsableBy(q, t), EligibleRows(rows, q, cutoff)) == EligibleRows(rows, q, t)
  {
    RowBeforeIsPreorder();
    FilterSort(RowBefore, UsableBy(q, t), Filter(EligibleAt(q, cutoff), rows));
    FilterBoth(UsableBy(q, t), EligibleAt(q, cutoff), EligibleAt(q, t), rows);
  }

  lemma EligibleMembers(rows: seq<Revision>, q: Component, cutoff: int)
    ensures forall r :: r in EligibleRows(rows, q, cutoff) <==> r in rows && EligibleAt(q, cutoff)(r)
  {
    SortMembers(RowBefore, Filter(EligibleAt(q, cutoff), rows));
    FilterMembers(EligibleAt(q, cutoff), rows);
  }

  /**
    Exactly when freezing loses nothing: cutting the frozen rows back to any earlier instant gives
    the rows eligible at that instant if and only if no eligible row was usable before its close.
  */
  lemma FreezeExactIff(rows: seq<Revision>, q: Component, cutoff: int)
    ensures (forall t :: t <= cutoff ==>
               Filter(UsableBy(q, t), EligibleRows(rows, q, cutoff)) == EligibleRows(rows, q, t))
       <==> ClosedFirst(rows, q, cutoff)
  {
    if ClosedFirst(rows, q, cutoff) {
      forall t | t <= cutoff
        ensures Filter(UsableBy(q, t), EligibleRows(rows, q, cutoff)) == EligibleRows(rows, q, t)
      {
        EligibleEarlier(rows, q, t, cutoff);
      }
    } else {
      var r :| r in rows && EligibleAt(q, cutoff)(r) && EffectiveAt(q.mode, r) < r.values.closeTs;
      var t := EffectiveAt(q.mode, r);
      EligibleMembers(rows, q, cutoff);
      EligibleMembers(rows, q, t);
      FilterMembers(UsableBy(q, t), EligibleRows(rows, q, cutoff));
      assert r in Filter(UsableBy(q, t), EligibleRows(rows, q, cutoff));
      assert r !in EligibleRows(rows, q, t);
    }
  }

  /** The writer's checks make every store it builds satisfy the condition. */
  lemma GoodTableClosedFirst(rows: seq<Revision>, q: Component, cutoff: int)
    requires GoodTable(rows)
    ensures ClosedFirst(rows, q, cutoff)
  {
    forall r | r in rows && EligibleAt(q, cutoff)(r) ensures r.values.closeTs <= EffectiveAt(q.mode, r) {
      var h := Filter(KeyIs(r.key), rows);
      FilterMembers(KeyIs(r.key), rows);
      assert GoodHistory(h);
      var i := IndexIn(h, r);
    }
  }

  /** `x` is the highest revision of its bar among the rows eligible at `t`. */
  ghost predicate IsDirectRead(rows: seq<Revision>, q: Component, t: int, x: Bar) {
    exists r ::
      && r in rows && EligibleAt(q, t)(r) && BarOf(q.mode, r) == x
      && forall y :: y in rows && EligibleAt(q, t)(y) && y.key.open == r.key.open ==> y.revision <= r.revision
  }

  lemma {:induction false} BarsOfMembers(mode: Mode, rows: seq<Revision>, x: Bar)
    ensures x in BarsOf(mode, rows) <==> exists r :: r in rows && BarOf(mode, r) == x
  {
    if rows != [] {
      BarsOfMembers(mode, rows[1..], x);
      assert rows[0] in rows;
      assert forall r :: r in rows <==> r == rows[0] || r in rows[1..];
    }
  }

  lemma VisibleIsDirect(rows: seq<Revision>, q: Component, t: int, x: Bar)
    requires x in Visible(Freeze(rows, q, t), t)
    ensures IsDirectRead(rows, q, t, x)
  {
    EligibleMembers(rows, q, t);
    VisibleIsCurrent(Freeze(rows, q, t), t, x);
    BarsOfMembers(q.mode, EligibleRows(rows, q, t), x);
    var r :| r in EligibleRows(rows, q, t) && BarOf(q.mode, r) == x;
    forall y | y in rows && EligibleAt(q, t)(y) && y.key.open == r.key.open ensures y.revision <= r.revision {
      BarsOfMembers(q.mode, EligibleRows(rows, q, t), BarOf(q.mode, y));
      CurrentBeats(Freeze(rows, q, t), t, x, BarOf(q.mode, y));
    }
  }

  lemma VisibleIsCurrent(bars: seq<Bar>, t: int, x: Bar)
    requires x in Visible(bars, t)
    ensures Current(bars, x, t)
  {
    VisibleIsPointInTime(bars, t);
  }

  lemma CurrentBeats(bars: seq<Bar>, t: int, x: Bar, y: Bar)
    requires Current(bars, x, t) && y in bars && y.effective <= t && y.open == x.open
    ensures y.revision <= x.revision
  {
  }

  /**
    Frozen replay: for every store the writers can build, selecting at `t` from what was frozen at
    a later cutoff shows exactly what the rows eligible at `t` show: one bar for every bar with an
    eligible row, in bar order, each at its highest revision eligible then.
  */
  lemma FrozenReplayIsDirect(steps: seq<Step>, q: Component, t: int, cutoff: int)
    requires Execute(steps).Some? && t <= cutoff
    ensures var rows := Execute(steps).value.committed;
            && Visible(Freeze(rows, q, cutoff), t) == Visible(Freeze(rows, q, t), t)
            && ByOpen(Visible(Freeze(rows, q, cutoff), t))
            && (forall x :: x in Visible(Freeze(rows, q, cutoff), t) ==> IsDirectRead(rows, q, t, x))
            && (forall y :: y in rows && EligibleAt(q, t)(y) ==>
                  exists x :: x in Visible(Freeze(rows, q, cutoff), t) && x.open == y.key.open)
  {
    var rows := Execute(steps).value.committed;
    InterleavingsAreSerial(steps);
    GoodTableClosedFirst(rows, q, cutoff);
    EligibleEarlier(rows, q, t, cutoff);
    KnownBars(q, EligibleRows(rows, q, cutoff), t);
    VisibleIgnoresLater(Freeze(rows, q, cutoff), t);
    VisibleIgnoresLaterFrozen(rows, q, t);
    forall x | x in Visible(Freeze(rows, q, t), t) ensures IsDirectRead(rows, q, t, x) {
      VisibleIsDirect(rows, q, t, x);
    }
    VisibleIsPointInTime(Freeze(rows, q, t), t);
    forall y | y in rows && EligibleAt(q, t)(y)
      ensures exists x :: x in Visible(Freeze(rows, q, t), t) && x.open == y.key.open
    {
      EligibleIsShown(rows, q, t, y);
    }
  }

  lemma EligibleIsShown(rows: seq<Revision>, q: Component, t: int, y: Revision)
    requires y in rows && EligibleAt(q, t)(y)
    ensures exists x :: x in Visible(Freeze(rows, q, t), t) && x.open == y.key.open
  {
    hide Visible;
    EligibleMembers(rows, q, t);
    BarsOfMembers(q.mode, EligibleRows(rows, q, t), BarOf(q.mode, y));
    VisibleIsPointInTime(Freeze(rows, q, t), t);
  }

  lemma VisibleIgnoresLaterFrozen(rows: seq<Revision>, q: Component, t: int)
    ensures Known(Freeze(rows, q, t), t) == Freeze(rows, q, t)
  {
    KnownBars(q, EligibleRows(rows, q, t), t);
    EligibleMembers(rows, q, t);
    FilterAll(UsableBy(q, t), EligibleRows(rows, q, t));
  }

  /** Rows that become usable only after the cutoff never change what is frozen. */
  lemma LateRowsDoNotFreeze(rows: seq<Revision>, late: seq<Revision>, q: Component, cutoff: int)
    requires forall r :: r in late ==> cutoff < EffectiveAt(q.mode, r)
    ensures Freeze(rows + late, q, cutoff) == Freeze(rows, q, cutoff)
  {
    FilterConcat(EligibleAt(q, cutoff), rows, late);
    FilterNone(EligibleAt(q, cutoff), late);
    assert Filter(EligibleAt(q, cutoff), rows) + [] == Filter(EligibleAt(q, cutoff), rows);
  }

  /** Hence a snapshot is stable: later commits of late revisions freeze to the same artifact. */
  lemma SnapshotStable(steps: seq<Step>, n: nat, q: Component, cutoff: int)
    requires n <= |steps| && Execute(steps).Some? && Execute(steps[..n]).Some?
    requires var early, all := Execute(steps[..n]).value.committed, Execute(steps).value.committed;
             |early| <= |all| && forall r :: r in all[|early|..] ==> cutoff < EffectiveAt(q.mode, r)
    ensures Freeze(Execute(steps).value.committed, q, cutoff) == Freeze(Execute(steps[..n]).value.committed, q, cutoff)
  {
    var early, all := Execute(steps[..n]).value.committed, Execute(steps).value.committed;
    CommittedRowsStay(steps, n);
    assert all == early + all[|early|..];
    LateRowsDoNotFreeze(early, all[|early|..], q, cutoff);
  }

  // ---- what is frozen, told from the store -------------------------------------------------------

  /**
    `x` is the artifact row of a final revision of the component's series whose bar opens inside
    the window, closed by the cutoff and was published by then or, in actual replay, had reached
    this system by then.
  */
  ghost predicate FrozenFrom(q: Component, cutoff: int, r: Revision, x: Bar) {
    && r.key.series == q.series && q.eventFrom <= r.key.open < q.eventTo
    && r.values.isFinal && r.values.closeTs <= cutoff
    && x.open == r.key.open && x.series == r.key.series && x.revision == r.revision && x.close == r.values.closePrice
    && x.available == r.available && x.systemAvailable == r.systemAvailable
    && x.effective <= cutoff
    && (q.mode.PublicReplay? ==> x.effective == r.available)
    && (q.mode.ActualReplay? ==> x.effective == r.systemAvailable)
  }

  /** A row is frozen if and only if it is the artifact row of such a revision of the store. */
  lemma FrozenIff(rows: seq<Revision>, q: Component, cutoff: int, x: Bar)
    ensures x in Freeze(rows, q, cutoff) <==> exists r :: r in rows && FrozenFrom(q, cutoff, r, x)
  {
    EligibleMembers(rows, q, cutoff);
    BarsOfMembers(q.mode, EligibleRows(rows, q, cutoff), x);
    forall r ensures FrozenFrom(q, cutoff, r, x) <==> EligibleAt(q, cutoff)(r) && BarOf(q.mode, r) == x {}
  }

  lemma {:induction false} BarsOfAt(mode: Mode, rows: seq<Revision>)
    ensures |BarsOf(mode, rows)| == |rows|
    ensures forall i :: 0 <= i < |rows| ==> BarsOf(mode, rows)[i] == BarOf(mode, rows[i])
  {
    if rows != [] { BarsOfAt(mode, rows[1..]); }
  }

  /** Frozen rows come by bar open and, within a bar, by revision; each eligible row once. */
  lemma FrozenInOrder(rows: seq<Revision>, q: Component, cutoff: int)
    ensures var bars := Freeze(rows, q, cutoff);
            && |bars| == |Filter(EligibleAt(q, cutoff), rows)|
            && forall i, j :: 0 <= i < j < |bars| ==>
                 bars[i].open < bars[j].open || (bars[i].open == bars[j].open && bars[i].revision <= bars[j].revision)
  {
    var eligible := EligibleRows(rows, q, cutoff);
    RowBeforeIsPreorder();
    SortSorted(RowBefore, Filter(EligibleAt(q, cutoff), rows));
    SortPermutes(RowBefore, Filter(EligibleAt(q, cutoff), rows));
    assert |eligible| == |multiset(eligible)|;
    EligibleMembers(rows, q, cutoff);
    BarsOfAt(q.mode, eligible);
    forall i | 0 <= i < |eligible| ensures eligible[i].key.series == q.series { assert eligible[i] in eligible; }
  }
}
