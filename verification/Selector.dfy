/**
  Point-in-time selection over frozen artifact rows.

  The functions say what each query returns for a list of rows; `ArtifactBarSelector` computes
  the same answers with a dictionary and loops.
*/
module Selector {
  import opened Sequences
  import opened Contracts

  function OpensAt(o: int): Bar -> bool { (b: Bar) => b.open == o }

  function VisibleBy(t: int): Bar -> bool { (b: Bar) => b.effective <= t }

  predicate Sooner(a: Bar, b: Bar) {
    a.effective < b.effective || (a.effective == b.effective && a.revision <= b.revision)
  }

  function Opens(rows: seq<Bar>): set<int> {
    set b | b in rows :: b.open
  }

  /** The rows that have become available by `t`. */
  function Known(rows: seq<Bar>, t: int): seq<Bar> {
    Filter(VisibleBy(t), rows)
  }

  /** All revisions of one logical bar, by availability and then revision number. */
  function Revisions(rows: seq<Bar>, o: int): seq<Bar> {
    Sort(Sooner, Filter(OpensAt(o), rows))
  }

  /** The highest revision; the first one on a tie. */
  function Latest(bars: seq<Bar>): (b: Bar)
    requires bars != []
    ensures b in bars && forall x :: x in bars ==> x.revision <= b.revision
  {
    if |bars| == 1 then bars[0]
    else
      var rest := Latest(bars[1..]);
      if rest.revision <= bars[0].revision then bars[0] else rest
  }

  function Pick(opens: seq<int>, rows: seq<Bar>, t: int): seq<Bar> {
    if opens == [] then []
    else
      var candidates := Filter(VisibleBy(t), Revisions(rows, opens[0]));
      var rest := Pick(opens[1..], rows, t);
      if candidates == [] then rest else [Latest(candidates)] + rest
  }

  /** `visible_bars`: the latest visible revision of every logical bar, by bar open. */
  function Visible(rows: seq<Bar>, t: int): seq<Bar> {
    Pick(Ascending(Opens(rows)), rows, t)
  }

  function FirstVisibility(rows: seq<Bar>, o: int): int {
    var revisions := Revisions(rows, o);
    if revisions == [] then 0 else revisions[0].effective
  }

  predicate InstantBefore(a: (int, int), b: (int, int)) {
    a.0 < b.0 || (a.0 == b.0 && a.1 <= b.1)
  }

  function Instants(opens: seq<int>, rows: seq<Bar>): seq<(int, int)> {
    if opens == [] then []
    else [(FirstVisibility(rows, opens[0]), opens[0])] + Instants(opens[1..], rows)
  }

  /** `decision_schedule`: one (first visibility, bar open) pair per logical bar. */
  function Schedule(rows: seq<Bar>): seq<(int, int)> {
    Sort(InstantBefore, Instants(Ascending(Opens(rows)), rows))
  }

  function Scan(opens: seq<int>, rows: seq<Bar>, after: int, earliest: int): Option<Bar> {
    if opens == [] then None
    else
      var first := FirstVisibility(rows, opens[0]);
      if opens[0] <= after || first < earliest then Scan(opens[1..], rows, after, earliest)
      else
        var visible := Filter(VisibleBy(first), Revisions(rows, opens[0]));
        if visible == [] then None else Some(Latest(visible))
  }

  /** `next_execution_bar`: scans by bar open, not by visibility. */
  function NextExecution(rows: seq<Bar>, after: int, earliest: int): Option<Bar> {
    Scan(Ascending(Opens(rows)), rows, after, earliest)
  }

  // ---- basic facts -----------------------------------------------------------------------

  lemma SoonerIsPreorder()
    ensures TotalPreorder(Sooner)
  {
  }

  lemma InstantBeforeIsPreorder()
    ensures TotalPreorder(InstantBefore)
  {
  }

  lemma RevisionMembers(rows: seq<Bar>, o: int)
    ensures forall b :: b in Revisions(rows, o) <==> b in rows && b.open == o
    ensures o in Opens(rows) <==> Revisions(rows, o) != []
  {
    var mine := Filter(OpensAt(o), rows);
    FilterMembers(OpensAt(o), rows);
    SortMembers(Sooner, mine);
    if o in Opens(rows) {
      var b :| b in rows && b.open == o;
      assert b in mine;
    }
    if mine != [] { assert mine[0] in mine; }
  }

  /** The revisions of a bar are listed each as often as it occurs, by availability and then number. */
  lemma RevisionsListed(rows: seq<Bar>, o: int)
    ensures multiset(Revisions(rows, o)) == multiset(Filter(OpensAt(o), rows))
    ensures var r := Revisions(rows, o);
            forall i, j :: 0 <= i < j < |r| ==>
              r[i].effective < r[j].effective || (r[i].effective == r[j].effective && r[i].revision <= r[j].revision)
  {
    SoonerIsPreorder();
    SortPermutes(Sooner, Filter(OpensAt(o), rows));
    SortSorted(Sooner, Filter(OpensAt(o), rows));
  }

  /** First visibility is the least availability over the revisions of the bar. */
  lemma FirstIsLeast(rows: seq<Bar>, o: int)
    requires o in Opens(rows)
    ensures forall b :: b in rows && b.open == o ==> FirstVisibility(rows, o) <= b.effective
    ensures exists b :: b in rows && b.open == o && FirstVisibility(rows, o) == b.effective
  {
    RevisionMembers(rows, o);
    SoonerIsPreorder();
    var r := Revisions(rows, o);
    SortSorted(Sooner, Filter(OpensAt(o), rows));
    forall b | b in rows && b.open == o ensures r[0].effective <= b.effective {
      var i :| 0 <= i < |r| && r[i] == b;
    }
    assert r[0] in r;
  }

  /** Looking at revisions by `t` is the same as first dropping everything later. */
  lemma KnownRevisions(rows: seq<Bar>, o: int, t: int)
    ensures Filter(VisibleBy(t), Revisions(rows, o)) == Revisions(Known(rows, t), o)
  {
    SoonerIsPreorder();
    FilterSort(Sooner, VisibleBy(t), Filter(OpensAt(o), rows));
    FilterSwap(VisibleBy(t), OpensAt(o), rows);
  }

  lemma KnownTwice(rows: seq<Bar>, t: int, u: int)
    requires t <= u
    ensures Known(Known(rows, u), t) == Known(rows, t)
  {
    FilterTwice(VisibleBy(t), VisibleBy(u), rows);
  }

  lemma KnownOpens(rows: seq<Bar>, o: int, t: int)
    ensures o in Opens(Known(rows, t)) <==> exists b :: b in rows && b.open == o && b.effective <= t
    ensures o in Opens(Known(rows, t)) ==> o in Opens(rows)
    ensures o in Opens(rows) ==> (o in Opens(Known(rows, t)) <==> FirstVisibility(rows, o) <= t)
  {
    FilterMembers(VisibleBy(t), rows);
    if o in Opens(rows) { FirstIsLeast(rows, o); }
  }

  /** A first visibility up to `t` is already determined by the rows known at `t`. */
  lemma KnownFirst(rows: seq<Bar>, o: int, t: int)
    requires o in Opens(Known(rows, t))
    ensures FirstVisibility(Known(rows, t), o) == FirstVisibility(rows, o)
  {
    KnownOpens(rows, o, t);
    FilterMembers(VisibleBy(t), rows);
    FirstIsLeast(rows, o);
    FirstIsLeast(Known(rows, t), o);
  }

  // ---- visible bars ----------------------------------------------------------------------

  function KnownAt(rows: seq<Bar>, t: int): int -> bool { (o: int) => o in Opens(Known(rows, t)) }

  lemma {:induction false} PickSkips(opens: seq<int>, rows: seq<Bar>, t: int)
    ensures Pick(opens, rows, t) == Pick(Filter(KnownAt(rows, t), opens), Known(rows, t), t)
  {
    if opens != [] {
      var o := opens[0];
      PickSkips(opens[1..], rows, t);
      KnownRevisions(rows, o, t);
      KnownRevisions(Known(rows, t), o, t);
      KnownTwice(rows, t, t);
      RevisionMembers(Known(rows, t), o);
      var rest := Filter(KnownAt(rows, t), opens[1..]);
      assert ([o] + rest)[1..] == rest;
    }
  }

  /** What is visible at `t` depends only on the rows available by `t`. */
  lemma VisibleIgnoresLater(rows: seq<Bar>, t: int)
    ensures Visible(rows, t) == Visible(Known(rows, t), t)
  {
    PickSkips(Ascending(Opens(rows)), rows, t);
    forall o ensures o in Opens(Known(rows, t)) <==> o in Opens(rows) && KnownAt(rows, t)(o) {
      KnownOpens(rows, o, t);
    }
    FilterAscending(KnownAt(rows, t), Opens(rows), Opens(Known(rows, t)));
    PickSkips(Ascending(Opens(Known(rows, t))), Known(rows, t), t);
    KnownTwice(rows, t, t);
    FilterAscending(KnownAt(Known(rows, t), t), Opens(Known(rows, t)), Opens(Known(rows, t)));
  }

  ghost predicate Agree(a: seq<Bar>, b: seq<Bar>, horizon: int) {
    Known(a, horizon) == Known(b, horizon)
  }

  lemma AgreeEarlier(a: seq<Bar>, b: seq<Bar>, t: int, horizon: int)
    requires Agree(a, b, horizon) && t <= horizon
    ensures Known(a, t) == Known(b, t)
  {
    KnownTwice(a, t, horizon);
    KnownTwice(b, t, horizon);
  }

  lemma VisibleAgrees(a: seq<Bar>, b: seq<Bar>, t: int, horizon: int)
    requires Agree(a, b, horizon) && t <= horizon
    ensures Visible(a, t) == Visible(b, t)
  {
    AgreeEarlier(a, b, t, horizon);
    VisibleIgnoresLater(a, t);
    VisibleIgnoresLater(b, t);
  }

  /** `x` is the revision of its bar that a reader at `t` must see. */
  ghost predicate Current(rows: seq<Bar>, x: Bar, t: int) {
    && x in rows && x.effective <= t
    && forall y :: y in rows && y.open == x.open && y.effective <= t ==> y.revision <= x.revision
  }

  ghost predicate ByOpen(bars: seq<Bar>) {
    forall i, j :: 0 <= i < j < |bars| ==> bars[i].open < bars[j].open
  }

  lemma {:induction false} PickIsCurrent(opens: seq<int>, rows: seq<Bar>, t: int)
    ensures forall x :: x in Pick(opens, rows, t) ==> x.open in opens && Current(rows, x, t)
  {
    if opens != [] {
      PickIsCurrent(opens[1..], rows, t);
      RevisionMembers(rows, opens[0]);
      var c := Filter(VisibleBy(t), Revisions(rows, opens[0]));
      FilterMembers(VisibleBy(t), Revisions(rows, opens[0]));
    }
  }

  lemma {:induction false} PickOrdered(opens: seq<int>, rows: seq<Bar>, t: int)
    requires Increasing(opens)
    ensures ByOpen(Pick(opens, rows, t))
  {
    if opens != [] {
      PickOrdered(opens[1..], rows, t);
      RevisionMembers(rows, opens[0]);
      FilterMembers(VisibleBy(t), Revisions(rows, opens[0]));
      PickIsCurrent(opens[1..], rows, t);
      var rest := Pick(opens[1..], rows, t);
      forall i | 0 <= i < |rest| ensures opens[0] < rest[i].open {
        assert rest[i] in rest;
      }
    }
  }

  lemma {:induction false} PickFinds(opens: seq<int>, rows: seq<Bar>, t: int, y: Bar)
    requires y in rows && y.open in opens && y.effective <= t
    ensures exists x :: x in Pick(opens, rows, t) && x.open == y.open
  {
    var c := Filter(VisibleBy(t), Revisions(rows, opens[0]));
    RevisionMembers(rows, opens[0]);
    FilterMembers(VisibleBy(t), Revisions(rows, opens[0]));
    if y.open == opens[0] {
      assert y in c;
      assert Latest(c) in c && Latest(c) in Pick(opens, rows, t);
    } else {
      assert y.open in opens[1..];
      PickFinds(opens[1..], rows, t, y);
    }
  }

  /**
    `visible_bars` is exactly the point-in-time view: one bar per logical bar with something
    available, in bar order, each the highest revision available.
  */
  lemma VisibleIsPointInTime(rows: seq<Bar>, t: int)
    ensures ByOpen(Visible(rows, t))
    ensures forall x :: x in Visible(rows, t) ==> Current(rows, x, t)
    ensures forall y :: y in rows && y.effective <= t
                ==> exists x :: x in Visible(rows, t) && x.open == y.open
  {
    var opens := Ascending(Opens(rows));
    AscendingLists(Opens(rows));
    PickIsCurrent(opens, rows, t);
    PickOrdered(opens, rows, t);
    forall y | y in rows && y.effective <= t
      ensures exists x :: x in Visible(rows, t) && x.open == y.open
    {
      PickFinds(opens, rows, t, y);
    }
  }

  /** The logical bars of which something is available at `t`. */
  function Available(rows: seq<Bar>, t: int): set<int> {
    set b | b in rows && b.effective <= t :: b.open
  }

  /**
    `bars` are the newest `n` logical bars available at `t`, or all of them if there are fewer:
    in bar order, each at its current revision, and whatever else is available opens earlier.
  */
  ghost predicate Newest(rows: seq<Bar>, t: int, n: int, bars: seq<Bar>) {
    && ByOpen(bars)
    && (forall b :: b in bars ==> Current(rows, b, t))
    && |bars| == (if n <= |Available(rows, t)| then n else |Available(rows, t)|)
    && (forall o, b :: o in Available(rows, t) && o !in Opens(bars) && b in bars ==> o < b.open)
  }

  lemma {:induction false} OpensCount(bars: seq<Bar>)
    requires ByOpen(bars)
    ensures |Opens(bars)| == |bars|
  {
    if bars != [] {
      var rest := bars[1..];
      OpensCount(rest);
      assert bars[0].open !in Opens(rest);
      OpensCons(bars);
    }
  }

  lemma OpensCons(bars: seq<Bar>)
    requires bars != []
    ensures Opens(bars) == {bars[0].open} + Opens(bars[1..])
  {
    assert forall b :: b in bars <==> b == bars[0] || b in bars[1..];
  }

  /** The view has one bar for each available one. */
  lemma VisibleOpens(rows: seq<Bar>, t: int)
    ensures Opens(Visible(rows, t)) == Available(rows, t) && |Visible(rows, t)| == |Available(rows, t)|
  {
    hide Visible, Opens, Available;
    var view := Visible(rows, t);
    ViewByOpen(rows, t);
    OpensCount(view);
    forall o ensures o in Opens(view) <==> o in Available(rows, t) { ShownIffAvailable(rows, t, o); }
  }

  lemma ViewByOpen(rows: seq<Bar>, t: int)
    ensures ByOpen(Visible(rows, t))
  {
    VisibleIsPointInTime(rows, t);
  }

  lemma ShownIffAvailable(rows: seq<Bar>, t: int, o: int)
    ensures o in Opens(Visible(rows, t)) <==> o in Available(rows, t)
  {
    hide Visible;
    if o in Opens(Visible(rows, t)) {
      var x :| x in Visible(rows, t) && x.open == o;
      assert Current(rows, x, t) by { VisibleIsPointInTime(rows, t); }
    }
    if o in Available(rows, t) {
      var y :| y in rows && y.effective <= t && y.open == o;
      AvailableIsShown(rows, t, y);
    }
  }

  lemma AvailableIsShown(rows: seq<Bar>, t: int, y: Bar)
    requires y in rows && y.effective <= t
    ensures exists x :: x in Visible(rows, t) && x.open == y.open
  {
    VisibleIsPointInTime(rows, t);
  }

  /** The last bars of the view are the newest ones available. */
  lemma LastAreNewest(rows: seq<Bar>, t: int, n: nat)
    ensures var view := Visible(rows, t);
            var last := if n <= |view| then view[|view| - n..] else view;
            Newest(rows, t, n, last)
  {
    hide Visible, Current;
    VisibleIsPointInTime(rows, t);
    VisibleOpens(rows, t);
    var view := Visible(rows, t);
    var last := if n <= |view| then view[|view| - n..] else view;
    forall b | b in last ensures b in view && Current(rows, b, t) {}
    forall o, b | o in Available(rows, t) && o !in Opens(last) && b in last ensures o < b.open {
      SuffixIsNewer(view, |view| - |last|, o, b);
    }
  }

  lemma SuffixIsNewer(view: seq<Bar>, k: nat, o: int, b: Bar)
    requires ByOpen(view) && k <= |view| && o in Opens(view) && o !in Opens(view[k..]) && b in view[k..]
    ensures o < b.open
  {
    var i :| 0 <= i < |view| && view[i].open == o;
    var j :| 0 <= j < |view[k..]| && view[k..][j] == b;
    assert view[k + j] == b;
  }

  // ---- the next executable bar -----------------------------------------------------------

  ghost predicate Executable(rows: seq<Bar>, o: int, after: int, earliest: int) {
    o in Opens(rows) && after < o && earliest <= FirstVisibility(rows, o)
  }

  /** `x` prices the order: first executable bar by open, at the instant it first shows. */
  ghost predicate IsExecution(rows: seq<Bar>, x: Bar, after: int, earliest: int) {
    && Executable(rows, x.open, after, earliest)
    && (forall o :: Executable(rows, o, after, earliest) ==> x.open <= o)
    && x.effective == FirstVisibility(rows, x.open)
    && Current(rows, x, x.effective)
  }

  /** The bar shown at its first visibility is the current revision at that instant. */
  lemma FirstShown(rows: seq<Bar>, o: int)
    requires o in Opens(rows)
    ensures var first := FirstVisibility(rows, o);
            var visible := Filter(VisibleBy(first), Revisions(rows, o));
            && visible != [] && Latest(visible).open == o
            && Latest(visible).effective == first && Current(rows, Latest(visible), first)
  {
    var first := FirstVisibility(rows, o);
    FirstIsLeast(rows, o);
    RevisionMembers(rows, o);
    FilterMembers(VisibleBy(first), Revisions(rows, o));
    var b :| b in rows && b.open == o && b.effective == first;
    assert b in Filter(VisibleBy(first), Revisions(rows, o));
  }

  lemma {:induction false} ScanFinds(opens: seq<int>, rows: seq<Bar>, after: int, earliest: int)
    requires Increasing(opens) && forall o :: o in opens ==> o in Opens(rows)
    ensures match Scan(opens, rows, after, earliest)
            case None => forall o :: o in opens ==> !Executable(rows, o, after, earliest)
            case Some(x) =>
              && x.open in opens && Executable(rows, x.open, after, earliest)
              && (forall o :: o in opens && Executable(rows, o, after, earliest) ==> x.open <= o)
              && x.effective == FirstVisibility(rows, x.open)
              && Current(rows, x, x.effective)
  {
    hide FirstVisibility, Current, Revisions, Filter;
    if opens != [] {
      assert opens[0] in opens;
      ScanFinds(opens[1..], rows, after, earliest);
      assert forall p :: p in opens ==> p == opens[0] || p in opens[1..];
      assert forall p :: p in opens[1..] ==> opens[0] < p;
      FirstShown(rows, opens[0]);
    }
  }

  /** The scan returns the specified bar if there is one and nothing otherwise. */
  lemma NextExecutionFinds(rows: seq<Bar>, after: int, earliest: int)
    ensures match NextExecution(rows, after, earliest)
            case None => forall o :: !Executable(rows, o, after, earliest)
            case Some(x) => IsExecution(rows, x, after, earliest)
  {
    AscendingLists(Opens(rows));
    ScanFinds(Ascending(Opens(rows)), rows, after, earliest);
  }

  /** Later bars never become visible before earlier ones. */
  ghost predicate VisibilityMonotone(rows: seq<Bar>) {
    forall o, p :: o in Opens(rows) && p in Opens(rows) && o < p
      ==> FirstVisibility(rows, o) <= FirstVisibility(rows, p)
  }

  ghost predicate UnresolvedBy(e: Option<Bar>, horizon: int) {
    e.None? || horizon < e.value.effective
  }

  /** An execution bar found by `horizon` is found identically in any data that agree so far. */
  lemma NextExecutionStable(a: seq<Bar>, b: seq<Bar>, after: int, earliest: int, horizon: int)
    requires Agree(a, b, horizon) && VisibilityMonotone(b)
    requires !UnresolvedBy(NextExecution(a, after, earliest), horizon)
    ensures NextExecution(b, after, earliest) == NextExecution(a, after, earliest)
  {
    var x := NextExecution(a, after, earliest).value;
    var t := x.effective;
    NextExecutionFinds(a, after, earliest);
    NextExecutionFinds(b, after, earliest);
    AgreeEarlier(a, b, t, horizon);
    KnownOpens(a, x.open, t);
    KnownOpens(b, x.open, t);
    KnownFirst(a, x.open, t);
    KnownFirst(b, x.open, t);
    assert Executable(b, x.open, after, earliest);
    var y := NextExecution(b, after, earliest).value;
    assert FirstVisibility(b, y.open) <= t;
    KnownOpens(b, y.open, t);
    KnownFirst(b, y.open, t);
    KnownOpens(a, y.open, t);
    KnownFirst(a, y.open, t);
    assert Executable(a, y.open, after, earliest);
    assert y.open == x.open;
    ExecutionBarIsPicked(a, after, earliest);
    ExecutionBarIsPicked(b, after, earliest);
  }

  lemma {:induction false} ScanPicks(opens: seq<int>, rows: seq<Bar>, after: int, earliest: int)
    requires Scan(opens, rows, after, earliest).Some?
    ensures var x := Scan(opens, rows, after, earliest).value;
            var c := Revisions(Known(rows, FirstVisibility(rows, x.open)), x.open);
            c != [] && x == Latest(c)
  {
    if opens[0] <= after || FirstVisibility(rows, opens[0]) < earliest {
      ScanPicks(opens[1..], rows, after, earliest);
    } else {
      var first := FirstVisibility(rows, opens[0]);
      KnownRevisions(rows, opens[0], first);
      RevisionMembers(Known(rows, first), opens[0]);
    }
  }

  lemma ExecutionBarIsPicked(rows: seq<Bar>, after: int, earliest: int)
    requires NextExecution(rows, after, earliest).Some?
    ensures var x := NextExecution(rows, after, earliest).value;
            var c := Revisions(Known(rows, x.effective), x.open);
            c != [] && x == Latest(c)
  {
    NextExecutionFinds(rows, after, earliest);
    ScanPicks(Ascending(Opens(rows)), rows, after, earliest);
  }

  /** Two data sets that agree up to `horizon` pick the same bar or neither resolves by then. */
  lemma NextExecutionAgrees(a: seq<Bar>, b: seq<Bar>, after: int, earliest: int, horizon: int)
    requires Agree(a, b, horizon) && VisibilityMonotone(a) && VisibilityMonotone(b)
    ensures var x, y := NextExecution(a, after, earliest), NextExecution(b, after, earliest);
            x == y || (UnresolvedBy(x, horizon) && UnresolvedBy(y, horizon))
  {
    if !UnresolvedBy(NextExecution(a, after, earliest), horizon) {
      NextExecutionStable(a, b, after, earliest, horizon);
    } else if !UnresolvedBy(NextExecution(b, after, earliest), horizon) {
      NextExecutionStable(b, a, after, earliest, horizon);
    }
  }

  lemma KnownMonotone(rows: seq<Bar>, horizon: int)
    requires VisibilityMonotone(rows)
    ensures VisibilityMonotone(Known(rows, horizon))
  {
    var known := Known(rows, horizon);
    forall o, p | o in Opens(known) && p in Opens(known) && o < p
      ensures FirstVisibility(known, o) <= FirstVisibility(known, p)
    {
      KnownOpens(rows, o, horizon);
      KnownOpens(rows, p, horizon);
      KnownFirst(rows, o, horizon);
      KnownFirst(rows, p, horizon);
    }
  }

  /** What the scan answers by `horizon` is what it would answer from the rows known by then. */
  ghost predicate ScanSettled(rows: seq<Bar>, after: int, earliest: int, horizon: int) {
    var x, y := NextExecution(Known(rows, horizon), after, earliest), NextExecution(rows, after, earliest);
    x == y || (UnresolvedBy(x, horizon) && UnresolvedBy(y, horizon))
  }

  lemma MonotoneSettles(rows: seq<Bar>, after: int, earliest: int, horizon: int)
    requires VisibilityMonotone(rows)
    ensures ScanSettled(rows, after, earliest, horizon)
  {
    KnownTwice(rows, horizon, horizon);
    KnownMonotone(rows, horizon);
    NextExecutionAgrees(Known(rows, horizon), rows, after, earliest, horizon);
  }

  /** From just before `o` on, the scan stops at `o` if it shows late enough. */
  lemma ScanStopsAt(rows: seq<Bar>, o: int, earliest: int)
    requires o in Opens(rows) && earliest <= FirstVisibility(rows, o)
    ensures var x := NextExecution(rows, o - 1, earliest);
            x.Some? && x.value.effective == FirstVisibility(rows, o)
  {
    hide NextExecution, FirstVisibility, Current;
    assert Executable(rows, o, o - 1, earliest);
    NextExecutionFinds(rows, o - 1, earliest);
  }

  lemma KnownResolves(rows: seq<Bar>, p: int, after: int)
    requires p in Opens(rows) && after < p
    ensures var horizon := FirstVisibility(rows, p);
            !UnresolvedBy(NextExecution(Known(rows, horizon), after, horizon), horizon)
  {
    hide NextExecution, FirstVisibility, Known;
    var horizon := FirstVisibility(rows, p);
    var known := Known(rows, horizon);
    KnownOpens(rows, p, horizon);
    KnownFirst(rows, p, horizon);
    assert Executable(known, p, after, horizon);
    NextExecutionFinds(known, after, horizon);
    KnownIsEarly(rows, horizon);
  }

  lemma KnownIsEarly(rows: seq<Bar>, t: int)
    ensures forall b :: b in Known(rows, t) ==> b.effective <= t
  {
    FilterMembers(VisibleBy(t), rows);
  }

  /** A bar that shows before an earlier-opening one is hidden by it from the scan. */
  lemma InversionUnsettles(rows: seq<Bar>, o: int, p: int)
    requires o in Opens(rows) && p in Opens(rows) && o < p
    requires FirstVisibility(rows, p) < FirstVisibility(rows, o)
    ensures !ScanSettled(rows, o - 1, FirstVisibility(rows, p), FirstVisibility(rows, p))
  {
    hide NextExecution, FirstVisibility, Known;
    ScanStopsAt(rows, o, FirstVisibility(rows, p));
    KnownResolves(rows, p, o - 1);
  }

  /** Exactly when the scan never looks ahead: later bars never become visible before earlier ones. */
  lemma ScanSettledIffMonotone(rows: seq<Bar>)
    ensures (forall after, earliest, horizon :: ScanSettled(rows, after, earliest, horizon))
       <==> VisibilityMonotone(rows)
  {
    if VisibilityMonotone(rows) {
      forall after, earliest, horizon ensures ScanSettled(rows, after, earliest, horizon) {
        MonotoneSettles(rows, after, earliest, horizon);
      }
    } else {
      var o, p :| o in Opens(rows) && p in Opens(rows) && o < p
                  && FirstVisibility(rows, p) < FirstVisibility(rows, o);
      InversionUnsettles(rows, o, p);
    }
  }

  const LATE := Bar(1, 1, 1, 100, 100, 100, 10.0)
  const SOON := Bar(2, 1, 1, 5, 5, 5, 10.0)

  lemma OnlyFirst(rows: seq<Bar>, b: Bar)
    requires b in rows && forall x :: x in rows && x.open == b.open ==> x == b
    ensures b.open in Opens(rows) && FirstVisibility(rows, b.open) == b.effective
  {
    assert b.open in Opens(rows);
    FirstIsLeast(rows, b.open);
  }

  /**
    An instance: a bar first visible only at 100 hides, by its earlier open, a bar that was
    executable at 5, so rows after instant 5 change the answer at 5.
  */
  lemma ScanLooksAheadWithoutMonotonicity()
    ensures Known([LATE, SOON], 5) == [SOON]
    ensures !ScanSettled([LATE, SOON], 0, 5, 5)
    ensures NextExecution([SOON], 0, 5) == Some(SOON) && NextExecution([LATE, SOON], 0, 5) == Some(LATE)
  {
    var rows := [LATE, SOON];
    FilterCons(VisibleBy(5), LATE, [SOON]);
    FilterCons(VisibleBy(5), SOON, []);
    assert rows == [LATE] + [SOON] && [SOON] == [SOON] + [];
    OnlyFirst(rows, LATE);
    OnlyFirst(rows, SOON);
    OnlyFirst([SOON], SOON);
    InversionUnsettles(rows, 1, 2);
    NextExecutionFinds(rows, 0, 5);
    NextExecutionFinds([SOON], 0, 5);
    assert Executable(rows, 1, 0, 5) && Executable([SOON], 2, 0, 5);
  }
}
