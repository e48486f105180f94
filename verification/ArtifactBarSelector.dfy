/**
  The selector object, fixed once built: a dictionary from bar open to its sorted revisions, and the loops that
  answer the three queries.  Each query is proved to return what `Selector` specifies.
*/
module ArtifactSelector {
  import opened Sequences
  import opened Contracts
  import opened Selector

  class ArtifactBarSelector {
    const rowsByOpen: map<int, seq<Bar>>
    ghost const rows: seq<Bar>

    ghost predicate Valid() {
      && rowsByOpen.Keys == Opens(rows)
      && forall o :: o in rowsByOpen ==> rowsByOpen[o] == Revisions(rows, o)
    }

    constructor (rows: seq<Bar>)
      ensures Valid() && this.rows == rows
    {
      var byOpen := GroupByOpen(rows);
      this.rows := rows;
      rowsByOpen := map o | o in byOpen :: Sort(Sooner, byOpen[o]);
    }

    static method GroupByOpen(rows: seq<Bar>) returns (byOpen: map<int, seq<Bar>>)
      ensures byOpen.Keys == Opens(rows)
      ensures forall o :: o in byOpen ==> byOpen[o] == Filter(OpensAt(o), rows)
    {
      hide Filter;
      byOpen := map[];
      for i := 0 to |rows|
        invariant byOpen.Keys == Opens(rows[..i])
        invariant forall o :: o in byOpen ==> byOpen[o] == Filter(OpensAt(o), rows[..i])
      {
        var row := rows[i];
        assert rows[..i + 1] == rows[..i] + [row];
        OpensSnoc(rows[..i], row);
        ghost var before := byOpen;
        byOpen := byOpen[row.open := (if row.open in byOpen then byOpen[row.open] else []) + [row]];
        forall o | o in byOpen ensures byOpen[o] == Filter(OpensAt(o), rows[..i + 1]) {
          FilterSnoc(OpensAt(o), rows[..i], row);
          if o !in before { NoneOpenAt(rows[..i], o); }
        }
      }
      assert rows[..|rows|] == rows;
    }

    static lemma OpensSnoc(rows: seq<Bar>, row: Bar)
      ensures Opens(rows + [row]) == Opens(rows) + {row.open}
    {
      assert forall b :: b in rows + [row] <==> b in rows || b == row;
    }

    static lemma NoneOpenAt(rows: seq<Bar>, o: int)
      requires o !in Opens(rows)
      ensures Filter(OpensAt(o), rows) == []
    {
      FilterNone(OpensAt(o), rows);
    }

    /** A component without bars is refused. */
    static method Create(rows: seq<Bar>) returns (r: Option<ArtifactBarSelector>)
      ensures r.Some? <==> rows != []
      ensures r.Some? ==> fresh(r.value) && r.value.Valid() && r.value.rows == rows
    {
      if rows == [] {
        r := None;
      } else {
        var selector := new ArtifactBarSelector(rows);
        r := Some(selector);
      }
    }

    /** The dictionary holds exactly the specified revisions for each listed bar. */
    ghost predicate Holds(opens: seq<int>) {
      forall i :: 0 <= i < |opens| ==>
        && opens[i] in rowsByOpen
        && rowsByOpen[opens[i]] == Revisions(rows, opens[i])
        && rowsByOpen[opens[i]] != []
    }

    lemma HoldsAll()
      requires Valid()
      ensures Holds(Ascending(Opens(rows)))
    {
      var opens := Ascending(Opens(rows));
      AscendingLists(Opens(rows));
      forall i | 0 <= i < |opens|
        ensures opens[i] in rowsByOpen && rowsByOpen[opens[i]] == Revisions(rows, opens[i])
        ensures rowsByOpen[opens[i]] != []
      {
        assert opens[i] in opens;
        RevisionMembers(rows, opens[i]);
      }
    }

    method DecisionSchedule() returns (schedule: seq<(int, int)>)
      requires Valid()
      ensures schedule == Schedule(rows)
    {
      HoldsAll();
      var pairs := FirstInstants(Ascending(rowsByOpen.Keys));
      schedule := Sort(InstantBefore, pairs);
    }

    method FirstInstants(opens: seq<int>) returns (pairs: seq<(int, int)>)
      requires Holds(opens)
      ensures pairs == Instants(opens, rows)
    {
      pairs := [];
      for i := 0 to |opens|
        invariant pairs + Instants(opens[i..], rows) == Instants(opens, rows)
      {
        pairs := pairs + [(rowsByOpen[opens[i]][0].effective, opens[i])];
        assert opens[i..][1..] == opens[i + 1..];
      }
    }

    method VisibleBars(t: int) returns (selected: seq<Bar>)
      requires Valid()
      ensures selected == Visible(rows, t)
    {
      HoldsAll();
      selected := SelectVisible(Ascending(rowsByOpen.Keys), t);
    }

    method SelectVisible(opens: seq<int>, t: int) returns (selected: seq<Bar>)
      requires Holds(opens)
      ensures selected == Pick(opens, rows, t)
    {
      selected := [];
      for i := 0 to |opens|
        invariant selected + Pick(opens[i..], rows, t) == Pick(opens, rows, t)
      {
        var candidates := Filter(VisibleBy(t), rowsByOpen[opens[i]]);
        assert opens[i..][1..] == opens[i + 1..];
        if candidates != [] {
          selected := selected + [Latest(candidates)];
        }
      }
    }

    method NextExecutionBar(signalOpen: int, submittedAt: int, lag: int) returns (bar: Option<Bar>)
      requires Valid()
      ensures bar == NextExecution(rows, signalOpen, submittedAt + lag)
    {
      hide Sort, Filter, Ascending, Opens;
      HoldsAll();
      bar := ScanOpens(Ascending(rowsByOpen.Keys), signalOpen, submittedAt + lag);
    }

    method ScanOpens(opens: seq<int>, signalOpen: int, earliest: int) returns (bar: Option<Bar>)
      requires Holds(opens)
      ensures bar == Scan(opens, rows, signalOpen, earliest)
    {
      for i := 0 to |opens|
        invariant Scan(opens[i..], rows, signalOpen, earliest) == Scan(opens, rows, signalOpen, earliest)
      {
        assert opens[i..][1..] == opens[i + 1..];
        var revisions := rowsByOpen[opens[i]];
        var firstVisibility := revisions[0].effective;
        if signalOpen < opens[i] && earliest <= firstVisibility {
          var visible := Filter(VisibleBy(firstVisibility), revisions);
          assert VisibleBy(firstVisibility)(revisions[0]);
          return Some(Latest(visible));
        }
      }
      bar := None;
    }
  }
}
