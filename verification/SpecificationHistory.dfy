/**
  Specification versions of an instrument: a contiguous chain changed only by closing the latest
  version and appending a different one.
*/
module SpecificationHistory {
  import opened Sequences
  import opened Intervals

  datatype SpecValues = SpecValues(
    priceTick: Option<real>,
    quantityStep: Option<real>,
    lotSize: Option<real>,
    contractMultiplier: real,
    priceScale: Option<int>,
    quantityScale: Option<int>,
    lowerLimit: Option<real>,
    upperLimit: Option<real>,
    sharesOutstanding: Option<real>,
    metadata: string)

  datatype Version = Version(span: Span, values: SpecValues)

  function VersionSpan(): Version -> Span { (v: Version) => v.span }

  /** First version starting exactly at `from`. */
  function StartingAt(vs: seq<Version>, from: int): Option<Version> {
    if vs == [] then None else if vs[0].span.from == from then Some(vs[0]) else StartingAt(vs[1..], from)
  }

  lemma {:induction false} StartingAtFinds(vs: seq<Version>, from: int)
    ensures match StartingAt(vs, from)
            case Some(v) => v in vs && v.span.from == from
            case None => forall v :: v in vs ==> v.span.from != from
  {
    if vs != [] { StartingAtFinds(vs[1..], from); }
  }

  datatype Change = Refused(reason: string) | Same | Changed(versions: seq<Version>)

  /** `_apply_specification`, case by case. */
  function Apply(vs: seq<Version>, from: int, values: SpecValues): Change {
    var opening := Version(Span(from, None), values);
    match StartingAt(vs, from)
    case Some(row) => if row == opening then Same else Refused("Conflicting instrument specification definition.")
    case None =>
      if vs == [] then Changed([opening])
      else
        var latest := vs[|vs| - 1];
        if latest.values == values then Same
        else if from <= latest.span.from then Refused("Specification changes cannot rewrite historical versions.")
        else if latest.span.to.Some? then Refused("A closed specification history cannot be extended implicitly.")
        else Changed(vs[..|vs| - 1] + [latest.(span := Span(latest.span.from, Some(from))), opening])
  }

  /** The table of versions of one instrument. */
  class SpecificationTable {
    var versions: seq<Version>

    constructor (rows: seq<Version>)
      ensures versions == rows
    {
      versions := rows;
    }

    method ApplySpecification(from: int, values: SpecValues) returns (r: Result<nat>)
      modifies this
      ensures match Apply(old(versions), from, values)
              case Refused(reason) => r == Err(reason) && versions == old(versions)
              case Same => r == Ok(0) && versions == old(versions)
              case Changed(vs) => r == Ok(1) && versions == vs
    {
      var opening := Version(Span(from, None), values);
      for i := 0 to |versions|
        invariant versions == old(versions)
        invariant StartingAt(versions[i..], from) == StartingAt(versions, from)
      {
        assert versions[i..][1..] == versions[i + 1..];
        if versions[i].span.from == from {
          if versions[i] == opening { return Ok(0); }
          return Err("Conflicting instrument specification definition.");
        }
      }
      if versions == [] {
        versions := [opening];
        return Ok(1);
      }
      var latest := versions[|versions| - 1];
      if latest.values == values { return Ok(0); }
      if from <= latest.span.from {
        return Err("Specification changes cannot rewrite historical versions.");
      }
      if latest.span.to.Some? {
        return Err("A closed specification history cannot be extended implicitly.");
      }
      versions := versions[..|versions| - 1] + [latest.(span := Span(latest.span.from, Some(from)))];
      versions := versions + [opening];
      r := Ok(1);
    }
  }

  // ---- histories ---------------------------------------------------------------------------------

  ghost predicate GoodSpecs(vs: seq<Version>) {
    && Chain(SpansBy(VersionSpan(), vs))
    && (forall i, j :: 0 <= i && j == i + 1 < |vs| ==> vs[i].values != vs[j].values)
  }

  function Closing(v: Version, at: int): Version { v.(span := Span(v.span.from, Some(at))) }

  /** A change closes the open, differing, earlier latest version and appends the new one. */
  lemma ChangedShape(vs: seq<Version>, from: int, values: SpecValues)
    requires Apply(vs, from, values).Changed?
    ensures var out, opening := Apply(vs, from, values).versions, Version(Span(from, None), values);
            && (vs == [] ==> out == [opening])
            && (vs != [] ==>
                  var latest := vs[|vs| - 1];
                  && latest.values != values && latest.span.from < from && latest.span.to.None?
                  && out == vs[..|vs| - 1] + [Closing(latest, from), opening])
            && StartingAt(vs, from).None?
  {
    hide StartingAt;
  }

  lemma SpansExtend(vs: seq<Version>, from: int, opening: Version)
    requires vs != [] && opening.span == Span(from, None)
    ensures SpansBy(VersionSpan(), vs[..|vs| - 1] + [Closing(vs[|vs| - 1], from), opening])
         == Extend(SpansBy(VersionSpan(), vs), from)
  {
  }

  lemma NeighboursDiffer(vs: seq<Version>, from: int, opening: Version)
    requires vs != [] && forall i, j :: 0 <= i && j == i + 1 < |vs| ==> vs[i].values != vs[j].values
    requires vs[|vs| - 1].values != opening.values
    ensures var out := vs[..|vs| - 1] + [Closing(vs[|vs| - 1], from), opening];
            forall i, j :: 0 <= i && j == i + 1 < |out| ==> out[i].values != out[j].values
  {
    var out := vs[..|vs| - 1] + [Closing(vs[|vs| - 1], from), opening];
    assert forall i :: 0 <= i < |vs| ==> out[i].values == vs[i].values;
  }

  lemma ApplyKeeps(vs: seq<Version>, from: int, values: SpecValues)
    requires GoodSpecs(vs) && Apply(vs, from, values).Changed?
    ensures GoodSpecs(Apply(vs, from, values).versions)
  {
    hide Apply, Chain, StartingAt, Closing, Extend;
    ChangedShape(vs, from, values);
    var opening := Version(Span(from, None), values);
    if vs != [] {
      SpansExtend(vs, from, opening);
      ExtendKeepsChain(SpansBy(VersionSpan(), vs), from);
      NeighboursDiffer(vs, from, opening);
    } else {
      assert SpansBy(VersionSpan(), [opening]) == [opening.span];
      OpenChain(opening.span);
    }
  }

  lemma OpenChain(s: Span)
    requires s.to.None?
    ensures Chain([s])
  {
  }

  function VersionsAfter(vs: seq<Version>, from: int, values: SpecValues): seq<Version> {
    match Apply(vs, from, values)
    case Changed(out) => out
    case _ => vs
  }

  /** The history after a list of requested changes, refused ones leaving it as it was. */
  function History(requests: seq<(int, SpecValues)>): seq<Version> {
    if requests == [] then []
    else
      var last := requests[|requests| - 1];
      VersionsAfter(History(requests[..|requests| - 1]), last.0, last.1)
  }

  /**
    Over every sequence of specification changes the versions form a contiguous chain with the
    last one open and neighbours different.
  */
  lemma {:induction false} HistoriesAreGood(requests: seq<(int, SpecValues)>)
    ensures GoodSpecs(History(requests))
  {
    if requests != [] {
      var before := History(requests[..|requests| - 1]);
      var last := requests[|requests| - 1];
      HistoriesAreGood(requests[..|requests| - 1]);
      if Apply(before, last.0, last.1).Changed? { ApplyKeeps(before, last.0, last.1); }
    }
  }

  /** The versions active at an instant, as the as-of query lists them. */
  function ActiveAt(t: int): Version -> bool { (v: Version) => Covers(v.span, t) }

  /** The active specification is unique from the first start on, and there is none before it. */
  lemma {:induction false} ActiveIsUnique(vs: seq<Version>, t: int)
    requires GoodSpecs(vs) && vs != []
    ensures |Filter(ActiveAt(t), vs)| == if vs[0].span.from <= t then 1 else 0
  {
    ChainCovers(SpansBy(VersionSpan(), vs), t);
    FilterOne(ActiveAt(t), vs);
    if t < vs[0].span.from {
      forall v | v in vs ensures !ActiveAt(t)(v) {
        var i := IndexIn(vs, v);
        assert SpansBy(VersionSpan(), vs)[i] == v.span;
      }
      FilterNone(ActiveAt(t), vs);
    } else {
      var i :| 0 <= i < |SpansBy(VersionSpan(), vs)| && Covers(SpansBy(VersionSpan(), vs)[i], t);
      assert ActiveAt(t)(vs[i]);
    }
  }

  function ValuesOf(vs: seq<Version>): seq<SpecValues> {
    if vs == [] then [] else [vs[0].values] + ValuesOf(vs[1..])
  }

  function ActiveValues(vs: seq<Version>, t: int): seq<SpecValues> {
    ValuesOf(Filter(ActiveAt(t), vs))
  }

  lemma {:induction false} ActiveValuesConcat(a: seq<Version>, b: seq<Version>, t: int)
    ensures ActiveValues(a + b, t) == ActiveValues(a, t) + ActiveValues(b, t)
  {
    FilterConcat(ActiveAt(t), a, b);
    ValuesConcat(Filter(ActiveAt(t), a), Filter(ActiveAt(t), b));
  }

  lemma {:induction false} ValuesConcat(a: seq<Version>, b: seq<Version>)
    ensures ValuesOf(a + b) == ValuesOf(a) + ValuesOf(b)
  {
    if a == [] {
      assert a + b == b;
    } else {
      assert (a + b)[1..] == a[1..] + b;
      ValuesConcat(a[1..], b);
    }
  }

  lemma SingleActive(v: Version, t: int)
    ensures ActiveValues([v], t) == if Covers(v.span, t) then [v.values] else []
  {
    FilterCons(ActiveAt(t), v, []);
    assert [v] + [] == [v];
    assert ValuesOf([v]) == [v.values] + ValuesOf([]);
  }

  /** A successful change leaves the answer for every earlier time unchanged. */
  lemma ChangeKeepsPast(vs: seq<Version>, from: int, values: SpecValues, t: int)
    requires GoodSpecs(vs) && Apply(vs, from, values).Changed? && t < from
    ensures ActiveValues(Apply(vs, from, values).versions, t) == ActiveValues(vs, t)
  {
    hide Apply, StartingAt, GoodSpecs;
    ChangedShape(vs, from, values);
    var opening := Version(Span(from, None), values);
    if vs == [] {
      FilterCons(ActiveAt(t), opening, []);
      assert [opening] + [] == [opening];
    } else {
      var front, latest := vs[..|vs| - 1], vs[|vs| - 1];
      var closed := Closing(latest, from);
      ActiveValuesConcat(front, [closed, opening], t);
      ActiveValuesConcat(front, [latest], t);
      assert vs == front + [latest];
      ActiveValuesConcat([closed], [opening], t);
      assert [closed] + [opening] == [closed, opening];
      SingleActive(opening, t);
      SingleActive(closed, t);
      SingleActive(latest, t);
    }
  }

  /** A change that went through is found in place when requested again. */
  lemma RepeatedChangeIsSame(vs: seq<Version>, from: int, values: SpecValues)
    requires !Apply(vs, from, values).Refused?
    ensures Apply(VersionsAfter(vs, from, values), from, values).Same?
  {
    hide StartingAt;
    if Apply(vs, from, values).Changed? {
      OpeningIsFound(vs, from, values);
    }
  }

  lemma OpeningIsFound(vs: seq<Version>, from: int, values: SpecValues)
    requires Apply(vs, from, values).Changed?
    ensures StartingAt(Apply(vs, from, values).versions, from) == Some(Version(Span(from, None), values))
  {
    hide Apply, StartingAt;
    var after, opening := Apply(vs, from, values).versions, Version(Span(from, None), values);
    ChangedShape(vs, from, values);
    StartingAtFinds(vs, from);
    StartingAtFinds(after, from);
    assert after[|after| - 1] == opening && opening in after;
    forall i | 0 <= i < |after| - 1 ensures after[i].span.from != from { assert vs[i] in vs; }
  }
}
