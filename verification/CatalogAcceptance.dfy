/**
  Exactly which definitions the catalog accepts: when an instrument is created, when one is found,
  when a rename goes through and when a specification is taken, all told from the tables.
*/
module CatalogAcceptance {
  import opened Sequences
  import opened Intervals
  import opened Catalog
  import Specs = SpecificationHistory

  // ---- identifiers -------------------------------------------------------------------------------

  /** Some row gives the identifier to instrument `i` at `t`. */
  ghost predicate NamedTo(rows: seq<Row>, key: Key, t: int, i: nat) {
    exists r ::
      r in rows && r.key == key && r.owner == i && r.span.from <= t && (r.span.to.None? || t < r.span.to.value)
  }

  ghost predicate Unnamed(rows: seq<Row>, key: Key, t: int) { forall i: nat :: !NamedTo(rows, key, t, i) }

  /** Every interval of the identifier has ended by `from`. */
  ghost predicate Free(rows: seq<Row>, key: Key, from: int) {
    forall r :: r in rows && r.key == key ==> r.span.to.Some? && r.span.to.value <= from
  }

  /** The identifier is open for instrument `i` and started before `at`. */
  ghost predicate OpenBefore(rows: seq<Row>, key: Key, at: int, i: nat) {
    exists r :: r in rows && r.key == key && r.owner == i && r.span.to.None? && r.span.from < at
  }

  lemma FreeIsUnnamed(rows: seq<Row>, key: Key, from: int)
    requires Free(rows, key, from)
    ensures Unnamed(rows, key, from)
  {
  }

  /** The row naming an identifier at an instant, if there is one, is the one the read returns. */
  lemma ActiveIff(rows: seq<Row>, key: Key, t: int, r: Row)
    requires NoOverlap(rows)
    ensures ActiveRow(rows, key, t).Ok?
    ensures ActiveRow(rows, key, t) == Ok(Some(r)) <==> r in rows && Named(key, t)(r)
  {
    OwnerIsUnique(rows, key, t);
    FilterMembers(Named(key, t), rows);
    var hits := Filter(Named(key, t), rows);
    if r in hits { assert hits[0] == r; }
    if hits != [] { assert hits[0] in hits; }
  }

  lemma OwnerIff(rows: seq<Row>, key: Key, t: int)
    requires NoOverlap(rows)
    ensures OwnerAt(rows, key, t).Ok?
    ensures forall i: nat :: OwnerAt(rows, key, t) == Ok(Some(i)) <==> NamedTo(rows, key, t, i)
    ensures OwnerAt(rows, key, t) == Ok(None) <==> Unnamed(rows, key, t)
  {
    hide ActiveRow;
    OwnerIsUnique(rows, key, t);
    var active := ActiveRow(rows, key, t).value;
    if active.Some? {
      ActiveIff(rows, key, t, active.value);
      assert NamedTo(rows, key, t, active.value.owner);
    }
    forall i: nat | NamedTo(rows, key, t, i) ensures OwnerAt(rows, key, t) == Ok(Some(i)) {
      var r :|
        r in rows && r.key == key && r.owner == i && r.span.from <= t && (r.span.to.None? || t < r.span.to.value);
      ActiveIff(rows, key, t, r);
    }
  }

  lemma InsertedIff(rows: seq<Row>, key: Key, from: int, owner: nat)
    ensures Inserted(rows, Row(key, Span(from, None), owner)).Ok? <==> Free(rows, key, from)
  {
    var row := Row(key, Span(from, None), owner);
    assert forall r :: r in rows && r.key == key ==> (Clash(r, row) <==> r.span.to.None? || from < r.span.to.value);
  }

  /** A new instrument is created if and only if both its identifiers are free from the start on. */
  lemma CreateIff(c: Tables, d: Definition)
    ensures Create(c, d).Ok? <==>
            Free(c.rows, IsinKey(d), d.validFrom) && Free(c.rows, SymbolKey(d.provider, d.symbol), d.validFrom)
  {
    hide Inserted, Free;
    var isin := Row(IsinKey(d), Span(d.validFrom, None), |c.instruments|);
    InsertedIff(c.rows, IsinKey(d), d.validFrom, |c.instruments|);
    InsertedIff(c.rows + [isin], SymbolKey(d.provider, d.symbol), d.validFrom, |c.instruments|);
    FreeBeside(c.rows, isin, SymbolKey(d.provider, d.symbol), d.validFrom);
    InsertedAppends(c.rows, isin);
  }

  lemma InsertedAppends(rows: seq<Row>, row: Row)
    ensures Inserted(rows, row).Ok? ==> Inserted(rows, row).value == rows + [row]
  {
  }

  lemma FreeBeside(rows: seq<Row>, other: Row, key: Key, from: int)
    requires other.key != key
    ensures Free(rows + [other], key, from) <==> Free(rows, key, from)
  {
    if Free(rows + [other], key, from) {
      forall r | r in rows && r.key == key ensures r.span.to.Some? && r.span.to.value <= from {
        assert r in rows + [other];
      }
    }
  }

  // ---- renames -----------------------------------------------------------------------------------

  /** The rename has been made, or the old symbol is open from earlier on and the new one is free. */
  ghost predicate MayRename(rows: seq<Row>, provider: int, symbol: string, i: nat, rename: Rename) {
    || NamedTo(rows, SymbolKey(provider, symbol), rename.at, i)
    || (&& OpenBefore(rows, SymbolKey(provider, rename.previous), rename.at, i)
        && Free(rows, SymbolKey(provider, symbol), rename.at))
  }

  /** In a table without overlaps, two rows of one identifier that cover an instant are the same. */
  lemma CoversOnce(rows: seq<Row>, a: Row, b: Row, t: int)
    requires NoOverlap(rows) && a in rows && b in rows && a.key == b.key && Covers(a.span, t) && Covers(b.span, t)
    ensures a == b
  {
    ActiveIff(rows, a.key, t, a);
    ActiveIff(rows, a.key, t, b);
  }

  lemma ClosedIsFree(rows: seq<Row>, k: nat, at: int, key: Key)
    requires k < |rows| && rows[k].key != key
    ensures Free(rows[k := Closed(rows[k], at)], key, at) <==> Free(rows, key, at)
  {
    var after := rows[k := Closed(rows[k], at)];
    forall r: Row | r.key == key ensures r in after <==> r in rows {
      if r in rows {
        var j := IndexIn(rows, r);
        assert after[j] == r;
      }
    }
  }

  /** What the rename does once neither symbol is ambiguous and the new one is not taken. */
  lemma RenameOpens(c: Tables, d: Definition, i: nat, rename: Rename, prior: Row)
    requires NoOverlap(c.rows) && i < |c.instruments|
    requires ActiveRow(c.rows, SymbolKey(d.provider, rename.previous), rename.at) == Ok(Some(prior))
    requires ActiveRow(c.rows, SymbolKey(d.provider, d.symbol), rename.at) == Ok(None)
    ensures ApplyRename(c, d, i, rename).Ok? <==>
            && prior.owner == i && prior.span.from < rename.at && prior.span.to.None?
            && Free(c.rows, SymbolKey(d.provider, d.symbol), rename.at)
  {
    hide ActiveRow, Inserted, Free, NoOverlap;
    var oldKey, newKey := SymbolKey(d.provider, rename.previous), SymbolKey(d.provider, d.symbol);
    ActiveIff(c.rows, oldKey, rename.at, prior);
    FindOpenFinds(c.rows, oldKey, prior.span.from);
    assert newKey != oldKey;
    if prior.owner == i && prior.span.from < rename.at {
      if FindOpen(c.rows, oldKey, prior.span.from).Some? {
        var k := FindOpen(c.rows, oldKey, prior.span.from).value;
        assert c.rows[k] in c.rows;
        CoversOnce(c.rows, c.rows[k], prior, rename.at);
        ClosedIsFree(c.rows, k, rename.at, newKey);
        InsertedIff(c.rows[k := Closed(c.rows[k], rename.at)], newKey, rename.at, i);
      }
    }
  }

  /** A rename is accepted if and only if it has been made or may be made. */
  lemma RenameIff(c: Tables, d: Definition, i: nat, rename: Rename)
    requires NoOverlap(c.rows) && i < |c.instruments|
    ensures ApplyRename(c, d, i, rename).Ok? <==> MayRename(c.rows, d.provider, d.symbol, i, rename)
  {
    hide ActiveRow, Inserted, NoOverlap, Free, NamedTo;
    var oldKey, newKey := SymbolKey(d.provider, rename.previous), SymbolKey(d.provider, d.symbol);
    var prior, next := ActiveRow(c.rows, oldKey, rename.at), ActiveRow(c.rows, newKey, rename.at);
    OwnerIff(c.rows, newKey, rename.at);
    OwnerIff(c.rows, oldKey, rename.at);
    if Free(c.rows, newKey, rename.at) { FreeIsUnnamed(c.rows, newKey, rename.at); }
    if next == Ok(None) {
      OpenIff(c.rows, oldKey, rename.at, i);
      if prior.value.Some? { RenameOpens(c, d, i, rename, prior.value.value); }
    }
  }

  lemma OpenIff(rows: seq<Row>, key: Key, at: int, i: nat)
    requires NoOverlap(rows)
    ensures ActiveRow(rows, key, at).Ok?
    ensures var prior := ActiveRow(rows, key, at).value;
            OpenBefore(rows, key, at, i) <==>
            prior.Some? && prior.value.owner == i && prior.value.span.from < at && prior.value.span.to.None?
  {
    hide ActiveRow, NoOverlap;
    OwnerIsUnique(rows, key, at);
    var prior := ActiveRow(rows, key, at).value;
    if prior.Some? { ActiveIff(rows, key, at, prior.value); }
    if OpenBefore(rows, key, at, i) {
      var r :| r in rows && r.key == key && r.owner == i && r.span.to.None? && r.span.from < at;
      ActiveIff(rows, key, at, r);
    }
  }

  // ---- definitions -------------------------------------------------------------------------------

  /** The definition names an instrument the catalog knows, by symbol or through a rename. */
  ghost predicate Recognized(c: Tables, d: Definition, i: nat) {
    var symbol := SymbolKey(d.provider, d.symbol);
    && i < |c.instruments| && c.instruments[i].identity == d.identity
    && NamedTo(c.rows, IsinKey(d), d.validFrom, i)
    && (|| NamedTo(c.rows, symbol, d.validFrom, i)
        || (&& Unnamed(c.rows, symbol, d.validFrom) && d.rename.Some?
            && MayRename(c.rows, d.provider, d.symbol, i, d.rename.value)))
  }

  ghost predicate BothFree(c: Tables, d: Definition) {
    Free(c.rows, IsinKey(d), d.validFrom) && Free(c.rows, SymbolKey(d.provider, d.symbol), d.validFrom)
  }

  /**
    A definition's identity is accepted if and only if its ISIN and symbol are both free, or its
    ISIN names an instrument of the same identity whose symbol it is or may become.
  */
  lemma IdentifyIff(c: Tables, d: Definition)
    requires GoodIdentifiers(c)
    ensures Identify(c, d).Ok? <==> BothFree(c, d) || exists i: nat :: Recognized(c, d, i)
    ensures Identify(c, d).Ok? ==>
              if BothFree(c, d) then Identify(c, d).value.created && Identify(c, d).value.instrument == |c.instruments|
              else !Identify(c, d).value.created && Recognized(c, d, Identify(c, d).value.instrument)
  {
    hide OwnerAt, Create, Existing, NamedTo, Free, MayRename, HistoryOf, NoOverlap;
    var isin, symbol := IsinKey(d), SymbolKey(d.provider, d.symbol);
    OwnerIff(c.rows, isin, d.validFrom);
    OwnerIff(c.rows, symbol, d.validFrom);
    CreateIff(c, d);
    if BothFree(c, d) {
      FreeIsUnnamed(c.rows, isin, d.validFrom);
      FreeIsUnnamed(c.rows, symbol, d.validFrom);
    }
    var owner := OwnerAt(c.rows, isin, d.validFrom).value;
    var known := OwnerAt(c.rows, symbol, d.validFrom).value;
    if owner.Some? {
      var i := owner.value;
      NamedIsOwned(c.rows, isin, d.validFrom, i, |c.instruments|);
      ExistingIff(c, d, i, known.Some?);
      assert forall j: nat :: Recognized(c, d, j) ==> j == i;
      assert Recognized(c, d, i) <==> (known.None? || known == owner) && Existing(c, d, i, known.Some?).Ok?;
    } else {
      assert forall j: nat :: !Recognized(c, d, j);
    }
  }

  lemma NamedIsOwned(rows: seq<Row>, key: Key, t: int, i: nat, n: nat)
    requires NamedTo(rows, key, t, i) && Owned(rows, n)
    ensures i < n
  {
  }

  lemma ExistingIff(c: Tables, d: Definition, i: nat, known: bool)
    requires NoOverlap(c.rows) && i < |c.instruments|
    ensures Existing(c, d, i, known).Ok? <==>
            && c.instruments[i].identity == d.identity
            && (known || (d.rename.Some? && MayRename(c.rows, d.provider, d.symbol, i, d.rename.value)))
    ensures Existing(c, d, i, known).Ok? ==>
              Existing(c, d, i, known).value.instrument == i && !Existing(c, d, i, known).value.created
  {
    hide ApplyRename, MayRename;
    if d.rename.Some? {
      RenameIff(c, d, i, d.rename.value);
      RenameCases(c, d, i, d.rename.value);
    }
  }

  // ---- specifications ----------------------------------------------------------------------------

  /**
    A specification is taken on a good history if and only if there is none yet, it starts after
    the latest one does, or it repeats the latest one's values and no earlier version starts when
    it does.
  */
  lemma SpecificationIff(vs: seq<Specs.Version>, from: int, values: Specs.SpecValues)
    requires Specs.GoodSpecs(vs)
    ensures !Specs.Apply(vs, from, values).Refused? <==>
            || vs == []
            || vs[|vs| - 1].span.from < from
            || (vs[|vs| - 1].values == values && forall v :: v in vs && v.span.from == from ==> v == vs[|vs| - 1])
  {
    hide Specs.StartingAt, Chain;
    Specs.StartingAtFinds(vs, from);
    if vs != [] {
      var latest := vs[|vs| - 1];
      LatestStartsLast(vs);
    }
  }

  lemma LatestStartsLast(vs: seq<Specs.Version>)
    requires Specs.GoodSpecs(vs) && vs != []
    ensures var latest := vs[|vs| - 1];
            && latest.span.to.None? && latest in vs
            && forall v :: v in vs ==> v == latest || (v.span.from < latest.span.from && v.span.to.Some?)
  {
    var spans := SpansBy(Specs.VersionSpan(), vs);
    var n := |vs| - 1;
    assert spans[n] == vs[n].span;
    forall v | v in vs ensures v == vs[n] || (v.span.from < vs[n].span.from && v.span.to.Some?) {
      var i := IndexIn(vs, v);
      assert spans[i] == v.span;
      ChainStarts(spans, i);
      if i < n { StartsBefore(spans, i); }
    }
  }

  lemma StartsBefore(c: seq<Span>, i: nat)
    requires Chain(c) && i < |c| - 1
    ensures c[i].from < c[|c| - 1].from
  {
    ChainStarts(c, i);
    assert c[i].to == Some(c[i + 1].from);
  }

  /** What `Apply` accepts: an accepted identity with an acceptable specification. */
  lemma ApplyIff(c: Tables, d: Definition)
    requires Good(c)
    ensures Identify(c, d).Ok? && !Identify(c, d).value.created ==> Identify(c, d).value.instrument < |c.instruments|
    ensures Apply(c, d).Ok? <==>
            && Identify(c, d).Ok?
            && (Identify(c, d).value.created
                || !Specs.Apply(c.instruments[Identify(c, d).value.instrument].versions, d.specFrom, d.spec).Refused?)
  {
    hide Identify, Create, ApplyRename, Specs.Apply, GoodIdentifiers, GoodVersions;
    if Identify(c, d).Ok? {
      var s := Identify(c, d).value;
      var way := IdentifyWay(c, d);
      match way {
        case New => CreatedIsEmpty(c, d);
        case Found =>
        case Moved(rename) => var _ := RenameShape(c, d, s.instrument, rename);
      }
      SpecifiedIff(c, d, s);
    }
  }

  lemma CreatedIsEmpty(c: Tables, d: Definition)
    requires Create(c, d).Ok?
    ensures var after := Create(c, d).value.instruments;
            |after| == |c.instruments| + 1 && after[|c.instruments|].versions == []
            && !Specs.Apply([], d.specFrom, d.spec).Refused?
  {
  }

  lemma SpecifiedIff(c: Tables, d: Definition, s: Step)
    requires Identify(c, d) == Ok(s) && s.instrument < |s.tables.instruments|
    ensures Apply(c, d).Ok? <==>
            !Specs.Apply(s.tables.instruments[s.instrument].versions, d.specFrom, d.spec).Refused?
  {
    hide Identify, Specs.Apply;
  }
}
