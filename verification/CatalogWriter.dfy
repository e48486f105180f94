/**
  The catalog writer: guarded updates and inserts over the identifier, instrument and
  specification tables, proved against the functions of `Catalog`.
*/
module CatalogStore {
  import opened Sequences
  import opened Intervals
  import opened Catalog
  import Specs = SpecificationHistory

  class CatalogWriter {
    var rows: seq<Row>
    var instruments: seq<Instrument>

    ghost function State(): Tables reads this { Tables(rows, instruments) }

    constructor ()
      ensures State() == CatalogAfter([])
    {
      rows, instruments := [], [];
    }

    method ActiveIdentifier(key: Key, t: int) returns (r: Result<Option<Row>>)
      ensures r == ActiveRow(rows, key, t)
    {
      var hits := [];
      for i := 0 to |rows|
        invariant hits == Filter(Named(key, t), rows[..i])
      {
        FilterSnoc(Named(key, t), rows[..i], rows[i]);
        assert rows[..i + 1] == rows[..i] + [rows[i]];
        if rows[i].key == key && Covers(rows[i].span, t) { hits := hits + [rows[i]]; }
      }
      assert rows[..|rows|] == rows;
      if |hits| > 1 { return Err("Multiple active identifier intervals exist."); }
      r := Ok(if hits == [] then None else Some(hits[0]));
    }

    method InsertIdentifier(row: Row) returns (r: Result<nat>)
      modifies this`rows
      ensures match Inserted(old(rows), row)
              case Ok(after) => r == Ok(1) && rows == after
              case Err(e) => r == Err(e) && rows == old(rows)
    {
      for i := 0 to |rows|
        invariant rows == old(rows)
        invariant forall q :: q in rows[..i] ==> !Clash(q, row)
      {
        if Clash(rows[i], row) {
          assert rows[i] in rows;
          return Err("temporal overlap");
        }
      }
      assert rows[..|rows|] == rows;
      rows := rows + [row];
      r := Ok(1);
    }

    /** `_apply_rename`; after an error the caller's transaction is undone. */
    method RenameSymbol(d: Definition, i: nat, rename: Rename) returns (r: Result<nat>)
      requires i < |instruments|
      modifies this
      ensures match ApplyRename(old(State()), d, i, rename)
              case Ok(s) => r == Ok(s.added) && s.added == s.closed && State() == s.tables
              case Err(e) => r == Err(e)
    {
      hide ActiveRow, Inserted, FindOpen, Closed;
      var oldKey := SymbolKey(d.provider, rename.previous);
      var prior := ActiveIdentifier(oldKey, rename.at);
      if prior.Err? { return Err(prior.error); }
      var next := ActiveIdentifier(SymbolKey(d.provider, d.symbol), rename.at);
      if next.Err? { return Err(next.error); }
      if next.value.Some? {
        if next.value.value.owner == i { return Ok(0); }
        return Err("The target rename symbol belongs to another instrument.");
      }
      if prior.value.None? || prior.value.value.owner != i {
        return Err("The declared previous symbol is not active for the ISIN owner.");
      }
      if prior.value.value.span.from >= rename.at {
        return Err("Rename effective time must follow the old identifier start.");
      }
      FindOpenFinds(rows, oldKey, prior.value.value.span.from);
      var k := FindOpen(rows, oldKey, prior.value.value.span.from);
      if k.None? { return Err("not found"); }
      rows := rows[k.value := Closed(rows[k.value], rename.at)];
      var inserted := InsertIdentifier(Row(SymbolKey(d.provider, d.symbol), Span(rename.at, None), i));
      if inserted.Err? { return Err(inserted.error); }
      instruments := instruments[i := instruments[i].(canonical := d.symbol)];
      r := Ok(1);
    }

    /** The creation branch; after an error the caller's transaction is undone. */
    method CreateInstrument(d: Definition) returns (r: Result<nat>)
      modifies this
      ensures match Create(old(State()), d)
              case Ok(after) => r == Ok(|old(instruments)|) && State() == after
              case Err(e) => r == Err(e)
    {
      var i := |instruments|;
      instruments := instruments + [Instrument(d.identity, d.symbol, [])];
      var isin := InsertIdentifier(Row(IsinKey(d), Span(d.validFrom, None), i));
      if isin.Err? { return Err(isin.error); }
      var symbol := InsertIdentifier(Row(SymbolKey(d.provider, d.symbol), Span(d.validFrom, None), i));
      if symbol.Err? { return Err(symbol.error); }
      r := Ok(i);
    }

    method IdentifyInstrument(d: Definition) returns (r: Result<Receipt>)
      modifies this
      ensures match Identify(old(State()), d)
              case Ok(s) => r == Ok(Receipt(s.instrument, s.created, s.added, s.closed, 0)) && State() == s.tables
              case Err(e) => r == Err(e)
    {
      hide ActiveRow, Create, Existing, Inserted, ApplyRename, FindOpen;
      var isin := ActiveIdentifier(IsinKey(d), d.validFrom);
      if isin.Err? { return Err(isin.error); }
      var symbol := ActiveIdentifier(SymbolKey(d.provider, d.symbol), d.validFrom);
      if symbol.Err? { return Err(symbol.error); }
      if isin.value.None? && symbol.value.None? {
        var made := CreateInstrument(d);
        if made.Err? { return Err(made.error); }
        return Ok(Receipt(made.value, true, 2, 0, 0));
      }
      if isin.value.None? { return Err("A provider symbol resolves without the manifest ISIN."); }
      var i := isin.value.value.owner;
      if symbol.value.Some? && symbol.value.value.owner != i {
        return Err("The manifest ISIN and provider symbol resolve to different instruments.");
      }
      r := ExistingInstrument(d, i, symbol.value.Some?);
    }

    method ExistingInstrument(d: Definition, i: nat, known: bool) returns (r: Result<Receipt>)
      modifies this
      ensures match Existing(old(State()), d, i, known)
              case Ok(s) => r == Ok(Receipt(s.instrument, s.created, s.added, s.closed, 0)) && State() == s.tables
              case Err(e) => r == Err(e)
    {
      hide ApplyRename;
      if i >= |instruments| { return Err("not found"); }
      if instruments[i].identity != d.identity { return Err("Conflicting instrument definition."); }
      if known { return Ok(Receipt(i, false, 0, 0, 0)); }
      if d.rename.None? {
        return Err("An existing ISIN may receive a new symbol only through an explicit rename.");
      }
      RenameCases(State(), d, i, d.rename.value);
      var moved := RenameSymbol(d, i, d.rename.value);
      if moved.Err? { return Err(moved.error); }
      r := Ok(Receipt(i, false, moved.value, moved.value, 0));
    }

    /** `apply_instrument` in its own transaction: all of it happens, or none of it. */
    method ApplyInstrument(d: Definition) returns (r: Result<Receipt>)
      modifies this
      ensures match Apply(old(State()), d)
              case Ok(w) => r == Ok(Receipt(w.instrument, w.created, w.added, w.closed, w.specs)) && State() == w.tables
              case Err(e) => r == Err(e) && State() == old(State())
    {
      var savedRows, savedInstruments := rows, instruments;
      var identified := IdentifyInstrument(d);
      if identified.Err? {
        rows, instruments := savedRows, savedInstruments;
        return Err(identified.error);
      }
      var i := identified.value.instrument;
      if i >= |instruments| {
        rows, instruments := savedRows, savedInstruments;
        return Err("not found");
      }
      var versions := new Specs.SpecificationTable(instruments[i].versions);
      var specified := versions.ApplySpecification(d.specFrom, d.spec);
      if specified.Err? {
        rows, instruments := savedRows, savedInstruments;
        return Err(specified.error);
      }
      instruments := instruments[i := instruments[i].(versions := versions.versions)];
      r := Ok(identified.value.(specs := specified.value));
    }
  }

  datatype Receipt = Receipt(instrument: nat, created: bool, added: nat, closed: nat, specs: nat)
}
