/**
  Identifier histories of the temporal catalog: instruments are found by ISIN before symbol, a
  symbol changes only through an explicit rename that closes one interval and opens the adjacent
  one, and the storage guard refuses overlapping intervals of one identifier.
*/
module Catalog {
  import opened Sequences
  import opened Intervals
  import Specs = SpecificationHistory

  datatype Kind = Isin | Symbol

  datatype Key = Key(provider: int, kind: Kind, value: string)

  datatype Row = Row(key: Key, span: Span, owner: nat)

  datatype Identity = Identity(
    assetType: string,
    venue: int,
    currency: string,
    status: string,
    activeFrom: Option<int>,
    activeTo: Option<int>)

  datatype Instrument = Instrument(identity: Identity, canonical: string, versions: seq<Specs.Version>)

  /** Instrument ids are positions: the storage hands them out in creation order. */
  datatype Tables = Tables(rows: seq<Row>, instruments: seq<Instrument>)

  datatype Rename = Rename(previous: string, at: int)

  datatype Definition = Definition(
    provider: int,
    identity: Identity,
    isin: string,
    symbol: string,
    validFrom: int,
    rename: Option<Rename>,
    specFrom: int,
    spec: Specs.SpecValues)

  function SymbolKey(provider: int, value: string): Key { Key(provider, Symbol, value) }
  function IsinKey(d: Definition): Key { Key(d.provider, Isin, d.isin) }

  // ---- reads -------------------------------------------------------------------------------------

  function Named(key: Key, t: int): Row -> bool { (r: Row) => r.key == key && Covers(r.span, t) }

  /** The one row naming `key` at `t`, if any; several rows are an error. */
  function ActiveRow(rows: seq<Row>, key: Key, t: int): Result<Option<Row>> {
    var hits := Filter(Named(key, t), rows);
    if |hits| > 1 then Err("Multiple active identifier intervals exist.")
    else if hits == [] then Ok(None)
    else Ok(Some(hits[0]))
  }

  function OwnerAt(rows: seq<Row>, key: Key, t: int): Result<Option<nat>> {
    match ActiveRow(rows, key, t)
    case Err(e) => Err(e)
    case Ok(None) => Ok(None)
    case Ok(Some(row)) => Ok(Some(row.owner))
  }

  // ---- writes ------------------------------------------------------------------------------------

  predicate Clash(a: Row, b: Row) { a.key == b.key && Overlap(a.span, b.span) }

  /** Inserting a row under the storage's no-overlap guard. */
  function Inserted(rows: seq<Row>, row: Row): Result<seq<Row>> {
    if exists r :: r in rows && Clash(r, row) then Err("temporal overlap") else Ok(rows + [row])
  }

  function Create(c: Tables, d: Definition): Result<Tables> {
    var i := |c.instruments|;
    match Inserted(c.rows, Row(IsinKey(d), Span(d.validFrom, None), i))
    case Err(e) => Err(e)
    case Ok(rows) =>
      match Inserted(rows, Row(SymbolKey(d.provider, d.symbol), Span(d.validFrom, None), i))
      case Err(e) => Err(e)
      case Ok(both) => Ok(Tables(both, c.instruments + [Instrument(d.identity, d.symbol, [])]))
  }

  /** Position of the open row of `key` that starts at `from`. */
  function FindOpen(rows: seq<Row>, key: Key, from: int): Option<nat> {
    if rows == [] then None
    else if rows[0].key == key && rows[0].span == Span(from, None) then Some(0)
    else
      match FindOpen(rows[1..], key, from)
      case None => None
      case Some(k) => Some(k + 1)
  }

  lemma {:induction false} FindOpenFinds(rows: seq<Row>, key: Key, from: int)
    ensures match FindOpen(rows, key, from)
            case Some(k) => k < |rows| && rows[k].key == key && rows[k].span == Span(from, None)
            case None => forall r :: r in rows ==> !(r.key == key && r.span == Span(from, None))
  {
    if rows != [] { FindOpenFinds(rows[1..], key, from); }
  }

  function Closed(r: Row, at: int): Row { r.(span := Span(r.span.from, Some(at))) }

  datatype Step = Step(tables: Tables, instrument: nat, created: bool, added: nat, closed: nat)

  /** `_apply_rename` for instrument `i`, case by case. */
  function ApplyRename(c: Tables, d: Definition, i: nat, rename: Rename): Result<Step>
    requires i < |c.instruments|
  {
    var oldKey := SymbolKey(d.provider, rename.previous);
    var newKey := SymbolKey(d.provider, d.symbol);
    match ActiveRow(c.rows, oldKey, rename.at)
    case Err(e) => Err(e)
    case Ok(prior) =>
      match ActiveRow(c.rows, newKey, rename.at)
      case Err(e) => Err(e)
      case Ok(Some(row)) =>
        if row.owner == i then Ok(Step(c, i, false, 0, 0))
        else Err("The target rename symbol belongs to another instrument.")
      case Ok(None) =>
        if prior.None? || prior.value.owner != i then
          Err("The declared previous symbol is not active for the ISIN owner.")
        else if prior.value.span.from >= rename.at then
          Err("Rename effective time must follow the old identifier start.")
        else
          FindOpenFinds(c.rows, oldKey, prior.value.span.from);
          match FindOpen(c.rows, oldKey, prior.value.span.from)
          case None => Err("not found")
          case Some(k) =>
            match Inserted(c.rows[k := Closed(c.rows[k], rename.at)], Row(newKey, Span(rename.at, None), i))
            case Err(e) => Err(e)
            case Ok(rows) =>
              Ok(Step(Tables(rows, c.instruments[i := c.instruments[i].(canonical := d.symbol)]), i, false, 1, 1))
  }

  /** The identity part of `apply_instrument`. */
  function Identify(c: Tables, d: Definition): Result<Step> {
    match OwnerAt(c.rows, IsinKey(d), d.validFrom)
    case Err(e) => Err(e)
    case Ok(isinOwner) =>
      match OwnerAt(c.rows, SymbolKey(d.provider, d.symbol), d.validFrom)
      case Err(e) => Err(e)
      case Ok(symbolOwner) =>
        if isinOwner.None? && symbolOwner.None? then
          match Create(c, d)
          case Err(e) => Err(e)
          case Ok(after) => Ok(Step(after, |c.instruments|, true, 2, 0))
        else if isinOwner.None? then Err("A provider symbol resolves without the manifest ISIN.")
        else if symbolOwner.Some? && symbolOwner != isinOwner then
          Err("The manifest ISIN and provider symbol resolve to different instruments.")
        else Existing(c, d, isinOwner.value, symbolOwner.Some?)
  }

  /** A definition whose ISIN already belongs to instrument `i`, its symbol known there or not. */
  function Existing(c: Tables, d: Definition, i: nat, known: bool): Result<Step> {
    if i >= |c.instruments| then Err("not found")
    else if c.instruments[i].identity != d.identity then Err("Conflicting instrument definition.")
    else if known then Ok(Step(c, i, false, 0, 0))
    else if d.rename.None? then Err("An existing ISIN may receive a new symbol only through an explicit rename.")
    else ApplyRename(c, d, i, d.rename.value)
  }

  datatype Written = Written(tables: Tables, instrument: nat, created: bool, added: nat, closed: nat, specs: nat)

  /** `apply_instrument`: identity first, then the specification; an error undoes the transaction. */
  function Apply(c: Tables, d: Definition): Result<Written> {
    match Identify(c, d)
    case Err(e) => Err(e)
    case Ok(s) =>
      if s.instrument >= |s.tables.instruments| then Err("not found")
      else
        var current := s.tables.instruments[s.instrument];
        match Specs.Apply(current.versions, d.specFrom, d.spec)
        case Refused(reason) => Err(reason)
        case Same => Ok(Written(s.tables, s.instrument, s.created, s.added, s.closed, 0))
        case Changed(vs) =>
          var after := s.tables.instruments[s.instrument := current.(versions := vs)];
          Ok(Written(s.tables.(instruments := after), s.instrument, s.created, s.added, s.closed, 1))
  }

  // ---- the invariant -----------------------------------------------------------------------------

  ghost predicate NoOverlap(rows: seq<Row>) {
    forall i, j :: 0 <= i < j < |rows| ==> !Clash(rows[i], rows[j])
  }

  function HeldAs(i: nat, kind: Kind): Row -> bool { (r: Row) => r.owner == i && r.key.kind == kind }

  function RowSpan(): Row -> Span { (r: Row) => r.span }

  /** The symbol rows of an instrument, and one open ISIN row, as its history demands. */
  ghost predicate Held(symbols: seq<Row>, isins: seq<Row>, canonical: string) {
    && symbols != []
    && Chain(SpansBy(RowSpan(), symbols))
    && symbols[|symbols| - 1].key.value == canonical
    && |isins| == 1
    && isins[0].span.to.None?
  }

  ghost predicate HistoryOf(rows: seq<Row>, i: nat, canonical: string) {
    Held(Filter(HeldAs(i, Symbol), rows), Filter(HeldAs(i, Isin), rows), canonical)
  }

  ghost predicate Owned(rows: seq<Row>, n: nat) {
    forall r :: r in rows ==> r.owner < n
  }

  ghost predicate GoodIdentifiers(c: Tables) {
    && NoOverlap(c.rows)
    && Owned(c.rows, |c.instruments|)
    && (forall i :: 0 <= i < |c.instruments| ==> HistoryOf(c.rows, i, c.instruments[i].canonical))
  }

  ghost predicate GoodVersions(c: Tables) {
    forall i :: 0 <= i < |c.instruments| ==>
      c.instruments[i].versions != [] && Specs.GoodSpecs(c.instruments[i].versions)
  }

  ghost predicate Good(c: Tables) { GoodIdentifiers(c) && GoodVersions(c) }

  // ---- creation keeps it -------------------------------------------------------------------------

  lemma InsertKeepsNoOverlap(rows: seq<Row>, row: Row)
    requires NoOverlap(rows) && Inserted(rows, row).Ok?
    ensures Inserted(rows, row).value == rows + [row] && NoOverlap(rows + [row])
  {
    forall i, j | 0 <= i < j < |rows + [row]| ensures !Clash((rows + [row])[i], (rows + [row])[j]) {
      assert rows[i] in rows;
    }
  }

  lemma SnocTwice(p: Row -> bool, rows: seq<Row>, a: Row, b: Row)
    ensures Filter(p, rows + [a] + [b])
            == Filter(p, rows) + (if p(a) then [a] else []) + (if p(b) then [b] else [])
  {
    FilterSnoc(p, rows + [a], b);
    FilterSnoc(p, rows, a);
  }

  lemma CreateHistory(rows: seq<Row>, n: nat, isin: Row, symbol: Row)
    requires Owned(rows, n)
    requires isin.owner == n && isin.key.kind == Isin && isin.span.to.None?
    requires symbol.owner == n && symbol.key.kind == Symbol && symbol.span.to.None?
    ensures HistoryOf(rows + [isin] + [symbol], n, symbol.key.value)
  {
    FilterNone(HeldAs(n, Symbol), rows);
    FilterNone(HeldAs(n, Isin), rows);
    SnocTwice(HeldAs(n, Symbol), rows, isin, symbol);
    SnocTwice(HeldAs(n, Isin), rows, isin, symbol);
  }

  lemma OthersUntouched(rows: seq<Row>, n: nat, isin: Row, symbol: Row, i: nat, canonical: string)
    requires HistoryOf(rows, i, canonical) && i != n && isin.owner == n && symbol.owner == n
    ensures HistoryOf(rows + [isin] + [symbol], i, canonical)
  {
    SnocTwice(HeldAs(i, Symbol), rows, isin, symbol);
    SnocTwice(HeldAs(i, Isin), rows, isin, symbol);
    assert Filter(HeldAs(i, Symbol), rows + [isin] + [symbol]) == Filter(HeldAs(i, Symbol), rows);
    assert Filter(HeldAs(i, Isin), rows + [isin] + [symbol]) == Filter(HeldAs(i, Isin), rows);
  }

  lemma CreateKeeps(c: Tables, d: Definition)
    requires GoodIdentifiers(c) && Create(c, d).Ok?
    ensures GoodIdentifiers(Create(c, d).value)
  {
    var n := |c.instruments|;
    var isin := Row(IsinKey(d), Span(d.validFrom, None), n);
    var symbol := Row(SymbolKey(d.provider, d.symbol), Span(d.validFrom, None), n);
    var after := Create(c, d).value;
    InsertKeepsNoOverlap(c.rows, isin);
    InsertKeepsNoOverlap(c.rows + [isin], symbol);
    assert after.rows == c.rows + [isin] + [symbol];
    forall i | 0 <= i < |after.instruments| ensures HistoryOf(after.rows, i, after.instruments[i].canonical) {
      if i < n {
        OthersUntouched(c.rows, n, isin, symbol, i, c.instruments[i].canonical);
      } else {
        CreateHistory(c.rows, n, isin, symbol);
      }
    }
  }

  // ---- a rename keeps it -------------------------------------------------------------------------

  /** Row `k` closed at the start of `opening`, and `opening` appended. */
  function Renamed(rows: seq<Row>, k: nat, opening: Row): seq<Row>
    requires k < |rows|
  {
    rows[k := Closed(rows[k], opening.span.from)] + [opening]
  }

  /** The rows a rename may close and open. */
  ghost predicate Renames(rows: seq<Row>, k: nat, opening: Row) {
    && k < |rows|
    && rows[k].key.kind == Symbol && opening.key.kind == Symbol
    && rows[k].owner == opening.owner
    && rows[k].span.to.None? && opening.span.to.None?
    && rows[k].span.from < opening.span.from
  }

  lemma FilterAround(p: Row -> bool, rows: seq<Row>, k: nat)
    requires k < |rows|
    ensures Filter(p, rows)
            == Filter(p, rows[..k]) + (if p(rows[k]) then [rows[k]] else []) + Filter(p, rows[k + 1..])
  {
    Split(rows, k);
    FilterParts(p, rows[..k], rows[k], rows[k + 1..]);
  }

  lemma Split(rows: seq<Row>, k: nat)
    requires k < |rows|
    ensures rows == rows[..k] + [rows[k]] + rows[k + 1..]
  {
  }

  lemma FilterParts(p: Row -> bool, a: seq<Row>, x: Row, b: seq<Row>)
    ensures Filter(p, a + [x] + b) == Filter(p, a) + (if p(x) then [x] else []) + Filter(p, b)
  {
    FilterConcat(p, a + [x], b);
    FilterSnoc(p, a, x);
  }

  lemma FilterRenamed(p: Row -> bool, rows: seq<Row>, k: nat, opening: Row)
    requires k < |rows|
    ensures var closed := Closed(rows[k], opening.span.from);
            Filter(p, Renamed(rows, k, opening))
            == Filter(p, rows[..k]) + (if p(closed) then [closed] else []) + Filter(p, rows[k + 1..])
               + (if p(opening) then [opening] else [])
  {
    var closed := Closed(rows[k], opening.span.from);
    var mid := rows[k := closed];
    FilterSnoc(p, mid, opening);
    FilterAround(p, mid, k);
    assert mid[..k] == rows[..k] && mid[k + 1..] == rows[k + 1..];
  }

  /** The open row of an instrument is its last symbol row. */
  lemma OpenRowIsLast(rows: seq<Row>, k: nat, i: nat)
    requires k < |rows| && HeldAs(i, Symbol)(rows[k]) && rows[k].span.to.None?
    requires Chain(SpansBy(RowSpan(), Filter(HeldAs(i, Symbol), rows)))
    ensures Filter(HeldAs(i, Symbol), rows[k + 1..]) == []
  {
    var p := HeldAs(i, Symbol);
    FilterAround(p, rows, k);
    var at := |Filter(p, rows[..k])|;
    assert SpansBy(RowSpan(), Filter(p, rows))[at] == rows[k].span;
    OpenIsLast(SpansBy(RowSpan(), Filter(p, rows)), at);
  }

  lemma HeldExtends(front: seq<Row>, prior: Row, opening: Row, isins: seq<Row>, canonical: string)
    requires Held(front + [prior], isins, canonical)
    requires prior.span.from < opening.span.from && opening.span.to.None?
    ensures Held(front + [Closed(prior, opening.span.from)] + [opening], isins, opening.key.value)
  {
    var before := SpansBy(RowSpan(), front + [prior]);
    var after := SpansBy(RowSpan(), front + [Closed(prior, opening.span.from)] + [opening]);
    ExtendKeepsChain(before, opening.span.from);
    assert after == Extend(before, opening.span.from);
  }

  lemma RenameKeepsOwn(rows: seq<Row>, k: nat, opening: Row, canonical: string)
    requires Renames(rows, k, opening) && HistoryOf(rows, opening.owner, canonical)
    ensures HistoryOf(Renamed(rows, k, opening), opening.owner, opening.key.value)
  {
    var p, q := HeldAs(opening.owner, Symbol), HeldAs(opening.owner, Isin);
    OpenRowIsLast(rows, k, opening.owner);
    FilterAround(p, rows, k);
    FilterRenamed(p, rows, k, opening);
    FilterAround(q, rows, k);
    FilterRenamed(q, rows, k, opening);
    var front := Filter(p, rows[..k]);
    assert Filter(p, rows) == front + [rows[k]];
    assert Filter(q, Renamed(rows, k, opening)) == Filter(q, rows);
    HeldExtends(front, rows[k], opening, Filter(q, rows), canonical);
    assert Filter(p, Renamed(rows, k, opening)) == front + [Closed(rows[k], opening.span.from)] + [opening];
  }

  lemma RenameKeepsOthers(rows: seq<Row>, k: nat, opening: Row, i: nat, canonical: string)
    requires Renames(rows, k, opening) && i != opening.owner && HistoryOf(rows, i, canonical)
    ensures HistoryOf(Renamed(rows, k, opening), i, canonical)
  {
    var p, q := HeldAs(i, Symbol), HeldAs(i, Isin);
    FilterAround(p, rows, k);
    FilterRenamed(p, rows, k, opening);
    FilterAround(q, rows, k);
    FilterRenamed(q, rows, k, opening);
    assert Filter(p, Renamed(rows, k, opening)) == Filter(p, rows);
    assert Filter(q, Renamed(rows, k, opening)) == Filter(q, rows);
  }

  lemma CloseKeepsNoOverlap(rows: seq<Row>, k: nat, at: int)
    requires NoOverlap(rows) && k < |rows| && rows[k].span.to.None?
    ensures NoOverlap(rows[k := Closed(rows[k], at)])
  {
    var after := rows[k := Closed(rows[k], at)];
    forall i, j | 0 <= i < j < |after| ensures !Clash(after[i], after[j]) {
      assert !Clash(rows[i], rows[j]);
    }
  }

  /** A rename that changes anything closes one open row and opens the adjacent one. */
  lemma RenameShape(c: Tables, d: Definition, i: nat, rename: Rename) returns (k: nat)
    requires i < |c.instruments| && ApplyRename(c, d, i, rename).Ok?
    requires ApplyRename(c, d, i, rename).value.added == 1
    ensures var opening := Row(SymbolKey(d.provider, d.symbol), Span(rename.at, None), i);
            var out := ApplyRename(c, d, i, rename).value;
            && k < |c.rows|
            && c.rows[k].key == SymbolKey(d.provider, rename.previous)
            && c.rows[k].span.from < rename.at && c.rows[k].span.to.None?
            && Inserted(c.rows[k := Closed(c.rows[k], rename.at)], opening).Ok?
            && out.tables.rows == Renamed(c.rows, k, opening)
            && out.tables.instruments == c.instruments[i := c.instruments[i].(canonical := d.symbol)]
            && ActiveRow(c.rows, SymbolKey(d.provider, rename.previous), rename.at).Ok?
            && var prior := ActiveRow(c.rows, SymbolKey(d.provider, rename.previous), rename.at).value;
               prior.Some? && prior.value.owner == i && prior.value.span.from == c.rows[k].span.from
  {
    hide ActiveRow;
    var oldKey := SymbolKey(d.provider, rename.previous);
    var prior := ActiveRow(c.rows, oldKey, rename.at).value.value;
    FindOpenFinds(c.rows, oldKey, prior.span.from);
    k := FindOpen(c.rows, oldKey, prior.span.from).value;
  }

  /** Two rows of one key that start together are the same row, since non-overlapping rows differ in start. */
  lemma SameStartSameRow(rows: seq<Row>, k: nat, key: Key, t: int)
    requires NoOverlap(rows) && k < |rows| && rows[k].key == key && rows[k].span.to.None?
    requires ActiveRow(rows, key, t).Ok? && ActiveRow(rows, key, t).value.Some?
    requires ActiveRow(rows, key, t).value.value.span.from == rows[k].span.from
    ensures ActiveRow(rows, key, t).value.value == rows[k]
  {
    var row := ActiveRow(rows, key, t).value.value;
    var hits := Filter(Named(key, t), rows);
    FilterMembers(Named(key, t), rows);
    assert row in hits;
    var j := IndexIn(rows, row);
    assert Overlap(rows[j].span, rows[k].span) && Overlap(rows[k].span, rows[j].span);
    assert j == k;
  }

  lemma RenameKeeps(c: Tables, d: Definition, i: nat, rename: Rename)
    requires GoodIdentifiers(c) && i < |c.instruments| && ApplyRename(c, d, i, rename).Ok?
    ensures GoodIdentifiers(ApplyRename(c, d, i, rename).value.tables)
  {
    hide ApplyRename, HistoryOf, NoOverlap, Inserted, ActiveRow;
    var out := ApplyRename(c, d, i, rename).value;
    RenameCases(c, d, i, rename);
    if out.added == 1 {
      var opening := Row(SymbolKey(d.provider, d.symbol), Span(rename.at, None), i);
      var k := RenameShape(c, d, i, rename);
      SameStartSameRow(c.rows, k, SymbolKey(d.provider, rename.previous), rename.at);
      CloseKeepsNoOverlap(c.rows, k, rename.at);
      InsertKeepsNoOverlap(c.rows[k := Closed(c.rows[k], rename.at)], opening);
      var after := out.tables;
      assert Renames(c.rows, k, opening);
      forall j | 0 <= j < |after.instruments| ensures HistoryOf(after.rows, j, after.instruments[j].canonical) {
        if j == i {
          RenameKeepsOwn(c.rows, k, opening, c.instruments[i].canonical);
        } else {
          RenameKeepsOthers(c.rows, k, opening, j, c.instruments[j].canonical);
        }
      }
      RenamedOwned(c.rows, k, opening, |c.instruments|);
    }
  }

  lemma RenamedOwned(rows: seq<Row>, k: nat, opening: Row, n: nat)
    requires k < |rows| && Owned(rows, n) && opening.owner < n
    ensures Owned(Renamed(rows, k, opening), n)
  {
    assert rows[k] in rows;
  }

  // ---- as-of answers -----------------------------------------------------------------------------

  /** At any instant an identifier names at most one row, so an as-of read never errs. */
  lemma OwnerIsUnique(rows: seq<Row>, key: Key, t: int)
    requires NoOverlap(rows)
    ensures |Filter(Named(key, t), rows)| <= 1 && OwnerAt(rows, key, t).Ok?
  {
    forall i, j | 0 <= i < j < |rows| ensures !(Named(key, t)(rows[i]) && Named(key, t)(rows[j])) {
      assert !Clash(rows[i], rows[j]);
    }
    FilterOne(Named(key, t), rows);
  }

  function Owners(rows: seq<Row>): seq<nat> {
    seq(|rows|, k requires 0 <= k < |rows| => rows[k].owner)
  }

  lemma OwnerByOwners(a: seq<Row>, b: seq<Row>, key: Key, t: int)
    requires Owners(Filter(Named(key, t), a)) == Owners(Filter(Named(key, t), b))
    ensures OwnerAt(a, key, t) == OwnerAt(b, key, t)
  {
    var x, y := Filter(Named(key, t), a), Filter(Named(key, t), b);
    assert |x| == |Owners(x)| && |y| == |Owners(y)|;
    if x != [] { assert x[0].owner == Owners(x)[0] && y[0].owner == Owners(y)[0]; }
  }

  /** A rename changes no as-of owner before it takes effect. */
  lemma RenameKeepsPast(rows: seq<Row>, k: nat, opening: Row, key: Key, t: int)
    requires Renames(rows, k, opening) && t < opening.span.from
    ensures OwnerAt(Renamed(rows, k, opening), key, t) == OwnerAt(rows, key, t)
  {
    var p := Named(key, t);
    FilterAround(p, rows, k);
    FilterRenamed(p, rows, k, opening);
    var a, b := Filter(p, rows), Filter(p, Renamed(rows, k, opening));
    assert Owners(a) == Owners(b);
    OwnerByOwners(rows, Renamed(rows, k, opening), key, t);
  }

  lemma CreateKeepsPast(rows: seq<Row>, isin: Row, symbol: Row, key: Key, t: int)
    requires t < isin.span.from && t < symbol.span.from
    ensures OwnerAt(rows + [isin] + [symbol], key, t) == OwnerAt(rows, key, t)
  {
    SnocTwice(Named(key, t), rows, isin, symbol);
    assert Filter(Named(key, t), rows + [isin] + [symbol]) == Filter(Named(key, t), rows);
  }

  // ---- every run of applications -----------------------------------------------------------------

  /** The three ways a definition is identified: a new instrument, one found as it is, a rename. */
  datatype Way = New | Found | Moved(rename: Rename)

  /** A rename changes nothing or opens one row and closes one. */
  lemma RenameCases(c: Tables, d: Definition, i: nat, rename: Rename)
    requires i < |c.instruments|
    ensures ApplyRename(c, d, i, rename).Ok? ==>
              var s := ApplyRename(c, d, i, rename).value;
              s.instrument == i && !s.created && (s == Step(c, i, false, 0, 0) || s.added == 1)
  {
    hide ActiveRow, Inserted;
    var prior := ActiveRow(c.rows, SymbolKey(d.provider, rename.previous), rename.at);
    if prior.Ok? && prior.value.Some? {
      FindOpenFinds(c.rows, SymbolKey(d.provider, rename.previous), prior.value.value.span.from);
    }
  }

  lemma IdentifyWay(c: Tables, d: Definition) returns (way: Way)
    requires Identify(c, d).Ok?
    ensures var s := Identify(c, d).value;
            match way
            case New => Create(c, d).Ok? && s == Step(Create(c, d).value, |c.instruments|, true, 2, 0)
            case Found => s == Step(c, s.instrument, false, 0, 0) && s.instrument < |c.instruments|
            case Moved(rename) =>
              && d.rename == Some(rename) && s.instrument < |c.instruments|
              && ApplyRename(c, d, s.instrument, rename) == Ok(s) && s.added == 1 && !s.created
  {
    hide OwnerAt, Create, ApplyRename;
    var isinOwner := OwnerAt(c.rows, IsinKey(d), d.validFrom).value;
    var symbolOwner := OwnerAt(c.rows, SymbolKey(d.provider, d.symbol), d.validFrom).value;
    if isinOwner.None? && symbolOwner.None? {
      way := New;
    } else if symbolOwner.Some? {
      way := Found;
    } else {
      RenameCases(c, d, isinOwner.value, d.rename.value);
      way := if Identify(c, d).value.added == 1 then Moved(d.rename.value) else Found;
    }
  }

  lemma IdentifyKeeps(c: Tables, d: Definition)
    requires GoodIdentifiers(c) && Identify(c, d).Ok?
    ensures GoodIdentifiers(Identify(c, d).value.tables)
  {
    hide Identify, GoodIdentifiers, Create, ApplyRename;
    var way := IdentifyWay(c, d);
    match way
    case New => CreateKeeps(c, d);
    case Found =>
    case Moved(rename) => RenameKeeps(c, d, Identify(c, d).value.instrument, rename);
  }

  /** Versions of the instruments after the identity part: as before, none for a new instrument. */
  lemma IdentifyVersions(c: Tables, d: Definition)
    requires Identify(c, d).Ok?
    ensures var s := Identify(c, d).value;
            && s.instrument < |s.tables.instruments|
            && |c.instruments| <= |s.tables.instruments| <= |c.instruments| + 1
            && (|c.instruments| < |s.tables.instruments| ==>
                s.instrument == |c.instruments| && s.tables.instruments[s.instrument].versions == [])
            && (forall i :: 0 <= i < |c.instruments| ==> s.tables.instruments[i].versions == c.instruments[i].versions)
  {
    hide Identify, ApplyRename;
    var way := IdentifyWay(c, d);
    match way
    case New =>
    case Found =>
    case Moved(rename) => var _ := RenameShape(c, d, Identify(c, d).value.instrument, rename);
  }

  lemma SpecifyKeeps(vs: seq<Specs.Version>, from: int, values: Specs.SpecValues)
    requires Specs.GoodSpecs(vs) && !Specs.Apply(vs, from, values).Refused?
    ensures var after := Specs.VersionsAfter(vs, from, values); after != [] && Specs.GoodSpecs(after)
  {
    if Specs.Apply(vs, from, values).Changed? { Specs.ApplyKeeps(vs, from, values); }
  }

  /** What the specification part adds: only the versions of the one instrument change. */
  lemma ApplyShape(c: Tables, d: Definition)
    requires Apply(c, d).Ok?
    ensures Identify(c, d).Ok?
    ensures var s, w := Identify(c, d).value, Apply(c, d).value;
            && s.instrument < |s.tables.instruments|
            && var current := s.tables.instruments[s.instrument];
               && !Specs.Apply(current.versions, d.specFrom, d.spec).Refused?
               && w.instrument == s.instrument && w.created == s.created
               && w.tables == s.tables.(instruments := s.tables.instruments[s.instrument :=
                    current.(versions := Specs.VersionsAfter(current.versions, d.specFrom, d.spec))])
  {
  }

  /** Changing the versions of an instrument does not touch identifiers. */
  lemma VersionsKeepIdentifiers(c: Tables, i: nat, vs: seq<Specs.Version>)
    requires GoodIdentifiers(c) && i < |c.instruments|
    ensures GoodIdentifiers(c.(instruments := c.instruments[i := c.instruments[i].(versions := vs)]))
  {
    hide HistoryOf, NoOverlap;
    var after := c.(instruments := c.instruments[i := c.instruments[i].(versions := vs)]);
    forall j | 0 <= j < |after.instruments| ensures HistoryOf(after.rows, j, after.instruments[j].canonical) {
      assert HistoryOf(c.rows, j, c.instruments[j].canonical);
    }
  }

  lemma ApplyKeeps(c: Tables, d: Definition)
    requires Good(c) && Apply(c, d).Ok?
    ensures Good(Apply(c, d).value.tables)
  {
    hide Identify, Apply, GoodIdentifiers;
    ApplyShape(c, d);
    IdentifyKeeps(c, d);
    IdentifyVersions(c, d);
    var s, w := Identify(c, d).value, Apply(c, d).value;
    var current := s.tables.instruments[s.instrument];
    assert Specs.GoodSpecs([]) by { assert SpansBy(Specs.VersionSpan(), []) == []; }
    SpecifyKeeps(current.versions, d.specFrom, d.spec);
    VersionsKeepIdentifiers(s.tables, s.instrument, Specs.VersionsAfter(current.versions, d.specFrom, d.spec));
  }

  function TablesAfter(c: Tables, d: Definition): Tables {
    match Apply(c, d)
    case Ok(w) => w.tables
    case Err(_) => c
  }

  /** The catalog after a list of definitions, starting empty; a refused one changes nothing. */
  function CatalogAfter(ds: seq<Definition>): Tables {
    if ds == [] then Tables([], []) else TablesAfter(CatalogAfter(ds[..|ds| - 1]), ds[|ds| - 1])
  }

  /**
    Over every sequence of applications: no two intervals of one identifier overlap, each
    instrument holds one ISIN row, open, and a chain of symbol rows ending in the canonical
    symbol, and its specification versions form a chain with differing neighbours.
  */
  lemma {:induction false} CatalogStaysGood(ds: seq<Definition>)
    ensures Good(CatalogAfter(ds))
  {
    if ds != [] {
      var before := CatalogAfter(ds[..|ds| - 1]);
      CatalogStaysGood(ds[..|ds| - 1]);
      if Apply(before, ds[|ds| - 1]).Ok? { ApplyKeeps(before, ds[|ds| - 1]); }
    }
  }

  /** When the definition's identifiers take effect: at the rename, or at their own start. */
  function EffectiveFrom(d: Definition, created: bool): int {
    if !created && d.rename.Some? then d.rename.value.at else d.validFrom
  }

  lemma CreatePast(c: Tables, d: Definition, key: Key, t: int)
    requires Create(c, d).Ok? && t < d.validFrom
    ensures OwnerAt(Create(c, d).value.rows, key, t) == OwnerAt(c.rows, key, t)
  {
    var n := |c.instruments|;
    var isin := Row(IsinKey(d), Span(d.validFrom, None), n);
    var symbol := Row(SymbolKey(d.provider, d.symbol), Span(d.validFrom, None), n);
    CreateKeepsPast(c.rows, isin, symbol, key, t);
  }

  lemma RenamePast(c: Tables, d: Definition, i: nat, rename: Rename, key: Key, t: int)
    requires NoOverlap(c.rows) && i < |c.instruments| && ApplyRename(c, d, i, rename).Ok?
    requires ApplyRename(c, d, i, rename).value.added == 1 && t < rename.at
    ensures OwnerAt(ApplyRename(c, d, i, rename).value.tables.rows, key, t) == OwnerAt(c.rows, key, t)
  {
    var k := RenameShape(c, d, i, rename);
    SameStartSameRow(c.rows, k, SymbolKey(d.provider, rename.previous), rename.at);
    RenameKeepsPast(c.rows, k, Row(SymbolKey(d.provider, d.symbol), Span(rename.at, None), i), key, t);
  }

  lemma IdentifyKeepsPastOwners(c: Tables, d: Definition, key: Key, t: int)
    requires NoOverlap(c.rows) && Identify(c, d).Ok? && t < EffectiveFrom(d, Identify(c, d).value.created)
    ensures OwnerAt(Identify(c, d).value.tables.rows, key, t) == OwnerAt(c.rows, key, t)
  {
    hide Identify, OwnerAt, Create, ApplyRename;
    var way := IdentifyWay(c, d);
    match way
    case New => CreatePast(c, d, key, t);
    case Found =>
    case Moved(rename) => RenamePast(c, d, Identify(c, d).value.instrument, rename, key, t);
  }

  /** An application changes no as-of owner before its identifiers take effect. */
  lemma ApplyKeepsPastOwners(c: Tables, d: Definition, key: Key, t: int)
    requires Good(c) && Apply(c, d).Ok? && t < EffectiveFrom(d, Apply(c, d).value.created)
    ensures OwnerAt(Apply(c, d).value.tables.rows, key, t) == OwnerAt(c.rows, key, t)
  {
    ApplyShape(c, d);
    IdentifyKeepsPastOwners(c, d, key, t);
  }

  /** The symbol of an instrument at any instant from its first start on is unique, and there is none before. */
  lemma SymbolAtIsUnique(c: Tables, i: nat, t: int)
    requires Good(c) && i < |c.instruments|
    ensures var symbols := Filter(HeldAs(i, Symbol), c.rows);
            symbols != [] && |Filter(Live(t), symbols)| == if symbols[0].span.from <= t then 1 else 0
  {
    var symbols := Filter(HeldAs(i, Symbol), c.rows);
    assert HistoryOf(c.rows, i, c.instruments[i].canonical);
    var spans := SpansBy(RowSpan(), symbols);
    ChainCovers(spans, t);
    forall a, b | 0 <= a < b < |symbols| ensures !(Live(t)(symbols[a]) && Live(t)(symbols[b])) {
      assert spans[a] == symbols[a].span && spans[b] == symbols[b].span;
    }
    FilterOne(Live(t), symbols);
    if symbols[0].span.from <= t {
      var a :| 0 <= a < |spans| && Covers(spans[a], t);
      assert Live(t)(symbols[a]);
    } else {
      forall r | r in symbols ensures !Live(t)(r) {
        var a := IndexIn(symbols, r);
        assert spans[a] == r.span;
      }
      FilterNone(Live(t), symbols);
    }
  }

  function Live(t: int): Row -> bool { (r: Row) => Covers(r.span, t) }

  // ---- applying a definition again ---------------------------------------------------------------

  lemma NamedRowOwns(rows: seq<Row>, k: nat, t: int)
    requires NoOverlap(rows) && k < |rows| && Covers(rows[k].span, t)
    ensures ActiveRow(rows, rows[k].key, t) == Ok(Some(rows[k]))
    ensures OwnerAt(rows, rows[k].key, t) == Ok(Some(rows[k].owner))
  {
    OwnerIsUnique(rows, rows[k].key, t);
    FilterMembers(Named(rows[k].key, t), rows);
    assert rows[k] in Filter(Named(rows[k].key, t), rows);
  }

  /** Nothing but versions distinguishes `c` from the tables an identification left. */
  ghost predicate SameIdentifiers(c: Tables, s: Step) {
    && c.rows == s.tables.rows
    && |c.instruments| == |s.tables.instruments|
    && s.instrument < |c.instruments|
    && c.instruments[s.instrument].identity == s.tables.instruments[s.instrument].identity
  }

  lemma NewFoundAgain(c: Tables, d: Definition, again: Tables)
    requires GoodIdentifiers(c) && Create(c, d).Ok?
    requires SameIdentifiers(again, Step(Create(c, d).value, |c.instruments|, true, 2, 0))
    ensures Identify(again, d) == Ok(Step(again, |c.instruments|, false, 0, 0))
  {
    CreateKeeps(c, d);
    var k := |c.rows|;
    NamedRowOwns(again.rows, k, d.validFrom);
    NamedRowOwns(again.rows, k + 1, d.validFrom);
  }

  lemma RenameFoundAgain(c: Tables, d: Definition, s: Step, rename: Rename, again: Tables)
    requires GoodIdentifiers(c) && d.rename == Some(rename) && d.validFrom < rename.at
    requires s.instrument < |c.instruments| && ApplyRename(c, d, s.instrument, rename) == Ok(s) && s.added == 1
    requires SameIdentifiers(again, s)
    ensures OwnerAt(again.rows, IsinKey(d), d.validFrom) == OwnerAt(c.rows, IsinKey(d), d.validFrom)
    ensures OwnerAt(again.rows, SymbolKey(d.provider, d.symbol), d.validFrom)
            == OwnerAt(c.rows, SymbolKey(d.provider, d.symbol), d.validFrom)
    ensures ApplyRename(again, d, s.instrument, rename) == Ok(Step(again, s.instrument, false, 0, 0))
    ensures again.instruments[s.instrument].identity == c.instruments[s.instrument].identity
  {
    hide OwnerAt, HistoryOf, Owned;
    var i := s.instrument;
    var opening := Row(SymbolKey(d.provider, d.symbol), Span(rename.at, None), i);
    var k := RenameShape(c, d, i, rename);
    SameStartSameRow(c.rows, k, SymbolKey(d.provider, rename.previous), rename.at);
    RenameKeepsPast(c.rows, k, opening, IsinKey(d), d.validFrom);
    RenameKeepsPast(c.rows, k, opening, SymbolKey(d.provider, d.symbol), d.validFrom);
    RenameKeeps(c, d, i, rename);
    NamedRowOwns(again.rows, |c.rows|, rename.at);
    OwnerIsUnique(again.rows, SymbolKey(d.provider, rename.previous), rename.at);
  }

  /** A rename is a no-op exactly when the new symbol already names the instrument. */
  lemma RenameNoopIff(c: Tables, d: Definition, i: nat, rename: Rename)
    requires i < |c.instruments|
    ensures var next := ActiveRow(c.rows, SymbolKey(d.provider, d.symbol), rename.at);
            ApplyRename(c, d, i, rename) == Ok(Step(c, i, false, 0, 0)) <==>
            && ActiveRow(c.rows, SymbolKey(d.provider, rename.previous), rename.at).Ok?
            && next.Ok? && next.value.Some? && next.value.value.owner == i
  {
    hide ActiveRow, Inserted;
  }

  lemma RenameAgainIsNoop(c: Tables, d: Definition, i: nat, rename: Rename, again: Tables)
    requires i < |c.instruments| && ApplyRename(c, d, i, rename) == Ok(Step(c, i, false, 0, 0))
    requires again.rows == c.rows && i < |again.instruments|
    ensures ApplyRename(again, d, i, rename) == Ok(Step(again, i, false, 0, 0))
  {
    hide ApplyRename, ActiveRow;
    RenameNoopIff(c, d, i, rename);
    RenameNoopIff(again, d, i, rename);
  }

  lemma IdentifyStep(c: Tables, d: Definition)
    requires Identify(c, d).Ok? && !Identify(c, d).value.created
    ensures var s := Identify(c, d).value;
            && OwnerAt(c.rows, IsinKey(d), d.validFrom) == Ok(Some(s.instrument))
            && var symbolOwner := OwnerAt(c.rows, SymbolKey(d.provider, d.symbol), d.validFrom);
               symbolOwner.Ok? && Existing(c, d, s.instrument, symbolOwner.value.Some?) == Ok(s)
  {
    hide OwnerAt, Existing, Identify;
    IdentifyOwner(c, d);
    ExistingStays(c, d, OwnerAt(c.rows, IsinKey(d), d.validFrom).value.value,
                  OwnerAt(c.rows, SymbolKey(d.provider, d.symbol), d.validFrom).value.Some?);
  }

  /** What is done to an existing instrument stays with it. */
  lemma ExistingStays(c: Tables, d: Definition, i: nat, known: bool)
    requires Existing(c, d, i, known).Ok?
    ensures var s := Existing(c, d, i, known).value;
            s.instrument == i < |c.instruments| && !s.created && s.added <= 1 && (s.added == 1 ==> !known)
    ensures c.instruments[i].identity == d.identity
  {
    hide ApplyRename;
    if !known { RenameCases(c, d, i, d.rename.value); }
  }

  /** An identification that creates nothing is the work on the ISIN's owner. */
  lemma IdentifyOwner(c: Tables, d: Definition)
    requires Identify(c, d).Ok? && !Identify(c, d).value.created
    ensures var isinOwner := OwnerAt(c.rows, IsinKey(d), d.validFrom);
            var symbolOwner := OwnerAt(c.rows, SymbolKey(d.provider, d.symbol), d.validFrom);
            && isinOwner.Ok? && isinOwner.value.Some? && symbolOwner.Ok?
            && Existing(c, d, isinOwner.value.value, symbolOwner.value.Some?) == Identify(c, d)
  {
    hide OwnerAt, Existing, Create;
  }

  /** An identification depends on the owners at the start, the identity, and the rename alone. */
  lemma IdentifyByOwners(c: Tables, d: Definition, s: Step, again: Tables)
    requires Identify(c, d) == Ok(s) && !s.created
    requires s.instrument < |c.instruments| && s.instrument < |again.instruments|
    requires OwnerAt(again.rows, IsinKey(d), d.validFrom) == OwnerAt(c.rows, IsinKey(d), d.validFrom)
    requires OwnerAt(again.rows, SymbolKey(d.provider, d.symbol), d.validFrom)
             == OwnerAt(c.rows, SymbolKey(d.provider, d.symbol), d.validFrom)
    requires again.instruments[s.instrument].identity == c.instruments[s.instrument].identity
    requires d.rename.Some? && ApplyRename(c, d, s.instrument, d.rename.value) == Ok(s) ==>
               ApplyRename(again, d, s.instrument, d.rename.value) == Ok(Step(again, s.instrument, false, 0, 0))
    ensures Identify(again, d) == Ok(Step(again, s.instrument, false, 0, 0))
  {
    hide OwnerAt, ApplyRename, Create, Inserted;
    IdentifyStep(c, d);
  }

  /** A manifest's rename takes effect after the identifier's own start. */
  predicate Validated(d: Definition) { d.rename.Some? ==> d.validFrom < d.rename.value.at }

  lemma FoundAgain(c: Tables, d: Definition, s: Step, again: Tables)
    requires Identify(c, d) == Ok(s) && s == Step(c, s.instrument, false, 0, 0) && SameIdentifiers(again, s)
    ensures Identify(again, d) == Ok(Step(again, s.instrument, false, 0, 0))
  {
    hide OwnerAt, ApplyRename, Identify;
    if d.rename.Some? && ApplyRename(c, d, s.instrument, d.rename.value) == Ok(s) {
      RenameAgainIsNoop(c, d, s.instrument, d.rename.value, again);
    }
    IdentifyByOwners(c, d, s, again);
  }

  lemma MovedOwners(c: Tables, d: Definition)
    requires Identify(c, d).Ok? && Identify(c, d).value.added == 1
    ensures var i := Identify(c, d).value.instrument;
            && OwnerAt(c.rows, IsinKey(d), d.validFrom) == Ok(Some(i))
            && OwnerAt(c.rows, SymbolKey(d.provider, d.symbol), d.validFrom) == Ok(None)
            && i < |c.instruments| && c.instruments[i].identity == d.identity
  {
    hide OwnerAt, Existing, Identify, Create;
    var _ := IdentifyWay(c, d);
    IdentifyStep(c, d);
    ExistingStays(c, d, Identify(c, d).value.instrument,
                  OwnerAt(c.rows, SymbolKey(d.provider, d.symbol), d.validFrom).value.Some?);
  }

  lemma MovedAgain(c: Tables, d: Definition, s: Step, rename: Rename, again: Tables)
    requires GoodIdentifiers(c) && d.rename == Some(rename) && d.validFrom < rename.at
    requires s.instrument < |c.instruments| && ApplyRename(c, d, s.instrument, rename) == Ok(s) && s.added == 1
    requires c.instruments[s.instrument].identity == d.identity
    requires OwnerAt(c.rows, IsinKey(d), d.validFrom) == Ok(Some(s.instrument))
    requires OwnerAt(c.rows, SymbolKey(d.provider, d.symbol), d.validFrom) == Ok(None)
    requires SameIdentifiers(again, s)
    ensures Identify(again, d) == Ok(Step(again, s.instrument, false, 0, 0))
  {
    hide OwnerAt, ApplyRename, GoodIdentifiers;
    RenameFoundAgain(c, d, s, rename, again);
  }

  lemma IdentifyAgain(c: Tables, d: Definition, again: Tables)
    requires GoodIdentifiers(c) && Validated(d) && Identify(c, d).Ok? && SameIdentifiers(again, Identify(c, d).value)
    ensures Identify(again, d) == Ok(Step(again, Identify(c, d).value.instrument, false, 0, 0))
  {
    var s := Identify(c, d).value;
    var way := IdentifyWay(c, d);
    match way {
      case New => NewFoundAgain(c, d, again);
      case Found => FoundAgain(c, d, s, again);
      case Moved(rename) =>
        MovedOwners(c, d);
        MovedAgain(c, d, s, rename, again);
    }
  }

  lemma ApplyFound(c: Tables, d: Definition, i: nat)
    requires Identify(c, d) == Ok(Step(c, i, false, 0, 0)) && i < |c.instruments|
    requires Specs.Apply(c.instruments[i].versions, d.specFrom, d.spec).Same?
    ensures Apply(c, d) == Ok(Written(c, i, false, 0, 0, 0))
  {
  }

  /** Applying an accepted definition again is accepted and changes nothing. */
  lemma ApplyAgainIsUnchanged(c: Tables, d: Definition)
    requires Good(c) && Validated(d) && Apply(c, d).Ok?
    ensures var w := Apply(c, d).value;
            Apply(w.tables, d) == Ok(Written(w.tables, w.instrument, false, 0, 0, 0))
  {
    ApplyShape(c, d);
    var s, again := Identify(c, d).value, Apply(c, d).value.tables;
    IdentifyAgain(c, d, again);
    Specs.RepeatedChangeIsSame(s.tables.instruments[s.instrument].versions, d.specFrom, d.spec);
    ApplyFound(again, d, s.instrument);
  }

  predicate Unchanged(w: Written) { !w.created && w.added == 0 && w.specs == 0 }

  /** The receipt says "unchanged" exactly when nothing was changed. */
  lemma UnchangedIff(c: Tables, d: Definition)
    requires Apply(c, d).Ok?
    ensures Unchanged(Apply(c, d).value) <==> Apply(c, d).value.tables == c
  {
    hide Identify, ApplyRename;
    ApplyShape(c, d);
    var s, w := Identify(c, d).value, Apply(c, d).value;
    var way := IdentifyWay(c, d);
    match way {
      case New => assert |w.tables.rows| == |c.rows| + 2;
      case Found =>
      case Moved(rename) =>
        var _ := RenameShape(c, d, s.instrument, rename);
        assert |w.tables.rows| == |c.rows| + 1;
    }
    var current := s.tables.instruments[s.instrument];
    if Specs.Apply(current.versions, d.specFrom, d.spec).Changed? {
      assert |w.tables.instruments[s.instrument].versions| == |current.versions| + 1;
    }
  }
}
