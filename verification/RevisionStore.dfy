/**
  The append-only bar-revision store.  A writer takes a per-bar lock, reads the latest revision
  and appends a new one only if a comparison field changed; the lock is held until the writer's
  transaction commits or rolls back.  Transactions interleave freely.
*/
module RevisionStore {
  import opened Sequences

  datatype BarKey = BarKey(series: int, open: int)

  /** The sixteen comparison fields. */
  datatype BarValues = BarValues(
    closeTs: int,
    tradingDate: int,
    openPrice: real,
    highPrice: real,
    lowPrice: real,
    closePrice: real,
    volume: Option<real>,
    officialClose: Option<real>,
    settlement: Option<real>,
    quoteVolume: Option<real>,
    tradeCount: Option<int>,
    vwap: Option<real>,
    openInterest: Option<real>,
    isFinal: bool,
    qualityFlags: int,
    previousClose: Option<real>)

  datatype Candidate = Candidate(key: BarKey, values: BarValues, available: int, systemAvailable: int, batch: int)

  datatype Revision = Revision(
    key: BarKey,
    revision: nat,
    values: BarValues,
    available: int,
    systemAvailable: int,
    batch: int)

  datatype WriteStatus = Inserted | Corrected | Unchanged

  // ---- one write -----------------------------------------------------------------------------

  /** The checks made before anything is read or locked. */
  predicate Admissible(c: Candidate) {
    && c.available <= c.systemAvailable
    && (c.values.isFinal ==> c.values.closeTs <= c.available)
  }

  function KeyIs(key: BarKey): Revision -> bool { (r: Revision) => r.key == key }

  function Highest(rows: seq<Revision>): Revision
    requires rows != []
  {
    if |rows| == 1 then rows[0]
    else
      var rest := Highest(rows[1..]);
      if rest.revision <= rows[0].revision then rows[0] else rest
  }

  lemma {:induction false} HighestIsHighest(rows: seq<Revision>)
    requires rows != []
    ensures Highest(rows) in rows && forall x :: x in rows ==> x.revision <= Highest(rows).revision
  {
    if |rows| > 1 { HighestIsHighest(rows[1..]); }
  }

  /** The row with the highest revision number for the bar. */
  function LatestFor(rows: seq<Revision>, key: BarKey): Option<Revision> {
    var mine := Filter(KeyIs(key), rows);
    if mine == [] then None else Some(Highest(mine))
  }

  function RevisionFrom(c: Candidate, n: nat): Revision {
    Revision(c.key, n, c.values, c.available, c.systemAvailable, c.batch)
  }

  /** The row stores what the candidate brought. */
  ghost predicate Stores(r: Revision, c: Candidate) {
    && r.key == c.key && r.values == c.values
    && r.available == c.available && r.systemAvailable == c.systemAvailable && r.batch == c.batch
  }

  /** `x` is the highest revision of its bar in a table. */
  ghost predicate IsLatest(rows: seq<Revision>, x: Revision) {
    x in rows && forall y :: y in rows && y.key == x.key ==> y.revision <= x.revision
  }

  /** Revision numbers are positive, as the storage demands. */
  ghost predicate Numbered(rows: seq<Revision>) { forall r :: r in rows ==> 1 <= r.revision }

  function IsFirst(): Revision -> bool { (r: Revision) => r.revision == 1 }

  /** How many bars a table has a first revision of. */
  function Firsts(rows: seq<Revision>): nat { |Filter(IsFirst(), rows)| }

  /** The table's highest revision of the candidate's bar has the candidate's values. */
  ghost predicate Shows(rows: seq<Revision>, c: Candidate) {
    exists x :: IsLatest(rows, x) && x.key == c.key && x.values == c.values
  }

  lemma LatestIsLatest(rows: seq<Revision>, key: BarKey)
    ensures match LatestFor(rows, key)
            case Some(x) => IsLatest(rows, x) && x.key == key
            case None => forall y :: y in rows ==> y.key != key
  {
    FilterMembers(KeyIs(key), rows);
    if Filter(KeyIs(key), rows) != [] { HighestIsHighest(Filter(KeyIs(key), rows)); }
  }

  /** The row a write adds to a table, if any. */
  function NewRows(rows: seq<Revision>, c: Candidate): seq<Revision> {
    match LatestFor(rows, c.key)
    case None => [RevisionFrom(c, 1)]
    case Some(latest) => if latest.values == c.values then [] else [RevisionFrom(c, latest.revision + 1)]
  }

  /** Rows added by applying a write rule to the candidates of a log one after another. */
  function Emit<R, C>(rule: (seq<R>, C) -> seq<R>, rows: seq<R>, log: seq<C>): seq<R> {
    if log == [] then []
    else
      var before := Emit(rule, rows, log[..|log| - 1]);
      before + rule(rows + before, log[|log| - 1])
  }

  /** Rows added by writing the candidates one after another to a table. */
  function Writes(rows: seq<Revision>, log: seq<Candidate>): seq<Revision> {
    Emit(NewRows, rows, log)
  }

  /** The revision table as one connection sees it. */
  class BarWriter {
    var rows: seq<Revision>

    /** `None` is the error for an inadmissible candidate; nothing is written then. */
    method AppendRevisionIfChanged(c: Candidate) returns (r: Option<(WriteStatus, Revision)>)
      modifies this
      ensures r.Some? <==> Admissible(c)
      ensures rows == old(rows) + if Admissible(c) then NewRows(old(rows), c) else []
      ensures r.Some? ==>
        && (r.value.0 == Inserted <==> forall y :: y in old(rows) ==> y.key != c.key)
        && (r.value.0 == Unchanged ==> rows == old(rows) && Shows(old(rows), c))
        && (GoodTable(old(rows)) ==> (r.value.0 == Unchanged <==> Shows(old(rows), c)))
        && (r.value.0 != Unchanged ==> rows == old(rows) + [r.value.1] && Stores(r.value.1, c))
        && IsLatest(rows, r.value.1) && r.value.1.key == c.key && r.value.1.values == c.values
        && (Numbered(old(rows)) ==>
              Numbered(rows) && Firsts(rows) == Firsts(old(rows)) + if r.value.0 == Inserted then 1 else 0)
    {
      hide LatestFor, Shows, GoodTable;
      LatestIsLatest(rows, c.key);
      ShownIff(rows, c);
      if c.systemAvailable < c.available || (c.values.isFinal && c.available < c.values.closeTs) {
        return None;
      }
      var latest := LatestFor(rows, c.key);
      if latest.Some? && latest.value.values == c.values {
        return Some((Unchanged, latest.value));
      }
      var row := RevisionFrom(c, if latest.None? then 1 else latest.value.revision + 1);
      FilterSnoc(IsFirst(), rows, row);
      rows := rows + [row];
      r := Some((if latest.None? then Inserted else Corrected, row));
    }
  }

  // ---- histories built by writes ---------------------------------------------------------------

  /** One bar's history: numbered 1, 2, ..., neighbours different, availability in order. */
  ghost predicate GoodHistory(h: seq<Revision>) {
    && (forall i :: 0 <= i < |h| ==> h[i].revision == i + 1)
    && (forall i, j :: 0 <= i && j == i + 1 < |h| ==> h[i].values != h[j].values)
    && (forall i :: 0 <= i < |h| ==> h[i].available <= h[i].systemAvailable)
    && (forall i :: 0 <= i < |h| && h[i].values.isFinal ==> h[i].values.closeTs <= h[i].available)
  }

  ghost predicate GoodTable(rows: seq<Revision>) {
    forall key :: GoodHistory(Filter(KeyIs(key), rows))
  }

  lemma HighestIsLast(h: seq<Revision>)
    requires GoodHistory(h) && h != []
    ensures Highest(h) == h[|h| - 1]
  {
    HighestIsHighest(h);
    var i := IndexIn(h, Highest(h));
    assert h[|h| - 1] in h;
    assert h[|h| - 1].revision == |h|;
  }

  /** In a good table a bar has one highest revision. */
  lemma LatestIsUnique(rows: seq<Revision>, x: Revision, y: Revision)
    requires GoodTable(rows) && IsLatest(rows, x) && IsLatest(rows, y) && x.key == y.key
    ensures x == y
  {
    var h := Filter(KeyIs(x.key), rows);
    FilterMembers(KeyIs(x.key), rows);
    assert GoodHistory(h);
    var i := IndexIn(h, x);
    var j := IndexIn(h, y);
    assert i + 1 == x.revision == y.revision == j + 1;
  }

  lemma ShownIff(rows: seq<Revision>, c: Candidate)
    ensures var latest := LatestFor(rows, c.key);
            && (latest.Some? && latest.value.values == c.values ==> Shows(rows, c))
            && (GoodTable(rows) && Shows(rows, c) ==> latest.Some? && latest.value.values == c.values)
  {
    hide LatestFor, GoodTable, IsLatest;
    LatestIsLatest(rows, c.key);
    if GoodTable(rows) && Shows(rows, c) {
      var x :| IsLatest(rows, x) && x.key == c.key && x.values == c.values;
      assert x in rows by { LatestIsListed(rows, x); }
      LatestIsUnique(rows, x, LatestFor(rows, c.key).value);
    }
  }

  lemma LatestIsListed(rows: seq<Revision>, x: Revision)
    requires IsLatest(rows, x)
    ensures x in rows
  {
  }

  /** A write leaves the candidate's values as the highest revision of its bar. */
  lemma WriteShows(rows: seq<Revision>, c: Candidate)
    ensures Shows(rows + NewRows(rows, c), c)
    ensures forall r :: r in NewRows(rows, c) ==> Stores(r, c)
  {
    hide LatestFor;
    LatestIsLatest(rows, c.key);
    var added := NewRows(rows, c);
    if added == [] {
      assert rows + added == rows && IsLatest(rows, LatestFor(rows, c.key).value);
    } else {
      assert IsLatest(rows + added, added[0]);
    }
  }

  /** A write to one bar leaves what another bar shows. */
  lemma WriteKeepsShown(rows: seq<Revision>, c: Candidate, other: Candidate)
    requires Shows(rows, other) && other.key != c.key
    ensures Shows(rows + NewRows(rows, c), other)
  {
    hide NewRows;
    var x :| IsLatest(rows, x) && x.key == other.key && x.values == other.values;
    NewRowsKeyed(rows, c);
    assert IsLatest(rows + NewRows(rows, c), x);
  }

  /** Every row a log writes stores one of its candidates. */
  lemma {:induction false} WritesStore(rows: seq<Revision>, log: seq<Candidate>, r: Revision)
    requires r in Writes(rows, log)
    ensures exists c :: c in log && Stores(r, c)
  {
    var front, c := log[..|log| - 1], log[|log| - 1];
    if r in Writes(rows, front) {
      WritesStore(rows, front, r);
    } else {
      WriteShows(rows + Writes(rows, front), c);
    }
  }

  /** No later candidate of the log is for the same bar. */
  ghost predicate LastOfBar(log: seq<Candidate>, i: nat) {
    i < |log| && forall j :: i < j < |log| ==> log[j].key != log[i].key
  }

  /** The last candidate written for a bar is what the table shows of it afterwards. */
  lemma {:induction false} LastWriteShows(rows: seq<Revision>, log: seq<Candidate>, i: nat)
    requires LastOfBar(log, i)
    ensures Shows(rows + Writes(rows, log), log[i])
  {
    hide Shows, NewRows;
    var front, c := log[..|log| - 1], log[|log| - 1];
    var before := rows + Writes(rows, front);
    assert rows + Writes(rows, log) == before + NewRows(before, c);
    if i == |log| - 1 {
      WriteShows(before, c);
    } else {
      LastWriteShows(rows, front, i);
      WriteKeepsShown(before, c, log[i]);
    }
  }

  lemma HistoryGrows(h: seq<Revision>, row: Revision)
    requires GoodHistory(h) && row.revision == |h| + 1 && row.available <= row.systemAvailable
    requires row.values.isFinal ==> row.values.closeTs <= row.available
    requires h != [] ==> h[|h| - 1].values != row.values
    ensures GoodHistory(h + [row])
  {
  }

  lemma NewRowsForSame(rows: seq<Revision>, c: Candidate)
    requires Admissible(c) && GoodHistory(Filter(KeyIs(c.key), rows))
    ensures GoodHistory(Filter(KeyIs(c.key), rows) + NewRows(rows, c))
  {
    var h := Filter(KeyIs(c.key), rows);
    if h == [] {
      HistoryGrows(h, RevisionFrom(c, 1));
    } else {
      HighestIsLast(h);
      if h[|h| - 1].values != c.values {
        HistoryGrows(h, RevisionFrom(c, |h| + 1));
      } else {
        assert h + [] == h;
      }
    }
  }

  lemma NewRowsKeyed(rows: seq<Revision>, c: Candidate)
    ensures forall r :: r in NewRows(rows, c) ==> r.key == c.key
  {
  }

  lemma NewRowsKeepHistory(rows: seq<Revision>, c: Candidate, key: BarKey)
    requires Admissible(c) && GoodHistory(Filter(KeyIs(key), rows)) && GoodHistory(Filter(KeyIs(c.key), rows))
    ensures GoodHistory(Filter(KeyIs(key), rows + NewRows(rows, c)))
  {
    var added := NewRows(rows, c);
    FilterConcat(KeyIs(key), rows, added);
    NewRowsKeyed(rows, c);
    if key == c.key {
      NewRowsForSame(rows, c);
      FilterAll(KeyIs(key), added);
    } else {
      FilterNone(KeyIs(key), added);
      assert Filter(KeyIs(key), rows) + [] == Filter(KeyIs(key), rows);
    }
  }

  ghost predicate AllAdmissible(log: seq<Candidate>) {
    forall c :: c in log ==> Admissible(c)
  }

  /** Any serial sequence of admissible writes keeps good histories good. */
  lemma {:induction false} WritesKeepGood(rows: seq<Revision>, log: seq<Candidate>)
    requires GoodTable(rows) && AllAdmissible(log)
    ensures GoodTable(rows + Writes(rows, log))
  {
    if log == [] {
      assert rows + [] == rows;
    } else {
      var front, c := log[..|log| - 1], log[|log| - 1];
      assert c in log;
      WritesKeepGood(rows, front);
      var before := rows + Writes(rows, front);
      assert rows + Writes(rows, log) == before + NewRows(before, c);
      forall key ensures GoodHistory(Filter(KeyIs(key), rows + Writes(rows, log))) {
        NewRowsKeepHistory(before, c, key);
      }
    }
  }

  /** From an empty table on, they produce good histories. */
  lemma WritesAreGood(log: seq<Candidate>)
    requires AllAdmissible(log)
    ensures GoodTable(Writes([], log))
  {
    WritesKeepGood([], log);
    assert [] + Writes([], log) == Writes([], log);
  }

  /** A log writes only rows of the batches its candidates belong to. */
  lemma WritesOfBatch(rows: seq<Revision>, log: seq<Candidate>, batch: int)
    requires forall c :: c in log ==> c.batch == batch
    ensures forall r :: r in Writes(rows, log) ==> r.batch == batch
  {
    forall r | r in Writes(rows, log) ensures r.batch == batch { WritesStore(rows, log, r); }
  }

  // ---- locality of writes ----------------------------------------------------------------------

  lemma OthersDoNotMatter(rows: seq<Revision>, others: seq<Revision>, tail: seq<Revision>, key: BarKey)
    requires forall r :: r in others ==> r.key != key
    ensures LatestFor(rows + others + tail, key) == LatestFor(rows + tail, key)
  {
    FilterConcat(KeyIs(key), rows + others, tail);
    FilterConcat(KeyIs(key), rows, others);
    FilterConcat(KeyIs(key), rows, tail);
    FilterNone(KeyIs(key), others);
    assert Filter(KeyIs(key), rows) + [] == Filter(KeyIs(key), rows);
  }

  lemma {:induction false} EmitLocal<R(!new), C(!new)>(rule: (seq<R>, C) -> seq<R>, rows: seq<R>, others: seq<R>,
      log: seq<C>)
    requires forall tail, c :: c in log ==> rule(rows + others + tail, c) == rule(rows + tail, c)
    ensures Emit(rule, rows + others, log) == Emit(rule, rows, log)
  {
    if log != [] {
      var front := log[..|log| - 1];
      assert log[|log| - 1] in log;
      assert forall c :: c in front ==> c in log;
      forall tail, c | c in front ensures rule(rows + others + tail, c) == rule(rows + tail, c) {}
      EmitLocal(rule, rows, others, front);
    }
  }

  /** Rows of other bars appended underneath do not change what a log writes. */
  lemma WritesAreLocal(rows: seq<Revision>, others: seq<Revision>, log: seq<Candidate>)
    requires forall r, c :: r in others && c in log ==> r.key != c.key
    ensures Writes(rows + others, log) == Writes(rows, log)
  {
    var rule := NewRows;
    forall tail, c | c in log ensures rule(rows + others + tail, c) == rule(rows + tail, c) {
      OthersDoNotMatter(rows, others, tail, c.key);
    }
    EmitLocal(rule, rows, others, log);
  }

  lemma EmitSnoc<R, C>(rule: (seq<R>, C) -> seq<R>, rows: seq<R>, log: seq<C>, c: C)
    ensures Emit(rule, rows, log + [c]) == Emit(rule, rows, log) + rule(rows + Emit(rule, rows, log), c)
  {
    assert (log + [c])[..|log|] == log;
  }

  /** Writing two logs in a row is writing the second on top of the first. */
  lemma {:induction false} EmitConcat<R, C>(rule: (seq<R>, C) -> seq<R>, rows: seq<R>, a: seq<C>, b: seq<C>)
    ensures Emit(rule, rows, a + b) == Emit(rule, rows, a) + Emit(rule, rows + Emit(rule, rows, a), b)
  {
    if b == [] {
      assert a + b == a;
    } else {
      var front, c := b[..|b| - 1], b[|b| - 1];
      EmitConcat(rule, rows, a, front);
      assert b == front + [c];
      EmitOneMore(rule, rows, a, front, c);
    }
  }

  lemma EmitOneMore<R, C>(rule: (seq<R>, C) -> seq<R>, rows: seq<R>, a: seq<C>, b: seq<C>, c: C)
    requires Emit(rule, rows, a + b) == Emit(rule, rows, a) + Emit(rule, rows + Emit(rule, rows, a), b)
    ensures Emit(rule, rows, a + (b + [c]))
         == Emit(rule, rows, a) + Emit(rule, rows + Emit(rule, rows, a), b + [c])
  {
    hide Emit;
    var x := Emit(rule, rows, a);
    var y := Emit(rule, rows + x, b);
    EmitSnoc(rule, rows, a + b, c);
    EmitSnoc(rule, rows + x, b, c);
    assert a + (b + [c]) == a + b + [c];
    assert rows + (x + y) == rows + x + y;
  }

  // ---- interleaved transactions ----------------------------------------------------------------

  datatype Txn = Txn(locks: set<BarKey>, writes: seq<Revision>, log: seq<Candidate>)

  /** `serial` lists the candidates of committed transactions in commit order. */
  datatype Store = Store(committed: seq<Revision>, active: map<int, Txn>, serial: seq<Candidate>)

  datatype Step =
    | Begin(tx: int)
    | Lock(tx: int, key: BarKey)
    | Write(tx: int, candidate: Candidate)
    | Commit(tx: int)
    | Rollback(tx: int)

  predicate Held(s: Store, tx: int, key: BarKey) {
    exists other :: other in s.active && other != tx && key in s.active[other].locks
  }

  /** A step is possible when its transaction is active, and a lock only when nobody else holds it. */
  predicate Enabled(s: Store, step: Step) {
    match step
    case Begin(tx) => tx !in s.active
    case Lock(tx, key) => tx in s.active && !Held(s, tx, key)
    case Write(tx, c) => tx in s.active && c.key in s.active[tx].locks
    case Commit(tx) => tx in s.active
    case Rollback(tx) => tx in s.active
  }

  /** A write reads committed rows and its own; an inadmissible one raises and writes nothing. */
  function After(s: Store, step: Step): Store
    requires Enabled(s, step)
  {
    match step
    case Begin(tx) => s.(active := s.active[tx := Txn({}, [], [])])
    case Lock(tx, key) =>
      var t := s.active[tx];
      s.(active := s.active[tx := t.(locks := t.locks + {key})])
    case Write(tx, c) =>
      var t := s.active[tx];
      if Admissible(c) then
        s.(active := s.active[tx := t.(writes := t.writes + NewRows(s.committed + t.writes, c), log := t.log + [c])])
      else s
    case Commit(tx) =>
      Store(s.committed + s.active[tx].writes, s.active - {tx}, s.serial + s.active[tx].log)
    case Rollback(tx) => s.(active := s.active - {tx})
  }

  const EMPTY := Store([], map[], [])

  /** The store after a list of steps, or nothing if some step was not possible. */
  function Execute(steps: seq<Step>): Option<Store> {
    if steps == [] then Some(EMPTY)
    else
      match Execute(steps[..|steps| - 1])
      case None => None
      case Some(s) => if Enabled(s, steps[|steps| - 1]) then Some(After(s, steps[|steps| - 1])) else None
  }

  /** A transaction's writes are what its log would write on the committed rows right now. */
  ghost predicate TxnOk(s: Store, t: Txn) {
    && AllAdmissible(t.log)
    && (forall c :: c in t.log ==> c.key in t.locks)
    && (forall r :: r in t.writes ==> r.key in t.locks)
    && t.writes == Writes(s.committed, t.log)
  }

  ghost predicate StoreOk(s: Store) {
    && AllAdmissible(s.serial)
    && s.committed == Writes([], s.serial)
    && (forall tx :: tx in s.active ==> TxnOk(s, s.active[tx]))
    && (forall a, b :: a in s.active && b in s.active && a != b ==> s.active[a].locks !! s.active[b].locks)
  }

  lemma WriteKeeps(s: Store, t: Txn, c: Candidate)
    requires TxnOk(s, t) && c.key in t.locks && Admissible(c)
    ensures TxnOk(s, t.(writes := t.writes + NewRows(s.committed + t.writes, c), log := t.log + [c]))
  {
    var log := t.log + [c];
    assert log[..|log| - 1] == t.log;
  }

  lemma CommitKeepsOther(s: Store, t: Txn, other: Txn)
    requires TxnOk(s, t) && TxnOk(s, other) && t.locks !! other.locks
    ensures Writes(s.committed + t.writes, other.log) == Writes(s.committed, other.log)
  {
    WritesAreLocal(s.committed, t.writes, other.log);
  }

  lemma CommitKeeps(s: Store, tx: int)
    requires StoreOk(s) && tx in s.active
    ensures StoreOk(After(s, Commit(tx)))
  {
    var t := s.active[tx];
    var s' := After(s, Commit(tx));
    EmitConcat(NewRows, [], s.serial, t.log);
    assert [] + s.committed == s.committed;
    forall other | other in s'.active ensures TxnOk(s', s'.active[other]) {
      CommitKeepsOther(s, t, s.active[other]);
    }
  }

  lemma LockKeeps(s: Store, tx: int, key: BarKey)
    requires StoreOk(s) && tx in s.active && !Held(s, tx, key)
    ensures StoreOk(After(s, Lock(tx, key)))
  {
    var s' := After(s, Lock(tx, key));
    forall other | other in s'.active ensures TxnOk(s', s'.active[other]) { assert TxnOk(s, s.active[other]); }
  }

  lemma StepKeeps(s: Store, step: Step)
    requires StoreOk(s) && Enabled(s, step)
    ensures StoreOk(After(s, step))
    ensures s.committed <= After(s, step).committed
  {
    match step
    case Begin(tx) =>
      assert Writes(s.committed, []) == [];
      forall other | other in s.active ensures TxnOk(After(s, step), s.active[other]) {
        assert TxnOk(s, s.active[other]);
      }
    case Lock(tx, key) => LockKeeps(s, tx, key);
    case Write(tx, c) =>
      if Admissible(c) { WriteKeeps(s, s.active[tx], c); }
      forall other | other in s.active && other != tx ensures TxnOk(After(s, step), s.active[other]) {
        assert TxnOk(s, s.active[other]);
      }
    case Commit(tx) => CommitKeeps(s, tx);
    case Rollback(tx) =>
      forall other | other in s.active ensures TxnOk(After(s, step), s.active[other]) {
        assert TxnOk(s, s.active[other]);
      }
  }

  lemma {:induction false} ExecuteOk(steps: seq<Step>)
    requires Execute(steps).Some?
    ensures StoreOk(Execute(steps).value)
  {
    if steps == [] {
      assert Writes([], []) == [];
    } else {
      ExecuteOk(steps[..|steps| - 1]);
      StepKeeps(Execute(steps[..|steps| - 1]).value, steps[|steps| - 1]);
    }
  }

  /** The admissible candidates written in a transaction since it last began. */
  function WrittenIn(steps: seq<Step>, tx: int): seq<Candidate> {
    if steps == [] then []
    else
      var before := WrittenIn(steps[..|steps| - 1], tx);
      match steps[|steps| - 1]
      case Write(t, c) => if t == tx && Admissible(c) then before + [c] else before
      case Lock(_, _) => before
      case Begin(t) => if t == tx then [] else before
      case Commit(t) => if t == tx then [] else before
      case Rollback(t) => if t == tx then [] else before
  }

  /** What the committed transactions wrote, in the order of their commits. */
  function CommittedWrites(steps: seq<Step>): seq<Candidate> {
    if steps == [] then []
    else
      var front := steps[..|steps| - 1];
      match steps[|steps| - 1]
      case Commit(tx) => CommittedWrites(front) + WrittenIn(front, tx)
      case _ => CommittedWrites(front)
  }

  lemma {:induction false} SerialIsCommitted(steps: seq<Step>)
    requires Execute(steps).Some?
    ensures var s := Execute(steps).value;
            && s.serial == CommittedWrites(steps)
            && forall tx :: tx in s.active ==> s.active[tx].log == WrittenIn(steps, tx)
  {
    if steps != [] { SerialIsCommitted(steps[..|steps| - 1]); }
  }

  /**
    Under every interleaving, the committed table is what the committed writes produce one after
    another in commit order; each bar's committed revisions are numbered 1..n with neighbours
    different, each stores the values, availabilities and batch of a candidate that was written,
    and the highest of them has the values written last.
  */
  lemma InterleavingsAreSerial(steps: seq<Step>)
    requires Execute(steps).Some?
    ensures var s := Execute(steps).value;
            && s.committed == Writes([], CommittedWrites(steps)) && GoodTable(s.committed)
            && (forall r :: r in s.committed ==>
                  exists c :: c in CommittedWrites(steps) && Admissible(c) && Stores(r, c))
            && forall i: nat :: LastOfBar(CommittedWrites(steps), i) ==> Shows(s.committed, CommittedWrites(steps)[i])
  {
    hide Shows, Stores, Admissible, GoodTable, LastOfBar;
    var s, log := Execute(steps).value, CommittedWrites(steps);
    ExecuteOk(steps);
    SerialIsCommitted(steps);
    WritesAreGood(log);
    forall r | r in s.committed ensures exists c :: c in log && Admissible(c) && Stores(r, c) {
      WritesStore([], log, r);
    }
    assert [] + s.committed == s.committed;
    forall i: nat | LastOfBar(log, i) ensures i < |log| && Shows(s.committed, log[i]) {
      LastIsListed(log, i);
      LastWriteShows([], log, i);
    }
  }

  lemma LastIsListed(log: seq<Candidate>, i: nat)
    requires LastOfBar(log, i)
    ensures i < |log|
  {
  }

  /** Committed rows are never changed or removed by anything that happens later. */
  lemma {:induction false} CommittedRowsStay(steps: seq<Step>, n: nat)
    requires n <= |steps| && Execute(steps).Some?
    ensures Execute(steps[..n]).Some? && Execute(steps[..n]).value.committed <= Execute(steps).value.committed
  {
    if n == |steps| {
      assert steps[..n] == steps;
    } else {
      var front := steps[..|steps| - 1];
      assert front[..n] == steps[..n];
      CommittedRowsStay(front, n);
      ExecuteOk(front);
      StepKeeps(Execute(front).value, steps[|steps| - 1]);
    }
  }
}
