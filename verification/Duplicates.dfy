/**
  The duplicate policy over the validated rows of one response: rows of one symbol and date that
  carry the same payload keep only the first for canonicalization, conflicting ones are all
  rejected.
*/
module Duplicates {
  import opened Sequences
  import opened CanonicalJson

  datatype Issue = DuplicateIdentical | DuplicateConflict | Other(code: string)

  datatype Candidate = Candidate(
    symbol: string,
    date: int,
    openPrice: real,
    highPrice: real,
    lowPrice: real,
    closePrice: real,
    volume: real,
    payloadHash: string)

  datatype RowResult = RowResult(
    payload: Json,
    candidate: Option<Candidate>,
    errors: seq<Issue>,
    warnings: seq<Issue>,
    included: bool)

  type RowKey = (string, int)

  predicate Accepted(r: RowResult) { r.candidate.Some? && r.errors == [] }

  function KeyOf(r: RowResult): RowKey
    requires Accepted(r)
  {
    (r.candidate.value.symbol, r.candidate.value.date)
  }

  function HashOf(r: RowResult): string
    requires Accepted(r)
  {
    r.candidate.value.payloadHash
  }

  // ---- the policy, row by row --------------------------------------------------------------------

  predicate Peer(rows: seq<RowResult>, i: nat, j: nat)
    requires i < |rows|
  {
    j < |rows| && Accepted(rows[i]) && Accepted(rows[j]) && KeyOf(rows[i]) == KeyOf(rows[j])
  }

  ghost predicate Alone(rows: seq<RowResult>, i: nat)
    requires i < |rows|
  {
    forall j :: 0 <= j < |rows| && Peer(rows, i, j) ==> j == i
  }

  /** Every row of the same symbol and date carries the same hash. */
  ghost predicate Agreed(rows: seq<RowResult>, i: nat)
    requires i < |rows|
  {
    forall j :: 0 <= j < |rows| && Peer(rows, i, j) ==> HashOf(rows[j]) == HashOf(rows[i])
  }

  ghost predicate First(rows: seq<RowResult>, i: nat)
    requires i < |rows|
  {
    forall j :: 0 <= j < |rows| && Peer(rows, i, j) ==> i <= j
  }

  function Identical(r: RowResult, first: bool): RowResult {
    r.(warnings := r.warnings + [DuplicateIdentical], included := first)
  }

  function Conflicting(r: RowResult): RowResult {
    r.(errors := r.errors + [DuplicateConflict], included := false)
  }

  ghost function Judged(rows: seq<RowResult>, i: nat): RowResult
    requires i < |rows|
  {
    if !Accepted(rows[i]) || Alone(rows, i) then rows[i]
    else if Agreed(rows, i) then Identical(rows[i], First(rows, i))
    else Conflicting(rows[i])
  }

  // ---- grouping ----------------------------------------------------------------------------------

  predicate InGroup(rows: seq<RowResult>, key: RowKey, j: nat) {
    j < |rows| && Accepted(rows[j]) && KeyOf(rows[j]) == key
  }

  /** Positions of the accepted rows of a key among the first `n`, in order. */
  function Group(rows: seq<RowResult>, key: RowKey, n: nat): seq<nat>
    requires n <= |rows|
  {
    if n == 0 then []
    else if InGroup(rows, key, n - 1) then Group(rows, key, n - 1) + [n - 1]
    else Group(rows, key, n - 1)
  }

  lemma {:induction false} GroupMembers(rows: seq<RowResult>, key: RowKey, n: nat)
    requires n <= |rows|
    ensures forall j: nat :: j in Group(rows, key, n) <==> j < n && InGroup(rows, key, j)
    ensures forall a, b :: 0 <= a < b < |Group(rows, key, n)| ==> Group(rows, key, n)[a] < Group(rows, key, n)[b]
  {
    if n > 0 {
      GroupMembers(rows, key, n - 1);
      var g := Group(rows, key, n - 1);
      assert forall a :: 0 <= a < |g| ==> g[a] in g;
    }
  }

  lemma {:induction false} NoGroup(rows: seq<RowResult>, key: RowKey, n: nat)
    requires n <= |rows| && forall j :: 0 <= j < n ==> !InGroup(rows, key, j)
    ensures Group(rows, key, n) == []
  {
    if n > 0 { NoGroup(rows, key, n - 1); }
  }

  /** What the policy makes of the row at position `i` of its group. */
  function GroupVerdict(r: RowResult, size: nat, hashes: set<string>, offset: nat): RowResult {
    if size < 2 then r
    else if |hashes| == 1 then Identical(r, offset == 0)
    else Conflicting(r)
  }

  function Hashes(rows: seq<RowResult>, g: seq<nat>): set<string>
    requires forall j :: j in g ==> j < |rows| && Accepted(rows[j])
  {
    set j | j in g :: HashOf(rows[j])
  }

  lemma SingletonHashes(hs: set<string>, h: string)
    requires h in hs
    ensures |hs| == 1 <==> hs == {h}
  {
    if |hs| == 1 { assert |hs - {h}| == 0; }
  }

  lemma VerdictIsJudged(rows: seq<RowResult>, g: seq<nat>, a: nat)
    requires a < |g| && g[a] < |rows| && Accepted(rows[g[a]]) && g == Group(rows, KeyOf(rows[g[a]]), |rows|)
    ensures forall j :: j in g ==> j < |rows| && Accepted(rows[j])
    ensures GroupVerdict(rows[g[a]], |g|, Hashes(rows, g), a) == Judged(rows, g[a])
  {
    var i := g[a];
    GroupMembers(rows, KeyOf(rows[i]), |rows|);
    assert forall j: nat :: j in g <==> Peer(rows, i, j);
    assert forall b :: 0 <= b < |g| ==> g[b] in g;
    AloneIff(rows, g, a);
    AgreedIff(rows, g, a);
    FirstIff(rows, g, a);
  }

  ghost predicate PeersAre(rows: seq<RowResult>, g: seq<nat>, a: nat) {
    && a < |g| && g[a] < |rows| && Accepted(rows[g[a]])
    && (forall j: nat :: j in g <==> Peer(rows, g[a], j))
    && (forall b, c :: 0 <= b < c < |g| ==> g[b] < g[c])
  }

  lemma AloneIff(rows: seq<RowResult>, g: seq<nat>, a: nat)
    requires PeersAre(rows, g, a)
    ensures Alone(rows, g[a]) <==> |g| < 2
  {
    if |g| >= 2 {
      var b := if a == 0 then 1 else 0;
      assert g[b] in g && g[b] != g[a];
    } else {
      forall j | 0 <= j < |rows| && Peer(rows, g[a], j) ensures j == g[a] { var b := IndexIn(g, j); }
    }
  }

  lemma AgreedIff(rows: seq<RowResult>, g: seq<nat>, a: nat)
    requires PeersAre(rows, g, a)
    ensures Agreed(rows, g[a]) <==> |Hashes(rows, g)| == 1
  {
    var h := HashOf(rows[g[a]]);
    assert g[a] in g;
    assert h in Hashes(rows, g);
    SingletonHashes(Hashes(rows, g), h);
    if Agreed(rows, g[a]) {
      assert Hashes(rows, g) == {h};
    } else {
      var j :| 0 <= j < |rows| && Peer(rows, g[a], j) && HashOf(rows[j]) != h;
      assert j in g && HashOf(rows[j]) in Hashes(rows, g);
    }
  }

  lemma FirstIff(rows: seq<RowResult>, g: seq<nat>, a: nat)
    requires PeersAre(rows, g, a)
    ensures First(rows, g[a]) <==> a == 0
  {
    if a == 0 {
      forall j | 0 <= j < |rows| && Peer(rows, g[a], j) ensures g[a] <= j { var b := IndexIn(g, j); }
    } else {
      assert g[0] in g && g[0] < g[a];
    }
  }

  // ---- the pass ----------------------------------------------------------------------------------

  ghost predicate Grouped(rows: seq<RowResult>, groups: map<RowKey, seq<nat>>, order: seq<RowKey>, n: nat)
    requires n <= |rows|
  {
    && (forall key :: key in groups <==> key in order)
    && (forall key :: key in order ==> groups[key] == Group(rows, key, n))
    && (forall j :: 0 <= j < n && Accepted(rows[j]) ==> KeyOf(rows[j]) in order)
    && NoDup(order)
  }

  lemma GroupSkips(rows: seq<RowResult>, groups: map<RowKey, seq<nat>>, order: seq<RowKey>, n: nat)
    requires n < |rows| && Grouped(rows, groups, order, n) && !Accepted(rows[n])
    ensures Grouped(rows, groups, order, n + 1)
  {
  }

  lemma GroupAdds(rows: seq<RowResult>, groups: map<RowKey, seq<nat>>, order: seq<RowKey>, n: nat)
    requires n < |rows| && Grouped(rows, groups, order, n) && Accepted(rows[n])
    ensures var key := KeyOf(rows[n]);
            key in groups ==> Grouped(rows, groups[key := groups[key] + [n]], order, n + 1)
    ensures var key := KeyOf(rows[n]);
            key !in groups ==> Grouped(rows, groups[key := [n]], order + [key], n + 1)
  {
    var key := KeyOf(rows[n]);
    if key !in groups { NoGroup(rows, key, n); }
  }

  method GroupRows(rows: seq<RowResult>) returns (groups: map<RowKey, seq<nat>>, order: seq<RowKey>)
    ensures Grouped(rows, groups, order, |rows|)
  {
    groups, order := map[], [];
    for n := 0 to |rows|
      invariant Grouped(rows, groups, order, n)
    {
      if Accepted(rows[n]) {
        GroupAdds(rows, groups, order, n);
        var key := KeyOf(rows[n]);
        if key in groups {
          groups := groups[key := groups[key] + [n]];
        } else {
          groups := groups[key := [n]];
          order := order + [key];
        }
      } else {
        GroupSkips(rows, groups, order, n);
      }
    }
  }

  ghost predicate Increases(g: seq<nat>, n: nat) {
    (forall a, b :: 0 <= a < b < |g| ==> g[a] < g[b]) && (forall a :: 0 <= a < |g| ==> g[a] < n)
  }

  method GroupHashes(rows: seq<RowResult>, g: seq<nat>) returns (hashes: set<string>)
    requires forall j :: j in g ==> j < |rows| && Accepted(rows[j])
    ensures hashes == Hashes(rows, g)
  {
    hashes := {};
    for a := 0 to |g|
      invariant forall j :: j in g[..a] ==> j in g
      invariant hashes == Hashes(rows, g[..a])
    {
      assert g[..a + 1] == g[..a] + [g[a]] && g[a] in g;
      hashes := hashes + {HashOf(rows[g[a]])};
    }
    assert g[..|g|] == g;
  }

  /** Rows after the first `a` of a group were replaced by their verdicts. */
  ghost predicate Marked(rows: seq<RowResult>, out: seq<RowResult>, g: seq<nat>, a: nat,
      verdict: (RowResult, nat) -> RowResult)
    requires Increases(g, |rows|)
  {
    && |out| == |rows|
    && (forall b :: 0 <= b < |g| ==> out[g[b]] == if b < a then verdict(rows[g[b]], b) else rows[g[b]])
    && (forall i :: 0 <= i < |rows| && i !in g ==> out[i] == rows[i])
  }

  lemma MarkOne(rows: seq<RowResult>, out: seq<RowResult>, g: seq<nat>, a: nat, verdict: (RowResult, nat) -> RowResult)
    requires Increases(g, |rows|) && a < |g| && Marked(rows, out, g, a, verdict)
    ensures out[g[a]] == rows[g[a]]
    ensures Marked(rows, out[g[a] := verdict(rows[g[a]], a)], g, a + 1, verdict)
  {
    var next := out[g[a] := verdict(rows[g[a]], a)];
    forall b | 0 <= b < |g| ensures next[g[b]] == if b < a + 1 then verdict(rows[g[b]], b) else rows[g[b]] {
      if b != a { assert g[b] != g[a]; }
    }
    assert g[a] in g;
  }

  function VerdictOf(size: nat, hashes: set<string>): (RowResult, nat) -> RowResult {
    (r: RowResult, offset: nat) => GroupVerdict(r, size, hashes, offset)
  }

  /** Decides one group in place. */
  method DecideGroup(rows: seq<RowResult>, g: seq<nat>) returns (out: seq<RowResult>)
    requires Increases(g, |rows|) && forall j :: j in g ==> j < |rows| && Accepted(rows[j])
    ensures Marked(rows, out, g, |g|, VerdictOf(|g|, Hashes(rows, g)))
  {
    out := rows;
    if |g| < 2 { return; }
    var hashes := GroupHashes(rows, g);
    for a := 0 to |g|
      invariant Marked(rows, out, g, a, VerdictOf(|g|, hashes))
    {
      MarkOne(rows, out, g, a, VerdictOf(|g|, hashes));
      out := out[g[a] := if |hashes| == 1 then Identical(out[g[a]], a == 0) else Conflicting(out[g[a]])];
    }
  }

  /** Rows whose key is among the first `k` decided, the others as they were. */
  ghost predicate DecidedTo(rows: seq<RowResult>, out: seq<RowResult>, keys: seq<RowKey>) {
    && |out| == |rows|
    && (forall i :: 0 <= i < |rows| ==>
          out[i] == if Accepted(rows[i]) && KeyOf(rows[i]) in keys then Judged(rows, i) else rows[i])
  }

  lemma GroupIncreases(rows: seq<RowResult>, key: RowKey)
    ensures var g := Group(rows, key, |rows|);
            Increases(g, |rows|) && forall j :: j in g ==> j < |rows| && Accepted(rows[j]) && KeyOf(rows[j]) == key
  {
    GroupMembers(rows, key, |rows|);
    var g := Group(rows, key, |rows|);
    assert forall a :: 0 <= a < |g| ==> g[a] in g;
  }

  /** A group not yet decided still holds the original rows. */
  lemma GroupUntouched(rows: seq<RowResult>, out: seq<RowResult>, keys: seq<RowKey>, key: RowKey)
    requires DecidedTo(rows, out, keys) && key !in keys
    ensures forall j :: j in Group(rows, key, |rows|) ==> 0 <= j < |rows| && out[j] == rows[j]
  {
    GroupIncreases(rows, key);
  }

  lemma GroupDecided(rows: seq<RowResult>, out: seq<RowResult>, next: seq<RowResult>, keys: seq<RowKey>, key: RowKey)
    requires DecidedTo(rows, out, keys) && key !in keys && Increases(Group(rows, key, |rows|), |out|)
    requires forall j :: j in Group(rows, key, |rows|) ==> j < |rows| && Accepted(rows[j])
    requires Marked(out, next, Group(rows, key, |rows|), |Group(rows, key, |rows|)|,
                    VerdictOf(|Group(rows, key, |rows|)|, Hashes(rows, Group(rows, key, |rows|))))
    ensures DecidedTo(rows, next, keys + [key])
  {
    var g := Group(rows, key, |rows|);
    GroupMembers(rows, key, |rows|);
    GroupUntouched(rows, out, keys, key);
    forall i | 0 <= i < |rows|
      ensures next[i] == if Accepted(rows[i]) && KeyOf(rows[i]) in keys + [key] then Judged(rows, i) else rows[i]
    {
      if InGroup(rows, key, i) {
        var a := IndexIn(g, i);
        assert g[a] in g;
        VerdictIsJudged(rows, g, a);
      } else {
        assert i !in g;
      }
    }
  }

  /** `_apply_duplicate_policy`: every row ends as the policy judges it. */
  method ApplyDuplicatePolicy(rows: seq<RowResult>) returns (out: seq<RowResult>)
    ensures |out| == |rows|
    ensures forall i :: 0 <= i < |rows| ==> out[i] == Judged(rows, i)
  {
    var groups, order := GroupRows(rows);
    out := rows;
    for k := 0 to |order|
      invariant DecidedTo(rows, out, order[..k])
    {
      var key := order[k];
      assert key in order && key !in order[..k];
      GroupIncreases(rows, key);
      GroupUntouched(rows, out, order[..k], key);
      assert Hashes(rows, groups[key]) == Hashes(out, groups[key]);
      var next := DecideGroup(out, groups[key]);
      GroupDecided(rows, out, next, order[..k], key);
      assert order[..k + 1] == order[..k] + [key];
      out := next;
    }
    assert order[..|order|] == order;
  }

  // ---- what the policy guarantees ----------------------------------------------------------------

  /** Rows as validation leaves them: a candidate exactly when there is no error, then included. */
  ghost predicate Fresh(rows: seq<RowResult>) {
    forall i :: 0 <= i < |rows| ==>
      && (rows[i].candidate.Some? ==> rows[i].errors == [])
      && (rows[i].included <==> rows[i].candidate.Some?)
  }

  /** A row is canonicalized exactly when it is the first of its symbol and date and all of them agree. */
  lemma IncludedIff(rows: seq<RowResult>, i: nat)
    requires Fresh(rows) && i < |rows|
    ensures Judged(rows, i).included <==> Accepted(rows[i]) && Agreed(rows, i) && First(rows, i)
    ensures Accepted(Judged(rows, i)) <==> Accepted(rows[i]) && Agreed(rows, i)
  {
    if Accepted(rows[i]) && !Alone(rows, i) && !Agreed(rows, i) {
      assert Judged(rows, i).errors[|rows[i].errors|] == DuplicateConflict;
    }
  }

  /**
    What the policy marks: payload and candidate stay; a row of an agreeing group of several gets
    the identical-duplicate warning, a row of a disagreeing group the conflict error, and no row
    anything else.
  */
  lemma MarksTell(rows: seq<RowResult>, i: nat)
    requires i < |rows|
    ensures var r := Judged(rows, i);
            && r.payload == rows[i].payload && r.candidate == rows[i].candidate
            && r.warnings == rows[i].warnings
                 + (if Accepted(rows[i]) && !Alone(rows, i) && Agreed(rows, i) then [DuplicateIdentical] else [])
            && r.errors == rows[i].errors
                 + (if Accepted(rows[i]) && !Agreed(rows, i) then [DuplicateConflict] else [])
  {
    assert rows[i].warnings + [] == rows[i].warnings && rows[i].errors + [] == rows[i].errors;
    if Accepted(rows[i]) && Alone(rows, i) { assert Agreed(rows, i); }
  }

  /** At most one row per symbol and date is canonicalized. */
  lemma IncludedOncePerKey(rows: seq<RowResult>, i: nat, j: nat)
    requires Fresh(rows) && i < |rows| && j < |rows|
    requires Judged(rows, i).included && Judged(rows, j).included
    ensures Accepted(rows[i]) && Accepted(rows[j])
    ensures KeyOf(rows[i]) == KeyOf(rows[j]) ==> i == j
  {
    IncludedIff(rows, i);
    IncludedIff(rows, j);
    if KeyOf(rows[i]) == KeyOf(rows[j]) {
      assert Peer(rows, i, j) && Peer(rows, j, i);
    }
  }

  /** Some row of an agreeing group is canonicalized: the first one. */
  lemma {:induction false} AgreeingGroupKeepsOne(rows: seq<RowResult>, i: nat) returns (first: nat)
    requires Fresh(rows) && i < |rows| && Accepted(rows[i]) && Agreed(rows, i)
    ensures first <= i && Peer(rows, i, first) && Judged(rows, first).included
    decreases i
  {
    if First(rows, i) {
      first := i;
      IncludedIff(rows, i);
    } else {
      var j :| 0 <= j < |rows| && Peer(rows, i, j) && j < i;
      PeersAgree(rows, i, j);
      first := AgreeingGroupKeepsOne(rows, j);
    }
  }

  lemma PeersAgree(rows: seq<RowResult>, i: nat, j: nat)
    requires i < |rows| && j < |rows| && Peer(rows, i, j) && Agreed(rows, i)
    ensures Agreed(rows, j)
  {
    forall k | 0 <= k < |rows| && Peer(rows, j, k) ensures HashOf(rows[k]) == HashOf(rows[j]) {
      assert Peer(rows, i, k);
    }
  }

  /** Candidates carry the digest of their canonical payload text. */
  ghost predicate Hashed(rows: seq<RowResult>, digest: string -> string) {
    forall i :: 0 <= i < |rows| && rows[i].candidate.Some? ==>
      rows[i].candidate.value.payloadHash == digest(Text(rows[i].payload)) && WellFormed(rows[i].payload)
  }

  ghost predicate CollisionFree(rows: seq<RowResult>, digest: string -> string) {
    forall i, j :: 0 <= i < |rows| && 0 <= j < |rows| ==>
      (digest(Text(rows[i].payload)) == digest(Text(rows[j].payload)) ==>
         Text(rows[i].payload) == Text(rows[j].payload))
  }

  /** All rows of the same symbol and date carry row `i`'s payload, under one reading of numbers. */
  ghost predicate PeersAlike(rows: seq<RowResult>, i: nat, r: Reading)
    requires i < |rows|
  {
    forall j :: 0 <= j < |rows| && Peer(rows, i, j) ==> Alike(r, rows[j].payload, rows[i].payload)
  }

  ghost predicate PeersExact(rows: seq<RowResult>, i: nat)
    requires i < |rows|
  {
    forall j :: 0 <= j < |rows| && Peer(rows, i, j) ==> Exact(rows[j].payload)
  }

  /**
    Unless the digest collides, rows agree exactly when their payloads are alike as printed; and
    when no payload has digits beyond the printer's precision, exactly when they are the same JSON
    value.
  */
  lemma AgreedIffSamePayload(rows: seq<RowResult>, i: nat, digest: string -> string)
    requires i < |rows| && Accepted(rows[i]) && Hashed(rows, digest) && CollisionFree(rows, digest)
    ensures Agreed(rows, i) <==> PeersAlike(rows, i, AsPrinted)
    ensures PeersExact(rows, i) ==> (Agreed(rows, i) <==> PeersAlike(rows, i, AsRead))
  {
    forall j | 0 <= j < |rows| && Peer(rows, i, j)
      ensures HashOf(rows[j]) == HashOf(rows[i]) <==> Alike(AsPrinted, rows[j].payload, rows[i].payload)
      ensures PeersExact(rows, i) ==>
                (HashOf(rows[j]) == HashOf(rows[i]) <==> Alike(AsRead, rows[j].payload, rows[i].payload))
    {
      assert Peer(rows, i, i);
      TextIffAlike(rows[j].payload, rows[i].payload);
      TextIffSame(rows[j].payload, rows[i].payload);
    }
  }
}
