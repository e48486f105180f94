/**
  Filtering, stable sorting and ascending enumeration of finite sets.

  `sorted(...)` in the repository is a stable sort; `Sort` below is a stable insertion sort
  over an explicit "may come before" relation.  Filters take named, curried predicates so that
  equal filters are equal terms.
*/
module Sequences {

  datatype Option<+T> = None | Some(value: T)

  datatype Result<+T> = Ok(value: T) | Err(error: string)

  // ---- filtering -------------------------------------------------------------------------

  function Filter<T>(p: T -> bool, s: seq<T>): seq<T> {
    if s == [] then []
    else if p(s[0]) then [s[0]] + Filter(p, s[1..])
    else Filter(p, s[1..])
  }

  lemma {:induction false} FilterMembers<T(!new)>(p: T -> bool, s: seq<T>)
    ensures forall x :: x in Filter(p, s) <==> x in s && p(x)
  {
    if s != [] { FilterMembers(p, s[1..]); }
  }

  lemma FilterCons<T(!new)>(p: T -> bool, x: T, s: seq<T>)
    ensures Filter(p, [x] + s) == (if p(x) then [x] + Filter(p, s) else Filter(p, s))
  {
    assert ([x] + s)[1..] == s;
  }

  lemma {:induction false} FilterConcat<T(!new)>(p: T -> bool, a: seq<T>, b: seq<T>)
    ensures Filter(p, a + b) == Filter(p, a) + Filter(p, b)
  {
    if a == [] {
      assert a + b == b;
    } else {
      assert (a + b)[1..] == a[1..] + b;
      FilterConcat(p, a[1..], b);
    }
  }

  lemma FilterSnoc<T(!new)>(p: T -> bool, a: seq<T>, x: T)
    ensures Filter(p, a + [x]) == if p(x) then Filter(p, a) + [x] else Filter(p, a)
  {
    FilterConcat(p, a, [x]);
    FilterCons(p, x, []);
    assert [x] + [] == [x];
  }

  lemma {:induction false} FilterNone<T(!new)>(p: T -> bool, s: seq<T>)
    requires forall x :: x in s ==> !p(x)
    ensures Filter(p, s) == []
  {
    if s != [] { FilterNone(p, s[1..]); }
  }

  lemma {:induction false} FilterAll<T(!new)>(p: T -> bool, s: seq<T>)
    requires forall x :: x in s ==> p(x)
    ensures Filter(p, s) == s
  {
    if s != [] { FilterAll(p, s[1..]); }
  }

  lemma {:induction false} FilterSame<T(!new)>(p: T -> bool, q: T -> bool, s: seq<T>)
    requires forall x :: x in s ==> p(x) == q(x)
    ensures Filter(p, s) == Filter(q, s)
  {
    if s != [] { FilterSame(p, q, s[1..]); }
  }

  lemma {:induction false} FilterTwice<T(!new)>(p: T -> bool, q: T -> bool, s: seq<T>)
    requires forall x :: x in s && p(x) ==> q(x)
    ensures Filter(p, Filter(q, s)) == Filter(p, s)
  {
    if s != [] {
      FilterTwice(p, q, s[1..]);
      FilterCons(p, s[0], Filter(q, s[1..]));
    }
  }

  lemma {:induction false} FilterSwap<T(!new)>(p: T -> bool, q: T -> bool, s: seq<T>)
    ensures Filter(p, Filter(q, s)) == Filter(q, Filter(p, s))
  {
    if s != [] {
      FilterSwap(p, q, s[1..]);
      FilterCons(p, s[0], Filter(q, s[1..]));
      FilterCons(q, s[0], Filter(p, s[1..]));
    }
  }

  /** At most one element passes a filter no two of them pass together. */
  lemma {:induction false} FilterOne<T(!new)>(p: T -> bool, s: seq<T>)
    requires forall i, j :: 0 <= i < j < |s| ==> !(p(s[i]) && p(s[j]))
    ensures |Filter(p, s)| <= 1
    ensures (exists i :: 0 <= i < |s| && p(s[i])) ==> |Filter(p, s)| == 1
  {
    if s != [] {
      FilterOne(p, s[1..]);
      if p(s[0]) {
        forall x | x in s[1..] ensures !p(x) {
          var j := IndexIn(s[1..], x);
          assert s[j + 1] == x;
        }
        FilterNone(p, s[1..]);
      } else if exists i :: 0 <= i < |s| && p(s[i]) {
        var i :| 0 <= i < |s| && p(s[i]);
        assert s[1..][i - 1] == s[i];
      }
    }
  }

  // ---- stable sorting --------------------------------------------------------------------

  ghost predicate TotalPreorder<T(!new)>(le: (T, T) -> bool) {
    && (forall x, y :: le(x, y) || le(y, x))
    && (forall x, y, z :: le(x, y) && le(y, z) ==> le(x, z))
  }

  ghost predicate SortedBy<T>(le: (T, T) -> bool, s: seq<T>) {
    forall i, j :: 0 <= i < j < |s| ==> le(s[i], s[j])
  }

  function Insert<T>(le: (T, T) -> bool, x: T, s: seq<T>): (r: seq<T>) {
    if s == [] then [x]
    else if le(x, s[0]) then [x] + s
    else [s[0]] + Insert(le, x, s[1..])
  }

  function Sort<T>(le: (T, T) -> bool, s: seq<T>): (r: seq<T>) {
    if s == [] then [] else Insert(le, s[0], Sort(le, s[1..]))
  }

  lemma {:induction false} InsertPermutes<T>(le: (T, T) -> bool, x: T, s: seq<T>)
    ensures multiset(Insert(le, x, s)) == multiset{x} + multiset(s)
  {
    if s != [] && !le(x, s[0]) {
      InsertPermutes(le, x, s[1..]);
      assert s == [s[0]] + s[1..];
    }
  }

  /** Sorting is a permutation. */
  lemma {:induction false} SortPermutes<T>(le: (T, T) -> bool, s: seq<T>)
    ensures multiset(Sort(le, s)) == multiset(s)
  {
    if s != [] {
      SortPermutes(le, s[1..]);
      InsertPermutes(le, s[0], Sort(le, s[1..]));
      assert s == [s[0]] + s[1..];
    }
  }

  lemma SortMembers<T(!new)>(le: (T, T) -> bool, s: seq<T>)
    ensures forall x :: x in Sort(le, s) <==> x in s
    ensures |Sort(le, s)| == |s|
  {
    SortPermutes(le, s);
    SameElements(Sort(le, s), s);
  }

  lemma SameElements<T(!new)>(a: seq<T>, b: seq<T>)
    requires multiset(a) == multiset(b)
    ensures forall x :: x in a <==> x in b
    ensures |a| == |b|
  {
    assert forall x :: x in a <==> x in multiset(a);
    assert forall x :: x in b <==> x in multiset(b);
    assert |a| == |multiset(a)| && |b| == |multiset(b)|;
  }

  lemma {:induction false} InsertSorted<T(!new)>(le: (T, T) -> bool, x: T, s: seq<T>)
    requires TotalPreorder(le) && SortedBy(le, s)
    ensures SortedBy(le, Insert(le, x, s))
  {
    if s != [] && !le(x, s[0]) {
      InsertSorted(le, x, s[1..]);
      var r := Insert(le, x, s[1..]);
      InsertPermutes(le, x, s[1..]);
      SameElements(r, [x] + s[1..]);
      assert forall y :: y in r ==> y == x || y in s[1..];
      forall j | 0 <= j < |r| ensures le(s[0], r[j]) {
        assert r[j] in r;
        if r[j] != x {
          var k :| 0 <= k < |s[1..]| && s[1..][k] == r[j];
          assert s[k + 1] == r[j];
        }
      }
    }
  }

  lemma {:induction false} SortSorted<T(!new)>(le: (T, T) -> bool, s: seq<T>)
    requires TotalPreorder(le)
    ensures SortedBy(le, Sort(le, s))
  {
    if s != [] {
      SortSorted(le, s[1..]);
      InsertSorted(le, s[0], Sort(le, s[1..]));
    }
  }

  /** Everything from the insertion point of `x` on may follow `x`. */
  ghost predicate PlaceOf<T>(le: (T, T) -> bool, x: T, s: seq<T>) {
    forall i, j :: 0 <= i < j < |s| && le(x, s[i]) ==> le(x, s[j])
  }

  lemma InsertCons<T>(le: (T, T) -> bool, x: T, y: T, s: seq<T>)
    ensures Insert(le, x, [y] + s) == if le(x, y) then [x, y] + s else [y] + Insert(le, x, s)
  {
    assert ([y] + s)[1..] == s;
  }

  lemma {:induction false} FilterInsert<T(!new)>(le: (T, T) -> bool, p: T -> bool, x: T, s: seq<T>)
    requires PlaceOf(le, x, s)
    ensures Filter(p, Insert(le, x, s)) == if p(x) then Insert(le, x, Filter(p, s)) else Filter(p, s)
  {
    if s == [] {
      FilterCons(p, x, []);
    } else if le(x, s[0]) {
      FilterCons(p, x, s);
      FilterMembers(p, s);
      assert Filter(p, s) != [] ==> Filter(p, s)[0] in Filter(p, s);
    } else {
      FilterCons(p, s[0], Insert(le, x, s[1..]));
      FilterInsert(le, p, x, s[1..]);
      InsertCons(le, x, s[0], Filter(p, s[1..]));
    }
  }

  lemma SortedPlace<T(!new)>(le: (T, T) -> bool, x: T, s: seq<T>)
    requires TotalPreorder(le)
    ensures PlaceOf(le, x, Sort(le, s))
  {
    SortSorted(le, s);
  }

  /** Filtering commutes with stable sorting. */
  lemma {:induction false} FilterSort<T(!new)>(le: (T, T) -> bool, p: T -> bool, s: seq<T>)
    requires TotalPreorder(le)
    ensures Filter(p, Sort(le, s)) == Sort(le, Filter(p, s))
  {
    if s != [] {
      FilterSort(le, p, s[1..]);
      SortedPlace(le, s[0], s[1..]);
      FilterInsert(le, p, s[0], Sort(le, s[1..]));
      var rest := Filter(p, s[1..]);
      assert ([s[0]] + rest)[1..] == rest;
    }
  }

  // ---- ascending enumeration of a finite set of instants ---------------------------------

  ghost predicate Increasing(s: seq<int>) {
    forall i, j :: 0 <= i < j < |s| ==> s[i] < s[j]
  }

  lemma Inhabited(s: set<int>)
    ensures s == {} || exists y :: y in s
  {
    if forall y :: y !in s { assert s == {}; }
  }

  lemma {:induction false} MinimumExists(s: set<int>)
    requires s != {}
    ensures exists m :: m in s && forall x :: x in s ==> m <= x
  {
    Inhabited(s);
    var y :| y in s;
    var rest := s - {y};
    var least := y;
    if rest != {} {
      MinimumExists(rest);
      var m :| m in rest && forall x :: x in rest ==> m <= x;
      least := if m <= y then m else y;
    }
    assert least in s;
    forall x | x in s ensures least <= x {
      assert x == y || x in rest;
    }
  }

  function Minimum(s: set<int>): (m: int)
    requires s != {}
    ensures m in s && forall x :: x in s ==> m <= x
  {
    MinimumExists(s);
    var m :| m in s && forall x :: x in s ==> m <= x;
    m
  }

  function Ascending(s: set<int>): seq<int> {
    if s == {} then []
    else
      var m := Minimum(s);
      [m] + Ascending(s - {m})
  }

  lemma {:induction false} AscendingLists(s: set<int>)
    ensures Increasing(Ascending(s))
    ensures forall x :: x in Ascending(s) <==> x in s
  {
    if s != {} {
      var m := Minimum(s);
      var rest := Ascending(s - {m});
      AscendingLists(s - {m});
      assert forall i :: 0 <= i < |rest| ==> rest[i] in rest;
    }
  }

  /** A strictly increasing list is determined by its elements. */
  lemma {:induction false} IncreasingUnique(a: seq<int>, b: seq<int>)
    requires Increasing(a) && Increasing(b)
    requires forall x :: x in a <==> x in b
    ensures a == b
  {
    assert b != [] ==> b[0] in b;
    if a != [] {
      assert a[0] in a;
      assert b != [];
      assert b[0] in b;
      assert forall i :: 0 <= i < |a| ==> a[i] in a;
      assert forall i :: 0 <= i < |b| ==> b[i] in b;
      assert a[0] == b[0] by {
        var i :| 0 <= i < |b| && b[i] == a[0];
        var j :| 0 <= j < |a| && a[j] == b[0];
      }
      forall x ensures x in a[1..] <==> x in b[1..] {
        assert x in a <==> x == a[0] || x in a[1..];
        assert x in b <==> x == b[0] || x in b[1..];
        assert a[0] !in a[1..];
        assert b[0] !in b[1..];
      }
      IncreasingUnique(a[1..], b[1..]);
    }
  }

  lemma {:induction false} FilterIncreasing(p: int -> bool, s: seq<int>)
    requires Increasing(s)
    ensures Increasing(Filter(p, s))
  {
    if s != [] {
      FilterIncreasing(p, s[1..]);
      FilterMembers(p, s[1..]);
      var r := Filter(p, s[1..]);
      assert forall i :: 0 <= i < |r| ==> r[i] in r;
    }
  }

  lemma FilterAscending(p: int -> bool, s: set<int>, t: set<int>)
    requires forall x :: x in t <==> x in s && p(x)
    ensures Filter(p, Ascending(s)) == Ascending(t)
  {
    AscendingLists(s);
    AscendingLists(t);
    FilterMembers(p, Ascending(s));
    FilterIncreasing(p, Ascending(s));
    IncreasingUnique(Filter(p, Ascending(s)), Ascending(t));
  }

  lemma IndexIn<T>(s: seq<T>, x: T) returns (i: nat)
    requires x in s
    ensures i < |s| && s[i] == x
  {
    i :| 0 <= i < |s| && s[i] == x;
  }

  // ---- lists without repetition ----------------------------------------------------------

  ghost predicate NoDup<T>(s: seq<T>) {
    forall i, j :: 0 <= i < j < |s| ==> s[i] != s[j]
  }

  lemma {:induction false} NoDupCounts<T(!new)>(s: seq<T>)
    requires NoDup(s)
    ensures forall x :: multiset(s)[x] <= 1
  {
    if s != [] {
      assert s == [s[0]] + s[1..];
      NoDupCounts(s[1..]);
      assert s[0] !in s[1..];
    }
  }

  lemma {:induction false} CountsNoDup<T(!new)>(s: seq<T>)
    requires forall x :: multiset(s)[x] <= 1
    ensures NoDup(s)
  {
    if s != [] {
      var t := s[1..];
      assert s == [s[0]] + t;
      assert forall x :: multiset(s)[x] == multiset([s[0]])[x] + multiset(t)[x];
      CountsNoDup(t);
      assert multiset(t)[s[0]] == 0;
      assert s[0] !in t;
    }
  }

  lemma SortKeepsNoDup<T(!new)>(le: (T, T) -> bool, s: seq<T>)
    requires NoDup(s)
    ensures NoDup(Sort(le, s))
  {
    SortPermutes(le, s);
    NoDupCounts(s);
    CountsNoDup(Sort(le, s));
  }

  /** A sorted list without ties is determined by its elements. */
  lemma {:induction false} SortedUnique<T(!new)>(le: (T, T) -> bool, a: seq<T>, b: seq<T>)
    requires SortedBy(le, a) && SortedBy(le, b) && NoDup(a) && NoDup(b)
    requires forall x, y :: x in a && y in a && le(x, y) && le(y, x) ==> x == y
    requires forall x :: x in a <==> x in b
    ensures a == b
  {
    assert b != [] ==> b[0] in b;
    if a != [] {
      assert a[0] in a;
      var i := IndexIn(b, a[0]);
      var j := IndexIn(a, b[0]);
      assert a[0] == b[0];
      forall x ensures x in a[1..] <==> x in b[1..] {
        assert x in a <==> x == a[0] || x in a[1..];
        assert x in b <==> x == b[0] || x in b[1..];
        assert a[0] !in a[1..] && b[0] !in b[1..];
      }
      SortedUnique(le, a[1..], b[1..]);
    }
  }

  // ---- text order ------------------------------------------------------------------------

  /** Code-point order on strings, as `sorted` uses it. */
  predicate TextBefore(a: string, b: string) {
    if a == [] then true
    else if b == [] then false
    else if a[0] != b[0] then a[0] < b[0]
    else TextBefore(a[1..], b[1..])
  }

  lemma {:induction false} TextOrder(a: string, b: string, c: string)
    ensures TextBefore(a, b) || TextBefore(b, a)
    ensures TextBefore(a, b) && TextBefore(b, a) ==> a == b
    ensures TextBefore(a, b) && TextBefore(b, c) ==> TextBefore(a, c)
  {
    if a != [] && b != [] {
      TextOrder(a[1..], b[1..], if c != [] then c[1..] else []);
      if a[0] == b[0] { assert a == [a[0]] + a[1..] && b == [b[0]] + b[1..]; }
    }
  }
}
