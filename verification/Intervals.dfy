/**
  Half-open validity intervals and contiguous chains of them: each link ends where the next one
  starts, starts increase strictly, and only the last link is open.
*/
module Intervals {
  import opened Sequences

  datatype Span = Span(from: int, to: Option<int>)

  predicate Covers(s: Span, t: int) {
    s.from <= t && (s.to.None? || t < s.to.value)
  }

  predicate Overlap(a: Span, b: Span) {
    (b.to.None? || a.from < b.to.value) && (a.to.None? || b.from < a.to.value)
  }

  /** The intervals of a list of rows. */
  function SpansBy<T>(span: T -> Span, rows: seq<T>): (r: seq<Span>)
    ensures |r| == |rows| && forall k :: 0 <= k < |rows| ==> r[k] == span(rows[k])
  {
    seq(|rows|, k requires 0 <= k < |rows| => span(rows[k]))
  }

  ghost predicate Chain(c: seq<Span>) {
    && (forall i, j :: 0 <= i && j == i + 1 < |c| ==> c[i].to == Some(c[j].from) && c[i].from < c[j].from)
    && (c != [] ==> c[|c| - 1].to.None?)
  }

  lemma ChainFront(c: seq<Span>)
    requires Chain(c) && |c| > 1
    ensures Chain(c[1..]) && c[0].to == Some(c[1].from)
  {
  }

  lemma {:induction false} ChainStarts(c: seq<Span>, i: nat)
    requires Chain(c) && i < |c|
    ensures c[0].from <= c[i].from
    ensures i < |c| - 1 ==> c[i].to.Some? && c[i].to.value <= c[|c| - 1].from
  {
    if i > 0 {
      ChainFront(c);
      ChainStarts(c[1..], i - 1);
    } else if |c| > 1 {
      ChainFront(c);
      ChainStarts(c[1..], |c| - 2);
    }
  }

  /** Only the last link of a chain is open. */
  lemma OpenIsLast(c: seq<Span>, i: nat)
    requires Chain(c) && i < |c| && c[i].to.None?
    ensures i == |c| - 1
  {
    ChainStarts(c, i);
  }

  /** A chain has exactly one link covering any instant from its start on, and none before. */
  lemma {:induction false} ChainCovers(c: seq<Span>, t: int)
    requires Chain(c) && c != []
    ensures t < c[0].from ==> forall i :: 0 <= i < |c| ==> !Covers(c[i], t)
    ensures c[0].from <= t ==> exists i :: 0 <= i < |c| && Covers(c[i], t)
    ensures forall i, j :: 0 <= i < j < |c| ==> !(Covers(c[i], t) && Covers(c[j], t))
  {
    if |c| > 1 {
      ChainFront(c);
      var rest := c[1..];
      ChainCovers(rest, t);
      if c[1].from <= t {
        var i :| 0 <= i < |rest| && Covers(rest[i], t);
        assert Covers(c[i + 1], t);
      } else if c[0].from <= t {
        assert Covers(c[0], t);
      }
      forall i, j | 0 <= i < j < |c| ensures !(Covers(c[i], t) && Covers(c[j], t)) {
        assert c[j] == rest[j - 1];
        if i > 0 { assert c[i] == rest[i - 1]; }
      }
      forall i | 0 <= i < |c| && t < c[0].from ensures !Covers(c[i], t) { ChainStarts(c, i); }
    } else if c[0].from <= t {
      assert Covers(c[0], t);
    }
  }

  /** Closing the open end at `t` and appending a link from `t` on. */
  function Extend(c: seq<Span>, t: int): seq<Span>
    requires c != []
  {
    c[..|c| - 1] + [c[|c| - 1].(to := Some(t)), Span(t, None)]
  }

  lemma ExtendKeepsChain(c: seq<Span>, t: int)
    requires Chain(c) && c != [] && c[|c| - 1].from < t
    ensures Chain(Extend(c, t))
    ensures forall i :: 0 <= i < |c| ==> Extend(c, t)[i].from == c[i].from
  {
    var e := Extend(c, t);
    forall i, j | 0 <= i && j == i + 1 < |e| ensures e[i].to == Some(e[j].from) && e[i].from < e[j].from {
      if j < |c| { assert c[i].to == Some(c[j].from); }
    }
  }
}
