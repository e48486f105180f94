/**
  What the moving-average crossover means: the target is long exactly when the newest `fast`
  closes average more than the older closes of the slow window, and nothing before that window
  matters.
*/
module Crossover {
  import opened Contracts
  import opened Engine

  function Recent(p: Parameters, bars: seq<Bar>): seq<Bar>
    requires 0 <= p.fast <= |bars|
  {
    bars[|bars| - p.fast..]
  }

  function Older(p: Parameters, bars: seq<Bar>): seq<Bar>
    requires 0 <= p.fast <= p.slow <= |bars|
  {
    bars[|bars| - p.slow..|bars| - p.fast]
  }

  lemma {:induction false} SumConcat(a: seq<Bar>, b: seq<Bar>)
    ensures SumClose(a + b) == SumClose(a) + SumClose(b)
  {
    if a == [] {
      assert a + b == b;
    } else {
      assert (a + b)[1..] == a[1..] + b;
      SumConcat(a[1..], b);
    }
  }

  lemma WindowSplits(p: Parameters, bars: seq<Bar>)
    requires 0 <= p.fast <= p.slow <= |bars|
    ensures SumClose(LastOf(bars, p.slow)) == SumClose(Older(p, bars)) + SumClose(Recent(p, bars))
  {
    assert LastOf(bars, p.slow) == Older(p, bars) + Recent(p, bars);
    SumConcat(Older(p, bars), Recent(p, bars));
  }

  /** `level` added up `n` times. */
  function Repeated(level: real, n: nat): real { if n == 0 then 0.0 else level + Repeated(level, n - 1) }

  lemma {:induction false} RepeatedIsProduct(level: real, n: nat)
    ensures Repeated(level, n) == level * n as real
  {
    if n > 0 {
      RepeatedIsProduct(level, n - 1);
      assert level * (n - 1) as real == level * n as real - level;
    }
  }

  /** f/m > (o + f)/n exactly when f*(n - m) > o*m. */
  lemma MeansCompare(f: real, m: real, o: real, n: real)
    requires 0.0 < m < n
    ensures f / m > (o + f) / n <==> f * (n - m) > o * m
  {
    var a, b := f / m, (o + f) / n;
    assert f == a * m && o + f == b * n;
    assert f * (n - m) - o * m == f * n - (o + f) * m;
    assert f * n - (o + f) * m == (a - b) * (m * n);
    assert m * n > 0.0;
    SignOfProduct(a - b, m * n);
  }

  lemma SignOfProduct(x: real, y: real)
    requires y > 0.0
    ensures x > 0.0 <==> x * y > 0.0
  {
    if x <= 0.0 { assert (-x) * y >= 0.0; }
  }

  lemma MeansCompareRepeated(f: real, m: nat, o: real, n: nat)
    requires 0 < m < n
    ensures f / m as real > (o + f) / n as real <==> Repeated(f, n - m) > Repeated(o, m)
  {
    MeansCompare(f, m as real, o, n as real);
    RepeatedIsProduct(f, n - m);
    RepeatedIsProduct(o, m);
  }

  /** The window is full and its newest closes average above its older ones, at a common denominator. */
  ghost predicate Rises(p: Parameters, bars: seq<Bar>)
    requires 0 <= p.fast <= p.slow
  {
    && p.slow <= |bars|
    && Repeated(SumClose(Recent(p, bars)), p.slow - p.fast) > Repeated(SumClose(Older(p, bars)), p.fast)
  }

  /**
    Long exactly when the newest closes average above the older closes of the window; the reason
    and the text of the target say which case it is.
  */
  lemma LongIff(p: Parameters, bars: seq<Bar>)
    requires ValidParameters(p)
    ensures var i := Strategy(p, bars);
            && (i.target == p.target <==> Rises(p, bars))
            && (i.target == 0.0 <==> !Rises(p, bars))
            && i.text == (if Rises(p, bars) then p.targetText else "0")
            && i.reason == (if |bars| < p.slow then "SMA_WARMUP"
                            else if Rises(p, bars) then "SMA_CROSS_LONG" else "SMA_CROSS_FLAT")
  {
    if p.slow <= |bars| {
      WindowSplits(p, bars);
      MeansCompareRepeated(SumClose(Recent(p, bars)), p.fast, SumClose(Older(p, bars)), p.slow);
    }
  }

  lemma {:induction false} SumAtLeast(bars: seq<Bar>, level: real)
    requires forall b :: b in bars ==> level <= b.close
    ensures Repeated(level, |bars|) <= SumClose(bars)
  {
    if bars != [] {
      assert bars[0] in bars;
      SumAtLeast(bars[1..], level);
    }
  }

  lemma {:induction false} SumAtMost(bars: seq<Bar>, level: real)
    requires forall b :: b in bars ==> b.close <= level
    ensures SumClose(bars) <= Repeated(level, |bars|)
    ensures bars != [] && bars[0].close < level ==> SumClose(bars) < Repeated(level, |bars|)
  {
    if bars != [] {
      assert bars[0] in bars;
      SumAtMost(bars[1..], level);
    }
  }

  /** A rise through a level inside the window goes long. */
  lemma RiseGoesLong(p: Parameters, bars: seq<Bar>, level: real)
    requires ValidParameters(p) && p.slow <= |bars|
    requires forall b :: b in Recent(p, bars) ==> level <= b.close
    requires forall b :: b in Older(p, bars) ==> b.close < level
    ensures Strategy(p, bars).target == p.target
  {
    hide Strategy, SumClose, Repeated;
    LongIff(p, bars);
    var older := Older(p, bars);
    assert older[0] in older;
    RiseCompares(Recent(p, bars), older, level);
  }

  lemma RiseCompares(newer: seq<Bar>, older: seq<Bar>, level: real)
    requires newer != [] && older != [] && older[0].close < level
    requires forall b :: b in newer ==> level <= b.close
    requires forall b :: b in older ==> b.close <= level
    ensures Repeated(SumClose(newer), |older|) > Repeated(SumClose(older), |newer|)
  {
    SumAtLeast(newer, level);
    SumAtMost(older, level);
    RepeatedCompare(SumClose(newer), |newer|, SumClose(older), |older|, level);
  }

  lemma FallCompares(newer: seq<Bar>, older: seq<Bar>, level: real)
    requires newer != [] && older != []
    requires forall b :: b in newer ==> b.close <= level
    requires forall b :: b in older ==> level <= b.close
    ensures Repeated(SumClose(newer), |older|) <= Repeated(SumClose(older), |newer|)
  {
    SumAtMost(newer, level);
    SumAtLeast(older, level);
    RepeatedCompare(SumClose(older), |older|, SumClose(newer), |newer|, level);
  }

  lemma RepeatedCompare(f: real, m: nat, o: real, k: nat, level: real)
    requires 0 < m && 0 < k && Repeated(level, m) <= f && o <= Repeated(level, k)
    ensures Repeated(f, k) >= Repeated(o, m) && (o < Repeated(level, k) ==> Repeated(f, k) > Repeated(o, m))
  {
    RepeatedIsProduct(level, m);
    RepeatedIsProduct(level, k);
    RepeatedIsProduct(f, k);
    RepeatedIsProduct(o, m);
    CrossMultiply(f, m as real, o, k as real, level);
  }

  /** A window whose newest closes do not exceed its older ones is flat. */
  lemma NoRiseStaysFlat(p: Parameters, bars: seq<Bar>, level: real)
    requires ValidParameters(p) && p.slow <= |bars|
    requires forall b :: b in Recent(p, bars) ==> b.close <= level
    requires forall b :: b in Older(p, bars) ==> level <= b.close
    ensures Strategy(p, bars).target == 0.0
  {
    hide SumClose, Repeated, Mean;
    LongIff(p, bars);
    FallCompares(Recent(p, bars), Older(p, bars), level);
  }

  lemma CrossMultiply(f: real, m: real, o: real, k: real, level: real)
    requires 0.0 < m && 0.0 < k && level * m <= f && o <= level * k
    ensures f * k >= o * m && (o < level * k ==> f * k > o * m)
  {
    assert (f - level * m) * k >= 0.0;
    assert (level * k - o) * m >= 0.0;
    if o < level * k { assert (level * k - o) * m > 0.0; }
    assert level * m * k == level * k * m;
  }

  /** Only the last `slow` visible bars matter once there are that many. */
  lemma OnlyWindowMatters(p: Parameters, a: seq<Bar>, b: seq<Bar>)
    requires ValidParameters(p) && p.slow <= |a| && p.slow <= |b|
    requires a[|a| - p.slow..] == b[|b| - p.slow..]
    ensures Strategy(p, a) == Strategy(p, b)
  {
    hide SumClose;
    var x, y := a[|a| - p.slow..], b[|b| - p.slow..];
    assert LastOf(a, p.fast) == x[p.slow - p.fast..] && LastOf(b, p.fast) == y[p.slow - p.fast..];
  }
}
