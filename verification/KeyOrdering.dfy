/**
  Semantic order keys.  Orders due at one instant are attempted in the text order of their keys;
  keys of different decisions differ, but their text order is not always the order of the decisions.
*/
module KeyOrdering {
  import opened Sequences
  import opened Engine
  import opened CanonicalNumber

  lemma DropPrefix(p: string, a: string, b: string)
    requires p + a == p + b
    ensures a == b
  {
    assert (p + a)[|p|..] == a && (p + b)[|p|..] == b;
  }

  function KeyRest(n: nat, i: int, u: string): string {
    Digits(n) + ("|" + (IntegerText(i) + ("|" + u)))
  }

  lemma KeyOf(run: string, n: nat, i: int, u: string)
    ensures OrderKey(run, n, i, u) == (run + "|") + KeyRest(n, i, u)
  {
  }

  predicate IsIntegerChar(c: char) { IsDigit(c) || c == '-' }

  lemma IntegerChars(i: int)
    ensures All(IsIntegerChar, IntegerText(i))
  {
    DigitsRead(Magnitude(i));
  }

  lemma IntegerTextDiffers(i: int, j: int)
    requires IntegerText(i) == IntegerText(j)
    ensures i == j
  {
    DigitsRead(Magnitude(i));
    DigitsRead(Magnitude(j));
    assert IntegerText(i)[0] == '-' <==> i < 0;
    assert IntegerText(j)[0] == '-' <==> j < 0;
    DropPrefix(Sign(i), Digits(Magnitude(i)), Digits(Magnitude(j)));
    DigitsInjective(Magnitude(i), Magnitude(j));
  }

  lemma KeyNumbers(run: string, m: nat, i: int, u: string, n: nat, j: int, v: string)
    requires OrderKey(run, m, i, u) == OrderKey(run, n, j, v)
    ensures m == n && "|" + (IntegerText(i) + ("|" + u)) == "|" + (IntegerText(j) + ("|" + v))
  {
    KeyOf(run, m, i, u);
    KeyOf(run, n, j, v);
    DropPrefix(run + "|", KeyRest(m, i, u), KeyRest(n, j, v));
    DigitsRead(m);
    DigitsRead(n);
    SplitAlike(IsDigit, Digits(m), "|" + (IntegerText(i) + ("|" + u)), Digits(n), "|" + (IntegerText(j) + ("|" + v)));
  }

  /** Two keys of one run are equal only for the same decision number, instrument and target. */
  lemma KeysDiffer(run: string, m: nat, i: int, u: string, n: nat, j: int, v: string)
    requires OrderKey(run, m, i, u) == OrderKey(run, n, j, v)
    ensures m == n && i == j && u == v
  {
    hide OrderKey, IntegerText, Digits;
    KeyNumbers(run, m, i, u, n, j, v);
    DropPrefix("|", IntegerText(i) + ("|" + u), IntegerText(j) + ("|" + v));
    IntegerChars(i);
    IntegerChars(j);
    SplitAlike(IsIntegerChar, IntegerText(i), "|" + u, IntegerText(j), "|" + v);
    IntegerTextDiffers(i, j);
    DropPrefix("|", u, v);
  }

  lemma {:induction false} PrefixOrder(p: string, a: string, b: string)
    ensures TextBefore(p + a, p + b) <==> TextBefore(a, b)
  {
    if p == "" {
      assert p + a == a && p + b == b;
    } else {
      assert (p + a)[1..] == p[1..] + a && (p + b)[1..] == p[1..] + b;
      PrefixOrder(p[1..], a, b);
    }
  }

  /** Between different texts of one length the first difference decides, whatever follows. */
  lemma {:induction false} FirstDifferenceDecides(a: string, x: string, b: string, y: string)
    requires |a| == |b| && a != b
    ensures TextBefore(a + x, b + y) <==> TextBefore(a, b)
  {
    assert (a + x)[1..] == a[1..] + x && (b + y)[1..] == b[1..] + y;
    if a[0] == b[0] {
      assert a == [a[0]] + a[1..] && b == [b[0]] + b[1..];
      FirstDifferenceDecides(a[1..], x, b[1..], y);
    }
  }

  lemma OneDigit(m: nat, n: nat)
    requires m < n < 10
    ensures TextBefore([DigitChar(m)], [DigitChar(n)]) && DigitChar(m) != DigitChar(n)
  {
  }

  lemma {:induction false} SameWidthDigits(m: nat, n: nat)
    requires |Digits(m)| == |Digits(n)| && m < n
    ensures TextBefore(Digits(m), Digits(n)) && Digits(m) != Digits(n)
  {
    hide TextBefore, Digits;
    DigitsSplit(m);
    DigitsSplit(n);
    if n >= 10 {
      if m / 10 < n / 10 {
        SameWidthDigits(m / 10, n / 10);
        assert Digits(m)[..|Digits(m / 10)|] == Digits(m / 10) && Digits(n)[..|Digits(n / 10)|] == Digits(n / 10);
        FirstDifferenceDecides(Digits(m / 10), [DigitChar(m % 10)], Digits(n / 10), [DigitChar(n % 10)]);
      } else {
        OneDigit(m % 10, n % 10);
        PrefixOrder(Digits(m / 10), [DigitChar(m % 10)], [DigitChar(n % 10)]);
      }
    } else {
      OneDigit(m, n);
    }
  }

  lemma DigitsSplit(n: nat)
    ensures n < 10 ==> Digits(n) == [DigitChar(n)]
    ensures n >= 10 ==> Digits(n) == Digits(n / 10) + [DigitChar(n % 10)] && |Digits(n / 10)| >= 1
  {
    DigitsRead(n / 10);
  }

  /** A number without its last `d` digits. */
  function Cut(n: nat, d: nat): nat { if d == 0 then n else Cut(n / 10, d - 1) }

  lemma {:induction false} LeadingDigits(n: nat, d: nat)
    requires d < |Digits(n)|
    ensures Digits(n)[..|Digits(n)| - d] == Digits(Cut(n, d))
    decreases d
  {
    if d == 0 {
      assert Digits(n)[..|Digits(n)|] == Digits(n);
    } else {
      var w := |Digits(n)|;
      assert Digits(n) == Digits(n / 10) + [DigitChar(n % 10)];
      LeadingDigits(n / 10, d - 1);
      assert Digits(n)[..w - d] == Digits(n / 10)[..w - d];
    }
  }

  lemma SameWidthDecides(m: nat, x: string, q: nat, y: string)
    requires |Digits(m)| == |Digits(q)| && m != q
    ensures TextBefore(Digits(m) + x, Digits(q) + y) <==> m < q
  {
    if m < q {
      SameWidthDigits(m, q);
    } else {
      SameWidthDigits(q, m);
      TextOrder(Digits(q), Digits(m), "");
    }
    FirstDifferenceDecides(Digits(m), x, Digits(q), y);
  }

  lemma SplitDigits(n: nat, d: nat, y: string) returns (tail: string)
    requires d < |Digits(n)|
    ensures |tail| == d && All(IsDigit, tail) && |Digits(Cut(n, d))| == |Digits(n)| - d
    ensures Digits(n) + y == Digits(Cut(n, d)) + (tail + y)
  {
    DigitsRead(n);
    LeadingDigits(n, d);
    tail := Digits(n)[|Digits(n)| - d..];
    assert Digits(n) == Digits(Cut(n, d)) + tail;
  }

  /** The bar sorts after every digit, so a number sorts after those it is a prefix of. */
  lemma PrefixSortsLater(p: string, x: string, tail: string, y: string)
    requires tail != "" && All(IsDigit, tail)
    ensures !TextBefore(p + ("|" + x), p + (tail + ("|" + y)))
  {
    PrefixOrder(p, "|" + x, tail + ("|" + y));
  }

  /** A number sorts before a later one exactly when it is below the later one's leading digits. */
  lemma DigitsInOrderIff(m: nat, x: string, n: nat, y: string)
    requires m < n && |Digits(m)| <= |Digits(n)|
    ensures TextBefore(Digits(m) + ("|" + x), Digits(n) + ("|" + y)) <==> m < Cut(n, |Digits(n)| - |Digits(m)|)
  {
    var d := |Digits(n)| - |Digits(m)|;
    DigitsRead(m);
    var tail := SplitDigits(n, d, "|" + y);
    if m == Cut(n, d) {
      PrefixSortsLater(Digits(m), x, tail, y);
    } else {
      SameWidthDecides(m, "|" + x, Cut(n, d), tail + ("|" + y));
    }
  }

  lemma {:induction false} WidthGrows(m: nat, n: nat)
    requires m <= n
    ensures |Digits(m)| <= |Digits(n)|
  {
    if m >= 10 { WidthGrows(m / 10, n / 10); }
  }

  /**
    The keys of two decisions sort in decision order exactly when the earlier number is
    below the later one cut to its width; in particular whenever both have equally many digits.
  */
  lemma KeysInOrderIff(run: string, m: nat, i: int, u: string, n: nat, j: int, v: string)
    requires m < n
    ensures |Digits(m)| <= |Digits(n)|
    ensures TextBefore(OrderKey(run, m, i, u), OrderKey(run, n, j, v)) <==> m < Cut(n, |Digits(n)| - |Digits(m)|)
    ensures |Digits(m)| == |Digits(n)| ==> TextBefore(OrderKey(run, m, i, u), OrderKey(run, n, j, v))
  {
    WidthGrows(m, n);
    KeyOf(run, m, i, u);
    KeyOf(run, n, j, v);
    PrefixOrder(run + "|", KeyRest(m, i, u), KeyRest(n, j, v));
    DigitsInOrderIff(m, IntegerText(i) + ("|" + u), n, IntegerText(j) + ("|" + v));
  }
}
