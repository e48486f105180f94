/**
  Canonical decimal text.  A number is a pair (m, e) standing for m * 10^e; integers have e = 0.
  The printer drops trailing zeros of the coefficient, writes the rest in positional notation and
  prints every zero as "0".  Two numbers print alike exactly when they are equal.
*/
module CanonicalNumber {

  function Pow10(k: nat): (p: nat)
    ensures p > 0
  {
    if k == 0 then 1 else 10 * Pow10(k - 1)
  }

  lemma {:induction false} PowAdd(a: nat, b: nat)
    ensures Pow10(a + b) == Pow10(a) * Pow10(b)
  {
    if a != 0 {
      PowAdd(a - 1, b);
      assert 10 * (Pow10(a - 1) * Pow10(b)) == (10 * Pow10(a - 1)) * Pow10(b);
    }
  }

  function Magnitude(m: int): nat { if m < 0 then -m else m }

  /** m * 10^e == n * 10^f, compared at the smaller exponent. */
  predicate SameNumber(m: int, e: int, n: int, f: int) {
    var k := if e <= f then e else f;
    m * Pow10(e - k) == n * Pow10(f - k)
  }

  // ---- digits ------------------------------------------------------------------------------------

  function DigitChar(d: nat): (c: char)
    requires d < 10
    ensures '0' <= c <= '9'
  {
    ('0' as int + d) as char
  }

  function DigitValue(c: char): int { c as int - '0' as int }

  predicate IsDigit(c: char) { '0' <= c <= '9' }

  function Digits(n: nat): string {
    if n < 10 then [DigitChar(n)] else Digits(n / 10) + [DigitChar(n % 10)]
  }

  function Zeros(k: nat): string { if k == 0 then "" else Zeros(k - 1) + "0" }

  function NatOf(s: string): int {
    if s == "" then 0 else NatOf(s[..|s| - 1]) * 10 + DigitValue(s[|s| - 1])
  }

  ghost predicate All(p: char -> bool, s: string) { forall i :: 0 <= i < |s| ==> p(s[i]) }

  lemma NatOfSnoc(s: string, c: char)
    ensures NatOf(s + [c]) == NatOf(s) * 10 + DigitValue(c)
  {
    assert (s + [c])[..|s|] == s;
  }

  lemma {:induction false} DigitsRead(n: nat)
    ensures Digits(n) != "" && All(IsDigit, Digits(n)) && NatOf(Digits(n)) == n
    ensures Digits(n)[|Digits(n)| - 1] == DigitChar(n % 10)
  {
    if n < 10 {
      NatOfSnoc("", DigitChar(n));
      assert "" + [DigitChar(n)] == [DigitChar(n)];
    } else {
      DigitsRead(n / 10);
      NatOfSnoc(Digits(n / 10), DigitChar(n % 10));
    }
  }

  lemma {:induction false} ZerosLeft(k: nat, s: string)
    ensures NatOf(Zeros(k) + s) == NatOf(s)
    decreases k, |s|
  {
    if s == "" {
      assert Zeros(k) + s == Zeros(k);
      if k > 0 {
        ZerosLeft(k - 1, "");
        assert Zeros(k - 1) + "" == Zeros(k - 1);
        NatOfSnoc(Zeros(k - 1), '0');
      }
    } else {
      var front, last := s[..|s| - 1], s[|s| - 1];
      ZerosLeft(k, front);
      NatOfSnoc(Zeros(k) + front, last);
      assert Zeros(k) + s == Zeros(k) + front + [last];
    }
  }

  lemma {:induction false} ZerosAllDigits(k: nat)
    ensures |Zeros(k)| == k && All(IsDigit, Zeros(k))
  {
    if k > 0 { ZerosAllDigits(k - 1); }
  }

  lemma PowStep(m: nat, k: nat)
    requires m > 0 && k > 0
    ensures m * Pow10(k) == 10 * (m * Pow10(k - 1)) && m * Pow10(k - 1) > 0
  {
    assert m * (10 * Pow10(k - 1)) == 10 * (m * Pow10(k - 1));
  }

  lemma ZerosStep(d: string, k: nat)
    requires k > 0
    ensures d + Zeros(k) == d + Zeros(k - 1) + "0"
  {
  }

  lemma DigitsTen(n: nat)
    requires n > 0
    ensures Digits(10 * n) == Digits(n) + "0"
  {
  }

  /** Appending zeros to the digits multiplies by a power of ten. */
  lemma {:induction false} DigitsScaled(m: nat, k: nat)
    requires m > 0
    ensures Digits(m * Pow10(k)) == Digits(m) + Zeros(k)
  {
    if k == 0 {
      assert Digits(m) + Zeros(0) == Digits(m);
    } else {
      DigitsScaled(m, k - 1);
      var n := m * Pow10(k - 1);
      PowStep(m, k);
      DigitsTen(n);
      ZerosStep(Digits(m), k);
    }
  }

  // ---- normal form -------------------------------------------------------------------------------

  function Norm(m: nat, e: int): (nat, int)
    requires m > 0
  {
    if m % 10 == 0 then Norm(m / 10, e + 1) else (m, e)
  }

  lemma {:induction false} NormFacts(m: nat, e: int)
    requires m > 0
    ensures var (a, x) := Norm(m, e); a > 0 && a % 10 != 0 && x >= e && m == a * Pow10(x - e)
  {
    if m % 10 == 0 {
      NormFacts(m / 10, e + 1);
      var (a, x) := Norm(m / 10, e + 1);
      assert m == 10 * (a * Pow10(x - e - 1));
      assert Pow10(x - e) == 10 * Pow10(x - e - 1);
      assert 10 * (a * Pow10(x - e - 1)) == a * (10 * Pow10(x - e - 1));
    } else {
      assert Pow10(0) == 1;
    }
  }

  lemma Scaled(a: nat, x: int, e: int, k: int)
    requires k <= e <= x
    ensures a * Pow10(x - e) * Pow10(e - k) == a * Pow10(x - k)
  {
    PowAdd(x - e, e - k);
    assert a * Pow10(x - e) * Pow10(e - k) == a * (Pow10(x - e) * Pow10(e - k));
  }

  lemma Cancel(a: nat, b: nat, p: nat)
    requires p > 0 && a * p == b * p
    ensures a == b
  {
  }

  lemma {:induction false} TensDivide(b: nat, k: nat)
    requires k > 0
    ensures (b * Pow10(k)) % 10 == 0
  {
    assert b * Pow10(k) == 10 * (b * Pow10(k - 1));
  }

  lemma ReducedUnique(a: nat, x: int, b: nat, y: int)
    requires x <= y && a % 10 != 0 && a == b * Pow10(y - x)
    ensures x == y && a == b
  {
    if x < y { TensDivide(b, y - x); }
    assert Pow10(0) == 1;
  }

  lemma ReducedSame(a: nat, x: int, b: nat, y: int, k: int)
    requires k <= x && k <= y && a % 10 != 0 && b % 10 != 0
    requires a * Pow10(x - k) == b * Pow10(y - k)
    ensures a == b && x == y
  {
    if x <= y {
      Scaled(b, y, x, k);
      Cancel(a, b * Pow10(y - x), Pow10(x - k));
      ReducedUnique(a, x, b, y);
    } else {
      Scaled(a, x, y, k);
      Cancel(b, a * Pow10(x - y), Pow10(y - k));
      ReducedUnique(b, y, a, x);
    }
  }

  /** Equal numbers have one normal form, and only equal numbers share it. */
  lemma NormIff(m: nat, e: int, n: nat, f: int)
    requires m > 0 && n > 0
    ensures SameNumber(m, e, n, f) <==> Norm(m, e) == Norm(n, f)
  {
    var k := if e <= f then e else f;
    NormFacts(m, e);
    NormFacts(n, f);
    var (a, x) := Norm(m, e);
    var (b, y) := Norm(n, f);
    Scaled(a, x, e, k);
    Scaled(b, y, f, k);
    if SameNumber(m, e, n, f) { ReducedSame(a, x, b, y, k); }
  }

  // ---- text --------------------------------------------------------------------------------------

  function Whole(d: string, p: nat): string {
    if |d| > p then d[..|d| - p] else "0"
  }

  function Fraction(d: string, p: nat): string {
    if |d| > p then d[|d| - p..] else Zeros(p - |d|) + d
  }

  /** Positional notation of the digits `d` scaled by 10^e. */
  function Placed(d: string, e: int): string {
    if e >= 0 then d + Zeros(e) else Whole(d, -e) + "." + Fraction(d, -e)
  }

  function Fixed(m: nat, e: int): string { Placed(Digits(m), e) }

  function StripRight(s: string, c: char): string {
    if s != "" && s[|s| - 1] == c then StripRight(s[..|s| - 1], c) else s
  }

  function Trimmed(s: string): string {
    if '.' in s then StripRight(StripRight(s, '0'), '.') else s
  }

  function Sign(m: int): string { if m < 0 then "-" else "" }

  /** `_canonical_decimal_text` of the coefficient `m` and exponent `e`. */
  function NumberText(m: int, e: int): string {
    if m == 0 then "0"
    else
      var (a, x) := Norm(Magnitude(m), e);
      Trimmed(Sign(m) + Fixed(a, x))
  }

  /** `str` of an integer. */
  function IntegerText(n: int): string { Sign(n) + Digits(Magnitude(n)) }

  lemma FractionFacts(d: string, p: nat)
    requires p > 0 && d != "" && All(IsDigit, d)
    ensures |Fraction(d, p)| == p && All(IsDigit, Whole(d, p)) && All(IsDigit, Fraction(d, p)) && Whole(d, p) != ""
    ensures Fraction(d, p)[p - 1] == d[|d| - 1]
  {
    if |d| <= p { ZerosAllDigits(p - |d|); }
  }

  lemma FractionReads(d: string, p: nat)
    requires p > 0
    ensures NatOf(Whole(d, p) + Fraction(d, p)) == NatOf(d)
  {
    if |d| > p {
      assert Whole(d, p) + Fraction(d, p) == d;
    } else {
      var z := Zeros(p - |d|) + d;
      ZerosLeft(p - |d|, d);
      ZerosLeft(1, z);
      OneZero();
      assert Whole(d, p) + Fraction(d, p) == Zeros(1) + z;
    }
  }

  lemma OneZero()
    ensures Zeros(1) == "0"
  {
    assert Zeros(0) + "0" == "0";
  }

  lemma NothingToTrim(s: string)
    requires '.' in s ==> s[|s| - 1] != '0' && s[|s| - 1] != '.'
    ensures Trimmed(s) == s
  {
  }

  lemma IntegersHaveNoPoint(sign: string, d: string, k: nat)
    requires '.' !in sign && All(IsDigit, d)
    ensures '.' !in sign + (d + Zeros(k))
  {
    ZerosAllDigits(k);
  }

  lemma FractionEndsInDigit(sign: string, d: string, p: nat)
    requires p > 0 && d != "" && All(IsDigit, d)
    ensures var s := sign + (Whole(d, p) + "." + Fraction(d, p)); s[|s| - 1] == d[|d| - 1]
  {
    FractionFacts(d, p);
  }

  /** After normalisation there is nothing left to strip. */
  lemma RenderedIsFixed(m: int, e: int)
    requires m != 0
    ensures var (a, x) := Norm(Magnitude(m), e); NumberText(m, e) == Sign(m) + Fixed(a, x)
  {
    NormFacts(Magnitude(m), e);
    var (a, x) := Norm(Magnitude(m), e);
    DigitsRead(a);
    if x >= 0 {
      IntegersHaveNoPoint(Sign(m), Digits(a), x);
    } else {
      FractionEndsInDigit(Sign(m), Digits(a), -x);
    }
    NothingToTrim(Sign(m) + Fixed(a, x));
  }

  /** Texts over a class of characters, each followed by something outside it, split alike. */
  ghost predicate Stops(p: char -> bool, r: string) { r != "" ==> !p(r[0]) }

  lemma {:induction false} SplitAlike(p: char -> bool, a: string, ra: string, b: string, rb: string)
    requires All(p, a) && All(p, b) && Stops(p, ra) && Stops(p, rb) && a + ra == b + rb
    ensures a == b && ra == rb
  {
    if a == "" || b == "" {
      assert a + ra == b + rb;
      assert a == "" ==> a + ra == ra;
      assert b == "" ==> b + rb == rb;
    } else {
      assert (a + ra)[0] == a[0] && (b + rb)[0] == b[0];
      assert (a + ra)[1..] == a[1..] + ra && (b + rb)[1..] == b[1..] + rb;
      SplitAlike(p, a[1..], ra, b[1..], rb);
      assert a == [a[0]] + a[1..] && b == [b[0]] + b[1..];
    }
  }

  function IntegerPart(d: string, e: int): string { if e >= 0 then d + Zeros(e) else Whole(d, -e) }

  function PointPart(d: string, e: int): string { if e >= 0 then "" else "." + Fraction(d, -e) }

  lemma PlacedParts(d: string, e: int)
    requires d != "" && All(IsDigit, d)
    ensures Placed(d, e) == IntegerPart(d, e) + PointPart(d, e)
    ensures IntegerPart(d, e) != "" && All(IsDigit, IntegerPart(d, e)) && Stops(IsDigit, PointPart(d, e))
  {
    if e >= 0 {
      ZerosAllDigits(e);
    } else {
      FractionFacts(d, -e);
    }
  }

  lemma FractionPlaces(a: string, p: nat, b: string, q: nat)
    requires p > 0 && q > 0 && "." + Fraction(a, p) == "." + Fraction(b, q)
    ensures p == q && Fraction(a, p) == Fraction(b, q)
  {
    AfterPoint(Fraction(a, p), Fraction(b, q));
    FractionLength(a, p);
    FractionLength(b, q);
  }

  lemma FractionLength(d: string, p: nat)
    ensures |Fraction(d, p)| == p
  {
    if |d| <= p { ZerosAllDigits(p - |d|); }
  }

  lemma FractionValue(a: string, b: string, p: nat)
    requires p > 0 && Whole(a, p) == Whole(b, p) && Fraction(a, p) == Fraction(b, p)
    ensures NatOf(a) == NatOf(b)
  {
    FractionReads(a, p);
    FractionReads(b, p);
  }

  lemma AfterPoint(s: string, t: string)
    requires "." + s == "." + t
    ensures s == t
  {
    assert ("." + s)[1..] == s && ("." + t)[1..] == t;
  }

  lemma DigitsInjective(m: nat, n: nat)
    requires Digits(m) == Digits(n)
    ensures m == n
  {
    DigitsRead(m);
    DigitsRead(n);
  }

  lemma IntegerInjective(a: nat, x: nat, b: nat, y: nat)
    requires a % 10 != 0 && b % 10 != 0 && Digits(a) + Zeros(x) == Digits(b) + Zeros(y)
    ensures a == b && x == y
  {
    hide Digits, Zeros, Pow10;
    assert a * Pow10(x) == b * Pow10(y) by { ScaledDigits(a, x, b, y); }
    ReducedSame(a, x, b, y, 0);
  }

  lemma ScaledDigits(a: nat, x: nat, b: nat, y: nat)
    requires a > 0 && b > 0 && Digits(a) + Zeros(x) == Digits(b) + Zeros(y)
    ensures a * Pow10(x) == b * Pow10(y)
  {
    DigitsScaled(a, x);
    DigitsScaled(b, y);
    DigitsInjective(a * Pow10(x), b * Pow10(y));
  }

  lemma FixedInjective(a: nat, x: int, b: nat, y: int)
    requires a > 0 && b > 0 && a % 10 != 0 && b % 10 != 0 && Fixed(a, x) == Fixed(b, y)
    ensures a == b && x == y
  {
    DigitsRead(a);
    DigitsRead(b);
    PlacedParts(Digits(a), x);
    PlacedParts(Digits(b), y);
    SplitAlike(IsDigit, IntegerPart(Digits(a), x), PointPart(Digits(a), x),
               IntegerPart(Digits(b), y), PointPart(Digits(b), y));
    if x >= 0 {
      IntegerInjective(a, x, b, y);
    } else {
      FractionPlaces(Digits(a), -x, Digits(b), -y);
      FractionValue(Digits(a), Digits(b), -x);
    }
  }

  predicate IsNumberChar(c: char) { IsDigit(c) || c == '-' || c == '.' }

  lemma FixedChars(a: nat, x: int)
    ensures All(IsNumberChar, Fixed(a, x)) && Fixed(a, x) != "" && IsDigit(Fixed(a, x)[0])
  {
    DigitsRead(a);
    PlacedParts(Digits(a), x);
    if x < 0 { FractionFacts(Digits(a), -x); }
  }

  lemma NumberChars(m: int, e: int)
    ensures NumberText(m, e) != "" && All(IsNumberChar, NumberText(m, e))
  {
    if m != 0 {
      RenderedIsFixed(m, e);
      NormFacts(Magnitude(m), e);
      var (a, x) := Norm(Magnitude(m), e);
      FixedChars(a, x);
    }
  }

  lemma SignsAgree(m: int, e: int, n: int, f: int)
    ensures SameNumber(m, e, n, f) <==>
            (m < 0 <==> n < 0) && (m == 0 <==> n == 0) && SameNumber(Magnitude(m), e, Magnitude(n), f)
  {
    var k := if e <= f then e else f;
    SignsOfProducts(m, Pow10(e - k), n, Pow10(f - k));
  }

  lemma SignsOfProducts(m: int, p: nat, n: int, q: nat)
    requires p > 0 && q > 0
    ensures m * p == n * q <==> (m < 0 <==> n < 0) && (m == 0 <==> n == 0) && Magnitude(m) * p == Magnitude(n) * q
  {
    ProductSign(m, p);
    ProductSign(n, q);
  }

  lemma ProductSign(m: int, p: nat)
    requires p > 0
    ensures (m < 0 <==> m * p < 0) && (m == 0 <==> m * p == 0) && Magnitude(m) * p == Magnitude(m * p)
  {
    if m < 0 {
      assert (-m) * p > 0;
      assert (-m) * p == -(m * p);
    } else if m > 0 {
      assert m * p > 0;
    }
  }

  lemma TextSign(m: int, e: int)
    ensures NumberText(m, e) != ""
    ensures m < 0 <==> NumberText(m, e)[0] == '-'
    ensures m == 0 <==> NumberText(m, e) == "0"
  {
    if m != 0 {
      RenderedIsFixed(m, e);
      NormFacts(Magnitude(m), e);
      var (a, x) := Norm(Magnitude(m), e);
      FixedChars(a, x);
      if m > 0 { FixedIsNotZero(a, x); }
    }
  }

  lemma FixedIsNotZero(a: nat, x: int)
    requires a > 0
    ensures Fixed(a, x) != "0"
  {
    if x >= 0 {
      DigitsScaled(a, x);
      DigitsRead(a * Pow10(x));
      assert a * Pow10(x) > 0;
      NatOfSnoc("", '0');
      assert "" + "0" == "0";
    } else {
      DigitsRead(a);
      FractionFacts(Digits(a), -x);
    }
  }

  /** Two numbers print alike if and only if they are equal. */
  lemma NumberTextIff(m: int, e: int, n: int, f: int)
    ensures NumberText(m, e) == NumberText(n, f) <==> SameNumber(m, e, n, f)
  {
    SignsAgree(m, e, n, f);
    TextSign(m, e);
    TextSign(n, f);
    if m != 0 && n != 0 && (m < 0 <==> n < 0) {
      RenderedIsFixed(m, e);
      RenderedIsFixed(n, f);
      NormIff(Magnitude(m), e, Magnitude(n), f);
      NormFacts(Magnitude(m), e);
      NormFacts(Magnitude(n), f);
      var (a, x) := Norm(Magnitude(m), e);
      var (b, y) := Norm(Magnitude(n), f);
      if NumberText(m, e) == NumberText(n, f) {
        assert Fixed(a, x) == NumberText(m, e)[|Sign(m)|..];
        FixedInjective(a, x, b, y);
      }
    }
  }

  lemma SameNumberIntro(m: nat, e: int, a: nat, x: int)
    requires e <= x && m == a * Pow10(x - e)
    ensures SameNumber(m, e, a, x)
    ensures x >= 0 ==> SameNumber(m, e, a * Pow10(x), 0)
  {
    assert Pow10(0) == 1;
    if x >= 0 {
      var k := if e <= 0 then e else 0;
      Scaled(a, x, e, k);
      Scaled(a, x, 0, k);
    }
  }

  /** The text is a sign, digits and perhaps a point with more digits, and denotes the number. */
  lemma NumberTextDenotes(m: int, e: int) returns (whole: string, fraction: string)
    ensures whole != "" && All(IsDigit, whole) && All(IsDigit, fraction)
    ensures NumberText(m, e) == Sign(m) + (if fraction == "" then whole else whole + "." + fraction)
    ensures SameNumber(Magnitude(m), e, NatOf(whole + fraction), -|fraction|)
  {
    hide Norm, Fixed, NatOf, Pow10, Digits, SameNumber;
    if m == 0 {
      whole, fraction := "0", "";
      ZeroDenotes(e);
    } else {
      RenderedIsFixed(m, e);
      NormFacts(Magnitude(m), e);
      var (a, x) := Norm(Magnitude(m), e);
      SameNumberIntro(Magnitude(m), e, a, x);
      whole, fraction := PlacedDenotes(a, x);
    }
  }

  lemma ZeroDenotes(e: int)
    ensures "0" + "" == "0" && All(IsDigit, "0") && SameNumber(0, e, NatOf("0" + ""), 0)
  {
    DigitsRead(0);
    assert Digits(0) == "0" && "0" + "" == "0";
    assert 0 * Pow10(if e <= 0 then 0 else e) == 0;
  }

  lemma PlacedDenotes(a: nat, x: int) returns (whole: string, fraction: string)
    requires a > 0
    ensures whole != "" && All(IsDigit, whole) && All(IsDigit, fraction)
    ensures Fixed(a, x) == if fraction == "" then whole else whole + "." + fraction
    ensures if x >= 0 then fraction == "" && NatOf(whole + fraction) == a * Pow10(x)
            else |fraction| == -x && NatOf(whole + fraction) == a
  {
    DigitsRead(a);
    if x >= 0 {
      DigitsScaled(a, x);
      DigitsRead(a * Pow10(x));
      whole, fraction := Digits(a) + Zeros(x), "";
      assert whole + fraction == whole;
    } else {
      FractionFacts(Digits(a), -x);
      FractionReads(Digits(a), -x);
      whole, fraction := Whole(Digits(a), -x), Fraction(Digits(a), -x);
    }
  }

  /** An integer prints as the equal decimal does. */
  lemma IntegerIsNumber(n: int)
    ensures IntegerText(n) == NumberText(n, 0)
  {
    if n != 0 {
      RenderedIsFixed(n, 0);
      NormFacts(Magnitude(n), 0);
      var (a, x) := Norm(Magnitude(n), 0);
      DigitsScaled(a, x);
    }
  }

  // ---- the decimal context -----------------------------------------------------------------------

  const Precision: nat := 10_000_000_000_000_000_000_000_000_000

  /** How many digits a coefficient has beyond the 28 the decimal context keeps. */
  function Excess(m: nat): nat { if m < Precision then 0 else 1 + Excess(m / 10) }

  /** A coefficient without its last digits, rounded half to even; `p` is the weight of what goes. */
  function Nearest(m: nat, p: nat): nat
    requires p > 0
  {
    var q, rest := m / p, 2 * (m % p);
    if rest > p || (rest == p && q % 2 == 1) then q + 1 else q
  }

  /** Rounding half to even at 28 significant digits. */
  function Rounded(m: nat, e: int): (nat, int) {
    var k := Excess(m);
    (Nearest(m, Pow10(k)), e + k)
  }

  /** Rounding loses nothing exactly when the digits dropped are all zero. */
  lemma NearestExactIff(m: nat, p: nat)
    requires p > 0
    ensures Nearest(m, p) * p == m <==> m % p == 0
  {
    var q := m / p;
    assert m == q * p + m % p;
    assert (q + 1) * p == q * p + p;
  }

  /**
    Rounding keeps 28 digits, or all if there are no more, and goes to the nearest number with as
    many: off by at most half a unit of the last one, and on a tie to the even one.
  */
  lemma RoundedIsNearest(m: nat, e: int)
    ensures var (r, x) := Rounded(m, e);
            var p := Pow10(Excess(m));
            && x == e + Excess(m)
            && m / p < Precision && (m >= Precision ==> Precision <= 10 * (m / p))
            && 2 * (m - r * p) <= p && 2 * (r * p - m) <= p
            && (2 * (m - r * p) == p || 2 * (r * p - m) == p ==> r % 2 == 0)
  {
    NearestIsNearest(m, Pow10(Excess(m)));
    ExcessKeeps(m);
  }

  lemma NearestIsNearest(m: nat, p: nat)
    requires p > 0
    ensures var r := Nearest(m, p);
            && 2 * (m - r * p) <= p && 2 * (r * p - m) <= p
            && (2 * (m - r * p) == p || 2 * (r * p - m) == p ==> r % 2 == 0)
  {
    var q := m / p;
    assert m == q * p + m % p;
    assert (q + 1) * p == q * p + p;
  }

  /** The kept digits are as many as the precision allows: 28, unless the number has no more. */
  lemma {:induction false} ExcessKeeps(m: nat)
    ensures m / Pow10(Excess(m)) < Precision
    ensures Excess(m) > 0 ==> Precision <= 10 * (m / Pow10(Excess(m)))
  {
    if m >= Precision {
      ExcessKeeps(m / 10);
      DivTwice(m, Pow10(Excess(m / 10)));
      assert Pow10(Excess(m)) == 10 * Pow10(Excess(m / 10));
      if Excess(m / 10) == 0 { assert Pow10(0) == 1; }
    } else {
      assert Pow10(0) == 1;
    }
  }

  /** The rounded number equals the number exactly when its digits beyond the 28th are zeros. */
  lemma RoundedExactIff(m: nat, e: int)
    ensures var (r, x) := Rounded(m, e); SameNumber(r, x, m, e) <==> m % Pow10(Excess(m)) == 0
    ensures m < Precision ==> m % Pow10(Excess(m)) == 0
  {
    NearestExactIff(m, Pow10(Excess(m)));
    assert Pow10(0) == 1;
  }

  lemma DivTwice(m: nat, p: nat)
    requires p > 0
    ensures m / (10 * p) == (m / 10) / p
  {
    var a := m / 10;
    var b := a / p;
    var rest := 10 * (a % p) + m % 10;
    assert a == b * p + a % p;
    assert m == b * (10 * p) + rest;
    DivUnique(m, 10 * p, b, rest);
  }

  lemma MultipleIsFar(x: int, p: nat)
    requires x != 0
    ensures x * p >= p || x * p + p <= 0
  {
    if x > 0 {
      assert (x - 1) * p >= 0 && (x - 1) * p == x * p - p;
    } else {
      assert (-1 - x) * p >= 0 && (-1 - x) * p + p + x * p == 0;
    }
  }

  lemma QuotientUnique(b: nat, r: nat, q: nat, s: nat, p: nat)
    requires r < p && s < p && b * p + r == q * p + s
    ensures b == q
  {
    assert (b - q) * p == b * p - q * p;
    if b != q { MultipleIsFar(b - q, p); }
  }

  lemma DivUnique(m: nat, p: nat, b: nat, rest: nat)
    requires p > 0 && m == b * p + rest && rest < p
    ensures m / p == b
  {
    QuotientUnique(b, rest, m / p, m % p, p);
  }

  /** A rounded coefficient is exact: it has at most 28 digits or is the next power of ten. */
  lemma RoundedIsExact(m: nat, e: int)
    ensures var (r, _) := Rounded(m, e); r % Pow10(Excess(r)) == 0
  {
    ExcessKeeps(m);
    var (r, _) := Rounded(m, e);
    assert r <= Precision;
    assert Pow10(0) == 1 && Pow10(1) == 10;
    assert Excess(Precision) == 1 + Excess(Precision / 10);
  }

  /** Being the same number is an equivalence, since it is having the same text. */
  lemma SameNumberTransfers(a: (int, int), b: (int, int), c: (int, int), d: (int, int))
    requires SameNumber(a.0, a.1, b.0, b.1) && SameNumber(c.0, c.1, d.0, d.1)
    ensures SameNumber(a.0, a.1, c.0, c.1) <==> SameNumber(b.0, b.1, d.0, d.1)
    ensures SameNumber(b.0, b.1, a.0, a.1)
  {
    NumberTextIff(a.0, a.1, b.0, b.1);
    NumberTextIff(c.0, c.1, d.0, d.1);
    NumberTextIff(a.0, a.1, c.0, c.1);
    NumberTextIff(b.0, b.1, d.0, d.1);
    NumberTextIff(b.0, b.1, a.0, a.1);
  }
}
