/** How the server prints a whole number in canonical JSON. normalize turns every
    number into a float64 (internal/securebus/canonical.go) and encoding/json prints
    the shortest decimal that reads back as that float64: plain digits below 10^21,
    with an exponent from there on. */
module GoNumbers {
  import opened Decimal

  const TwoTo52: int := 4503599627370496

  const TwoTo53: int := 9007199254740992

  const TenTo21: int := 1_000_000_000_000_000_000_000

  // ---- float64 ------------------------------------------------------------------------

  /** The distance between neighbouring whole float64 values around n. */
  function Spacing(n: nat): (u: nat)
    ensures u > 0
  {
    if n < TwoTo53 then 1 else 2 * Spacing(n / 2)
  }

  /** The multiple of u nearest to n, the even one of two equally near. */
  function NearestMultiple(n: nat, u: nat): nat
    requires u > 0
  {
    var q, r := n / u, n % u;
    if 2 * r < u || (2 * r == u && q % 2 == 0) then q * u else (q + 1) * u
  }

  /** The float64 nearest to n. */
  function Float(n: nat): nat { NearestMultiple(n, Spacing(n)) }

  lemma {:induction false} SpacingBounds(n: nat)
    requires n >= TwoTo53
    ensures TwoTo52 * Spacing(n) <= n < TwoTo53 * Spacing(n)
  {
    if n / 2 >= TwoTo53 { SpacingBounds(n / 2); }
  }

  lemma {:induction false} SpacingIs(x: nat, n: nat)
    requires n >= TwoTo53 && TwoTo52 * Spacing(n) <= x < TwoTo53 * Spacing(n)
    ensures Spacing(x) == Spacing(n)
    decreases n
  {
    if n / 2 >= TwoTo53 {
      SpacingBounds(n / 2);
      SpacingIs(x / 2, n / 2);
    }
  }

  lemma MulMono(a: int, b: int, u: nat)
    ensures a <= b ==> a * u <= b * u
    ensures a < b && u > 0 ==> a * u < b * u
  {
  }

  lemma MultipleStays(m: nat, u: nat)
    requires u > 0
    ensures (m * u) / u == m && NearestMultiple(m * u, u) == m * u
  {
    var x := m * u;
    var q := x / u;
    assert q * u <= x < (q + 1) * u;
    MulMono(q + 1, m, u);
    MulMono(m + 1, q, u);
  }

  lemma NearestIsMultiple(n: nat, u: nat) returns (m: nat)
    requires u > 0
    ensures NearestMultiple(n, u) == m * u && n / u <= m <= n / u + 1
  {
    var q, r := n / u, n % u;
    m := if 2 * r < u || (2 * r == u && q % 2 == 0) then q else q + 1;
  }

  lemma QuotientBounds(n: nat, u: nat, low: int, high: int)
    requires u > 0 && low * u <= n < high * u
    ensures low <= n / u < high
  {
    var q := n / u;
    assert q * u <= n < (q + 1) * u;
    MulMono(q + 1, low, u);
    MulMono(high, q, u);
  }

  lemma SmallFloat(n: nat)
    requires n <= TwoTo53
    ensures Float(n) == n
  {
  }

  /** Rounding within a binade ends at a multiple of its spacing. */
  lemma FloatWithin(n: nat) returns (m: nat)
    requires n >= TwoTo53
    ensures Float(n) == m * Spacing(n) && TwoTo52 <= m <= TwoTo53
  {
    SpacingBounds(n);
    QuotientBounds(n, Spacing(n), TwoTo52, TwoTo53);
    m := NearestIsMultiple(n, Spacing(n));
  }

  lemma MultipleIsFloat(n: nat, m: nat, u: nat)
    requires n >= TwoTo53 && u == Spacing(n) && TwoTo52 <= m < TwoTo53
    ensures Float(m * u) == m * u
  {
    MulMono(TwoTo52, m, u);
    MulMono(m, TwoTo53, u);
    SpacingIs(m * u, n);
    MultipleStays(m, u);
  }

  /** A float64 is its own nearest. */
  lemma FloatIsFloat(n: nat)
    ensures Float(Float(n)) == Float(n)
  {
    if n < TwoTo53 {
      SmallFloat(n);
    } else {
      var m := FloatWithin(n);
      if m < TwoTo53 {
        MultipleIsFloat(n, m, Spacing(n));
      } else {
        NextBinade(n, Spacing(n));
      }
    }
  }

  lemma NextBinade(n: nat, u: nat)
    requires n >= TwoTo53 && u == Spacing(n)
    ensures Float(TwoTo53 * u) == TwoTo53 * u
  {
    var x: nat := TwoTo53 * u;
    assert x / 2 == TwoTo52 * u;
    SpacingIs(TwoTo52 * u, n);
    assert Spacing(x) == 2 * u;
    MultipleStays(TwoTo52, 2 * u);
    assert TwoTo52 * (2 * u) == x;
  }

  // ---- The shortest decimal -------------------------------------------------------------

  function Power10(k: nat): (p: nat)
    ensures p > 0
  {
    if k == 0 then 1 else 10 * Power10(k - 1)
  }

  /** The neighbouring multiple of u on the other side of n. */
  function OtherMultiple(n: nat, u: nat): nat
    requires u > 0
  {
    var q := n / u;
    if NearestMultiple(n, u) == q * u then (q + 1) * u else q * u
  }

  /** The nearest number ending in as many zeros as possible, at most k, that still
      reads back as f. */
  function Shortest(f: nat, k: nat): nat {
    if k == 0 then f
    else if Float(NearestMultiple(f, Power10(k))) == f then NearestMultiple(f, Power10(k))
    else if Float(OtherMultiple(f, Power10(k))) == f then OtherMultiple(f, Power10(k))
    else Shortest(f, k - 1)
  }

  function Printed(f: nat): nat { Shortest(f, |Digits(f)|) }

  /** What is printed for a float64 reads back as that float64. */
  lemma {:induction false} ShortestReadsBack(f: nat, k: nat)
    requires Float(f) == f
    ensures Float(Shortest(f, k)) == f
  {
    if k > 0 { ShortestReadsBack(f, k - 1); }
  }

  lemma TimesTen(m: nat, p: nat)
    ensures (m * (10 * p)) % 10 == 0
  {
    assert m * (10 * p) == 10 * (m * p);
  }

  lemma Neighbours(n: nat, u: nat)
    requires u > 0
    ensures var q := n / u;
            && q * u <= n < (q + 1) * u
            && ((NearestMultiple(n, u) == q * u && OtherMultiple(n, u) == (q + 1) * u)
                || (NearestMultiple(n, u) == (q + 1) * u && OtherMultiple(n, u) == q * u))
  {
    var q := n / u;
    assert q * u + u == (q + 1) * u;
  }

  lemma RoundNeighbours(n: nat, u: nat, v: nat)
    requires u > 0 && u == 10 * v
    ensures NearestMultiple(n, u) % 10 == 0 && OtherMultiple(n, u) % 10 == 0
  {
    Neighbours(n, u);
    TimesTen(n / u, v);
    TimesTen(n / u + 1, v);
  }

  lemma RoundNumber(f: nat, k: nat)
    requires k > 0
    ensures NearestMultiple(f, Power10(k)) % 10 == 0 && OtherMultiple(f, Power10(k)) % 10 == 0
  {
    RoundNeighbours(f, Power10(k), Power10(k - 1));
  }

  /** Above 2^53 only 2^53 + 1 is rounded down as far as 2^53. */
  lemma FloatAbove(p: nat)
    requires p > TwoTo53 + 1
    ensures Float(p) > TwoTo53
  {
    if p / 2 < TwoTo53 {
      assert Spacing(p) == 2;
    } else {
      var m := FloatWithin(p);
      assert Spacing(p) == 2 * Spacing(p / 2) && Spacing(p / 2) == 2 * Spacing(p / 2 / 2);
      MulMono(TwoTo52, m, Spacing(p));
    }
  }

  /** No rounder number reads back as a number up to 2^53. */
  lemma OnlySelf(f: nat, p: nat)
    requires f <= TwoTo53 && p % 10 == 0 && Float(p) == f
    ensures p == f
  {
    if p <= TwoTo53 {
      SmallFloat(p);
    } else if p > TwoTo53 + 1 {
      FloatAbove(p);
    }
  }

  lemma {:induction false} ShortestIsSelf(f: nat, k: nat)
    requires f <= TwoTo53
    ensures Shortest(f, k) == f
  {
    if k > 0 {
      var near, other := NearestMultiple(f, Power10(k)), OtherMultiple(f, Power10(k));
      RoundNumber(f, k);
      if Float(near) == f {
        OnlySelf(f, near);
      } else if Float(other) == f {
        OnlySelf(f, other);
      } else {
        ShortestIsSelf(f, k - 1);
      }
    }
  }

  lemma PrintedIsSelf(f: nat)
    requires f <= TwoTo53
    ensures Printed(f) == f
  {
    ShortestIsSelf(f, |Digits(f)|);
  }

  // ---- The text ---------------------------------------------------------------------------

  /** Without trailing zeros. */
  function Stripped(ds: string): (s: string)
    requires ds != ""
    ensures s != "" && s <= ds
  {
    if |ds| > 1 && ds[|ds| - 1] == '0' then Stripped(ds[..|ds| - 1]) else ds
  }

  function Mantissa(s: string): string
    requires s != ""
  {
    if |s| == 1 then s else [s[0]] + "." + s[1..]
  }

  /** Digits as a mantissa without trailing zeros and an exponent. */
  function Scientific(a: string): string
    requires a != ""
  {
    Mantissa(Stripped(a)) + "e" + ("+" + Digits(|a| - 1))
  }

  function Exponential(p: nat): string { Scientific(Digits(p)) }

  function TextOf(f: nat): string { if f < TenTo21 then Digits(Printed(f)) else Exponential(Printed(f)) }

  function GoDigits(n: nat): string { TextOf(Float(n)) }

  lemma GoDigitsAreToken(n: nat)
    ensures IsToken(GoDigits(n)) && IsToken("-" + GoDigits(n))
  {
    var p := Printed(Float(n));
    var s := Stripped(Digits(p));
    assert forall i | 0 <= i < |s| :: s[i] == Digits(p)[i];
    assert forall i | 0 <= i < |Mantissa(s)| :: NumberChar(Mantissa(s)[i]);
  }

  /** The text of a whole number on the server. */
  function GoNumber(n: int): Token {
    GoDigitsAreToken(if n < 0 then -n else n);
    if n < 0 then "-" + GoDigits(-n) else GoDigits(n)
  }

  /** The text of a whole number in the Python client. */
  function PyNumber(n: int): Token { Show(n) }

  // ---- When the two agree -------------------------------------------------------------------

  /** The number survives: it is the shortest decimal of its float64, below 10^21. */
  predicate Kept(n: int) {
    var f := Float(if n < 0 then -n else n);
    f < TenTo21 && Printed(f) == (if n < 0 then -n else n)
  }

  predicate HasE(s: string) { 'e' in s }

  lemma ExponentialHasE(p: nat)
    ensures HasE(Exponential(p))
  {
    var m := Mantissa(Stripped(Digits(p)));
    assert Exponential(p)[|m|] == 'e';
  }

  lemma GoDigitsKept(n: nat)
    ensures GoDigits(n) == Digits(n) <==> Kept(n)
  {
    var f := Float(n);
    if f < TenTo21 {
      if Digits(Printed(f)) == Digits(n) { DigitsInjective(Printed(f), n); }
    } else {
      ExponentialHasE(Printed(f));
      assert !HasE(Digits(n));
    }
  }

  /** Client and server print a whole number alike if and only if it is kept. */
  lemma NumbersAgreeExactly(n: int)
    ensures GoNumber(n) == PyNumber(n) <==> Kept(n)
  {
    GoDigitsKept(if n < 0 then -n else n);
    if n < 0 { assert GoNumber(n)[1..] == GoDigits(-n) && PyNumber(n)[1..] == Digits(-n); }
  }

  /** Every number up to 2^53 is kept. */
  lemma SmallKept(n: int)
    requires -TwoTo53 <= n <= TwoTo53
    ensures Kept(n)
  {
    var a := if n < 0 then -n else n;
    SmallFloat(a);
    PrintedIsSelf(a);
  }

  /** The first number that is not: the server prints the even neighbour. */
  lemma FirstNotKept()
    ensures !Kept(TwoTo53 + 1) && GoNumber(TwoTo53 + 1) == PyNumber(TwoTo53)
  {
    assert Spacing(TwoTo53 + 1) == 2;
    assert Float(TwoTo53 + 1) == TwoTo53;
    PrintedIsSelf(TwoTo53);
  }

  /** No number whose float64 reaches 10^21 is kept, 10^21 among them. */
  lemma HugeNotKept()
    ensures !Kept(TenTo21) && HasE(GoNumber(TenTo21))
  {
    HugeSpacing();
    MultipleStays(7_629_394_531_250_000, 131_072);
    ExponentialHasE(Printed(TenTo21));
  }

  lemma HugeSpacing()
    ensures Spacing(TenTo21) == 131_072
  {
    assert Spacing(7_629_394_531_250_000) == 1;
    assert Spacing(61_035_156_250_000_000) == 8;
    assert Spacing(488_281_250_000_000_000) == 64;
    assert Spacing(3_906_250_000_000_000_000) == 512;
    assert Spacing(31_250_000_000_000_000_000) == 4_096;
    assert Spacing(250_000_000_000_000_000_000) == 32_768;
  }

  // ---- What the server can tell apart -------------------------------------------------------

  /** The float64 nearest to an integer. */
  function FloatOf(n: int): int { if n < 0 then 0 - Float(-n) else Float(n) }

  lemma SplitAtE(a: string, b: string, s: string, t: string)
    requires !HasE(a) && !HasE(b) && a + "e" + s == b + "e" + t
    ensures a == b && s == t
  {
    var x, y := a + "e" + s, b + "e" + t;
    assert x[|a|] == 'e' && y[|b|] == 'e';
    assert (forall i | 0 <= i < |a| :: x[i] == a[i]) && (forall i | 0 <= i < |b| :: y[i] == b[i]);
    assert |a| == |b|;
    assert a == x[..|a|] && b == y[..|b|];
    assert s == x[|a| + 1..] && t == y[|b| + 1..];
  }

  function Zeros(n: nat): string { seq(n, _ => '0') }

  lemma {:induction false} StrippedZeros(ds: string)
    requires ds != ""
    ensures ds == Stripped(ds) + Zeros(|ds| - |Stripped(ds)|)
  {
    if |ds| > 1 && ds[|ds| - 1] == '0' {
      StrippedZeros(ds[..|ds| - 1]);
    }
  }

  lemma MantissaInjective(s: string, t: string)
    requires s != "" && t != "" && Mantissa(s) == Mantissa(t)
    ensures s == t
  {
    assert |s| > 1 ==> s == [Mantissa(s)[0]] + Mantissa(s)[2..];
    assert |t| > 1 ==> t == [Mantissa(t)[0]] + Mantissa(t)[2..];
  }

  lemma MantissaNoE(p: nat)
    ensures !HasE(Mantissa(Stripped(Digits(p))))
  {
    var s := Stripped(Digits(p));
    assert forall i | 0 <= i < |s| :: s[i] == Digits(p)[i];
  }

  lemma SameTail(m: nat, n: nat)
    requires "+" + Digits(m) == "+" + Digits(n)
    ensures m == n
  {
    assert Digits(m) == ("+" + Digits(m))[1..] && Digits(n) == ("+" + Digits(n))[1..];
    DigitsInjective(m, n);
  }

  lemma SameStripped(a: string, b: string)
    requires a != "" && b != "" && |a| == |b| && Stripped(a) == Stripped(b)
    ensures a == b
  {
    StrippedZeros(a);
    StrippedZeros(b);
  }

  lemma ExponentialInjective(p: nat, q: nat)
    requires Exponential(p) == Exponential(q)
    ensures p == q
  {
    MantissaNoE(p);
    MantissaNoE(q);
    SameParts(Digits(p), Digits(q));
    DigitsInjective(p, q);
  }

  /** The mantissa gives the digits up to the zeros, the exponent how many there are. */
  lemma SameParts(a: string, b: string)
    requires a != "" && b != "" && Scientific(a) == Scientific(b)
    requires !HasE(Mantissa(Stripped(a))) && !HasE(Mantissa(Stripped(b)))
    ensures a == b
  {
    SplitAtE(Mantissa(Stripped(a)), Mantissa(Stripped(b)), "+" + Digits(|a| - 1), "+" + Digits(|b| - 1));
    SameTail(|a| - 1, |b| - 1);
    MantissaInjective(Stripped(a), Stripped(b));
    SameStripped(a, b);
  }

  lemma SameDigitsSameFloat(m: nat, n: nat)
    requires GoDigits(m) == GoDigits(n)
    ensures Float(m) == Float(n)
  {
    var f, g := Float(m), Float(n);
    FloatIsFloat(m);
    FloatIsFloat(n);
    ShortestReadsBack(f, |Digits(f)|);
    ShortestReadsBack(g, |Digits(g)|);
    ExponentialHasE(Printed(f));
    ExponentialHasE(Printed(g));
    assert !HasE(Digits(Printed(f))) && !HasE(Digits(Printed(g)));
    if f < TenTo21 {
      DigitsInjective(Printed(f), Printed(g));
    } else {
      ExponentialInjective(Printed(f), Printed(g));
    }
  }

  lemma SameTextSameFloat(m: int, n: int)
    requires GoNumber(m) == GoNumber(n)
    ensures FloatOf(m) == FloatOf(n)
  {
    SameSign(m, n);
    SameDigits(m, n);
    SameDigitsSameFloat(Abs(m), Abs(n));
    SameUpToSign(m, n);
  }

  function Abs(n: int): nat { if n < 0 then -n else n }

  lemma SameUpToSign(m: int, n: int)
    requires (m < 0 <==> n < 0) && Float(Abs(m)) == Float(Abs(n))
    ensures FloatOf(m) == FloatOf(n)
  {
  }

  lemma SameDigits(m: int, n: int)
    requires GoNumber(m) == GoNumber(n) && (m < 0 <==> n < 0)
    ensures GoDigits(Abs(m)) == GoDigits(Abs(n))
  {
    if m < 0 { SameBehindSign(GoDigits(-m), GoDigits(-n)); }
  }

  lemma SameSign(m: int, n: int)
    requires GoNumber(m) == GoNumber(n)
    ensures m < 0 <==> n < 0
  {
    SignShows(m);
    SignShows(n);
  }

  lemma SameBehindSign(s: string, t: string)
    requires "-" + s == "-" + t
    ensures s == t
  {
    assert ("-" + s)[1..] == s && ("-" + t)[1..] == t;
  }

  lemma SameFloatSameText(m: int, n: int)
    requires FloatOf(m) == FloatOf(n)
    ensures GoNumber(m) == GoNumber(n)
  {
    SignShows(m);
    SignShows(n);
    var f := if m < 0 then Float(-m) else Float(m);
    assert GoNumber(m) == if m < 0 then "-" + TextOf(f) else TextOf(f);
    assert GoNumber(n) == if n < 0 then "-" + TextOf(f) else TextOf(f);
  }

  /** The server prints two integers alike if and only if they are the same float64. */
  lemma SameTextIffSameFloat(m: int, n: int)
    ensures GoNumber(m) == GoNumber(n) <==> FloatOf(m) == FloatOf(n)
  {
    if GoNumber(m) == GoNumber(n) {
      SameTextSameFloat(m, n);
    } else if FloatOf(m) == FloatOf(n) {
      SameFloatSameText(m, n);
    }
  }

  /** The sign stands in front, and rounding keeps it. */
  lemma SignShows(n: int)
    ensures n < 0 <==> GoNumber(n)[0] == '-'
    ensures (n < 0 <==> FloatOf(n) < 0) && (n == 0 <==> FloatOf(n) == 0)
  {
    var a := if n < 0 then -n else n;
    if a <= TwoTo53 {
      SmallFloat(a);
    } else {
      var m := FloatWithin(a);
      MulMono(0, m, Spacing(a));
    }
    DigitFirst(a);
  }

  lemma DigitFirst(n: nat)
    ensures GoDigits(n)[0] != '-'
  {
    var p := Printed(Float(n));
    assert Stripped(Digits(p))[0] == Digits(p)[0];
  }
}
