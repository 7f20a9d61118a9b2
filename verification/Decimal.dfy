/** Decimal text of integers, as Python's str(int) and Go's %d print them.
    Used by the canonical JSON printer and by generated ids ("job-7", "c3"). */
module Decimal {

  predicate IsDigit(c: char) { '0' <= c <= '9' }

  function DigitChar(d: nat): (c: char)
    requires d < 10
    ensures IsDigit(c) && c as int == '0' as int + d
  {
    ('0' as int + d) as char
  }

  /** Decimal digits of a natural number, most significant first. */
  function Digits(n: nat): (s: string)
    ensures |s| > 0
    ensures forall i :: 0 <= i < |s| ==> IsDigit(s[i])
  {
    if n < 10 then [DigitChar(n)] else Digits(n / 10) + [DigitChar(n % 10)]
  }

  function Show(n: int): (s: string)
    ensures |s| > 0
    ensures s[0] == '-' || IsDigit(s[0])
    ensures forall i :: 1 <= i < |s| ==> IsDigit(s[i])
  {
    if n < 0 then "-" + Digits(-n) else Digits(n)
  }

  lemma {:induction false} DigitsInjective(m: nat, n: nat)
    requires Digits(m) == Digits(n)
    ensures m == n
  {
    var s, t := Digits(m), Digits(n);
    if m >= 10 && n >= 10 {
      assert s[..|s| - 1] == Digits(m / 10) && t[..|t| - 1] == Digits(n / 10);
      assert s[|s| - 1] == DigitChar(m % 10) && t[|t| - 1] == DigitChar(n % 10);
      DigitsInjective(m / 10, n / 10);
    } else {
      assert m < 10 ==> |s| == 1;
      assert n < 10 ==> |t| == 1;
      assert s[0] == t[0];
    }
  }

  lemma ShowInjective(m: int, n: int)
    requires Show(m) == Show(n)
    ensures m == n
  {
    var s, t := Show(m), Show(n);
    assert m < 0 <==> s[0] == '-';
    assert n < 0 <==> t[0] == '-';
    if m < 0 {
      assert s[1..] == Digits(-m) && t[1..] == Digits(-n);
      DigitsInjective(-m, -n);
    } else {
      DigitsInjective(m, n);
    }
  }

  // ---- Numbers in JSON text -------------------------------------------------------------

  predicate NumberChar(c: char) { IsDigit(c) || c in {'-', '+', '.', 'e', 'E'} }

  /** The text of a number, whole or not. */
  predicate IsToken(s: string) {
    s != "" && (s[0] == '-' || IsDigit(s[0])) && forall i | 0 <= i < |s| :: NumberChar(s[i])
  }

  type Token = s: string | IsToken(s) witness "0"

  lemma RunEndsAlike(x: string, y: string, s: string, t: string)
    requires x + s == y + t
    requires s != "" ==> !NumberChar(s[0])
    requires forall i | 0 <= i < |y| :: NumberChar(y[i])
    ensures |x| >= |y|
  {
    assert s != "" ==> (x + s)[|x|] == s[0];
    assert forall i | 0 <= i < |y| :: NumberChar((y + t)[i]);
    assert |x| + |s| == |y| + |t|;
  }

  /** Two numbers printed in front of text that does not go on like a number can be
      told apart: the longest run of number characters fixes where the number ends. */
  lemma TokenPrefix(x: Token, y: Token, s: string, t: string)
    requires x + s == y + t
    requires s != "" ==> !NumberChar(s[0])
    requires t != "" ==> !NumberChar(t[0])
    ensures x == y && s == t
  {
    RunEndsAlike(x, y, s, t);
    RunEndsAlike(y, x, t, s);
    var text := x + s;
    assert x == text[..|x|] == y;
    assert s == text[|x|..] == t;
  }
}
