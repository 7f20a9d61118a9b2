/** The decimal the server prints for a float64 is the shortest that reads back as it:
    no other has more zeros at its end, and none with as many is nearer. */
module ShortestDecimal {
  import opened Decimal
  import opened GoNumbers

  // ---- Rounding keeps the order ----------------------------------------------------------

  lemma {:induction false} SpacingGrows(n: nat, m: nat)
    requires n <= m
    ensures Spacing(n) == Spacing(m) || 2 * Spacing(n) <= Spacing(m)
    decreases m
  {
    if n >= TwoTo53 { SpacingGrows(n / 2, m / 2); }
  }

  lemma NearestGrows(n: nat, m: nat, u: nat)
    requires n <= m && u > 0
    ensures NearestMultiple(n, u) <= NearestMultiple(m, u)
  {
    var q, p := n / u, m / u;
    assert q * u <= n < (q + 1) * u && p * u <= m < (p + 1) * u;
    MulMono(p + 1, q, u);
    MulMono(q + 1, p, u);
    assert q <= p;
  }

  lemma FloatBounds(n: nat)
    ensures Float(n) <= TwoTo53 * Spacing(n)
    ensures n >= TwoTo53 ==> TwoTo52 * Spacing(n) <= Float(n)
  {
    if n < TwoTo53 {
      SmallFloat(n);
    } else {
      var m := FloatWithin(n);
      MulMono(TwoTo52, m, Spacing(n));
      MulMono(m, TwoTo53, Spacing(n));
    }
  }

  lemma FloatGrows(n: nat, m: nat)
    requires n <= m
    ensures Float(n) <= Float(m)
  {
    SpacingGrows(n, m);
    if Spacing(n) == Spacing(m) {
      NearestGrows(n, m, Spacing(n));
    } else {
      FloatBounds(n);
      FloatBounds(m);
    }
  }

  /** Rounding takes off less than half. */
  lemma FloatHalf(n: nat)
    ensures 2 * Float(n) >= n
  {
    if n < TwoTo53 {
      SmallFloat(n);
    } else {
      FloatBounds(n);
      SpacingBounds(n);
    }
  }

  // ---- The two neighbours are enough ------------------------------------------------------

  lemma MultipleOutside(p: nat, n: nat, u: nat)
    requires u > 0 && p % u == 0
    ensures p <= (n / u) * u || (n / u + 1) * u <= p
  {
    var m, q := p / u, n / u;
    assert p == m * u;
    MulMono(m, q, u);
    MulMono(q + 1, m, u);
  }

  /** If any multiple of u reads back as f, one of the two beside f does. */
  lemma NeighbourReadsBack(f: nat, p: nat, u: nat)
    requires u > 0 && Float(f) == f && Float(p) == f && p % u == 0
    ensures Float(NearestMultiple(f, u)) == f || Float(OtherMultiple(f, u)) == f
  {
    var low, high := (f / u) * u, (f / u + 1) * u;
    Neighbours(f, u);
    MultipleOutside(p, f, u);
    if p <= low {
      FloatGrows(p, low);
      FloatGrows(low, f);
    } else {
      FloatGrows(f, high);
      FloatGrows(high, p);
    }
  }

  // ---- As many zeros as there can be --------------------------------------------------------

  predicate EndsInZeros(p: nat, k: nat) { p % Power10(k) == 0 }

  lemma {:induction false} FewerZeros(p: nat, k: nat, j: nat)
    requires EndsInZeros(p, j) && k <= j
    ensures EndsInZeros(p, k)
    decreases j
  {
    if k < j {
      OneZeroLess(p, Power10(j - 1));
      FewerZeros(p, k, j - 1);
    }
  }

  lemma OneZeroLess(p: nat, u: nat)
    requires u > 0 && p % (10 * u) == 0
    ensures p % u == 0
  {
    var m := p / (10 * u);
    assert p == m * (10 * u) == (10 * m) * u;
    MultipleIs(10 * m, u);
  }

  lemma CandidatesEndInZeros(f: nat, k: nat)
    ensures EndsInZeros(NearestMultiple(f, Power10(k)), k) && EndsInZeros(OtherMultiple(f, Power10(k)), k)
  {
    AreMultiples(f, Power10(k));
  }

  lemma AreMultiples(f: nat, u: nat)
    requires u > 0
    ensures NearestMultiple(f, u) % u == 0 && OtherMultiple(f, u) % u == 0
  {
    Neighbours(f, u);
    MultipleIs(f / u, u);
    MultipleIs(f / u + 1, u);
  }

  lemma MultipleIs(m: nat, u: nat)
    requires u > 0
    ensures (m * u) % u == 0
  {
    MultipleStays(m, u);
  }

  /** Wherever the search starts, it ends with as many zeros as any number that reads
      back as f. */
  lemma {:induction false} SearchFinds(f: nat, top: nat, p: nat, k: nat)
    requires Float(f) == f && Float(p) == f && EndsInZeros(p, k) && k <= top
    ensures EndsInZeros(Shortest(f, top), k)
    decreases top
  {
    var u := Power10(top);
    CandidatesEndInZeros(f, top);
    if top > 0 {
      if Float(NearestMultiple(f, u)) == f || Float(OtherMultiple(f, u)) == f {
        FewerZeros(Shortest(f, top), k, top);
      } else {
        if k == top { NeighbourReadsBack(f, p, u); }
        SearchFinds(f, top - 1, p, k);
      }
    }
  }

  lemma {:induction false} DigitsBelow(n: nat)
    ensures n < Power10(|Digits(n)|)
  {
    if n >= 10 { DigitsBelow(n / 10); }
  }

  lemma {:induction false} PowersGrow(k: nat, j: nat)
    requires k <= j
    ensures Power10(k) <= Power10(j)
    decreases j
  {
    if k < j { PowersGrow(k, j - 1); }
  }

  lemma NotMultiple(p: nat, u: nat)
    requires 0 < p < u
    ensures p % u != 0
  {
  }

  /** A number with more zeros than f has digits does not read back as f. */
  lemma NotLonger(f: nat, p: nat, k: nat)
    requires f > 0 && Float(p) == f && EndsInZeros(p, k)
    ensures k <= |Digits(f)|
  {
    var n := |Digits(f)|;
    DigitsBelow(f);
    FloatHalf(p);
    if k > n {
      PowersGrow(n + 1, k);
      NotMultiple(p, Power10(k));
    }
  }

  /** No decimal that reads back as f ends in more zeros than the printed one. */
  lemma PrintedIsShortest(f: nat, p: nat, k: nat)
    requires Float(f) == f && Float(p) == f && EndsInZeros(p, k)
    ensures Float(Printed(f)) == f && EndsInZeros(Printed(f), k)
  {
    ShortestReadsBack(f, |Digits(f)|);
    if f == 0 {
      PrintedIsSelf(0);
    } else {
      NotLonger(f, p, k);
      SearchFinds(f, |Digits(f)|, p, k);
    }
  }

  // ---- And none with as many is nearer --------------------------------------------------------

  function Distance(p: nat, f: nat): nat { if p < f then f - p else p - f }

  lemma NearestIsNear(f: nat, p: nat, u: nat)
    requires u > 0 && p % u == 0
    ensures Distance(NearestMultiple(f, u), f) <= Distance(p, f)
  {
    var q, r := f / u, f % u;
    MultipleOutside(p, f, u);
    assert f == q * u + r && (q + 1) * u == q * u + u;
  }

  /** If the nearest multiple does not read back, all that do are beyond the other. */
  lemma OtherIsNear(f: nat, p: nat, u: nat)
    requires u > 0 && Float(f) == f && Float(p) == f && p % u == 0 && Float(NearestMultiple(f, u)) != f
    ensures Distance(OtherMultiple(f, u), f) <= Distance(p, f)
  {
    var low, high := (f / u) * u, (f / u + 1) * u;
    Neighbours(f, u);
    MultipleOutside(p, f, u);
    if p <= low {
      FloatGrows(p, low);
      FloatGrows(low, f);
    } else {
      FloatGrows(f, high);
      FloatGrows(high, p);
    }
  }

  lemma {:induction false} FoundAt(f: nat, top: nat, k: nat)
    requires k <= top && !EndsInZeros(Shortest(f, top), k + 1)
    ensures Shortest(f, top) == Shortest(f, k)
    decreases top
  {
    var u := Power10(top);
    CandidatesEndInZeros(f, top);
    if k < top {
      if Float(NearestMultiple(f, u)) == f || Float(OtherMultiple(f, u)) == f {
        FewerZeros(Shortest(f, top), k + 1, top);
      } else {
        FoundAt(f, top - 1, k);
      }
    }
  }

  lemma FoundIsNear(f: nat, p: nat, k: nat)
    requires Float(f) == f && Float(p) == f && EndsInZeros(p, k)
    ensures Distance(Shortest(f, k), f) <= Distance(p, f)
  {
    var u := Power10(k);
    NeighbourReadsBack(f, p, u);
    if Float(NearestMultiple(f, u)) == f {
      NearestIsNear(f, p, u);
    } else {
      OtherIsNear(f, p, u);
    }
  }

  /** Of the decimals that read back as f and end in as many zeros as any does, the
      printed one is nearest to f. */
  lemma PrintedIsNearest(f: nat, p: nat, k: nat)
    requires Float(f) == f && Float(p) == f && EndsInZeros(p, k) && !EndsInZeros(Printed(f), k + 1)
    ensures Distance(Printed(f), f) <= Distance(p, f)
  {
    if f == 0 {
      PrintedIsSelf(0);
    } else {
      NotLonger(f, p, k);
      FoundAt(f, |Digits(f)|, k);
      FoundIsNear(f, p, k);
    }
  }
}
