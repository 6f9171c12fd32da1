/** The float64 arithmetic of the threshold checks: a count and a limit are
    converted to float64, divided, and the quotient is compared with 1.0 and
    with the warning ratio. Rounding is binary64 round-to-nearest, ties to even
    (section 4.3.1 of IEEE 754-2019), with gradual underflow. Values here stay
    far below the overflow threshold, so infinities do not occur. */
module Float {
  import opened Basics

  /** All magnitudes below are in units of the smallest subnormal, 2^-1074, which
      makes every float64 an integer; one is Pow2(1074) of them. */
  function Pow2(n: nat): (r: int)
    ensures 1 <= r
  {
    if n == 0 then 1 else 2 * Pow2(n - 1)
  }

  function RoundEven(x: real): (r: int)
    requires 0.0 <= x
    ensures 0 <= r
  {
    var f := x.Floor;
    if x - f as real < 0.5 || (x - f as real == 0.5 && f % 2 == 0) then f else f + 1
  }

  /** The float64 nearest to a scaled magnitude: 53 significant bits are kept. */
  function Round(x: real): (r: int)
    requires 0.0 <= x
    ensures 0 <= r
    decreases x.Floor
  {
    if x < TWO_53 as real then RoundEven(x) else 2 * Round(x / 2.0)
  }

  /** The scaled magnitudes float64 can represent. */
  predicate IsDouble(n: nat) {
    n < TWO_53 || (n % 2 == 0 && IsDouble(n / 2))
  }

  // ---- what rounding guarantees -------------------------------------------

  lemma {:induction false} RoundIsDouble(x: real)
    requires 0.0 <= x
    ensures IsDouble(Round(x))
    decreases x.Floor
  {
    if x < TWO_53 as real {
      assert Round(x) <= TWO_53;
      assert IsDouble(TWO_53 / 2);
    } else {
      RoundIsDouble(x / 2.0);
    }
  }

  lemma {:induction false} RoundExact(n: nat)
    requires IsDouble(n)
    ensures Round(n as real) == n
  {
    if n >= TWO_53 {
      RoundExact(n / 2);
      assert n as real / 2.0 == (n / 2) as real;
    }
  }

  lemma {:induction false} RoundMonotone(x: real, y: real)
    requires 0.0 <= x <= y
    ensures Round(x) <= Round(y)
    decreases y.Floor
  {
    if x >= TWO_53 as real {
      RoundMonotone(x / 2.0, y / 2.0);
    } else if y >= TWO_53 as real {
      RoundMonotone((TWO_53 / 2) as real, y / 2.0);
      assert Round((TWO_53 / 2) as real) == TWO_53 / 2;
    }
  }

  function Distance(x: real, n: int): real {
    if x < n as real then n as real - x else x - n as real
  }

  lemma RoundEvenNearest(x: real, d: int)
    requires 0.0 <= x
    ensures Distance(x, RoundEven(x)) <= Distance(x, d)
  {
    var f := x.Floor;
    if d <= f {
      assert d as real <= f as real;
    } else {
      assert (f + 1) as real <= d as real;
    }
  }

  lemma DistanceHalf(x: real, n: int)
    ensures Distance(x, 2 * n) == 2.0 * Distance(x / 2.0, n)
  {
  }

  /** The result is a nearest representable value. */
  lemma {:induction false} RoundNearest(x: real, d: nat)
    requires 0.0 <= x && IsDouble(d)
    ensures Distance(x, Round(x)) <= Distance(x, d)
    decreases x.Floor
  {
    if x < TWO_53 as real {
      RoundEvenNearest(x, d);
    } else {
      var h := if d >= TWO_53 then d / 2 else TWO_53 / 2;
      RoundNearest(x / 2.0, h);
      DistanceHalf(x, Round(x / 2.0));
      DistanceHalf(x, h);
      assert Distance(x, 2 * h) <= Distance(x, d);
    }
  }

  /** Two representable values differ by more than one part in 2^53. */
  lemma {:induction false} DoubleGap(a: nat, b: nat)
    requires IsDouble(a) && IsDouble(b) && b < a
    ensures b < (a - b) * TWO_53
  {
    if b >= TWO_53 {
      DoubleGap(a / 2, b / 2);
    }
  }

  lemma {:induction false} ScaledDouble(m: nat, k: nat)
    requires m < TWO_53
    ensures IsDouble(m * Pow2(k))
  {
    if k > 0 {
      ScaledDouble(m, k - 1);
      assert m * Pow2(k) == 2 * (m * Pow2(k - 1));
    }
  }

  // ---- quotients --------------------------------------------------------------

  /** a / b in scaled units. */
  function Quotient(a: int, b: nat, one: nat): real
    requires 0 < b
  {
    a as real / b as real * one as real
  }

  lemma QuotientAtMostOne(a: nat, b: nat, one: nat)
    requires 0 < b && a <= b
    ensures 0.0 <= Quotient(a, b, one) <= one as real
  {
    var q := a as real / b as real;
    assert q * b as real == a as real;
    assert 0.0 <= q <= 1.0;
    assert q * one as real <= one as real;
  }

  const HALF: real := 4503599627370496.0

  lemma QuotientGap(a: nat, b: nat)
    requires 0 < b < (a - b) * TWO_53
    ensures (a as real / b as real - 1.0) * HALF > 0.5
  {
    var e := a as real / b as real - 1.0;
    assert e * b as real == (a - b) as real;
    assert (a - b) as real * HALF > 0.5 * b as real;
    var y := e * HALF;
    assert y * b as real == (a - b) as real * HALF;
    if y <= 0.5 {
      MulMonotone(y, 0.5, b as real);
    }
  }

  lemma MulMonotone(x: real, y: real, z: real)
    requires x <= y && 0.0 <= z
    ensures x * z <= y * z
  {
    assert (y - x) * z >= 0.0;
  }

  lemma MulStrict(x: real, y: real, z: real)
    requires x < y && 0.0 < z
    ensures x * z < y * z
  {
    assert (y - x) * z > 0.0;
  }

  lemma RoundPastMidpoint(x: real, one: nat, step: nat)
    requires IsDouble(one + step) && 0 < step
    requires x > one as real + step as real / 2.0
    ensures Round(x) > one
  {
    RoundNearest(x, one + step);
  }

  lemma PastMidpointOf(q: real, one: real, s: real)
    requires (q - 1.0) * HALF > 0.5 && 0.0 < s && one == HALF * s
    ensures q * one > one + s / 2.0
  {
    var bound := 1.0 + 0.5 / HALF;
    MulStrict(bound, q, one);
    assert bound * one == one + s / 2.0;
  }

  lemma HalfTimes(one: nat, step: nat)
    requires one == TWO_53 / 2 * step
    ensures one as real == HALF * step as real
  {
  }

  lemma QuotientPast(a: nat, b: nat, one: nat, step: nat)
    requires 0 < b && (a as real / b as real - 1.0) * HALF > 0.5
    requires 0 < step && one == TWO_53 / 2 * step
    ensures Quotient(a, b, one) > one as real + step as real / 2.0
  {
    HalfTimes(one, step);
    PastMidpointOf(a as real / b as real, one as real, step as real);
  }

  lemma QuotientAbove(a: nat, b: nat, one: nat, step: nat)
    requires 0 < b < a && IsDouble(a) && IsDouble(b)
    requires 0 < step && one == TWO_53 / 2 * step && IsDouble(one + step)
    ensures 0.0 <= Quotient(a, b, one)
    ensures Round(Quotient(a, b, one)) > one
  {
    DoubleGap(a, b);
    QuotientGap(a, b);
    QuotientPast(a, b, one, step);
    RoundPastMidpoint(Quotient(a, b, one), one, step);
  }

  lemma OneMore(k: nat, s: nat)
    ensures (k + 1) * s == k * s + s
  {
  }

  lemma Halfway(bits: nat)
    requires bits >= 52
    ensures Pow2(bits) == TWO_53 / 2 * Pow2(bits - 52)
    ensures IsDouble(Pow2(bits)) && IsDouble(Pow2(bits) + Pow2(bits - 52))
  {
    Shift52(bits - 52);
    ScaledDouble(TWO_53 / 2, bits - 52);
    ScaledDouble(TWO_53 / 2 + 1, bits - 52);
    OneMore(TWO_53 / 2, Pow2(bits - 52));
  }

  /** Rounding never hides that one float64 exceeds another. */
  lemma QuotientAboveOne(a: nat, b: nat, bits: nat)
    requires 0 < b && bits >= 52
    requires IsDouble(a) && IsDouble(b)
    ensures 0.0 <= Quotient(a, b, Pow2(bits))
    ensures Round(Quotient(a, b, Pow2(bits))) > Pow2(bits) <==> a > b
  {
    Halfway(bits);
    if a <= b {
      QuotientAtMostOne(a, b, Pow2(bits));
      RoundMonotone(Quotient(a, b, Pow2(bits)), Pow2(bits) as real);
      RoundExact(Pow2(bits));
    } else {
      QuotientAbove(a, b, Pow2(bits), Pow2(bits - 52));
    }
  }

  lemma Shift13(j: nat)
    ensures Pow2(j + 13) == 8192 * Pow2(j)
  {
    Shift4(j);
    Shift4(j + 4);
    Shift4(j + 8);
    assert Pow2(j + 13) == 2 * Pow2(j + 12);
  }

  lemma Shift4(j: nat)
    ensures Pow2(j + 4) == 16 * Pow2(j)
  {
    assert Pow2(j + 4) == 2 * Pow2(j + 3);
    assert Pow2(j + 2) == 2 * Pow2(j + 1);
  }

  lemma Shift52(j: nat)
    ensures Pow2(j + 52) == TWO_53 / 2 * Pow2(j)
  {
    Shift13(j);
    Shift13(j + 13);
    Shift13(j + 26);
    Shift13(j + 39);
  }

  // ---- the threshold test ------------------------------------------------------

  /** float64(n) for an integer n, scaled by 2^bits. */
  function OfInt(n: int, bits: nat): int {
    if n < 0 then -Magnitude(-n, bits) else Magnitude(n, bits)
  }

  function Magnitude(n: nat, bits: nat): (r: int)
    ensures 0 <= r
  {
    Round((n * Pow2(bits)) as real)
  }

  /** float64(count) / float64(limit), scaled. */
  function Ratio(count: int, limit: int, bits: nat): (r: int)
    requires 0 < OfInt(limit, bits)
  {
    var q := Quotient(OfInt(count, bits), OfInt(limit, bits), Pow2(bits));
    if q < 0.0 then -Round(-q) else Round(q)
  }

  datatype Severity = Fine | Warning | Cutoff

  function Rank(s: Severity): nat {
    match s case Fine => 0 case Warning => 1 case Cutoff => 2
  }

  /** The three-way switch of the threshold checks for one count and one
      positive limit; warn is the configured warning ratio. */
  function Judge(count: int, limit: int, warn: real): Severity
    requires 0 < limit
  {
    JudgeScaled(count, limit, warn, 1074)
  }

  function JudgeScaled(count: int, limit: int, warn: real, bits: nat): Severity
    requires 0 < limit
  {
    OfIntPositive(limit, bits);
    var ratio := Ratio(count, limit, bits);
    if ratio > Pow2(bits) then Cutoff
    else if ratio as real >= warn * Pow2(bits) as real then Warning
    else Fine
  }

  lemma OfIntPositive(limit: int, bits: nat)
    requires 0 < limit
    ensures 0 < OfInt(limit, bits) && IsDouble(OfInt(limit, bits))
  {
    var x := limit * Pow2(bits);
    assert x >= 1;
    RoundMonotone(1.0, x as real);
    RoundExact(1);
    RoundIsDouble(x as real);
  }

  lemma OfIntMonotone(m: int, n: int, bits: nat)
    requires m <= n
    ensures OfInt(m, bits) <= OfInt(n, bits)
  {
    if 0 <= m {
      MagnitudeMonotone(m, n, bits);
    } else if n < 0 {
      MagnitudeMonotone(-n, -m, bits);
    }
  }

  lemma MagnitudeMonotone(m: nat, n: nat, bits: nat)
    requires m <= n
    ensures Magnitude(m, bits) <= Magnitude(n, bits)
  {
    assert m * Pow2(bits) <= n * Pow2(bits);
    RoundMonotone((m * Pow2(bits)) as real, (n * Pow2(bits)) as real);
  }

  lemma OfIntExact(n: nat, bits: nat)
    requires n <= TWO_53
    ensures OfInt(n, bits) == n * Pow2(bits)
  {
    if n < TWO_53 {
      ScaledDouble(n, bits);
    } else {
      ScaledDouble(TWO_53 / 2, bits + 1);
      assert TWO_53 / 2 * Pow2(bits + 1) == n * Pow2(bits);
    }
    RoundExact(n * Pow2(bits));
  }

  lemma ConvertedExceeds(count: int, limit: int, warn: real, bits: nat)
    requires 0 < limit && bits >= 52
    ensures JudgeScaled(count, limit, warn, bits) == Cutoff <==> OfInt(count, bits) > OfInt(limit, bits)
  {
    OfIntPositive(limit, bits);
    var a, b := OfInt(count, bits), OfInt(limit, bits);
    if 0 < count {
      OfIntPositive(count, bits);
      QuotientAboveOne(a, b, bits);
    } else {
      OfIntMonotone(count, 0, bits);
      OfIntExact(0, bits);
      NonPositiveQuotient(a, b, Pow2(bits));
    }
  }

  lemma NonPositiveQuotient(a: int, b: nat, one: nat)
    requires a <= 0 < b
    ensures Quotient(a, b, one) <= 0.0
  {
    var q := a as real / b as real;
    assert q * b as real == a as real;
    assert q <= 0.0;
  }

  /** For every count and limit the verdict is the comparison of the two
      converted numbers: the division adds no further error. So the check
      misses an excess exactly when both numbers convert to the same float64. */
  lemma CutoffIffConvertedExceeds(count: int, limit: int, warn: real)
    requires 0 < limit
    ensures Judge(count, limit, warn) == Cutoff <==> OfInt(count, 1074) > OfInt(limit, 1074)
    ensures (Judge(count, limit, warn) == Cutoff <==> count > limit) <==>
            !(count > limit && OfInt(count, 1074) == OfInt(limit, 1074))
  {
    ConvertedExceeds(count, limit, warn, 1074);
    if count <= limit {
      OfIntMonotone(count, limit, 1074);
    } else {
      OfIntMonotone(limit, count, 1074);
    }
  }

  /** Below 2^53 the float comparison is the integer one, whatever the count. */
  lemma CutoffExact(count: int, limit: int, warn: real)
    requires 0 < limit < TWO_53
    ensures Judge(count, limit, warn) == Cutoff <==> count > limit
  {
    CutoffExactScaled(count, limit, warn, 1074);
  }

  lemma CutoffExactScaled(count: int, limit: int, warn: real, bits: nat)
    requires 0 < limit < TWO_53 && bits >= 52
    ensures JudgeScaled(count, limit, warn, bits) == Cutoff <==> count > limit
  {
    ConvertedExceeds(count, limit, warn, bits);
    if count > limit {
      OfIntMonotone(limit + 1, count, bits);
      OfIntExact(limit + 1, bits);
      OfIntExact(limit, bits);
      assert (limit + 1) * Pow2(bits) == limit * Pow2(bits) + Pow2(bits);
    } else {
      OfIntMonotone(count, limit, bits);
    }
  }

  lemma OneBeyond(b: nat, u: nat, r: nat)
    requires b == 2 * TWO_53 * u && 0 < u
    requires IsDouble(b) && IsDouble(r)
    requires Distance((b + u) as real, r) <= u as real
    ensures r == b
  {
    if r > b {
      DoubleGap(r, b);
    }
  }

  lemma OfIntLost(bits: nat)
    ensures OfInt(2 * TWO_53 + 1, bits) == OfInt(2 * TWO_53, bits)
  {
    var u := Pow2(bits);
    var b := 2 * TWO_53 * u;
    ScaledDouble(TWO_53 / 2, bits + 2);
    assert Pow2(bits + 2) == 2 * Pow2(bits + 1) == 4 * u;
    assert (2 * TWO_53 + 1) * u == b + u;
    RoundExact(b);
    RoundNearest((b + u) as real, b);
    RoundIsDouble((b + u) as real);
    OneBeyond(b, u, Round((b + u) as real));
  }

  /** From 2^54 on the check can miss an excess: 2^54 + 1 converts to 2^54. */
  lemma CutoffInexact(warn: real)
    ensures Judge(2 * TWO_53 + 1, 2 * TWO_53, warn) != Cutoff
  {
    ConvertedExceeds(2 * TWO_53 + 1, 2 * TWO_53, warn, 1074);
    OfIntLost(1074);
  }

  lemma RatioMonotone(c1: int, c2: int, limit: int, bits: nat)
    requires 0 < OfInt(limit, bits) && OfInt(c1, bits) <= OfInt(c2, bits)
    ensures Ratio(c1, limit, bits) <= Ratio(c2, limit, bits)
  {
    QuotientMonotone(OfInt(c1, bits), OfInt(c2, bits), OfInt(limit, bits), Pow2(bits));
    var q1 := Quotient(OfInt(c1, bits), OfInt(limit, bits), Pow2(bits));
    var q2 := Quotient(OfInt(c2, bits), OfInt(limit, bits), Pow2(bits));
    if 0.0 <= q1 {
      RoundMonotone(q1, q2);
    } else if q2 < 0.0 {
      RoundMonotone(-q2, -q1);
    }
  }

  lemma QuotientMonotone(a1: int, a2: int, b: nat, one: nat)
    requires a1 <= a2 && 0 < b
    ensures Quotient(a1, b, one) <= Quotient(a2, b, one)
  {
    var q1, q2 := a1 as real / b as real, a2 as real / b as real;
    assert q1 * b as real == a1 as real && q2 * b as real == a2 as real;
    assert (q2 - q1) * b as real >= 0.0;
    assert q1 <= q2;
    assert (q2 - q1) * one as real >= 0.0;
  }

  /** Severity never falls when the count grows, for any warning ratio. */
  lemma SeverityMonotone(c1: int, c2: int, limit: int, warn: real)
    requires 0 < limit && c1 <= c2
    ensures Rank(Judge(c1, limit, warn)) <= Rank(Judge(c2, limit, warn))
  {
    OfIntPositive(limit, 1074);
    OfIntMonotone(c1, c2, 1074);
    RatioMonotone(c1, c2, limit, 1074);
  }
}
