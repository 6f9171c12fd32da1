/** The largest integer a limit cannot be told from after conversion to float64:
    the counts a check really cuts off. */
module FloatReach {
  import opened Basics
  import opened Float

  lemma OfIntDoubled(n: nat, bits: nat)
    requires 0 < n && bits >= 53
    ensures OfInt(2 * n, bits) == 2 * OfInt(n, bits)
  {
    BitsOrMore(bits);
    var x := n * Pow2(bits);
    assert x >= TWO_53;
    assert (2 * n) * Pow2(bits) == 2 * x;
    assert (2 * x) as real / 2.0 == x as real;
  }

  lemma BitsOrMore(bits: nat)
    requires bits >= 53
    ensures Pow2(bits) >= TWO_53
  {
    if bits > 53 {
      BitsOrMore(bits - 1);
    } else {
      Halfway(52);
    }
  }

  /** r is the largest integer that converts to the same float64 as the limit. */
  predicate IsReach(limit: nat, bits: nat, r: nat) {
    limit <= r && OfInt(r, bits) == OfInt(limit, bits) < OfInt(r + 1, bits)
  }

  lemma {:induction false} ReachFrom(limit: nat, n: nat, bits: nat) returns (r: nat)
    requires 0 < limit <= n < 2 * limit && bits >= 53 && OfInt(n, bits) == OfInt(limit, bits)
    ensures IsReach(limit, bits, r)
    decreases 2 * limit - n
  {
    OfIntMonotone(n, n + 1, bits);
    if OfInt(n + 1, bits) > OfInt(limit, bits) {
      r := n;
    } else {
      OfIntDoubled(limit, bits);
      OfIntPositive(limit, bits);
      r := ReachFrom(limit, n + 1, bits);
    }
  }

  ghost function ReachAt(limit: nat, bits: nat): nat {
    if exists r: nat :: IsReach(limit, bits, r) then
      var r: nat :| IsReach(limit, bits, r);
      r
    else limit
  }

  lemma ReachAtIs(limit: nat, bits: nat)
    requires 0 < limit && bits >= 53
    ensures IsReach(limit, bits, ReachAt(limit, bits))
  {
    var r := ReachFrom(limit, limit, bits);
    assert IsReach(limit, bits, r);
  }

  /** The largest integer that converts to the same float64 as the limit. */
  ghost function Reach(limit: nat): nat
    requires 0 < limit
  {
    ReachAt(limit, 1074)
  }

  /** For every limit the check cuts off exactly beyond its reach. */
  lemma CutoffBeyondReach(count: int, limit: nat, warn: real)
    requires 0 < limit
    ensures Judge(count, limit, warn) == Cutoff <==> count > Reach(limit)
    ensures limit <= Reach(limit)
  {
    BeyondReach(count, limit, warn, 1074);
  }

  lemma BeyondReach(count: int, limit: nat, warn: real, bits: nat)
    requires 0 < limit && bits >= 53
    ensures JudgeScaled(count, limit, warn, bits) == Cutoff <==> count > ReachAt(limit, bits)
    ensures limit <= ReachAt(limit, bits)
  {
    ReachAtIs(limit, bits);
    ConvertedExceeds(count, limit, warn, bits);
    var r := ReachAt(limit, bits);
    if count > r {
      OfIntMonotone(r + 1, count, bits);
    } else {
      OfIntMonotone(count, r, bits);
    }
  }

  /** Below 2^53 the reach of a limit is the limit. */
  lemma ReachExact(limit: nat)
    requires 0 < limit < TWO_53
    ensures Reach(limit) == limit
  {
    ReachExactAt(limit, 1074);
  }

  lemma ReachExactAt(limit: nat, bits: nat)
    requires 0 < limit < TWO_53 && bits >= 53
    ensures ReachAt(limit, bits) == limit
  {
    var r := ReachAt(limit, bits);
    ReachAtIs(limit, bits);
    NextExact(limit, bits);
    if r > limit {
      OfIntMonotone(limit + 1, r, bits);
    }
  }

  lemma NextExact(limit: nat, bits: nat)
    requires limit < TWO_53
    ensures OfInt(limit, bits) < OfInt(limit + 1, bits)
  {
    OfIntExact(limit + 1, bits);
    OfIntExact(limit, bits);
    assert (limit + 1) * Pow2(bits) == limit * Pow2(bits) + Pow2(bits);
  }
}
