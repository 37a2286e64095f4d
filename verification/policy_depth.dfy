/**
 * The length-to-depth policy of gotoken (policy_depth.go): short tokens get
 * the deep window `maxDepth`, long tokens the shallow window `minDepth`, and
 * lengths in between a linear interpolation truncated toward zero.
 */
module DepthPolicy {

  /** The four parameters, stored as given (the source pairs maxLength with maxDepth). */
  datatype PolicyDepth = PolicyDepth(maxLength: int, maxDepth: int, minLength: int, minDepth: int)

  /** NewPolicyDepth: keeps its arguments unchanged, in particular never swaps min and max. */
  function NewPolicyDepth(maxLength: int, maxDepth: int, minLength: int, minDepth: int): (p: PolicyDepth)
    ensures p.maxLength == maxLength && p.maxDepth == maxDepth
    ensures p.minLength == minLength && p.minDepth == minDepth
  {
    PolicyDepth(maxLength, maxDepth, minLength, minDepth)
  }

  /** n / d rounded toward zero, as Go's int(...) conversion of the real quotient does. */
  function TruncDiv(n: int, d: int): (q: int)
    requires d > 0
    ensures n >= 0 ==> 0 <= q && q * d <= n < q * d + d
    ensures n < 0 ==> q <= 0 && q * d - d < n <= q * d
  {
    assert n / d * d + n % d == n && 0 <= n % d < d;
    assert (-n) / d * d + (-n) % d == -n && 0 <= (-n) % d < d;
    if n >= 0 then n / d else -((-n) / d)
  }

  /**
   * GetDepth. In the middle branch the source computes
   * minDepth + (maxDepth - minDepth) * (minLength - length) / (minLength - maxLength)
   * in floating point and truncates; here the same real value is written as one
   * fraction over minLength - maxLength and truncated exactly: between the two
   * lengths the depth is that fraction rounded toward zero.
   */
  function GetDepth(p: PolicyDepth, length: int): (depth: int)
    ensures p.maxLength < length < p.minLength ==>
      var n, w := Interpolated(p, length), p.minLength - p.maxLength;
      (n >= 0 ==> 0 <= depth && depth * w <= n < depth * w + w) &&
      (n < 0 ==> depth <= 0 && depth * w - w < n <= depth * w)
  {
    if length <= p.maxLength then p.maxDepth
    else if length >= p.minLength then p.minDepth
    else
      TruncDiv(Interpolated(p, length), p.minLength - p.maxLength)
  }

  /**
   * minDepth + (maxDepth - minDepth) * (minLength - length) / (minLength - maxLength),
   * times minLength - maxLength.
   */
  function Interpolated(p: PolicyDepth, length: int): int
  {
    p.minDepth * (p.minLength - p.maxLength) + (p.maxDepth - p.minDepth) * (p.minLength - length)
  }

  lemma MulLeCancel(a: int, b: int, d: int)
    requires d > 0 && a * d <= b * d
    ensures a <= b
  {
  }

  lemma MulLtCancel(a: int, b: int, d: int)
    requires d > 0 && a * d < b * d
    ensures a < b
  {
  }

  /** Truncating a value that lies between lo and hi (scaled by d) stays between them. */
  lemma TruncDivBetween(n: int, d: int, lo: int, hi: int)
    requires d > 0 && lo * d <= n <= hi * d
    ensures lo <= TruncDiv(n, d) <= hi
  {
    var q := TruncDiv(n, d);
    if n >= 0 {
      MulLeCancel(q, hi, d);
      MulLtCancel(lo, q + 1, d);
    } else {
      MulLeCancel(lo, q, d);
      MulLtCancel(q - 1, hi, d);
    }
  }

  /** Between the two lengths the interpolated numerator lies between the two depths (scaled). */
  lemma InterpolatedBetween(p: PolicyDepth, length: int)
    requires p.minDepth <= p.maxDepth && p.maxLength < length < p.minLength
    ensures var d := p.minLength - p.maxLength;
      p.minDepth * d <= Interpolated(p, length) <= p.maxDepth * d
  {
    var d := p.minLength - p.maxLength;
    var k := p.minLength - length;
    var span := p.maxDepth - p.minDepth;
    assert 0 <= span * k;
    assert span * k <= span * d by {
      assert span * d - span * k == span * (d - k);
    }
    assert p.maxDepth * d == p.minDepth * d + span * d;
  }

  lemma TruncDivMonotone(n1: int, n2: int, d: int)
    requires d > 0 && n1 <= n2
    ensures TruncDiv(n1, d) <= TruncDiv(n2, d)
  {
    var q1, q2 := TruncDiv(n1, d), TruncDiv(n2, d);
    if n1 >= 0 {
      MulLtCancel(q1, q2 + 1, d);
    } else if n2 >= 0 {
    } else {
      MulLtCancel(q1 - 1, q2, d);
    }
  }

  /** Lengths up to maxLength get maxDepth; this test is made first. */
  lemma GetDepthShort(p: PolicyDepth, length: int)
    requires length <= p.maxLength
    ensures GetDepth(p, length) == p.maxDepth
  {
  }

  /** Lengths beyond maxLength and at least minLength get minDepth. */
  lemma GetDepthLong(p: PolicyDepth, length: int)
    requires length > p.maxLength && length >= p.minLength
    ensures GetDepth(p, length) == p.minDepth
  {
  }

  /** Whenever minDepth <= maxDepth, every depth lies between them. */
  lemma GetDepthBounded(p: PolicyDepth, length: int)
    requires p.minDepth <= p.maxDepth
    ensures p.minDepth <= GetDepth(p, length) <= p.maxDepth
  {
    if p.maxLength < length < p.minLength {
      InterpolatedBetween(p, length);
      TruncDivBetween(Interpolated(p, length), p.minLength - p.maxLength, p.minDepth, p.maxDepth);
    }
  }

  /** A policy with 0 <= minDepth <= maxDepth never yields a negative depth. */
  lemma GetDepthNonNegative(p: PolicyDepth, length: int)
    requires 0 <= p.minDepth <= p.maxDepth
    ensures GetDepth(p, length) >= 0
  {
    GetDepthBounded(p, length);
  }

  /** Whenever minDepth <= maxDepth, a longer token never gets a deeper window. */
  lemma GetDepthNonIncreasing(p: PolicyDepth, a: int, b: int)
    requires p.minDepth <= p.maxDepth && a <= b
    ensures GetDepth(p, b) <= GetDepth(p, a)
  {
    if a <= p.maxLength {
      GetDepthBounded(p, b);
    } else if b >= p.minLength {
      GetDepthBounded(p, a);
    } else {
      var d := p.minLength - p.maxLength;
      var span := p.maxDepth - p.minDepth;
      assert span * (p.minLength - b) <= span * (p.minLength - a) by {
        assert span * (p.minLength - a) - span * (p.minLength - b) == span * (b - a);
      }
      TruncDivMonotone(Interpolated(p, b), Interpolated(p, a), d);
    }
  }

  /**
   * The policy (20, 100, 120, 10) that policy_depth_test.go checks: depth 100 up
   * to length 20, non-increasing from there, and 10 from length 120 to 140.
   */
  lemma TestPolicyDepth()
    ensures forall i :: 1 <= i <= 20 ==> GetDepth(NewPolicyDepth(20, 100, 120, 10), i) == 100
    ensures forall i, j :: 21 <= i <= j <= 120 ==>
      GetDepth(NewPolicyDepth(20, 100, 120, 10), j) <= GetDepth(NewPolicyDepth(20, 100, 120, 10), i) <= 100
    ensures forall i :: 120 <= i <= 140 ==> GetDepth(NewPolicyDepth(20, 100, 120, 10), i) == 10
    ensures GetDepth(NewPolicyDepth(20, 100, 120, 10), 70) == 55
  {
    var p := NewPolicyDepth(20, 100, 120, 10);
    forall i, j | 21 <= i <= j <= 120
      ensures GetDepth(p, j) <= GetDepth(p, i) <= 100
    {
      GetDepthNonIncreasing(p, i, j);
      GetDepthBounded(p, i);
    }
  }
}
