/**
 * Facts about multiplying and dividing by a positive real, stated one step at
 * a time so that each proof about tick spacings stays linear.
 */
module RealArith {

  /** Dividing a positive span into n parts of at least one gives positive parts that add up to the span. */
  lemma QuotientTimesDivisor(u: real, n: real)
    requires 0.0 < u && 1.0 <= n
    ensures 0.0 < u / n && n * (u / n) == u
  {
  }

  /** Scaling by a positive factor keeps the order of integers. */
  lemma ScaleMonotonic(i: int, j: int, d: real)
    requires i <= j && 0.0 < d
    ensures i as real * d <= j as real * d
  {
    assert j as real * d - i as real * d == (j - i) as real * d;
  }

  lemma ScaleStrictlyMonotonic(i: int, j: int, d: real)
    requires i < j && 0.0 < d
    ensures i as real * d < j as real * d
  {
    assert j as real * d - i as real * d == (j - i) as real * d;
  }

  lemma ScaleMonotonicReal(u: real, v: real, d: real)
    requires u <= v && 0.0 < d
    ensures u * d <= v * d
  {
    assert v * d - u * d == (v - u) * d;
  }

  lemma ScaleStrictlyMonotonicReal(u: real, v: real, d: real)
    requires u < v && 0.0 < d
    ensures u * d < v * d
  {
    assert v * d - u * d == (v - u) * d;
  }

  /** A quotient is known once its product with the divisor is. */
  lemma QuotientIs(u: real, q: real, d: real)
    requires 0.0 < d && q * d == u
    ensures u / d == q
  {
    assert (u / d) * d == u;
    assert (u / d - q) * d == 0.0;
  }

  lemma QuotientAtLeast(u: real, w: real, d: real)
    requires 0.0 < d && w * d <= u
    ensures w <= u / d
  {
    ScaleMonotonicReal(w * d, u, 1.0 / d);
    assert w * d * (1.0 / d) == w;
    assert u * (1.0 / d) == u / d;
  }

  lemma QuotientAtMost(u: real, w: real, d: real)
    requires 0.0 < d && u <= w * d
    ensures u / d <= w
  {
    ScaleMonotonicReal(u, w * d, 1.0 / d);
    assert w * d * (1.0 / d) == w;
    assert u * (1.0 / d) == u / d;
  }

  lemma QuotientAbove(u: real, w: real, d: real)
    requires 0.0 < d && w * d < u
    ensures w < u / d
  {
    ScaleStrictlyMonotonicReal(w * d, u, 1.0 / d);
    assert w * d * (1.0 / d) == w;
    assert u * (1.0 / d) == u / d;
  }

  lemma QuotientBelow(u: real, w: real, d: real)
    requires 0.0 < d && u < w * d
    ensures u / d < w
  {
    ScaleStrictlyMonotonicReal(u, w * d, 1.0 / d);
    assert w * d * (1.0 / d) == w;
    assert u * (1.0 / d) == u / d;
  }

  lemma QuotientMonotonic(u: real, w: real, d: real)
    requires 0.0 < d && u <= w
    ensures u / d <= w / d
  {
    ScaleMonotonicReal(u, w, 1.0 / d);
    assert u * (1.0 / d) == u / d;
    assert w * (1.0 / d) == w / d;
  }

  /** Bounds on a quotient give bounds on the dividend. */
  lemma DividendBounds(u: real, d: real, lo: real, hi: real)
    requires 0.0 < d && lo <= u / d < hi
    ensures lo * d <= u < hi * d
  {
    assert (u / d) * d == u;
    ScaleMonotonicReal(lo, u / d, d);
    ScaleStrictlyMonotonicReal(u / d, hi, d);
  }
}
