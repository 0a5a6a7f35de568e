/**
 * The part of Java's arithmetic the slider geometry depends on: the range of
 * `int` and the narrowing conversion `(int) f` from a floating-point value,
 * as section 5.1.3 of the Java Language Specification defines it. Floating-point
 * values are modelled as mathematical reals, so NaN and infinities do not arise.
 */
module JavaMath {

  const INT_MIN: int := -0x8000_0000
  const INT_MAX: int := 0x7fff_ffff

  /** The values a Java `int` can hold. */
  predicate IsJavaInt(n: int) {
    INT_MIN <= n <= INT_MAX
  }

  /**
   * Rounding toward zero: the integer of the same sign as `v` whose magnitude is
   * the largest integer not exceeding the magnitude of `v`.
   */
  function TruncateTowardZero(v: real): (r: int)
    ensures 0.0 <= v ==> 0 <= r && r as real <= v < r as real + 1.0
    ensures v < 0.0 ==> r <= 0 && r as real - 1.0 < v <= r as real
  {
    if 0.0 <= v then v.Floor else -((-v).Floor)
  }

  /**
   * `(int) v` for a finite `v`: round toward zero, and a value outside the range
   * of `int` becomes the nearest bound, `Integer.MIN_VALUE` or `Integer.MAX_VALUE`.
   */
  function FloatToInt(v: real): (r: int)
    ensures IsJavaInt(r)
    ensures IsJavaInt(TruncateTowardZero(v)) ==> r == TruncateTowardZero(v)
    ensures INT_MAX as real <= v ==> r == INT_MAX
    ensures v < INT_MIN as real ==> r == INT_MIN
  {
    var t := TruncateTowardZero(v);
    if INT_MAX < t then INT_MAX else if t < INT_MIN then INT_MIN else t
  }

  /** The narrowing conversion never decreases when its argument grows. */
  lemma FloatToIntMonotonic(u: real, v: real)
    requires u <= v
    ensures FloatToInt(u) <= FloatToInt(v)
  {
    var tu, tv := TruncateTowardZero(u), TruncateTowardZero(v);
    if 0.0 <= u {
      assert tu == u.Floor && tv == v.Floor;
    } else if v < 0.0 {
      assert tu == -((-u).Floor) && tv == -((-v).Floor);
    } else {
      assert tu <= 0 <= tv;
    }
  }

  /** On a value that lies in the range of `int` and is non-negative, the conversion is the floor. */
  lemma FloatToIntOfNonNegative(v: real)
    requires 0.0 <= v < INT_MAX as real + 1.0
    ensures FloatToInt(v) == v.Floor
  {
  }

  /** A lower bound in the range of `int` carries over to the conversion. */
  lemma FloatToIntAtLeast(v: real, n: int)
    requires IsJavaInt(n) && n as real <= v
    ensures n <= FloatToInt(v)
  {
    FloatToIntMonotonic(n as real, v);
    assert TruncateTowardZero(n as real) == n;
  }

  /** A positive upper bound in the range of `int` carries over strictly to the conversion. */
  lemma FloatToIntBelow(v: real, n: int)
    requires 1 <= n <= INT_MAX && v < n as real
    ensures FloatToInt(v) < n
  {
  }

  /**
   * The conversion's result is pinned down by rounding toward zero: the `int`
   * between v and zero that is less than one away from v.
   */
  lemma FloatToIntIs(v: real, n: int)
    requires IsJavaInt(n)
    requires (0.0 <= v && n as real <= v < n as real + 1.0) ||
             (v < 0.0 && n as real - 1.0 < v <= n as real)
    ensures FloatToInt(v) == n
  {
  }
}
