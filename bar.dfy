/**
 * The track of a range slider (`Bar` of the RangeBar widget): a horizontal span
 * with evenly spaced ticks, the mapping from a thumb's x-coordinate to the
 * nearest tick, and the placement of ticks and their labels when the track is
 * drawn. Java `float`s are reals; the `(int)` cast is `JavaMath.FloatToInt`.
 */
module RangeBar {
  import opened JavaMath
  import opened RealArith

  datatype Option<T> = None | Some(value: T)

  /** A tick's text label: which label it is, its text, its baseline y and whether it is highlighted. */
  datatype Caption = Caption(index: nat, text: string, y: real, selected: bool)

  /** One tick as the track places it; `caption` is `None` when the bar has no label data. */
  datatype Tick = Tick(x: real, caption: Option<Caption>)

  /** Margin trimmed from each end of the nominal span, in density-independent pixels. */
  const MARGIN_DP: real := 20.0
  /** Height of the highlighted tick's label above the top of the ticks. */
  const SELECTED_LABEL_RISE_DP: real := 20.0
  /** Height of every other label above the top of the ticks. */
  const LABEL_RISE_DP: real := 10.0

  // ---------------------------------------------------------------------------
  // The tick grid leftX + i * tickDistance and the nearest-tick closed forms.
  // ---------------------------------------------------------------------------

  /**
   * The closed form of `getNearestTickIndex`: shift by half a spacing, divide
   * by the spacing and cast to `int`.
   */
  function NearestTickIndex(leftX: real, tickDistance: real, x: real): (r: int)
    requires 0.0 < tickDistance
    ensures IsJavaInt(r)
  {
    FloatToInt((x - leftX + tickDistance / 2.0) / tickDistance)
  }

  /**
   * The closed form of `getNearestTickCoordinate`: grid point number
   * `NearestTickIndex(x)`, unclamped. From half a spacing left of the first
   * tick onward (below Integer.MAX_VALUE) it lies within half a spacing of x.
   */
  function NearestTickCoordinate(leftX: real, tickDistance: real, x: real): (c: real)
    requires 0.0 < tickDistance
    ensures leftX - tickDistance / 2.0 <= x && NearestTickIndex(leftX, tickDistance, x) < INT_MAX ==>
      x - tickDistance / 2.0 < c <= x + tickDistance / 2.0
  {
    NearestTickIndexIsNearest(leftX, tickDistance, x);
    leftX + NearestTickIndex(leftX, tickDistance, x) as real * tickDistance
  }

  /**
   * The index names the nearest grid point, ties to the right: from half a
   * spacing left of the first tick onward (below Integer.MAX_VALUE), grid
   * point r lies in (x - d/2, x + d/2].
   */
  lemma NearestTickIndexIsNearest(leftX: real, d: real, x: real)
    requires 0.0 < d
    ensures var r := NearestTickIndex(leftX, d, x);
      leftX - d / 2.0 <= x && r < INT_MAX ==>
      0 <= r && x - d / 2.0 < leftX + r as real * d <= x + d / 2.0
  {
    var a := x - leftX + d / 2.0;
    var r := NearestTickIndex(leftX, d, x);
    if 0.0 <= a && r < INT_MAX {
      QuotientAtLeast(a, 0.0, d);
      FloatToIntOfNonNegative(a / d);
      DividendBounds(a, d, r as real, r as real + 1.0);
    }
  }

  /** Grid point i (i a non-negative Java index) maps back to i, on the bar or beyond its right end. */
  lemma NearestTickIndexAtGridPoint(leftX: real, d: real, i: int, x: real)
    requires 0.0 < d && 0 <= i < INT_MAX && x == leftX + i as real * d
    ensures NearestTickIndex(leftX, d, x) == i
  {
    var a := x - leftX + d / 2.0;
    QuotientIs(a, i as real + 0.5, d);
    FloatToIntIs(a / d, i);
  }

  /** Round trip: every grid point with a non-negative Java index maps back to its index. */
  lemma NearestTickIndexRoundTrip(leftX: real, d: real, i: int)
    requires 0.0 < d && 0 <= i < INT_MAX
    ensures NearestTickIndex(leftX, d, leftX + i as real * d) == i
  {
    NearestTickIndexAtGridPoint(leftX, d, i, leftX + i as real * d);
  }

  /**
   * Left of the first tick the round trip fails: the cast truncates toward
   * zero, so grid point i < 0 maps to i + 1.
   */
  lemma NearestTickIndexRoundTripLeftOfBar(leftX: real, d: real, i: int)
    requires 0.0 < d && INT_MIN <= i < 0
    ensures NearestTickIndex(leftX, d, leftX + i as real * d) == i + 1
  {
    var a := leftX + i as real * d - leftX + d / 2.0;
    QuotientIs(a, i as real + 0.5, d);
    FloatToIntIs(a / d, i + 1);
  }

  /** Tie-break: the point halfway between grid points i and i + 1 maps to the right-hand one. */
  lemma NearestTickIndexTieBreak(leftX: real, d: real, i: int)
    requires 0.0 < d && IsJavaInt(i + 1)
    ensures NearestTickIndex(leftX, d, leftX + (i as real + 0.5) * d) == i + 1
  {
    var a := leftX + (i as real + 0.5) * d - leftX + d / 2.0;
    QuotientIs(a, (i + 1) as real, d);
    FloatToIntIs(a / d, i + 1);
  }

  /**
   * From half a spacing left of the first tick onward the cast agrees with
   * rounding (x - leftX) / d half up, saturated at Integer.MAX_VALUE.
   */
  lemma NearestTickIndexIsRoundHalfUp(leftX: real, d: real, x: real)
    requires 0.0 < d && leftX - d / 2.0 <= x
    ensures var f := ((x - leftX) / d + 0.5).Floor;
      NearestTickIndex(leftX, d, x) == if f < INT_MAX then f else INT_MAX
  {
    var a := x - leftX + d / 2.0;
    var t := (x - leftX) / d;
    DividendBounds(x - leftX, d, t, t + 1.0);
    QuotientIs(a, t + 0.5, d);
    QuotientAtLeast(a, 0.0, d);
    if a / d < INT_MAX as real + 1.0 {
      FloatToIntOfNonNegative(a / d);
    }
  }

  /**
   * Truncation toward zero: between one and a half and one half spacings left
   * of the first tick the index is 0, although the quotient's floor is -1.
   */
  lemma NearestTickIndexTruncatesTowardZero(leftX: real, d: real, x: real)
    requires 0.0 < d && leftX - 3.0 * d / 2.0 < x < leftX - d / 2.0
    ensures NearestTickIndex(leftX, d, x) == 0
    ensures ((x - leftX + d / 2.0) / d).Floor == -1
  {
    var a := x - leftX + d / 2.0;
    QuotientAbove(a, -1.0, d);
    QuotientBelow(a, 0.0, d);
    FloatToIntIs(a / d, 0);
  }

  /** The index is negative exactly for points at least one and a half spacings left of the first tick. */
  lemma NearestTickIndexNegativeIff(leftX: real, d: real, x: real)
    requires 0.0 < d
    ensures NearestTickIndex(leftX, d, x) < 0 <==> x <= leftX - 3.0 * d / 2.0
  {
    var a := x - leftX + d / 2.0;
    if a <= -1.0 * d {
      QuotientAtMost(a, -1.0, d);
      FloatToIntMonotonic(a / d, -1.0);
      FloatToIntIs(-1.0, -1);
    } else {
      QuotientAbove(a, -1.0, d);
      if a / d < 0.0 {
        FloatToIntIs(a / d, 0);
      } else {
        FloatToIntAtLeast(a / d, 0);
      }
    }
  }

  /**
   * For a non-negative Java index k below Integer.MAX_VALUE, the index passes k
   * exactly when x is at least half a spacing right of grid point k.
   */
  lemma NearestTickIndexAbove(leftX: real, d: real, x: real, k: int)
    requires 0.0 < d && 0 <= k < INT_MAX
    ensures k < NearestTickIndex(leftX, d, x) <==> leftX + (k as real + 0.5) * d <= x
  {
    var a := x - leftX + d / 2.0;
    assert leftX + (k as real + 0.5) * d <= x <==> (k + 1) as real * d <= a;
    if (k + 1) as real * d <= a {
      QuotientAtLeast(a, (k + 1) as real, d);
      FloatToIntAtLeast(a / d, k + 1);
    } else {
      QuotientBelow(a, (k + 1) as real, d);
      FloatToIntBelow(a / d, k + 1);
    }
  }

  /** Moving the thumb right never moves the nearest grid point left. */
  lemma NearestTickIndexMonotonic(leftX: real, d: real, x1: real, x2: real)
    requires 0.0 < d && x1 <= x2
    ensures NearestTickIndex(leftX, d, x1) <= NearestTickIndex(leftX, d, x2)
  {
    var a1, a2 := x1 - leftX + d / 2.0, x2 - leftX + d / 2.0;
    QuotientMonotonic(a1, a2, d);
    FloatToIntMonotonic(a1 / d, a2 / d);
  }

  /** Moving the thumb right never moves the nearest tick coordinate left. */
  lemma NearestTickCoordinateMonotonic(leftX: real, d: real, x1: real, x2: real)
    requires 0.0 < d && x1 <= x2
    ensures NearestTickCoordinate(leftX, d, x1) <= NearestTickCoordinate(leftX, d, x2)
  {
    NearestTickIndexMonotonic(leftX, d, x1, x2);
    GridPointsOrdered(leftX, d, NearestTickIndex(leftX, d, x1), NearestTickIndex(leftX, d, x2),
      NearestTickCoordinate(leftX, d, x1), NearestTickCoordinate(leftX, d, x2));
  }

  /** Snapping a snapped coordinate again changes nothing, as long as the index is non-negative. */
  lemma NearestTickCoordinateIdempotent(leftX: real, d: real, x: real)
    requires 0.0 < d && 0 <= NearestTickIndex(leftX, d, x) < INT_MAX
    ensures NearestTickIndex(leftX, d, NearestTickCoordinate(leftX, d, x)) == NearestTickIndex(leftX, d, x)
    ensures NearestTickCoordinate(leftX, d, NearestTickCoordinate(leftX, d, x)) == NearestTickCoordinate(leftX, d, x)
  {
    NearestTickIndexAtGridPoint(leftX, d, NearestTickIndex(leftX, d, x), NearestTickCoordinate(leftX, d, x));
  }

  /** Grid points are ordered like their indices. */
  lemma GridPointsOrdered(leftX: real, d: real, i: int, j: int, xi: real, xj: real)
    requires 0.0 < d && i <= j
    requires xi == leftX + i as real * d && xj == leftX + j as real * d
    ensures xi <= xj
  {
    ScaleMonotonic(i, j, d);
  }

  /** Distinct grid points are strictly ordered like their indices. */
  lemma GridPointsStrictlyOrdered(leftX: real, d: real, i: int, j: int, xi: real, xj: real)
    requires 0.0 < d && i < j
    requires xi == leftX + i as real * d && xj == leftX + j as real * d
    ensures xi < xj
  {
    ScaleStrictlyMonotonic(i, j, d);
  }

  /** Grid points 0 to n lie between the first and the last of them. */
  lemma GridPointOnSpan(leftX: real, d: real, n: int, i: int, xi: real)
    requires 0.0 < d && 0 <= i <= n
    requires xi == leftX + i as real * d
    ensures leftX <= xi <= leftX + n as real * d
  {
    ScaleMonotonic(0, i, d);
    ScaleMonotonic(i, n, d);
  }

  /** On a span of n spacings, grid points 0 to n lie on the span and grid point n is its right end. */
  lemma GridPointOnBar(leftX: real, rightX: real, d: real, n: int, i: int, xi: real)
    requires 0.0 < d && 0 <= n && n as real * d == rightX - leftX
    requires xi == leftX + i as real * d
    ensures 0 <= i <= n ==> leftX <= xi <= rightX
    ensures i == n ==> xi == rightX
  {
    if 0 <= i <= n {
      GridPointOnSpan(leftX, d, n, i, xi);
    }
  }

  // ---------------------------------------------------------------------------
  // The bar.
  // ---------------------------------------------------------------------------

  class Bar {
    const leftX: real
    const rightX: real
    const y: real
    const density: real
    const tickHeight: real
    const tickStartY: real
    const tickEndY: real

    var numSegments: int
    var tickDistance: real
    /** The label texts set by `SetData`; `None` stands for Java's `null`. */
    var content: Option<seq<string>>

    /**
     * The track's invariant: the span is divided into `numSegments` equal
     * segments of positive length, `numSegments = tickCount - 1` for a Java
     * `int` tickCount of at least 2.
     */
    ghost predicate Valid()
      reads this
    {
      0.0 < density && 0.0 < tickHeight &&
      1 <= numSegments < INT_MAX &&
      0.0 < tickDistance &&
      numSegments as real * tickDistance == rightX - leftX &&
      tickStartY == y - tickHeight / 2.0 &&
      tickEndY == y + tickHeight / 2.0
    }

    /**
     * Lays out a track of nominal extent [x, x + length] at height y with
     * `tickCount` ticks; `tickHeight` is already converted to pixels.
     */
    constructor (x: real, y: real, length: real, tickCount: int, tickHeight: real, density: real)
      requires 0.0 < density && 2.0 * MARGIN_DP * density < length
      requires 2 <= tickCount <= INT_MAX
      requires 0.0 < tickHeight
      ensures Valid()
      ensures leftX == x + MARGIN_DP * density
      ensures rightX == x + length - MARGIN_DP * density
      ensures rightX - leftX == length - 2.0 * MARGIN_DP * density
      ensures numSegments == tickCount - 1
      ensures numSegments as real * tickDistance == rightX - leftX
      ensures this.y == y && this.density == density && this.tickHeight == tickHeight
      ensures content == None
    {
      var len := length - 2.0 * MARGIN_DP * density;
      var left := x + MARGIN_DP * density;
      leftX := left;
      rightX := left + len;
      this.y := y;
      this.density := density;
      numSegments := tickCount - 1;
      tickDistance := len / (tickCount - 1) as real;
      QuotientTimesDivisor(len, (tickCount - 1) as real);
      this.tickHeight := tickHeight;
      tickStartY := y - tickHeight / 2.0;
      tickEndY := y + tickHeight / 2.0;
      content := None;
    }

    /** Sets the label texts (`None` for `null`). */
    method SetData(labels: Option<seq<string>>)
      modifies this`content
      ensures content == labels
    {
      content := labels;
    }

    /** The left end of the span, `numSegments` spacings left of the right end. */
    function GetLeftX(): (r: real)
      reads this
      requires Valid()
      ensures r < GetRightX()
      ensures r + numSegments as real * tickDistance == GetRightX()
    {
      ScaleStrictlyMonotonic(0, numSegments, tickDistance);
      leftX
    }

    /** The right end of the span, `numSegments` spacings right of the left end. */
    function GetRightX(): (r: real)
      reads this
      requires Valid()
      ensures leftX < r
      ensures r - numSegments as real * tickDistance == leftX
    {
      ScaleStrictlyMonotonic(0, numSegments, tickDistance);
      rightX
    }

    /**
     * Re-divides the unchanged span into `tickCount - 1` segments. The new
     * state depends on `tickCount` and the span only, so a repeated call with
     * the same count changes nothing.
     */
    method SetTickCount(tickCount: int)
      requires Valid()
      requires 2 <= tickCount <= INT_MAX
      modifies this`numSegments, this`tickDistance
      ensures Valid()
      ensures numSegments == tickCount - 1
      ensures tickDistance == (rightX - leftX) / (tickCount - 1) as real
      ensures numSegments as real * tickDistance == rightX - leftX
    {
      var barLength := rightX - leftX;
      ScaleStrictlyMonotonic(0, numSegments, tickDistance);
      numSegments := tickCount - 1;
      tickDistance := barLength / numSegments as real;
      QuotientTimesDivisor(barLength, numSegments as real);
    }

    /**
     * The index of the tick nearest to x, not clamped to the bar: it names one
     * of the bar's own ticks exactly for x strictly between one and a half
     * spacings left of the first tick and half a spacing right of the last,
     * and passes `numSegments` from half a spacing right of the last tick on.
     */
    function GetNearestTickIndex(x: real): (r: int)
      reads this
      requires Valid()
      ensures IsJavaInt(r)
      ensures 0 <= r <= numSegments <==>
        leftX - 3.0 * tickDistance / 2.0 < x < rightX + tickDistance / 2.0
      ensures numSegments < r <==> rightX + tickDistance / 2.0 <= x
    {
      NearestTickIndexNegativeIff(leftX, tickDistance, x);
      NearestTickIndexAbove(leftX, tickDistance, x, numSegments);
      NearestTickIndex(leftX, tickDistance, x)
    }

    /**
     * The x-coordinate of the tick nearest to x, extrapolated along the tick
     * grid when the index lies off the bar: within half a spacing of x, and on
     * the bar, at `rightX` for the last index, when the index is on the bar.
     */
    function GetNearestTickCoordinate(x: real): (c: real)
      reads this
      requires Valid()
      ensures leftX - tickDistance / 2.0 <= x && GetNearestTickIndex(x) < INT_MAX ==>
        x - tickDistance / 2.0 < c <= x + tickDistance / 2.0
      ensures 0 <= GetNearestTickIndex(x) <= numSegments ==> leftX <= c <= rightX
      ensures GetNearestTickIndex(x) == numSegments ==> c == rightX
    {
      GridPointOnBar(leftX, rightX, tickDistance, numSegments,
        NearestTickIndex(leftX, tickDistance, x), NearestTickCoordinate(leftX, tickDistance, x));
      NearestTickCoordinate(leftX, tickDistance, x)
    }

    /**
     * Where tick i is drawn: on the grid from `leftX`, except the final tick,
     * which is placed at `rightX` itself. Over the reals the two agree.
     */
    function TickX(i: nat): (x: real)
      reads this
      requires Valid() && i <= numSegments
      ensures x == leftX + i as real * tickDistance
      ensures leftX <= x <= rightX
    {
      GridPointOnSpan(leftX, tickDistance, numSegments, i, leftX + i as real * tickDistance);
      if i < numSegments then leftX + i as real * tickDistance else rightX
    }

    /**
     * The caption of tick i. A caption is drawn exactly when the bar has label
     * data; caption i carries text i, and it is the selected one, raised by the
     * selected height, exactly when i is the current tick.
     */
    function CaptionAt(i: nat, currentTick: int): (c: Option<Caption>)
      reads this
      requires content.Some? ==> i < |content.value|
      ensures c.Some? <==> content.Some?
      ensures c.Some? ==>
        c.value.index == i && c.value.text == content.value[i] &&
        (c.value.selected <==> i == currentTick) &&
        c.value.y == tickStartY - (if i == currentTick then SELECTED_LABEL_RISE_DP else LABEL_RISE_DP) * density
    {
      if content.None? then None
      else if i == currentTick then
        Some(Caption(i, content.value[i], tickStartY - SELECTED_LABEL_RISE_DP * density, true))
      else
        Some(Caption(i, content.value[i], tickStartY - LABEL_RISE_DP * density, false))
    }

    /**
     * Places the ticks and their captions: `numSegments` ticks on the grid from
     * `leftX`, then the final tick exactly at `rightX`, with strictly increasing
     * x-coordinates.
     */
    method DrawTicks(currentTick: int) returns (ticks: seq<Tick>)
      requires Valid()
      requires content.Some? ==> numSegments < |content.value|
      ensures |ticks| == numSegments + 1
      ensures forall i :: 0 <= i < |ticks| ==> ticks[i] == Tick(TickX(i), CaptionAt(i, currentTick))
      ensures ticks[0].x == leftX && ticks[numSegments].x == rightX
      ensures forall i, j :: 0 <= i < j < |ticks| ==> ticks[i].x < ticks[j].x
    {
      ticks := [];
      for i := 0 to numSegments
        invariant |ticks| == i
        invariant forall k :: 0 <= k < i ==> ticks[k] == Tick(TickX(k), CaptionAt(k, currentTick))
      {
        var x := i as real * tickDistance + leftX;
        assert x == TickX(i);
        ticks := ticks + [Tick(x, CaptionAt(i, currentTick))];
      }
      // The final tick is placed at the right end itself rather than on the grid.
      ticks := ticks + [Tick(rightX, CaptionAt(numSegments, currentTick))];
      TicksStrictlyIncreasing(this, ticks, currentTick);
    }
  }

  // ---------------------------------------------------------------------------
  // Properties of a bar's own ticks.
  // ---------------------------------------------------------------------------

  /** Tick positions strictly increase from left to right. */
  lemma TickXStrictlyIncreasing(b: Bar, i: nat, j: nat)
    requires b.Valid() && i < j <= b.numSegments
    ensures b.TickX(i) < b.TickX(j)
  {
    GridPointsStrictlyOrdered(b.leftX, b.tickDistance, i, j, b.TickX(i), b.TickX(j));
  }

  /** A sequence holding tick i at `TickX(i)` for every i is strictly increasing in x. */
  lemma TicksStrictlyIncreasing(b: Bar, ticks: seq<Tick>, currentTick: int)
    requires b.Valid()
    requires b.content.Some? ==> b.numSegments < |b.content.value|
    requires |ticks| == b.numSegments + 1
    requires forall i :: 0 <= i < |ticks| ==> ticks[i] == Tick(b.TickX(i), b.CaptionAt(i, currentTick))
    ensures forall i, j :: 0 <= i < j < |ticks| ==> ticks[i].x < ticks[j].x
  {
    forall i, j | 0 <= i < j < |ticks|
      ensures ticks[i].x < ticks[j].x
    {
      TickXStrictlyIncreasing(b, i, j);
    }
  }

  /** Every tick the bar draws, the last one at `rightX` included, maps back to its own index. */
  lemma NearestTickIndexOfTick(b: Bar, i: nat)
    requires b.Valid() && i <= b.numSegments
    ensures b.GetNearestTickIndex(b.TickX(i)) == i
  {
    NearestTickIndexAtGridPoint(b.leftX, b.tickDistance, i, b.TickX(i));
  }

  /** At most one caption is selected, and none when the current tick is off the bar. */
  lemma AtMostOneCaptionSelected(b: Bar, i: nat, j: nat, currentTick: int)
    requires b.Valid()
    requires b.content.Some? ==> b.numSegments < |b.content.value|
    requires i <= b.numSegments && j <= b.numSegments
    ensures (b.CaptionAt(i, currentTick).Some? && b.CaptionAt(i, currentTick).value.selected &&
             b.CaptionAt(j, currentTick).Some? && b.CaptionAt(j, currentTick).value.selected) ==> i == j
    ensures !(0 <= currentTick <= b.numSegments) && b.CaptionAt(i, currentTick).Some? ==>
            !b.CaptionAt(i, currentTick).value.selected
  {
  }
}
