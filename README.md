# RangeBar track geometry in Dafny

This project models the track of the RangeBar Android slider, the class `Bar`
in `main_new/src/com/edmodo/rangebar/Bar.java`, and proves properties of that model.
The track is a horizontal span. `tickCount` ticks divide it into
`tickCount - 1` equal segments. A thumb's x-coordinate is snapped to the
nearest tick. When the track is drawn, each tick may get a text label, and the
label of the current tick is raised higher than the others.

Files:

- `java_math.dfy` (module `JavaMath`): the range of Java `int` and the
  narrowing conversion `(int) f` of section 5.1.3 of the Java Language
  Specification. It rounds toward zero and saturates at `Integer.MIN_VALUE` and
  `Integer.MAX_VALUE`.
- `real_arith.dfy` (module `RealArith`): one-step facts about multiplying and
  dividing by a positive real. They keep the tick proofs linear.
- `bar.dfy` (module `RangeBar`):
  - the class `Bar` with the geometric fields of the source and its invariant
    `Valid()`. `mLeftX`, `mRightX`, `mY`, `mTickHeight`, `mTickStartY` and
    `mTickEndY` are `final` in Java and `const` here. `mDensity` is not `final`
    in Java, but no code in the class assigns it after the constructor, so it is
    a `const` here too. `mNumSegments`, `mTickDistance` and `mContent` are `var`.
    The rendering fields `mPaint`, `mFontTextSize`, `mFontColor` and
    `mSelectedFontColor` are not modelled;
  - the closed forms `NearestTickIndex` and `NearestTickCoordinate`, with
    lemmas about them;
  - the method `DrawTicks`, which returns the ticks and captions that
    `drawTicks` would paint.

Java `float` values are modelled as mathematical reals. The tick's pixel height
(`mTickHeight`) is a positive constructor parameter. The thumb's x-coordinate
is a real parameter. `mContent == null` is `None`.

## Model

| member | source | states |
|---|---|---|
| RangeBar.Bar.constructor | main_new/src/com/edmodo/rangebar/Bar.java:70-83 | The margin of 20·density is trimmed from each end: `leftX = x + 20·density`, `rightX = x + length - 20·density`, so the span is `length - 40·density`. `numSegments = tickCount - 1` and `numSegments · tickDistance` equals the span. The invariant holds and there is no label data. |
| RangeBar.Bar.SetData | main_new/src/com/edmodo/rangebar/Bar.java:60-62 | The label data becomes the given list, or none for `null`; nothing else changes. |
| RangeBar.Bar.GetLeftX | main_new/src/com/edmodo/rangebar/Bar.java:114-116 | The left end lies strictly left of the right end, exactly `numSegments` spacings from it. |
| RangeBar.Bar.GetRightX | main_new/src/com/edmodo/rangebar/Bar.java:123-125 | The right end lies strictly right of the left end, exactly `numSegments` spacings from it. |
| RangeBar.Bar.SetTickCount | main_new/src/com/edmodo/rangebar/Bar.java:164-170 | The invariant is kept. `numSegments = tickCount - 1` and the spacing is the unchanged span divided by it, so `numSegments · tickDistance` is still the span. Only these two fields change (the ends are `const`). The new state depends only on `tickCount` and the span, so a second call with the same count changes nothing. |
| JavaMath.TruncateTowardZero | main_new/src/com/edmodo/rangebar/Bar.java:153 | The result has the sign of the argument and lies less than one from it, on the side of zero. |
| JavaMath.FloatToInt | main_new/src/com/edmodo/rangebar/Bar.java:153 | The `(int)` cast gives a Java `int`. It is the truncation toward zero when that fits, `Integer.MAX_VALUE` at or above it, and `Integer.MIN_VALUE` below it. |
| JavaMath.FloatToIntMonotonic | main_new/src/com/edmodo/rangebar/Bar.java:153 | The cast is monotonically non-decreasing. |
| JavaMath.FloatToIntAtLeast | main_new/src/com/edmodo/rangebar/Bar.java:153 | A lower bound of the argument that is a Java `int` is a lower bound of the cast. |
| JavaMath.FloatToIntBelow | main_new/src/com/edmodo/rangebar/Bar.java:153 | A positive `int` strictly above the argument is strictly above the cast. |
| JavaMath.FloatToIntOfNonNegative | main_new/src/com/edmodo/rangebar/Bar.java:153 | On non-negative arguments within `int` range the cast is the floor. |
| JavaMath.FloatToIntIs | main_new/src/com/edmodo/rangebar/Bar.java:153 | The cast is the Java `int` between the argument and zero that lies less than one from the argument. |
| RangeBar.NearestTickIndex | main_new/src/com/edmodo/rangebar/Bar.java:153 | The closed-form index is always a Java `int`. |
| RangeBar.NearestTickIndexIsNearest | main_new/src/com/edmodo/rangebar/Bar.java:153 | From half a spacing left of the first tick onward, below `Integer.MAX_VALUE`, the index is non-negative and its grid point lies in `(x - d/2, x + d/2]`. |
| RangeBar.NearestTickIndexAtGridPoint | main_new/src/com/edmodo/rangebar/Bar.java:153 | Any point equal to grid point `i`, for `0 <= i < Integer.MAX_VALUE`, maps to `i`. |
| RangeBar.NearestTickIndexRoundTrip | main_new/src/com/edmodo/rangebar/Bar.java:153 | Round trip: `NearestTickIndex(leftX + i·d) == i` for every non-negative `i` below `Integer.MAX_VALUE`, on the bar and beyond its right end. |
| RangeBar.NearestTickIndexRoundTripLeftOfBar | main_new/src/com/edmodo/rangebar/Bar.java:153 | Left of the bar the round trip is off by one: grid point `i < 0` maps to `i + 1`, because the cast truncates toward zero. |
| RangeBar.NearestTickIndexTieBreak | main_new/src/com/edmodo/rangebar/Bar.java:153 | A point exactly halfway between ticks `i` and `i + 1` maps to `i + 1`. |
| RangeBar.NearestTickIndexIsRoundHalfUp | main_new/src/com/edmodo/rangebar/Bar.java:153 | For `x >= leftX - d/2` the index is `floor((x - leftX)/d + 1/2)`, saturated at `Integer.MAX_VALUE`. |
| RangeBar.NearestTickIndexTruncatesTowardZero | main_new/src/com/edmodo/rangebar/Bar.java:153 | For `leftX - 3d/2 < x < leftX - d/2` the index is 0, although the quotient's floor is -1. |
| RangeBar.NearestTickIndexNegativeIff | main_new/src/com/edmodo/rangebar/Bar.java:153 | The index is negative if and only if `x <= leftX - 3d/2`. |
| RangeBar.NearestTickIndexAbove | main_new/src/com/edmodo/rangebar/Bar.java:153 | For `0 <= k < Integer.MAX_VALUE` the index exceeds `k` if and only if `x >= leftX + (k + 1/2)·d`. |
| RangeBar.NearestTickIndexMonotonic | main_new/src/com/edmodo/rangebar/Bar.java:153 | The index is monotonically non-decreasing in x. |
| RangeBar.NearestTickCoordinate | main_new/src/com/edmodo/rangebar/Bar.java:136-141 | The unclamped coordinate `leftX + index·d` lies in `(x - d/2, x + d/2]` from half a spacing left of the first tick onward, below `Integer.MAX_VALUE`. |
| RangeBar.NearestTickCoordinateMonotonic | main_new/src/com/edmodo/rangebar/Bar.java:136-141 | The coordinate is monotonically non-decreasing in x. |
| RangeBar.NearestTickCoordinateIdempotent | main_new/src/com/edmodo/rangebar/Bar.java:136-141 | Snapping an already snapped coordinate (non-negative index) gives the same index and the same coordinate. |
| RangeBar.Bar.GetNearestTickIndex | main_new/src/com/edmodo/rangebar/Bar.java:151-156 | The index is a Java `int`. It names one of the bar's ticks, `0..numSegments`, if and only if `leftX - 3d/2 < x < rightX + d/2`. It exceeds `numSegments`, with no error, if and only if `x >= rightX + d/2`. |
| RangeBar.Bar.GetNearestTickCoordinate | main_new/src/com/edmodo/rangebar/Bar.java:134-142 | The coordinate is within half a spacing of x (for `x >= leftX - d/2`, index below `Integer.MAX_VALUE`). When the index is on the bar it lies in `[leftX, rightX]`, and it is exactly `rightX` for the last index. It is not clamped otherwise. |
| RangeBar.Bar.TickX | main_new/src/com/edmodo/rangebar/Bar.java:186-221 | Tick `i` is drawn at grid point `leftX + i·d`, the final one at `rightX` itself, and it lies on the bar. |
| RangeBar.Bar.DrawTicks | main_new/src/com/edmodo/rangebar/Bar.java:181-234 | There are exactly `numSegments + 1` ticks. Tick `i` is at `TickX(i)` with caption `CaptionAt(i, currentTick)`. The first tick is at `leftX` and the last at `rightX`, and x strictly increases. |
| RangeBar.TickXStrictlyIncreasing | main_new/src/com/edmodo/rangebar/Bar.java:185-217 | Tick positions strictly increase with the index. |
| RangeBar.TicksStrictlyIncreasing | main_new/src/com/edmodo/rangebar/Bar.java:185-217 | Any sequence with tick `i` at `TickX(i)` is strictly increasing in x. |
| RangeBar.NearestTickIndexOfTick | main_new/src/com/edmodo/rangebar/Bar.java:153-186 | Every drawn tick, the final one at `rightX` included, snaps back to its own index. |
| RangeBar.Bar.CaptionAt | main_new/src/com/edmodo/rangebar/Bar.java:200-231 | A caption exists if and only if there is label data. Caption `i` carries the label text `content[i]`. It is selected if and only if `i` is the current tick, and its y is `tickStartY - 20·density` when selected, else `tickStartY - 10·density`. |
| RangeBar.AtMostOneCaptionSelected | main_new/src/com/edmodo/rangebar/Bar.java:200-231 | At most one caption is selected. None is selected when the current tick lies outside `[0, numSegments]`. |

## Left out

- Canvas and Paint calls are left out: `draw` (line 101-107), `drawLine`, `drawCircle`, `drawText`, colours, `Color.parseColor`, dithering, text alignment and font size. They are Android rendering with no geometric content. `DrawTicks` returns the positions and captions that would be painted.
- The colour and font getters and setters (`getSelectedFontColor`, `setSelectedFontColor`, `setFontSize`, `setFontColor`) are trivial field stores for rendering only.
- RangeBar.Bar.SetData: the model stores a value copy of the label list. Java (line 61) keeps a reference to the caller's `ArrayList`, so later changes to that list show up when the bar is drawn. The model does not capture this aliasing.
- `TypedValue.applyDimension` and the `Context`: the tick height is taken as an already converted positive pixel value.
- `Thumb` is not part of this model; its `getX()` is a real parameter.
- IEEE-754 rounding is not modelled. Floats are reals, so the final tick at `rightX` equals grid point `numSegments` exactly, whereas in Java it avoids rounding drift.
- RangeBar.Bar.constructor: `tickCount >= 2`, `length > 40·density` and `density > 0` are preconditions, and so is `tickHeight > 0`. The code checks none of them. With one tick it divides by zero at line 79 and stores an infinite or NaN spacing. `tickCount <= 0` gives a negative spacing, except `Integer.MIN_VALUE`, where `tickCount - 1` at line 78 wraps to `Integer.MAX_VALUE` and the spacing is positive. The precondition excludes all of these. A caller might expect an error; the code raises none, and neither does the model.
- RangeBar.Bar.SetTickCount: `tickCount >= 2` is a precondition. The code at lines 168-169 accepts `tickCount = 1` and then stores an infinite float spacing. `tickCount <= 0` gives a negative spacing, except `Integer.MIN_VALUE`, where `tickCount - 1` wraps to `Integer.MAX_VALUE` and the spacing is positive. The precondition excludes all of these.
- RangeBar.Bar.DrawTicks: label data with fewer than `numSegments + 1` entries is excluded by a precondition. In Java, `mContent.get(i)` would throw `IndexOutOfBoundsException` there.
- RangeBar.Bar.GetNearestTickCoordinate: a caller might expect this query to reject an index outside `[0, numSegments]`. The code at lines 136-141 does no such check and extrapolates along the grid, and the model does the same.
- RangeBar.NearestTickIndexIsNearest: the bound holds only below `Integer.MAX_VALUE`, because the cast saturates beyond it.
