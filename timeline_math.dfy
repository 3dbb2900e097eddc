/**
 * The payment-timeline slider arithmetic shared by the three timeline
 * screens: a track of `sliderWidth` pixels carries one dot per entry of
 * `TIMELINE_DATA` (twelve entries on every screen), evenly spaced `step`
 * pixels apart. A pixel position maps to the nearest dot, clamped to the
 * track; a dot maps back to its pixel position.
 */
module TimelineMath {
  import opened Numeric

  /** `TIMELINE_DATA.length` on every timeline screen. */
  const Count: int := 12
  /** `TIMELINE_DATA.length - 1`, the last selectable index. */
  const LastIndex: int := Count - 1

  /**
   * The track width the pan handlers of the three timeline screens see:
   * they are created once, on the first render, before `onLayout` has
   * stored any width, and keep that render's `sliderWidth` of 0.
   */
  const FirstRenderWidth: real := 0.0

  /** Pixels between two neighbouring dots: `sliderWidth / (TIMELINE_DATA.length - 1)`. */
  function Step(width: real): (s: real)
    ensures s * LastIndex as real == width
    ensures 0.0 < width ==> 0.0 < s
  {
    width / LastIndex as real
  }

  /**
   * The dot nearest to pixel `x`: `Math.max(0, Math.min(Math.round(x / step), length - 1))`.
   * The screens only call it once the width is known to be non-zero.
   */
  function IndexAt(x: real, width: real): (i: int)
    requires width != 0.0
    ensures 0 <= i <= LastIndex
  {
    Clamp(Round(x / Step(width)), 0, LastIndex)
  }

  /**
   * The pixel offset of dot `index` (`getPosition` / `getTrianglePosition`):
   * 0 while the track has not been measured, otherwise `index / (length - 1) * width`.
   */
  function Position(index: int, width: real): (p: real)
    ensures width == 0.0 || index == 0 ==> p == 0.0
    ensures index == LastIndex ==> p == width
  {
    if Count <= 1 || width == 0.0 then 0.0
    else (index as real / LastIndex as real) * width
  }

  lemma MulNonNeg(a: real, b: real)
    requires 0.0 <= a && 0.0 <= b
    ensures 0.0 <= a * b
  {
  }

  lemma DivCancel(a: real, s: real)
    requires s != 0.0
    ensures (a * s) / s == a
  {
  }

  /** On a measured track, dot `index` sits exactly `index` steps from the start. */
  lemma PositionIsSteps(index: int, width: real)
    requires width != 0.0
    ensures Position(index, width) == index as real * Step(width)
  {
  }

  /** Every dot lies on the track; the first at 0, the last at its full width. */
  lemma PositionBounds(index: int, width: real)
    requires 0 <= index <= LastIndex
    requires 0.0 <= width
    ensures 0.0 <= Position(index, width) <= width
    ensures index == 0 ==> Position(index, width) == 0.0
    ensures index == LastIndex ==> Position(index, width) == width
  {
    if width != 0.0 {
      var f := index as real / LastIndex as real;
      assert 0.0 <= f <= 1.0;
      MulNonNeg(f, width);
      MulNonNeg(1.0 - f, width);
    }
  }

  /** Later dots sit further right. */
  lemma PositionMonotone(i: int, j: int, width: real)
    requires i <= j
    requires 0.0 <= width
    ensures Position(i, width) <= Position(j, width)
  {
    if width != 0.0 {
      var fi := i as real / LastIndex as real;
      var fj := j as real / LastIndex as real;
      assert fi <= fj;
      MulNonNeg(fj - fi, width);
    }
  }

  /** Touching at or left of the start selects the first dot; at or right of the end, the last. */
  lemma IndexAtEnds(x: real, width: real)
    requires 0.0 < width
    ensures x <= 0.0 ==> IndexAt(x, width) == 0
    ensures width <= x ==> IndexAt(x, width) == LastIndex
  {
    var s := Step(width);
    assert s > 0.0;
    if x <= 0.0 {
      assert x / s <= 0.0;
      RoundMonotone(x / s, 0.0);
    }
    if width <= x {
      assert width / s == LastIndex as real;
      DivMonotone(width, x, s);
      RoundMonotone(width / s, x / s);
    }
  }

  /** Moving the finger right never moves the selection left. */
  lemma IndexAtMonotone(x: real, y: real, width: real)
    requires 0.0 < width
    requires x <= y
    ensures IndexAt(x, width) <= IndexAt(y, width)
  {
    var s := Step(width);
    assert x / s <= y / s;
    RoundMonotone(x / s, y / s);
    ClampMonotone(Round(x / s), Round(y / s), 0, LastIndex);
  }

  /** Touching the track exactly where dot `index` is drawn selects that dot. */
  lemma {:induction false} IndexPositionRoundTrip(index: int, width: real)
    requires 0 <= index <= LastIndex
    requires 0.0 < width
    ensures IndexAt(Position(index, width), width) == index
  {
    var s := Step(width);
    PositionIsSteps(index, width);
    assert Position(index, width) / s == index as real;
    RoundInt(index);
  }

  /**
   * A touch anywhere on the track snaps to a dot at most half a step away,
   * so the drawn indicator never lands further than that from the finger.
   */
  lemma {:induction false} PositionIndexSnap(x: real, width: real)
    requires 0.0 < width
    requires 0.0 <= x <= width
    ensures -Step(width) / 2.0 <= Position(IndexAt(x, width), width) - x <= Step(width) / 2.0
  {
    var s := Step(width);
    var q := x / s;
    assert 0.0 <= q <= LastIndex as real by {
      assert width / s == LastIndex as real;
    }
    var k := Round(q);
    RoundMonotone(0.0, q);
    RoundMonotone(q, LastIndex as real);
    RoundInt(0);
    RoundInt(LastIndex);
    assert IndexAt(x, width) == k;
    PositionIsSteps(k, width);
    assert x == q * s;
    assert Position(k, width) - x == (k as real - q) * s;
    MulNonNeg(0.5 - (k as real - q), s);
    MulNonNeg((k as real - q) + 0.5, s);
  }

  // ---- Drag gestures (the pan handlers of the two drag-driven screens) ----

  /**
   * `onPanResponderGrant`: remember the pixel offset of the current dot as
   * the drag origin, but only once the track has a positive width.
   */
  function GrantStart(index: int, width: real, previous: real): (start: real)
    ensures 0.0 < width ==> start == Position(index, width)
    ensures width <= 0.0 ==> start == previous
  {
    if width > 0.0 then
      PositionIsSteps(index, width);
      index as real * Step(width)
    else previous
  }

  /**
   * `onPanResponderMove`: the dot nearest to `dragStartX + dx`, or the
   * unchanged index while the track is unmeasured.
   */
  function MoveIndex(index: int, dragStart: real, dx: real, width: real): (i: int)
    requires 0 <= index <= LastIndex
    ensures 0 <= i <= LastIndex
  {
    if width == 0.0 then index else IndexAt(dragStart + dx, width)
  }

  /** A move that has not travelled since the grant keeps the current dot. */
  lemma {:induction false} GrantThenStill(index: int, width: real, previous: real)
    requires 0 <= index <= LastIndex
    requires 0.0 < width
    ensures MoveIndex(index, GrantStart(index, width, previous), 0.0, width) == index
  {
    PositionIsSteps(index, width);
    IndexPositionRoundTrip(index, width);
  }

  /** Dragging `k` whole steps from the grant moves `k` dots, stopping at the ends. */
  lemma {:induction false} GrantThenSteps(index: int, k: int, width: real, previous: real)
    requires 0 <= index <= LastIndex
    requires 0.0 < width
    ensures MoveIndex(index, GrantStart(index, width, previous), k as real * Step(width), width)
            == Clamp(index + k, 0, LastIndex)
  {
    var s := Step(width);
    var target := index + k;
    DistributeSteps(index, k, s);
    DivCancel(target as real, s);
    RoundInt(target);
    var start, dx := GrantStart(index, width, previous), k as real * Step(width);
    assert dx == k as real * s;
    assert (start + dx) / s == target as real;
    assert IndexAt(start + dx, width) == Clamp(target, 0, LastIndex);
    assert MoveIndex(index, start, dx, width) == IndexAt(start + dx, width);
  }

  lemma DistributeSteps(i: int, k: int, s: real)
    ensures i as real * s + k as real * s == (i + k) as real * s
  {
  }

  /** Rendering an unmeasured track draws nothing at an offset: the indicator sits at 0. */
  lemma UnmeasuredPosition(index: int)
    ensures Position(index, 0.0) == 0.0
  {
  }

  // ---- Dot classification (the dot rows of the tap and drag screens) ----

  /** How a dot of the tap-timeline and drag-timeline dot rows is styled. */
  datatype DotState = Pending | Active | Filled

  /** `isActive = i === timelineIndex`, `isFilled = i < timelineIndex`; the two never both hold. */
  function DotAt(i: int, index: int): (d: DotState)
    ensures d == Active <==> i == index
    ensures d == Filled <==> i < index
  {
    if i == index then Active
    else if i < index then Filled
    else Pending
  }

  /** The styles of the first `n` dots, left to right. */
  function Dots(n: nat, index: int): (ds: seq<DotState>)
    ensures |ds| == n
  {
    if n == 0 then [] else Dots(n - 1, index) + [DotAt(n - 1, index)]
  }

  /** Dot `i` of the row is styled by its own position against the current entry. */
  lemma {:induction false} DotsPointwise(n: nat, index: int)
    ensures forall i :: 0 <= i < n ==> Dots(n, index)[i] == DotAt(i, index)
  {
    if n > 0 {
      DotsPointwise(n - 1, index);
      assert Dots(n, index) == Dots(n - 1, index) + [DotAt(n - 1, index)];
    }
  }

  /** How many entries of `ds` equal `d`. */
  function Occurrences(ds: seq<DotState>, d: DotState): nat
  {
    if ds == [] then 0
    else Occurrences(ds[..|ds| - 1], d) + (if ds[|ds| - 1] == d then 1 else 0)
  }

  /** Among the first `n` dots, `min(n, index)` are filled and the current one is the only active one. */
  lemma {:induction false} DotCounts(n: nat, index: int)
    requires 0 <= index
    ensures Occurrences(Dots(n, index), Filled) == Min(n, index)
    ensures Occurrences(Dots(n, index), Active) == (if index < n then 1 else 0)
  {
    if n > 0 {
      var prefix := Dots(n - 1, index);
      var ds := prefix + [DotAt(n - 1, index)];
      assert Dots(n, index) == ds;
      assert ds[..n - 1] == prefix;
      DotCounts(n - 1, index);
      var last := DotAt(n - 1, index);
      assert Occurrences(ds, Filled) == Occurrences(prefix, Filled) + (if last == Filled then 1 else 0);
      assert Occurrences(ds, Active) == Occurrences(prefix, Active) + (if last == Active then 1 else 0);
    }
  }

  /** On the full row: exactly `timelineIndex` dots are filled and exactly one is active. */
  lemma {:induction false} FullRowCounts(index: int)
    requires 0 <= index <= LastIndex
    ensures Occurrences(Dots(Count, index), Filled) == index
    ensures Occurrences(Dots(Count, index), Active) == 1
  {
    DotCounts(Count, index);
  }
}
