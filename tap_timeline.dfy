/**
 * The 70/30 payment-plan card whose timeline is meant to follow the
 * finger: a touch or move at pixel `locationX` selects the nearest of the
 * twelve timeline entries. The class states that intended behaviour; the
 * handlers as written keep the first render's unmeasured width and never
 * move the selection (`AsWrittenTouch`). Entries with a label (start,
 * flip-ready, handover) are drawn as larger milestone dots.
 */
module TapTimeline {
  import opened TimelineMath

  /** The `label` column of this screen's `TIMELINE_DATA`. */
  const Labels: seq<string> :=
    ["Start Point", "", "", "", "", "Flip Ready", "", "", "", "", "", "Handover"]

  /** One label per timeline entry. */
  lemma LabelsPerEntry()
    ensures |Labels| == Count
  {
  }

  /** `isSpecialDot = item.label !== ''`: exactly the start, flip-ready and handover entries. */
  function SpecialDot(i: int): (b: bool)
    requires 0 <= i < Count
    ensures b <==> i == 0 || i == 5 || i == LastIndex
  {
    Labels[i] != ""
  }

  /** The entry shown initially (`Mar 26`). */
  const InitialIndex: int := 2

  /**
   * `updateTimelineIndex(xPos)`: nothing happens on an unmeasured track;
   * otherwise the nearest entry to `xPos` is selected.
   */
  function UpdatedIndex(index: int, width: real, x: real): (i: int)
    requires 0 <= index <= LastIndex
    ensures 0 <= i <= LastIndex
    ensures width == 0.0 ==> i == index
  {
    if width == 0.0 then index else IndexAt(x, width)
  }

  class TapTimelineCard {
    var timelineIndex: int
    var sliderWidth: real

    ghost predicate Valid()
      reads this
    {
      0 <= timelineIndex <= LastIndex
    }

    constructor ()
      ensures Valid()
      ensures timelineIndex == InitialIndex && sliderWidth == 0.0
    {
      timelineIndex := InitialIndex;
      sliderWidth := 0.0;
    }

    /** `onLayout`: the measured width of the track. */
    method Layout(width: real)
      modifies this
      ensures sliderWidth == width && timelineIndex == old(timelineIndex)
    {
      sliderWidth := width;
    }

    /** `updateTimelineIndex`, run by both the grant and the move handler. */
    method UpdateTimelineIndex(x: real)
      requires Valid()
      modifies this
      ensures Valid()
      ensures timelineIndex == UpdatedIndex(old(timelineIndex), sliderWidth, x)
      ensures sliderWidth == old(sliderWidth)
    {
      if sliderWidth == 0.0 {
        return;
      }
      var step := Step(sliderWidth);
      var newIndex := Numeric.Round(x / step);
      timelineIndex := Numeric.Max(0, Numeric.Min(newIndex, Count - 1));
    }

    /** `getPosition()`: where the yellow line ends and the red triangle sits. */
    function CurrentPosition(): (p: real)
      reads this
      requires Valid()
      ensures 0.0 <= sliderWidth ==> 0.0 <= p <= sliderWidth
      ensures sliderWidth == 0.0 ==> p == 0.0
    {
      if 0.0 <= sliderWidth then
        PositionBounds(timelineIndex, sliderWidth);
        Position(timelineIndex, sliderWidth)
      else
        Position(timelineIndex, sliderWidth)
    }

    /** The dot row: `isActive` and `isFilled` per entry. */
    function DotRow(): (ds: seq<DotState>)
      reads this
      requires Valid()
      ensures |ds| == Count
      ensures forall i :: 0 <= i < Count ==> ds[i] == DotAt(i, timelineIndex)
      ensures Occurrences(ds, Filled) == timelineIndex
      ensures Occurrences(ds, Active) == 1
    {
      FullRowCounts(timelineIndex);
      DotsPointwise(Count, timelineIndex);
      Dots(Count, timelineIndex)
    }
  }

  /**
   * `updateTimelineIndex` as the pan handlers actually run it: against the
   * width of the first render, so the selection never follows the finger.
   */
  function AsWrittenTouch(index: int, x: real): (i: int)
    requires 0 <= index <= LastIndex
    ensures i == index
  {
    UpdatedIndex(index, FirstRenderWidth, x)
  }

  /**
   * On a measured 110-pixel track, touching the right end should select the
   * last entry, but the handler as written keeps the initial entry.
   */
  lemma AsWrittenTouchIgnoresFinger()
    ensures UpdatedIndex(InitialIndex, 110.0, 110.0) == LastIndex
    ensures AsWrittenTouch(InitialIndex, 110.0) == InitialIndex != LastIndex
  {
    IndexAtEnds(110.0, 110.0);
  }

  /** Touching the track where the indicator of entry `i` is drawn selects entry `i`. */
  lemma TouchAtIndicator(index: int, i: int, width: real)
    requires 0 <= index <= LastIndex && 0 <= i <= LastIndex
    requires 0.0 < width
    ensures UpdatedIndex(index, width, Position(i, width)) == i
  {
    IndexPositionRoundTrip(i, width);
  }

  /** Touches left of the track select the first entry, right of it the last, and in between monotonically. */
  lemma TouchOrder(index: int, width: real, x: real, y: real)
    requires 0 <= index <= LastIndex
    requires 0.0 < width
    requires x <= y
    ensures UpdatedIndex(index, width, x) <= UpdatedIndex(index, width, y)
    ensures x <= 0.0 ==> UpdatedIndex(index, width, x) == 0
    ensures width <= y ==> UpdatedIndex(index, width, y) == LastIndex
  {
    IndexAtMonotone(x, y, width);
    IndexAtEnds(x, width);
    IndexAtEnds(y, width);
  }
}
