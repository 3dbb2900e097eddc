/**
 * The two project dashboards whose payment timeline is dragged relative to
 * the current entry (the pan grant remembers the current dot's pixel offset,
 * each move adds the finger's travel `dx`), together with their strategy
 * carousel and their info tooltips. The dashboard with key dots starts on
 * entry 2; the plain timeline screen starts on entry 0.
 */
module DragTimeline {
  import opened Wrappers
  import opened Numeric
  import opened TimelineMath

  /** The keys of `TOOLTIP_CONTENT`. */
  datatype Tooltip = OffPlan | Rating | Rooms | Area | ServiceCharge | PricePerFoot | Dld

  /** `KEY_DOT_INDICES.includes(i)`, with `KEY_DOT_INDICES = [0, 5, 11]`. */
  function KeyDot(i: int): (b: bool)
    ensures b <==> i == 0 || i == 5 || i == LastIndex
  {
    i in [0, 5, 11]
  }

  /** The four dot styles of the key-dot dashboard's `TimelineDots`. */
  datatype KeyRowDot = KeyFilled | KeyPlain | SmallPassed | SmallAhead

  /**
   * `isFilled = i <= timelineIndex`; a key dot takes the filled style only
   * when it is filled and `i < 5`, a small dot turns transparent once filled.
   */
  function KeyRowDotAt(i: int, index: int): (d: KeyRowDot)
    ensures (d == KeyFilled || d == KeyPlain) <==> KeyDot(i)
    ensures d == KeyFilled <==> i == 0 && 0 <= index
    ensures d == SmallPassed <==> !KeyDot(i) && i <= index
  {
    var filled := i <= index;
    if KeyDot(i) then (if filled && i < 5 then KeyFilled else KeyPlain)
    else (if filled then SmallPassed else SmallAhead)
  }

  /** `Tooltip({id})` renders only while `activeTooltip === id`: at most one tooltip is shown. */
  function ShownTooltips(active: Option<Tooltip>): (shown: set<Tooltip>)
    ensures forall t :: t in shown <==> active == Some(t)
    ensures |shown| <= 1
  {
    if active.Some? then {active.value} else {}
  }

  /** `Math.round(contentOffset.x / layoutMeasurement.width)`, the carousel page under the viewport. */
  function PageAt(offset: real, slideSize: real): (page: int)
    requires slideSize > 0.0
    ensures offset >= 0.0 ==> page >= 0
  {
    Round(offset / slideSize)
  }

  /** Scrolling exactly `k` slide widths shows page `k`; the page is not clamped to the strategy count. */
  lemma PageAtWhole(k: int, slideSize: real)
    requires slideSize > 0.0
    ensures PageAt(k as real * slideSize, slideSize) == k
  {
    DivCancel(k as real, slideSize);
    RoundInt(k);
  }

  class DragDashboard {
    var timelineIndex: int
    var sliderWidth: real
    var dragStartX: real
    var activeIndex: int
    var activeTooltip: Option<Tooltip>

    ghost predicate Valid()
      reads this
    {
      0 <= timelineIndex <= LastIndex
    }

    /** The dashboard with key dots: starts on `SCREENSHOT_TIMELINE_INDEX = 2`. */
    constructor KeyDotDashboard()
      ensures Valid()
      ensures timelineIndex == 2 && sliderWidth == 0.0 && dragStartX == 0.0
      ensures activeIndex == 0 && activeTooltip == None
    {
      timelineIndex, sliderWidth, dragStartX := 2, 0.0, 0.0;
      activeIndex, activeTooltip := 0, None;
    }

    /** The plain timeline screen: starts on entry 0. */
    constructor PlainTimeline()
      ensures Valid()
      ensures timelineIndex == 0 && sliderWidth == 0.0 && dragStartX == 0.0
      ensures activeIndex == 0 && activeTooltip == None
    {
      timelineIndex, sliderWidth, dragStartX := 0, 0.0, 0.0;
      activeIndex, activeTooltip := 0, None;
    }

    /** `onLayout`: the measured width of the track. */
    method Layout(width: real)
      modifies this`sliderWidth
      ensures sliderWidth == width
    {
      sliderWidth := width;
    }

    /** `onPanResponderGrant`. */
    method Grant()
      modifies this`dragStartX
      ensures dragStartX == GrantStart(timelineIndex, sliderWidth, old(dragStartX))
    {
      if sliderWidth > 0.0 {
        var step := Step(sliderWidth);
        dragStartX := timelineIndex as real * step;
      }
    }

    /** `onPanResponderMove` with the gesture's travel `dx`. */
    method Move(dx: real)
      requires Valid()
      modifies this`timelineIndex
      ensures Valid()
      ensures timelineIndex == MoveIndex(old(timelineIndex), dragStartX, dx, sliderWidth)
    {
      if sliderWidth == 0.0 {
        return;
      }
      var newX := dragStartX + dx;
      var step := Step(sliderWidth);
      var rawIndex := Round(newX / step);
      timelineIndex := Max(0, Min(rawIndex, LastIndex));
    }

    /** `getTrianglePosition()`: where the red triangle sits. */
    function TrianglePosition(): (p: real)
      reads this
      requires Valid()
      ensures 0.0 <= sliderWidth ==> 0.0 <= p <= sliderWidth
      ensures sliderWidth == 0.0 ==> p == 0.0
      ensures 0.0 <= sliderWidth && timelineIndex == LastIndex ==> p == sliderWidth
    {
      if 0.0 <= sliderWidth then
        PositionBounds(timelineIndex, sliderWidth);
        Position(timelineIndex, sliderWidth)
      else
        Position(timelineIndex, sliderWidth)
    }

    /** The plain timeline screen's dot row: `i === timelineIndex` active, `i < timelineIndex` filled. */
    function DotRow(): (ds: seq<DotState>)
      reads this
      requires Valid()
      ensures |ds| == Count
      ensures forall i :: 0 <= i < Count ==> ds[i] == DotAt(i, timelineIndex)
      ensures Occurrences(ds, Filled) == timelineIndex
      ensures Occurrences(ds, Active) == 1
    {
      FullRowCounts(timelineIndex);
      DotsPointwise(Count, timelineIndex);
      Dots(Count, timelineIndex)
    }

    /** The carousel's `onScroll`: reassign the active page only when it changed. */
    method OnScroll(offset: real, slideSize: real)
      requires slideSize > 0.0
      modifies this`activeIndex
      ensures activeIndex == PageAt(offset, slideSize)
    {
      var roundIndex := Round(offset / slideSize);
      if roundIndex != activeIndex {
        activeIndex := roundIndex;
      }
    }

    /** Pressing an info box: `setActiveTooltip(id)`. */
    method OpenTooltip(t: Tooltip)
      modifies this`activeTooltip
      ensures activeTooltip == Some(t)
      ensures ShownTooltips(activeTooltip) == {t}
    {
      activeTooltip := Some(t);
    }

    /** The tooltip's close button: `setActiveTooltip(null)`. */
    method CloseTooltip()
      modifies this`activeTooltip
      ensures activeTooltip == None
      ensures ShownTooltips(activeTooltip) == {}
    {
      activeTooltip := None;
    }
  }

  /**
   * A grant followed by a move as the pan handlers actually run them:
   * against the first render's width, so the drag never moves the selection.
   */
  function AsWrittenDrag(index: int, previous: real, dx: real): (i: int)
    requires 0 <= index <= LastIndex
    ensures i == index
  {
    MoveIndex(index, GrantStart(index, FirstRenderWidth, previous), dx, FirstRenderWidth)
  }

  /**
   * On a measured 110-pixel track, dragging one step (10 pixels) right from
   * entry 2 should select entry 3, but the handlers as written keep entry 2.
   */
  lemma AsWrittenDragIgnoresTravel(previous: real)
    ensures MoveIndex(2, GrantStart(2, 110.0, previous), 10.0, 110.0) == 3
    ensures AsWrittenDrag(2, previous, 10.0) == 2
  {
    assert Step(110.0) == 10.0;
    assert 1 as real * Step(110.0) == 10.0;
    GrantThenSteps(2, 1, 110.0, previous);
  }

  /** Before the track is measured neither a grant nor a move changes anything. */
  lemma UnmeasuredDragIsInert(index: int, previous: real, dx: real)
    requires 0 <= index <= LastIndex
    ensures GrantStart(index, 0.0, previous) == previous
    ensures MoveIndex(index, previous, dx, 0.0) == index
  {
  }
}
