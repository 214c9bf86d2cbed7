/**
 * The marker-drawing gesture over the screenshot: a two-state machine
 * (Idle / Drawing from a start point) whose moves rewrite the document's
 * single marker box with the draft rectangle spanned by the start point and
 * the pointer. Pointer positions arrive already converted to percentages.
 */
module Drawing {
  import opened Wrappers
  import opened Report

  /** A pointer position in percent of the screenshot container. */
  datatype Point = Point(x: real, y: real)

  datatype DrawState = Idle | Drawing(start: Point)

  function Min(a: real, b: real): real {
    if a <= b then a else b
  }

  function Max(a: real, b: real): real {
    if a <= b then b else a
  }

  function Abs(a: real): real {
    if a < 0.0 then -a else a
  }

  /**
   * The draft box of a drag from `start` to `cur`: its left edge is the
   * smaller x, its right edge the larger one, and likewise vertically, so
   * its sides are never negative.
   */
  function Draft(start: Point, cur: Point): (r: MarkerBox)
    ensures r.width >= 0.0 && r.height >= 0.0
    ensures r.x <= start.x && r.x <= cur.x && (r.x == start.x || r.x == cur.x)
    ensures r.y <= start.y && r.y <= cur.y && (r.y == start.y || r.y == cur.y)
    ensures r.x + r.width >= start.x && r.x + r.width >= cur.x
    ensures r.x + r.width == start.x || r.x + r.width == cur.x
    ensures r.y + r.height >= start.y && r.y + r.height >= cur.y
    ensures r.y + r.height == start.y || r.y + r.height == cur.y
  {
    MarkerBox(Min(start.x, cur.x), Min(start.y, cur.y), Abs(cur.x - start.x), Abs(cur.y - start.y))
  }

  predicate Contains(b: MarkerBox, p: Point) {
    b.x <= p.x <= b.x + b.width && b.y <= p.y <= b.y + b.height
  }

  predicate Inside(inner: MarkerBox, outer: MarkerBox) {
    outer.x <= inner.x && inner.x + inner.width <= outer.x + outer.width
    && outer.y <= inner.y && inner.y + inner.height <= outer.y + outer.height
  }

  /** The draft's right and bottom edges are the larger coordinates of the two points. */
  lemma DraftFarEdges(start: Point, cur: Point)
    ensures Draft(start, cur).x + Draft(start, cur).width == Max(start.x, cur.x)
    ensures Draft(start, cur).y + Draft(start, cur).height == Max(start.y, cur.y)
  {
  }

  /** Dragging from a to b draws the same box as dragging from b to a. */
  lemma DraftSymmetric(a: Point, b: Point)
    ensures Draft(a, b) == Draft(b, a)
  {
  }

  /** The draft is the smallest box holding both points: it holds them, and lies inside every box that does. */
  lemma DraftIsBoundingBox(a: Point, b: Point, other: MarkerBox)
    ensures Contains(Draft(a, b), a) && Contains(Draft(a, b), b)
    ensures Contains(other, a) && Contains(other, b) ==> Inside(Draft(a, b), other)
  {
  }

  /** A drag from (10, 10) to (50, 40) draws the box at (10, 10) of size 40 by 30. */
  lemma DraftExample()
    ensures Draft(Point(10.0, 10.0), Point(50.0, 40.0)) == MarkerBox(10.0, 10.0, 40.0, 30.0)
  {
  }

  /** Pointer pressed on the container: starts a drag only over a present screenshot. */
  function MouseDown(st: DrawState, data: ReportData, p: Point): (r: DrawState)
    ensures !Present(data.screenshot) ==> r == st
    ensures Present(data.screenshot) ==> r == Drawing(p)
  {
    if !Present(data.screenshot) then st else Drawing(p)
  }

  /**
   * Pointer moved: while Idle the document is unchanged; while Drawing only
   * the marker box changes, to the draft from the start point.
   */
  function MouseMove(st: DrawState, data: ReportData, p: Point): (r: ReportData)
    ensures st.Idle? ==> r == data
    ensures st.Drawing? ==> r.markerBox == Some(Draft(st.start, p))
    ensures r.(markerBox := data.markerBox) == data
  {
    match st
    case Idle => data
    case Drawing(start) => data.(markerBox := Some(Draft(start, p)))
  }

  /** Pointer released or left the container: the drag ends; the document is untouched. */
  function MouseUp(st: DrawState): (r: DrawState)
    ensures r.Idle?
  {
    Idle
  }

  /** Well-formed marker: an absent box, or one with non-negative sides. */
  predicate MarkerWellFormed(m: Option<MarkerBox>) {
    m.Some? ==> m.value.width >= 0.0 && m.value.height >= 0.0
  }

  /** Whatever the pointer does, the marker box stays well-formed. */
  lemma MouseMovePreservesMarker(st: DrawState, data: ReportData, p: Point)
    requires MarkerWellFormed(data.markerBox)
    ensures MarkerWellFormed(MouseMove(st, data, p).markerBox)
  {
  }
}
