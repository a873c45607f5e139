/**
 * Resizing a window by one of its edges: which edges the mouse is over
 * (`GetSizeMask`), the resize cursor for a mask (`SetResizeCursor`), and the
 * geometry `OnSize` assigns while an edge is dragged, clamped to the minimum
 * window size.
 */
module Sizing {
  import opened Geometry

  /** Smallest width and height a window can be dragged to. */
  const MinWindowSize: real := 50.0

  // ---------------------------------------------------------------------------
  // int2 arithmetic, componentwise
  // ---------------------------------------------------------------------------

  function Add(a: Vec2, b: Vec2): Vec2 { Vec2(a.x + b.x, a.y + b.y) }
  function Sub(a: Vec2, b: Vec2): Vec2 { Vec2(a.x - b.x, a.y - b.y) }
  function Mul(a: Vec2, b: Vec2): Vec2 { Vec2(a.x * b.x, a.y * b.y) }
  function MinR(a: real, b: real): real { if a < b then a else b }
  function MaxR(a: real, b: real): real { if a < b then b else a }
  function Min0(v: Vec2): Vec2 { Vec2(MinR(v.x, 0.0), MinR(v.y, 0.0)) }

  // ---------------------------------------------------------------------------
  // Size mask
  // ---------------------------------------------------------------------------

  /** The mouse is within `band` inside an edge, at distance `d` from it. */
  predicate InBand(d: real, band: real) {
    0.0 <= d < band
  }

  /**
   * One axis of the mask: 1 near the far edge, -1 near the near edge; the
   * near-edge test runs second and so wins when both hold.
   */
  function AxisMask(fromNear: real, fromFar: real, band: real): (m: real)
    ensures m == -1.0 || m == 0.0 || m == 1.0
    ensures m == -1.0 <==> InBand(fromNear, band)
    ensures m == 1.0 <==> InBand(fromFar, band) && !InBand(fromNear, band)
    ensures m == 0.0 <==> !InBand(fromNear, band) && !InBand(fromFar, band)
  {
    var m := if InBand(fromFar, band) then 1.0 else 0.0;
    if InBand(fromNear, band) then -1.0 else m
  }

  /**
   * `GetSizeMask`: the mouse position is made relative to the parent node when
   * there is one, then compared with the window's corners.
   */
  function GetSizeMask(mouse: Vec2, parentPosition: Option<Vec2>, topLeft: Vec2, bottomRight: Vec2,
                       sideBarSize: real): (mask: Vec2)
    ensures var p := if parentPosition.Some? then Sub(mouse, parentPosition.value) else mouse;
            && (mask.x == -1.0 <==> InBand(p.x - topLeft.x, sideBarSize))
            && (mask.x == 1.0 <==> InBand(bottomRight.x - p.x, sideBarSize) && !InBand(p.x - topLeft.x, sideBarSize))
            && (mask.y == -1.0 <==> InBand(p.y - topLeft.y, sideBarSize))
            && (mask.y == 1.0 <==> InBand(bottomRight.y - p.y, sideBarSize) && !InBand(p.y - topLeft.y, sideBarSize))
    ensures mask.x in {-1.0, 0.0, 1.0} && mask.y in {-1.0, 0.0, 1.0}
  {
    var p := if parentPosition.Some? then Sub(mouse, parentPosition.value) else mouse;
    var offsetTopLeft := Sub(p, topLeft);
    var offsetBottomRight := Sub(bottomRight, p);
    Vec2(AxisMask(offsetTopLeft.x, offsetBottomRight.x, sideBarSize),
         AxisMask(offsetTopLeft.y, offsetBottomRight.y, sideBarSize))
  }

  /**
   * On an axis at least two side bars long the two edge bands cannot both
   * hold, so the override never decides: the mask is 1 exactly near the far
   * edge.
   */
  lemma WideAxisHasNoOverride(mouse: Vec2, parentPosition: Option<Vec2>, topLeft: Vec2,
                              bottomRight: Vec2, sideBarSize: real)
    requires bottomRight.x - topLeft.x >= 2.0 * sideBarSize
    ensures var p := if parentPosition.Some? then Sub(mouse, parentPosition.value) else mouse;
            GetSizeMask(mouse, parentPosition, topLeft, bottomRight, sideBarSize).x == 1.0
            <==> InBand(bottomRight.x - p.x, sideBarSize)
  {
  }

  // ---------------------------------------------------------------------------
  // Resize cursor
  // ---------------------------------------------------------------------------

  /** The sign of a mask component, as `SetResizeCursor` tests it. */
  function Sign(v: real): real {
    if v > 0.0 then 1.0 else if v < 0.0 then -1.0 else 0.0
  }

  /** `s`/`n` for the vertical direction, then `e`/`w`, then `-resize` unless empty. */
  function ResizeCursor(mask: Vec2): (cursor: string)
    ensures cursor == "" <==> Sign(mask.x) == 0.0 && Sign(mask.y) == 0.0
  {
    var vertical := if mask.y > 0.0 then "s" else if mask.y < 0.0 then "n" else "";
    var horizontal := if mask.x > 0.0 then "e" else if mask.x < 0.0 then "w" else "";
    var direction := vertical + horizontal;
    if |direction| > 0 then direction + "-resize" else direction
  }

  /** Reads the direction back from a cursor name: the sign of each mask component. */
  function CursorDirection(cursor: string): Option<Vec2> {
    if cursor == "" then Some(Vec2(0.0, 0.0))
    else if |cursor| < 7 || cursor[|cursor| - 7..] != "-resize" then None
    else
      var d := cursor[..|cursor| - 7];
      var y := if |d| > 0 && d[0] == 's' then 1.0 else if |d| > 0 && d[0] == 'n' then -1.0 else 0.0;
      var rest := if y != 0.0 then d[1..] else d;
      if rest == "e" then Some(Vec2(1.0, y))
      else if rest == "w" then Some(Vec2(-1.0, y))
      else if rest == "" && y != 0.0 then Some(Vec2(0.0, y))
      else None
  }

  /** The cursor name encodes exactly the signs of the mask. */
  lemma CursorRoundTrip(mask: Vec2)
    ensures CursorDirection(ResizeCursor(mask)) == Some(Vec2(Sign(mask.x), Sign(mask.y)))
  {
  }

  // ---------------------------------------------------------------------------
  // Drag geometry
  // ---------------------------------------------------------------------------

  /**
   * One axis of `OnSize`: the size follows the offset along the mask, the
   * position drifts with the negative part of the mask, then the size is
   * clamped to the minimum and the position kept left of the start's far
   * edge by the minimum.
   */
  function ResizeAxis(startPosition: real, startSize: real, offset: real, mask: real): (r: (real, real))
    ensures r.1 >= MinWindowSize && r.0 <= startPosition + startSize - MinWindowSize
  {
    var size := startSize + offset * mask;
    var position := startPosition - offset * MinR(mask, 0.0);
    (MinR(position, startPosition + startSize - MinWindowSize), MaxR(size, MinWindowSize))
  }

  /** Recognises one axis of `ResizeAxis` from its clamped position and size. */
  lemma ResizeAxisIs(startPosition: real, startSize: real, offset: real, mask: real,
                     position: real, size: real)
    requires size == MaxR(startSize + offset * mask, MinWindowSize)
    requires position == MinR(startPosition - offset * MinR(mask, 0.0), startPosition + startSize - MinWindowSize)
    ensures ResizeAxis(startPosition, startSize, offset, mask) == (position, size)
  {
  }

  /** Both axes: the placement `OnSize` assigns before its snapping step. */
  function Resized(startPosition: Vec2, startSize: Vec2, offset: Vec2, mask: Vec2): (p: Placement)
    ensures p.size.x >= MinWindowSize && p.size.y >= MinWindowSize
    ensures p.position.x <= startPosition.x + startSize.x - MinWindowSize
    ensures p.position.y <= startPosition.y + startSize.y - MinWindowSize
  {
    var x := ResizeAxis(startPosition.x, startSize.x, offset.x, mask.x);
    var y := ResizeAxis(startPosition.y, startSize.y, offset.y, mask.y);
    Placement(Vec2(x.0, y.0), Vec2(x.1, y.1))
  }

  /**
   * Dragging the near edge (or no edge) never moves the far edge, clamped or
   * not: position plus size is the start's far edge.
   */
  lemma FarEdgeStays(startPosition: real, startSize: real, offset: real, mask: real)
    requires mask <= 0.0
    ensures var r := ResizeAxis(startPosition, startSize, offset, mask);
            r.0 + r.1 == startPosition + startSize && r.1 == MaxR(startSize + offset * mask, MinWindowSize)
  {
  }

  /**
   * Dragging the far edge (or no edge) of a window at least the minimum size
   * keeps its position, and the size follows the offset down to the minimum.
   */
  lemma NearEdgeStays(startPosition: real, startSize: real, offset: real, mask: real)
    requires mask >= 0.0 && startSize >= MinWindowSize
    ensures var r := ResizeAxis(startPosition, startSize, offset, mask);
            r.0 == startPosition && r.1 == MaxR(startSize + offset * mask, MinWindowSize)
  {
  }

  /**
   * A window that is still sizing: the drag start recorded by `OnBeginSize`
   * and the current geometry.
   */
  class SizingWindow {
    var sizerMoved: bool
    var position: Vec2
    var size: Vec2
    var dragMouseStartPosition: Vec2
    var dragWindowStartPosition: Vec2
    var dragWindowStartSize: Vec2

    constructor (position: Vec2, size: Vec2)
      ensures this.position == position && this.size == size && !sizerMoved
      ensures dragMouseStartPosition == Vec2(0.0, 0.0)
      ensures dragWindowStartPosition == position && dragWindowStartSize == size
    {
      this.position := position;
      this.size := size;
      sizerMoved := false;
      dragMouseStartPosition := Vec2(0.0, 0.0);
      dragWindowStartPosition := position;
      dragWindowStartSize := size;
    }

    /** The part of `OnBeginSize` that records where the drag starts. */
    method BeginSize(mouse: Vec2)
      modifies this
      ensures dragMouseStartPosition == mouse
      ensures dragWindowStartPosition == position == old(position)
      ensures dragWindowStartSize == size == old(size)
      ensures !sizerMoved
    {
      dragMouseStartPosition := mouse;
      dragWindowStartPosition := position;
      dragWindowStartSize := size;
      sizerMoved := false;
    }

    /** The geometry part of `OnSize`: follow the scaled offset along the mask, then clamp. */
    method Drag(offset: Vec2, mask: Vec2)
      modifies this
      ensures Placement(position, size)
              == Resized(dragWindowStartPosition, dragWindowStartSize, offset, mask)
      ensures sizerMoved == old(sizerMoved)
      ensures dragMouseStartPosition == old(dragMouseStartPosition)
      ensures dragWindowStartPosition == old(dragWindowStartPosition)
      ensures dragWindowStartSize == old(dragWindowStartSize)
    {
      size := Add(dragWindowStartSize, Mul(offset, mask));
      var positionMask := Min0(mask);
      position := Sub(dragWindowStartPosition, Mul(offset, positionMask));
      var minWindowSize := Vec2(MinWindowSize, MinWindowSize);
      size := Vec2(MaxR(size.x, minWindowSize.x), MaxR(size.y, minWindowSize.y));
      var limit := Sub(Add(dragWindowStartPosition, dragWindowStartSize), minWindowSize);
      position := Vec2(MinR(position.x, limit.x), MinR(position.y, limit.y));
      ResizeAxisIs(dragWindowStartPosition.x, dragWindowStartSize.x, offset.x, mask.x, position.x, size.x);
      ResizeAxisIs(dragWindowStartPosition.y, dragWindowStartSize.y, offset.y, mask.y, position.y, size.y);
    }

    /**
     * `OnSize` before snapping: a master window measures the offset from the
     * mouse, an anchored one is handed its master's offset. The first event
     * with no movement is ignored (`None`); otherwise the geometry follows the
     * scaled offset and that offset is what the anchored windows are handed.
     */
    method OnSize(mouse: Vec2, masterOffset: Option<Vec2>, mask: Vec2, offsetScale: real)
      returns (handed: Option<Vec2>)
      modifies this
      ensures var offset := if masterOffset.Some? then masterOffset.value
                            else Sub(mouse, old(dragMouseStartPosition));
              if !old(sizerMoved) && offset == Vec2(0.0, 0.0) then
                && handed == None
                && !sizerMoved && position == old(position) && size == old(size)
              else
                && sizerMoved
                && handed == Some(Mul(offset, Vec2(offsetScale, offsetScale)))
                && Placement(position, size)
                   == Resized(dragWindowStartPosition, dragWindowStartSize, handed.value, mask)
      ensures dragMouseStartPosition == old(dragMouseStartPosition)
      ensures dragWindowStartPosition == old(dragWindowStartPosition)
      ensures dragWindowStartSize == old(dragWindowStartSize)
    {
      var offset := if masterOffset.Some? then masterOffset.value else Sub(mouse, dragMouseStartPosition);
      if !sizerMoved && offset.x == 0.0 && offset.y == 0.0 {
        return None;
      }
      sizerMoved := true;
      offset := Mul(offset, Vec2(offsetScale, offsetScale));
      Drag(offset, mask);
      handed := Some(offset);
    }
  }
}
