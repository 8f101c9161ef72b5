/** menpodetect/dlib/conversion.py: dlib rectangles to regions and back. */
module DlibConversion {
  import opened Geometry

  /** dlib.rectangle with integer left, top, right and bottom. */
  datatype Rectangle = Rectangle(left: int, top: int, right: int, bottom: int)

  /** rect_to_pointgraph(rect): the region spanned by (top, left) and (bottom, right). */
  function RectToPointGraph(rect: Rectangle): (g: Shape)
    ensures g == BoundingBox(Point(rect.top as real, rect.left as real), Point(rect.bottom as real, rect.right as real))
    ensures IsRegion(g)
  {
    BoundingBoxLayout(Point(rect.top as real, rect.left as real), Point(rect.bottom as real, rect.right as real));
    var top := rect.top as real;
    var left := rect.left as real;
    var bottom := rect.bottom as real;
    var right := rect.right as real;
    PointDirectedGraph([Point(top, left), Point(bottom, left), Point(bottom, right), Point(top, right)],
                       [(0, 1), (1, 2), (2, 3), (3, 0)])
  }

  /** Python's int() of a float: truncation toward zero. */
  function Truncate(x: real): (n: int)
    ensures x >= 0.0 ==> 0 <= n && n as real <= x < n as real + 1.0
    ensures x < 0.0 ==> n <= 0 && n as real - 1.0 < x <= n as real
  {
    if x >= 0.0 then x.Floor else -((-x).Floor)
  }

  lemma TruncateMonotone(a: real, b: real)
    requires a <= b
    ensures Truncate(a) <= Truncate(b)
  {
  }

  lemma TruncateInteger(n: int)
    ensures Truncate(n as real) == n
  {
  }

  /**
   * pointgraph_to_rect(pg): the truncated coordinate-wise minimum gives
   * left and top, the truncated maximum right and bottom; the result is
   * never inverted.
   */
  function PointGraphToRect(pg: Shape): (r: Rectangle)
    requires |pg.points| > 0
    ensures r.top <= r.bottom && r.left <= r.right
  {
    BoundsEnclose(pg.points);
    var (minP, maxP) := Bounds(pg.points);
    TruncateMonotone(minP.col, maxP.col);
    TruncateMonotone(minP.row, maxP.row);
    Rectangle(Truncate(minP.col), Truncate(minP.row), Truncate(maxP.col), Truncate(maxP.row))
  }

  /** Only the bounds matter: any reordering of the vertices gives the same rectangle. */
  lemma PointGraphToRectPermutation(pg: Shape, qg: Shape)
    requires |pg.points| > 0 && multiset(pg.points) == multiset(qg.points)
    ensures |qg.points| > 0 && PointGraphToRect(pg) == PointGraphToRect(qg)
  {
    BoundsPermutation(pg.points, qg.points);
  }

  function Min(a: int, b: int): int { if a <= b then a else b }
  function Max(a: int, b: int): int { if a <= b then b else a }

  /** The round trip normalises a rectangle: inverted sides come back swapped into order. */
  lemma RectRoundTripNormalises(rect: Rectangle)
    ensures PointGraphToRect(RectToPointGraph(rect)) ==
      Rectangle(Min(rect.left, rect.right), Min(rect.top, rect.bottom),
                Max(rect.left, rect.right), Max(rect.top, rect.bottom))
  {
    var pts := RectToPointGraph(rect).points;
    var top := rect.top as real;
    var left := rect.left as real;
    var bottom := rect.bottom as real;
    var right := rect.right as real;
    MinCoordUnique(pts, Row, Min(rect.top, rect.bottom) as real, if rect.top <= rect.bottom then 0 else 1);
    MaxCoordUnique(pts, Row, Max(rect.top, rect.bottom) as real, if rect.top <= rect.bottom then 1 else 0);
    MinCoordUnique(pts, Col, Min(rect.left, rect.right) as real, if rect.left <= rect.right then 0 else 2);
    MaxCoordUnique(pts, Col, Max(rect.left, rect.right) as real, if rect.left <= rect.right then 2 else 0);
    TruncateInteger(Min(rect.left, rect.right));
    TruncateInteger(Min(rect.top, rect.bottom));
    TruncateInteger(Max(rect.left, rect.right));
    TruncateInteger(Max(rect.top, rect.bottom));
  }

  /** An ordered rectangle survives the round trip unchanged. */
  lemma RectRoundTrip(rect: Rectangle)
    requires rect.top <= rect.bottom && rect.left <= rect.right
    ensures PointGraphToRect(RectToPointGraph(rect)) == rect
  {
    RectRoundTripNormalises(rect);
  }
}
