/** menpodetect/opencv/conversion.py: an OpenCV (x, y, w, h) detection as a region. */
module OpenCvConversion {
  import opened Geometry

  /** An OpenCV detection: column x, row y, width w and height h, in pixels. */
  datatype Rect = Rect(x: int, y: int, w: int, h: int)

  /**
   * pointgraph_from_rect(rect): rows come from y and columns from x, in the
   * vertex order of bounding_box((y, x), (y + h, x + w)).
   */
  function PointGraphFromRect(rect: Rect): (g: Shape)
    ensures g == BoundingBox(Point(rect.y as real, rect.x as real),
                             Point((rect.y + rect.h) as real, (rect.x + rect.w) as real))
    ensures IsRegion(g)
  {
    BoundingBoxLayout(Point(rect.y as real, rect.x as real),
                      Point((rect.y + rect.h) as real, (rect.x + rect.w) as real));
    var x := rect.x as real;
    var y := rect.y as real;
    var w := rect.w as real;
    var h := rect.h as real;
    PointDirectedGraph([Point(y, x), Point(y + h, x), Point(y + h, x + w), Point(y, x + w)],
                       [(0, 1), (1, 2), (2, 3), (3, 0)])
  }

  /** For w, h >= 0 the region's bounds are (y, x) and (y + h, x + w) and its extent is (h, w). */
  lemma PointGraphFromRectBounds(rect: Rect)
    requires rect.w >= 0 && rect.h >= 0
    ensures Bounds(PointGraphFromRect(rect).points) ==
      (Point(rect.y as real, rect.x as real), Point((rect.y + rect.h) as real, (rect.x + rect.w) as real))
    ensures Range(PointGraphFromRect(rect).points) == Point(rect.h as real, rect.w as real)
  {
    BoundingBoxBounds(Point(rect.y as real, rect.x as real),
                      Point((rect.y + rect.h) as real, (rect.x + rect.w) as real));
  }

  /** Reading the rect back from the region's bounds and extent. */
  function RectOfRegion(g: Shape): (rect: (real, real, real, real))
    requires |g.points| > 0
    ensures rect.2 >= 0.0 && rect.3 >= 0.0
  {
    BoundsEnclose(g.points);
    (MinPoint(g.points).col, MinPoint(g.points).row, Range(g.points).col, Range(g.points).row)
  }

  /** A rect with w, h >= 0 is recovered from its region. */
  lemma RectRoundTrip(rect: Rect)
    requires rect.w >= 0 && rect.h >= 0
    ensures RectOfRegion(PointGraphFromRect(rect)) == (rect.x as real, rect.y as real, rect.w as real, rect.h as real)
  {
    PointGraphFromRectBounds(rect);
  }
}
