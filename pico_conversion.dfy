/** menpodetect/pico/conversion.py: a pico circle fitting as the square region around it. */
module PicoConversion {
  import opened Geometry

  /** A pico detection: the circle's centre (row, column) and its diameter. */
  datatype Fitting = Fitting(center: Point, diameter: real)

  /**
   * pointgraph_from_circle(fitting): the square of side diameter centred on
   * the fitting, in the vertex order of bounding_box.
   */
  function PointGraphFromCircle(fitting: Fitting): (g: Shape)
    ensures var r := fitting.diameter / 2.0;
      g == BoundingBox(Point(fitting.center.row - r, fitting.center.col - r),
                       Point(fitting.center.row - r + fitting.diameter, fitting.center.col - r + fitting.diameter))
    ensures IsRegion(g)
  {
    var diameter := fitting.diameter;
    var radius := diameter / 2.0;
    var y := fitting.center.row - radius;
    var x := fitting.center.col - radius;
    BoundingBoxLayout(Point(y, x), Point(y + diameter, x + diameter));
    PointDirectedGraph([Point(y, x), Point(y + diameter, x), Point(y + diameter, x + diameter), Point(y, x + diameter)],
                       [(0, 1), (1, 2), (2, 3), (3, 0)])
  }

  /** The region is diameter high and diameter wide. */
  lemma CircleRegionExtent(fitting: Fitting)
    requires fitting.diameter >= 0.0
    ensures Range(PointGraphFromCircle(fitting).points) == Point(fitting.diameter, fitting.diameter)
  {
    var r := fitting.diameter / 2.0;
    BoundingBoxBounds(Point(fitting.center.row - r, fitting.center.col - r),
                      Point(fitting.center.row - r + fitting.diameter, fitting.center.col - r + fitting.diameter));
  }

  /** The midpoint of vertices 0 and 2 is the fitting's centre. */
  lemma CircleRegionCentred(fitting: Fitting)
    ensures var g := PointGraphFromCircle(fitting);
      Point((g.points[0].row + g.points[2].row) / 2.0, (g.points[0].col + g.points[2].col) / 2.0) == fitting.center
  {
  }
}
