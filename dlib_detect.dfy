/** menpodetect/dlib/_dlib.py: the region built for each rectangle a dlib object detector returns. */
module DlibDetect {
  import opened Geometry
  import DlibConversion

  /**
   * pointgraph_from_rect(rect): four vertices and the closed 4-cycle, the
   * same region rect_to_pointgraph of the conversion module builds.
   */
  function PointGraphFromRect(rect: DlibConversion.Rectangle): (g: Shape)
    ensures g == DlibConversion.RectToPointGraph(rect)
    ensures g.PointDirectedGraph? && |g.points| == 4
    ensures forall k :: 0 <= k < |g.edges| ==> g.edges[k].0 < 4 && g.edges[k].1 < 4
  {
    var top := rect.top as real;
    var left := rect.left as real;
    var bottom := rect.bottom as real;
    var right := rect.right as real;
    PointDirectedGraph([Point(top, left), Point(bottom, left), Point(bottom, right), Point(top, right)],
                       [(0, 1), (1, 2), (2, 3), (3, 0)])
  }
}
