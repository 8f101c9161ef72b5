/**
 * Points, point clouds and point directed graphs as menpo's shape classes
 * hold them, the axis-aligned bounding box of menpodetect/conversion.py,
 * the coordinate-wise bounds and range of a point set, and the uniform
 * scale that the detection pipeline applies to its results.
 */
module Geometry {

  /** A point in image coordinates: (row, column), that is (y, x). */
  datatype Point = Point(row: real, col: real)

  /** A directed edge between two vertex indices. */
  type Edge = (nat, nat)

  /** A landmark shape: a bare point cloud or a point directed graph. */
  datatype Shape =
    | PointCloud(points: seq<Point>)
    | PointDirectedGraph(points: seq<Point>, edges: seq<Edge>)

  datatype Axis = Row | Col

  function Coord(p: Point, axis: Axis): real
  {
    match axis
    case Row => p.row
    case Col => p.col
  }

  /** The edges [[0, 1], [1, 2], [2, 3], [3, 0]] every region is built with. */
  const CycleEdges: seq<Edge> := [(0, 1), (1, 2), (2, 3), (3, 0)]

  /** The edges visit the vertices 0 .. n-1 in order and return to 0. */
  predicate IsClosedCycle(edges: seq<Edge>, n: nat)
  {
    |edges| == n && forall k :: 0 <= k < n ==> edges[k] == (k, (k + 1) % n)
  }

  /** Two points lie on one horizontal or vertical line. */
  predicate AxisAligned(p: Point, q: Point)
  {
    p.row == q.row || p.col == q.col
  }

  /** Two points differ in exactly one coordinate. */
  predicate DifferInOneCoord(p: Point, q: Point)
  {
    (p.row == q.row) != (p.col == q.col)
  }

  predicate LessEq(p: Point, q: Point)
  {
    p.row <= q.row && p.col <= q.col
  }

  /** A four-vertex region whose edges close the 4-cycle and run along the axes. */
  predicate IsRegion(s: Shape)
  {
    && s.PointDirectedGraph?
    && |s.points| == 4
    && IsClosedCycle(s.edges, 4)
    && forall k :: 0 <= k < 4 ==> AxisAligned(s.points[s.edges[k].0], s.points[s.edges[k].1])
  }

  /**
   * bounding_box(min_point, max_point) of menpodetect/conversion.py; it also
   * stands for menpo.shape.bounding_box, which the ffld2 and bob conversions call.
   */
  function BoundingBox(minPoint: Point, maxPoint: Point): Shape
  {
    PointDirectedGraph(
      [minPoint, Point(maxPoint.row, minPoint.col), maxPoint, Point(minPoint.row, maxPoint.col)],
      CycleEdges)
  }

  lemma CycleEdgesClosed()
    ensures IsClosedCycle(CycleEdges, 4)
    ensures forall k :: 0 <= k < |CycleEdges| ==> CycleEdges[k].0 < 4 && CycleEdges[k].1 < 4
  {
  }

  /**
   * The fixed vertex order: point 0 is min_point, point 1 takes its row from
   * max_point and its column from min_point, point 2 is max_point and point 3
   * is the remaining corner; the edges are the closed 4-cycle 0-1-2-3-0 and
   * every edge is horizontal or vertical.
   */
  lemma BoundingBoxLayout(minPoint: Point, maxPoint: Point)
    ensures var b := BoundingBox(minPoint, maxPoint);
      && IsRegion(b)
      && b.points[0] == minPoint && b.points[2] == maxPoint
      && b.points[1] == Point(maxPoint.row, minPoint.col)
      && b.points[3] == Point(minPoint.row, maxPoint.col)
  {
    CycleEdgesClosed();
  }

  /** For a box with positive height and width, every edge moves along exactly one axis. */
  lemma BoundingBoxEdgesMoveOneAxis(minPoint: Point, maxPoint: Point)
    requires minPoint.row < maxPoint.row && minPoint.col < maxPoint.col
    ensures var b := BoundingBox(minPoint, maxPoint);
      forall k :: 0 <= k < |b.edges| ==>
        b.edges[k].0 < 4 && b.edges[k].1 < 4 &&
        DifferInOneCoord(b.points[b.edges[k].0], b.points[b.edges[k].1])
  {
  }

  /**
   * When min_point <= max_point, point 0 is componentwise below every vertex
   * (the corner nearest the origin) and point 2 componentwise above every vertex.
   */
  lemma BoundingBoxCorners(minPoint: Point, maxPoint: Point)
    requires LessEq(minPoint, maxPoint)
    ensures var b := BoundingBox(minPoint, maxPoint);
      forall i :: 0 <= i < |b.points| ==> LessEq(b.points[0], b.points[i]) && LessEq(b.points[i], b.points[2])
  {
  }

  // ----- bounds() and range() of a point set -----

  /** The smallest coordinate along one axis (numpy's min over the points). */
  function MinCoord(pts: seq<Point>, axis: Axis): (m: real)
    requires |pts| > 0
    ensures forall i :: 0 <= i < |pts| ==> m <= Coord(pts[i], axis)
    decreases |pts|
  {
    if |pts| == 1 then Coord(pts[0], axis)
    else
      var rest := MinCoord(pts[1..], axis);
      assert forall i :: 1 <= i < |pts| ==> pts[i] == pts[1..][i - 1];
      if Coord(pts[0], axis) <= rest then Coord(pts[0], axis) else rest
  }

  /** The largest coordinate along one axis (numpy's max over the points). */
  function MaxCoord(pts: seq<Point>, axis: Axis): (m: real)
    requires |pts| > 0
    ensures forall i :: 0 <= i < |pts| ==> Coord(pts[i], axis) <= m
    decreases |pts|
  {
    if |pts| == 1 then Coord(pts[0], axis)
    else
      var rest := MaxCoord(pts[1..], axis);
      assert forall i :: 1 <= i < |pts| ==> pts[i] == pts[1..][i - 1];
      if Coord(pts[0], axis) >= rest then Coord(pts[0], axis) else rest
  }

  /** The minimum is the coordinate of one of the points. */
  lemma {:induction false} MinCoordAttained(pts: seq<Point>, axis: Axis) returns (i: nat)
    requires |pts| > 0
    ensures i < |pts| && Coord(pts[i], axis) == MinCoord(pts, axis)
    decreases |pts|
  {
    if |pts| == 1 {
      i := 0;
    } else {
      var j := MinCoordAttained(pts[1..], axis);
      i := if Coord(pts[0], axis) <= MinCoord(pts[1..], axis) then 0 else j + 1;
    }
  }

  /** The maximum is the coordinate of one of the points. */
  lemma {:induction false} MaxCoordAttained(pts: seq<Point>, axis: Axis) returns (i: nat)
    requires |pts| > 0
    ensures i < |pts| && Coord(pts[i], axis) == MaxCoord(pts, axis)
    decreases |pts|
  {
    if |pts| == 1 {
      i := 0;
    } else {
      var j := MaxCoordAttained(pts[1..], axis);
      i := if Coord(pts[0], axis) >= MaxCoord(pts[1..], axis) then 0 else j + 1;
    }
  }

  /** A value below every coordinate and attained by some point is the minimum. */
  lemma MinCoordUnique(pts: seq<Point>, axis: Axis, m: real, witnessIndex: nat)
    requires |pts| > 0
    requires forall i :: 0 <= i < |pts| ==> m <= Coord(pts[i], axis)
    requires witnessIndex < |pts| && Coord(pts[witnessIndex], axis) == m
    ensures MinCoord(pts, axis) == m
  {
    var j := MinCoordAttained(pts, axis);
    assert MinCoord(pts, axis) <= Coord(pts[witnessIndex], axis);
    assert m <= Coord(pts[j], axis);
  }

  /** A value above every coordinate and attained by some point is the maximum. */
  lemma MaxCoordUnique(pts: seq<Point>, axis: Axis, m: real, witnessIndex: nat)
    requires |pts| > 0
    requires forall i :: 0 <= i < |pts| ==> Coord(pts[i], axis) <= m
    requires witnessIndex < |pts| && Coord(pts[witnessIndex], axis) == m
    ensures MaxCoord(pts, axis) == m
  {
    var j := MaxCoordAttained(pts, axis);
    assert Coord(pts[witnessIndex], axis) <= MaxCoord(pts, axis);
    assert Coord(pts[j], axis) <= m;
  }

  function MinPoint(pts: seq<Point>): Point
    requires |pts| > 0
  {
    Point(MinCoord(pts, Row), MinCoord(pts, Col))
  }

  function MaxPoint(pts: seq<Point>): Point
    requires |pts| > 0
  {
    Point(MaxCoord(pts, Row), MaxCoord(pts, Col))
  }

  /** PointCloud.bounds(): the coordinate-wise (minimum, maximum) of the points. */
  function Bounds(pts: seq<Point>): (Point, Point)
    requires |pts| > 0
  {
    (MinPoint(pts), MaxPoint(pts))
  }

  /** PointCloud.range(): the coordinate-wise extent maximum - minimum, as (height, width). */
  function Range(pts: seq<Point>): Point
    requires |pts| > 0
  {
    Point(MaxCoord(pts, Row) - MinCoord(pts, Row), MaxCoord(pts, Col) - MinCoord(pts, Col))
  }

  /** The bounds enclose every point, and the extent is never negative. */
  lemma BoundsEnclose(pts: seq<Point>)
    requires |pts| > 0
    ensures forall i :: 0 <= i < |pts| ==> LessEq(MinPoint(pts), pts[i]) && LessEq(pts[i], MaxPoint(pts))
    ensures LessEq(MinPoint(pts), MaxPoint(pts))
    ensures Range(pts).row >= 0.0 && Range(pts).col >= 0.0
  {
    assert LessEq(MinPoint(pts), pts[0]) && LessEq(pts[0], MaxPoint(pts));
  }

  lemma {:induction false} MinMaxCoordPermutation(pts: seq<Point>, qts: seq<Point>, axis: Axis)
    requires |pts| > 0
    requires multiset(pts) == multiset(qts)
    ensures |qts| > 0
    ensures MinCoord(pts, axis) == MinCoord(qts, axis)
    ensures MaxCoord(pts, axis) == MaxCoord(qts, axis)
  {
    assert pts[0] in multiset(qts);
    forall i | 0 <= i < |qts|
      ensures MinCoord(pts, axis) <= Coord(qts[i], axis) <= MaxCoord(pts, axis)
    {
      assert qts[i] in multiset(pts);
      var j :| 0 <= j < |pts| && pts[j] == qts[i];
    }
    var a := MinCoordAttained(pts, axis);
    assert pts[a] in multiset(qts);
    var a' :| 0 <= a' < |qts| && qts[a'] == pts[a];
    MinCoordUnique(qts, axis, MinCoord(pts, axis), a');
    var b := MaxCoordAttained(pts, axis);
    assert pts[b] in multiset(qts);
    var b' :| 0 <= b' < |qts| && qts[b'] == pts[b];
    MaxCoordUnique(qts, axis, MaxCoord(pts, axis), b');
  }

  /** bounds() and range() depend only on the multiset of points, not on their order. */
  lemma BoundsPermutation(pts: seq<Point>, qts: seq<Point>)
    requires |pts| > 0
    requires multiset(pts) == multiset(qts)
    ensures |qts| > 0
    ensures Bounds(pts) == Bounds(qts)
    ensures Range(pts) == Range(qts)
  {
    MinMaxCoordPermutation(pts, qts, Row);
    MinMaxCoordPermutation(pts, qts, Col);
  }

  /** When min_point <= max_point the box's bounds give back (min_point, max_point). */
  lemma BoundingBoxBounds(minPoint: Point, maxPoint: Point)
    requires LessEq(minPoint, maxPoint)
    ensures Bounds(BoundingBox(minPoint, maxPoint).points) == (minPoint, maxPoint)
    ensures Range(BoundingBox(minPoint, maxPoint).points)
      == Point(maxPoint.row - minPoint.row, maxPoint.col - minPoint.col)
  {
    var pts := BoundingBox(minPoint, maxPoint).points;
    MinCoordUnique(pts, Row, minPoint.row, 0);
    MinCoordUnique(pts, Col, minPoint.col, 0);
    MaxCoordUnique(pts, Row, maxPoint.row, 2);
    MaxCoordUnique(pts, Col, maxPoint.col, 2);
  }

  /** PointCloud.bounding_box(): the box spanned by the cloud's bounds. */
  function BoundingBoxOf(s: Shape): Shape
    requires |s.points| > 0
  {
    BoundingBox(MinPoint(s.points), MaxPoint(s.points))
  }

  /** The bounding box of a shape has the shape's own bounds and range. */
  lemma BoundingBoxOfBounds(s: Shape)
    requires |s.points| > 0
    ensures Bounds(BoundingBoxOf(s).points) == Bounds(s.points)
    ensures Range(BoundingBoxOf(s).points) == Range(s.points)
  {
    BoundsEnclose(s.points);
    BoundingBoxBounds(MinPoint(s.points), MaxPoint(s.points));
  }

  // ----- UniformScale(s, n_dims=2).apply(shape) -----

  function ScalePoint(p: Point, s: real): Point
  {
    Point(p.row * s, p.col * s)
  }

  /** menpo's UniformScale about the origin: every vertex is multiplied by s; the edges are kept. */
  function Scale(sh: Shape, s: real): Shape
  {
    match sh
    case PointCloud(pts) => PointCloud(seq(|pts|, i requires 0 <= i < |pts| => ScalePoint(pts[i], s)))
    case PointDirectedGraph(pts, edges) =>
      PointDirectedGraph(seq(|pts|, i requires 0 <= i < |pts| => ScalePoint(pts[i], s)), edges)
  }

  /** The list comprehension [UniformScale(s).apply(pc) for pc in pcs]. */
  function ScaleAll(shapes: seq<Shape>, s: real): seq<Shape>
  {
    seq(|shapes|, i requires 0 <= i < |shapes| => Scale(shapes[i], s))
  }

  /** Scaling keeps the kind of shape, the number of points and the edges, and scales every vertex. */
  lemma ScaleVertices(sh: Shape, s: real)
    ensures Scale(sh, s).PointCloud? == sh.PointCloud?
    ensures |Scale(sh, s).points| == |sh.points|
    ensures sh.PointDirectedGraph? ==> Scale(sh, s).edges == sh.edges
    ensures forall i :: 0 <= i < |sh.points| ==>
      Scale(sh, s).points[i] == Point(sh.points[i].row * s, sh.points[i].col * s)
  {
  }

  lemma MulInverse(x: real, s: real)
    requires s != 0.0
    ensures x * s * (1.0 / s) == x
  {
    calc {
      x * s * (1.0 / s);
      x * (s * (1.0 / s));
      x * 1.0;
    }
  }

  /** Scaling by s and then by 1/s gives back the shape: the origin-anchored inverse. */
  lemma ScaleInverse(sh: Shape, s: real)
    requires s != 0.0
    ensures Scale(Scale(sh, s), 1.0 / s) == sh
  {
    var pts := sh.points;
    var back := Scale(Scale(sh, s), 1.0 / s).points;
    assert |back| == |pts|;
    forall i | 0 <= i < |pts| ensures back[i] == pts[i] {
      MulInverse(pts[i].row, s);
      MulInverse(pts[i].col, s);
    }
    assert back == pts;
  }
}
