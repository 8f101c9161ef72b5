/** menpodetect/bob/conversion.py: bob bounding boxes to regions and back. */
module BobConversion {
  import opened Geometry

  /** bob.ip.facedetect.BoundingBox, held as its top-left corner and its size (height, width). */
  datatype BobBox = BobBox(topLeft: Point, size: Point)

  /** bottomright_f: the top-left corner moved by the size. */
  function BottomRight(bb: BobBox): Point
  {
    Point(bb.topLeft.row + bb.size.row, bb.topLeft.col + bb.size.col)
  }

  /**
   * bb_to_pointgraph(bb): menpo's bounding_box(topleft_f, bottomright_f), modelled by
   * Geometry.BoundingBox; point 0 is topleft_f and point 2 is bottomright_f.
   */
  function BbToPointGraph(bb: BobBox): (g: Shape)
    ensures IsRegion(g)
    ensures g.points[0] == bb.topLeft && g.points[2] == BottomRight(bb)
    ensures g.points[1] == Point(BottomRight(bb).row, bb.topLeft.col)
    ensures g.points[3] == Point(bb.topLeft.row, BottomRight(bb).col)
  {
    BoundingBoxLayout(bb.topLeft, BottomRight(bb));
    BoundingBox(bb.topLeft, BottomRight(bb))
  }

  /**
   * pointgraph_to_bb(pg): the coordinate-wise minimum as top-left and the
   * range as size; any point set is accepted and the size is never negative.
   */
  function PointGraphToBb(pg: Shape): (bb: BobBox)
    requires |pg.points| > 0
    ensures bb.size.row >= 0.0 && bb.size.col >= 0.0
    ensures bb.topLeft == MinPoint(pg.points) && BottomRight(bb) == MaxPoint(pg.points)
  {
    BoundsEnclose(pg.points);
    BobBox(Bounds(pg.points).0, Range(pg.points))
  }

  /** Reordering the vertices cannot change the box. */
  lemma PointGraphToBbPermutation(pg: Shape, qg: Shape)
    requires |pg.points| > 0 && multiset(pg.points) == multiset(qg.points)
    ensures |qg.points| > 0 && PointGraphToBb(pg) == PointGraphToBb(qg)
  {
    BoundsPermutation(pg.points, qg.points);
  }

  /** A box with non-negative size (top-left <= bottom-right) survives region and back. */
  lemma BbRoundTrip(bb: BobBox)
    requires bb.size.row >= 0.0 && bb.size.col >= 0.0
    ensures PointGraphToBb(BbToPointGraph(bb)) == bb
  {
    BoundingBoxBounds(bb.topLeft, BottomRight(bb));
  }

  /** Any point set comes back from box to region as its own bounding box. */
  lemma RegionRoundTrip(pg: Shape)
    requires |pg.points| > 0
    ensures BbToPointGraph(PointGraphToBb(pg)) == BoundingBoxOf(pg)
  {
  }
}
