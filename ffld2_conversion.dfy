/** menpodetect/ffld2/conversion.py: ffld2 rectangles as regions, and the channel axis the trainer needs. */
module Ffld2Conversion {
  import opened Geometry
  import opened Images
  import Detect

  /** An ffld2 detection rectangle: column x, row y, width and height. */
  datatype Rect = Rect(x: real, y: real, width: real, height: real)

  /**
   * pointgraph_from_rect(rect): menpo's bounding_box((y, x), (y + height, x + width)),
   * modelled by Geometry.BoundingBox;
   * point 0 is (y, x) and point 2 is (y + height, x + width).
   */
  function PointGraphFromRect(rect: Rect): (g: Shape)
    ensures IsRegion(g)
    ensures g.points[0] == Point(rect.y, rect.x)
    ensures g.points[2] == Point(rect.y + rect.height, rect.x + rect.width)
    ensures g.points[1] == Point(rect.y + rect.height, rect.x) && g.points[3] == Point(rect.y, rect.x + rect.width)
  {
    BoundingBoxLayout(Point(rect.y, rect.x), Point(rect.y + rect.height, rect.x + rect.width));
    BoundingBox(Point(rect.y, rect.x), Point(rect.y + rect.height, rect.x + rect.width))
  }

  /** ensure_channel_axis(pixels): a 2-D array gains a trailing axis of size 1. */
  function EnsureChannelAxis(a: NdArray): (r: NdArray)
    ensures |a.shape| == 2 ==> r.shape == a.shape + [1] && r.data == a.data
    ensures |a.shape| != 2 ==> r == a
    ensures ArrayWellFormed(a) ==> ArrayWellFormed(r)
  {
    if |a.shape| == 2 then
      assert Product(a.shape + [1]) == Product(a.shape) by {
        assert (a.shape + [1])[1..] == [a.shape[1], 1];
        assert a.shape[1..] == [a.shape[1]];
      }
      NdArray(a.shape + [1], a.data)
    else a
  }

  /** The same values: element (i, j, 0) of the result is element (i, j) of the input. */
  lemma EnsureChannelAxisValues(a: NdArray, i: nat, j: nat)
    requires ArrayWellFormed(a) && |a.shape| == 2 && i < a.shape[0] && j < a.shape[1]
    ensures |EnsureChannelAxis(a).shape| == 3 && EnsureChannelAxis(a).shape[2] == 1
    ensures At3(EnsureChannelAxis(a), i, j, 0) == At2(a, i, j)
  {
  }

  lemma EnsureChannelAxisIdempotent(a: NdArray)
    ensures EnsureChannelAxis(EnsureChannelAxis(a)) == EnsureChannelAxis(a)
  {
  }

  /** It undoes the removal of the dead greyscale axis in menpo_image_to_uint8. */
  lemma EnsureChannelAxisUndoesSqueeze(a: NdArray)
    requires |a.shape| == 3 && a.shape[2] == 1
    ensures EnsureChannelAxis(Detect.DropDeadAxis(a)) == a
  {
    assert a.shape[..2] + [1] == a.shape;
  }

  /** A converted image always reaches the trainer as (height, width, channels). */
  lemma TrainerArrayShape(im: Image, menpo: Menpo)
    requires WellFormed(im)
    ensures var a := EnsureChannelAxis(Detect.MenpoImageToUint8(im, menpo));
      ArrayWellFormed(a) && a.shape == [im.height, im.width, im.nChannels]
  {
  }
}
