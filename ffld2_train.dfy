/**
 * menpodetect/ffld2/train.py: the arrays and boxes train_ffld2_detector
 * collects from its images before handing them to the ffld2 trainer.
 */
module Ffld2Train {
  import opened Geometry
  import opened Images
  import Detect
  import Ffld2Conversion

  /** A positive image: its pixels and its landmark groups, in the order the landmark store yields them. */
  datatype TrainingImage = TrainingImage(image: Image, groups: seq<Shape>)

  /** The box array [min column, min row, width, height] of one landmark group. */
  datatype TrainingBox = TrainingBox(x: real, y: real, width: real, height: real)

  /** The array handed to the trainer for one image: always (height, width, channels). */
  function TrainingArray(im: Image, menpo: Menpo): (a: NdArray)
    requires WellFormed(im)
    ensures ArrayWellFormed(a) && a.shape == [im.height, im.width, im.nChannels]
  {
    Ffld2Conversion.TrainerArrayShape(im, menpo);
    Ffld2Conversion.EnsureChannelAxis(Detect.MenpoImageToUint8(im, menpo))
  }

  /**
   * The box of one group, read off its bounding box: the top-left corner is
   * the group's coordinate-wise minimum, and corner plus size is its maximum.
   */
  function GroupBox(lmark: Shape): (b: TrainingBox)
    requires |lmark.points| > 0
    ensures b.width >= 0.0 && b.height >= 0.0
    ensures b.x == MinCoord(lmark.points, Col) && b.y == MinCoord(lmark.points, Row)
    ensures b.x + b.width == MaxCoord(lmark.points, Col) && b.y + b.height == MaxCoord(lmark.points, Row)
  {
    BoundingBoxOfBounds(lmark);
    BoundsEnclose(lmark.points);
    var bb := BoundingBoxOf(lmark);
    var extent := Range(bb.points);
    var (minP, maxP) := Bounds(bb.points);
    TrainingBox(minP.col, minP.row, extent.col, extent.row)
  }

  /** Read back as an ffld2 (x, y, width, height) rectangle, a box gives the group's bounding box. */
  lemma GroupBoxFeedsBack(lmark: Shape)
    requires |lmark.points| > 0
    ensures var b := GroupBox(lmark);
      Ffld2Conversion.PointGraphFromRect(Ffld2Conversion.Rect(b.x, b.y, b.width, b.height)) == BoundingBoxOf(lmark)
  {
  }

  /** Every landmark group of every positive image has at least one point. */
  predicate GroupsNonEmpty(groups: seq<Shape>)
  {
    forall j :: 0 <= j < |groups| ==> |groups[j].points| > 0
  }

  /** What train_ffld2_detector needs of its positive images. */
  predicate PositivesValid(positives: seq<TrainingImage>)
  {
    forall i :: 0 <= i < |positives| ==> WellFormed(positives[i].image) && GroupsNonEmpty(positives[i].groups)
  }

  predicate AllWellFormed(images: seq<Image>)
  {
    forall i :: 0 <= i < |images| ==> WellFormed(images[i])
  }

  /** boxes holds one box per group, in the groups' order. */
  predicate BoxesOf(boxes: seq<TrainingBox>, groups: seq<Shape>)
    requires GroupsNonEmpty(groups)
  {
    |boxes| == |groups| && forall j :: 0 <= j < |groups| ==> boxes[j] == GroupBox(groups[j])
  }

  /** The inner loop of train_ffld2_detector: the boxes of one image's landmark groups. */
  method ImageBoundingBoxes(groups: seq<Shape>) returns (imBoundingBoxes: seq<TrainingBox>)
    requires GroupsNonEmpty(groups)
    ensures BoxesOf(imBoundingBoxes, groups)
  {
    imBoundingBoxes := [];
    var g := 0;
    while g < |groups|
      invariant 0 <= g <= |groups|
      invariant BoxesOf(imBoundingBoxes, groups[..g])
    {
      imBoundingBoxes := imBoundingBoxes + [GroupBox(groups[g])];
      g := g + 1;
    }
    assert groups[..g] == groups;
  }

  /**
   * train_ffld2_detector up to the train_model call: one array per positive
   * image and one per negative image, in input order, and for positive image
   * i one box per landmark group; negatives' landmarks are not read.
   */
  method TrainFfld2Detector(positives: seq<TrainingImage>, negatives: seq<Image>, menpo: Menpo)
    returns (positiveArrays: seq<NdArray>, positiveBoxes: seq<seq<TrainingBox>>, negativeArrays: seq<NdArray>)
    requires PositivesValid(positives)
    requires AllWellFormed(negatives)
    ensures |positiveArrays| == |positives| && |positiveBoxes| == |positives|
    ensures forall i :: 0 <= i < |positives| ==>
      && positiveArrays[i] == TrainingArray(positives[i].image, menpo)
      && BoxesOf(positiveBoxes[i], positives[i].groups)
    ensures |negativeArrays| == |negatives|
    ensures forall i :: 0 <= i < |negatives| ==> negativeArrays[i] == TrainingArray(negatives[i], menpo)
  {
    positiveArrays := [];
    positiveBoxes := [];
    negativeArrays := [];
    var n := 0;
    while n < |positives|
      invariant 0 <= n <= |positives|
      invariant |positiveArrays| == n && |positiveBoxes| == n
      invariant forall i :: 0 <= i < n ==>
        && positiveArrays[i] == TrainingArray(positives[i].image, menpo)
        && BoxesOf(positiveBoxes[i], positives[i].groups)
    {
      var image := positives[n];
      var imagePixels := Detect.MenpoImageToUint8(image.image, menpo);
      imagePixels := Ffld2Conversion.EnsureChannelAxis(imagePixels);
      positiveArrays := positiveArrays + [imagePixels];
      var imBoundingBoxes := ImageBoundingBoxes(image.groups);
      positiveBoxes := positiveBoxes + [imBoundingBoxes];
      n := n + 1;
    }
    var m := 0;
    while m < |negatives|
      invariant 0 <= m <= |negatives|
      invariant |negativeArrays| == m
      invariant forall i :: 0 <= i < m ==> negativeArrays[i] == TrainingArray(negatives[i], menpo)
    {
      var imagePixels := Detect.MenpoImageToUint8(negatives[m], menpo);
      imagePixels := Ffld2Conversion.EnsureChannelAxis(imagePixels);
      negativeArrays := negativeArrays + [imagePixels];
      m := m + 1;
    }
  }
}
