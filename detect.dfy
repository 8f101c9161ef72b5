/**
 * menpodetect/detect.py: the greyscale policy, the conversion to a uint8
 * array, and the detection pipeline that greyscales and rescales a working
 * copy, runs the detector, maps its regions back and stores them on the
 * caller's image.
 */
module Detect {
  import opened Wrappers
  import opened Geometry
  import opened Images
  import GroupKeys

  /** Python's ValueError with its message. */
  datatype Error = ValueError(message: string)

  const Uint8GreyscaleMessage: string := "uint8 images cannot be converted to greyscale"

  /**
   * _greyscale(image): a one-channel image is returned as it is; a uint8
   * image with several channels is refused; otherwise three channels are
   * reduced by luminosity and any other count by the channel average.
   */
  function Greyscale(im: Image, menpo: Menpo): (r: Result<Image, Error>)
    ensures r.Failure? <==> im.nChannels > 1 && im.dtype == UInt8
    ensures r.Failure? ==> r.error == ValueError(Uint8GreyscaleMessage)
    ensures im.nChannels == 1 ==> r == Success(im)
    ensures r.Success? ==> r.value.nChannels == 1 && r.value.height == im.height && r.value.width == im.width
    ensures r.Success? && WellFormed(im) ==> WellFormed(r.value)
  {
    if im.nChannels > 1 then
      if im.dtype == UInt8 then Failure(ValueError(Uint8GreyscaleMessage))
      else if im.nChannels == 3 then Success(AsGreyscale(im, Luminosity, menpo))
      else Success(AsGreyscale(im, Average, menpo))
    else Success(im)
  }

  /** Images that are not uint8: three channels select luminosity, every other count above one the average. */
  lemma GreyscaleMode(im: Image, menpo: Menpo)
    requires im.nChannels > 1 && im.dtype == NotUInt8
    ensures im.nChannels == 3 ==> Greyscale(im, menpo) == Success(AsGreyscale(im, Luminosity, menpo))
    ensures im.nChannels != 3 ==> Greyscale(im, menpo) == Success(AsGreyscale(im, Average, menpo))
  {
  }

  /** uint8_im[..., 0] when the last of three axes has size 1. */
  function DropDeadAxis(a: NdArray): (r: NdArray)
    ensures !(|r.shape| == 3 && r.shape[2] == 1)
    ensures |a.shape| == 3 && a.shape[2] == 1 ==> r.shape == a.shape[..2]
    ensures !(|a.shape| == 3 && a.shape[2] == 1) ==> r == a
    ensures r.data == a.data
    ensures ArrayWellFormed(a) ==> ArrayWellFormed(r)
  {
    if |a.shape| == 3 && a.shape[2] == 1 then
      assert a.shape[..2][..1] == a.shape[..1];
      assert Product(a.shape) == Product(a.shape[..2]) * 1;
      NdArray(a.shape[..2], a.data)
    else a
  }

  /**
   * menpo_image_to_uint8(image): a uint8 image only has its channels rolled
   * to the last axis; any other image goes through PIL; a single-channel
   * result loses its dead last axis.
   */
  function MenpoImageToUint8(im: Image, menpo: Menpo): (a: NdArray)
    requires WellFormed(im)
    ensures ArrayWellFormed(a)
    ensures a.shape == if im.nChannels == 1 then [im.height, im.width] else [im.height, im.width, im.nChannels]
    ensures !(|a.shape| == 3 && a.shape[2] == 1)
  {
    var rolled := if im.dtype == UInt8 then RolledChannels(im) else PilArray(im, menpo);
    DropDeadAxis(rolled)
  }

  /**
   * For a uint8 image the values are not changed, only moved: element
   * (h, w, c) of the array is pixel (c, h, w) of the image, and a one-channel
   * image becomes its own pixels shaped (height, width).
   */
  lemma Uint8ValuesUntouched(im: Image, menpo: Menpo, h: nat, w: nat, c: nat)
    requires WellFormed(im) && im.dtype == UInt8
    requires h < im.height && w < im.width && c < im.nChannels
    ensures im.nChannels > 1 ==> At3(MenpoImageToUint8(im, menpo), h, w, c) == At3(PixelArray(im), c, h, w)
    ensures im.nChannels == 1 ==>
      MenpoImageToUint8(im, menpo) == NdArray([im.height, im.width], im.pixels)
  {
    RolledChannelsAt(im, h, w, c);
    if im.nChannels == 1 {
      RolledSingleChannel(im);
    }
  }

  /** The rescale factor image_diagonal / image.diagonal(). */
  function ScaleFactor(target: real, diagonal: real): real
    requires diagonal != 0.0
  {
    target / diagonal
  }

  /** Mapping back by 1 / scale_factor multiplies by diagonal / image_diagonal. */
  lemma InverseScaleFactor(target: real, diagonal: real)
    requires target > 0.0 && diagonal > 0.0
    ensures ScaleFactor(target, diagonal) > 0.0
    ensures 1.0 / ScaleFactor(target, diagonal) == diagonal / target
  {
  }

  /** What detect demands of its inputs: a consistent image and a positive diagonal when one is given. */
  ghost predicate DetectRequires(image: Image, imageDiagonal: Option<real>, menpo: Menpo)
  {
    && WellFormed(image)
    && Sound(menpo)
    && (imageDiagonal.Some? ==> imageDiagonal.value > 0.0 && menpo.diagonal(image) > 0.0)
  }

  /** d_image: the greyscaled (if asked), then rescaled (if asked) working copy. */
  function WorkingImage(image: Image, greyscale: bool, imageDiagonal: Option<real>, menpo: Menpo): (r: Result<Image, Error>)
    requires DetectRequires(image, imageDiagonal, menpo)
    ensures r.Success? ==> WellFormed(r.value)
  {
    var grey := if greyscale then Greyscale(image, menpo) else Success(image);
    match grey
    case Failure(e) => Failure(e)
    case Success(g) =>
      if imageDiagonal.Some? then
        Success(menpo.rescale(g, ScaleFactor(imageDiagonal.value, menpo.diagonal(image))))
      else Success(g)
  }

  /**
   * The detector receives a uint8 array with no channel axis when greyscale
   * is requested (or the image has one channel), and with the image's
   * channels as the last axis otherwise.
   */
  lemma DetectorInputShape(image: Image, greyscale: bool, imageDiagonal: Option<real>, menpo: Menpo)
    requires DetectRequires(image, imageDiagonal, menpo)
    requires WorkingImage(image, greyscale, imageDiagonal, menpo).Success?
    ensures var a := MenpoImageToUint8(WorkingImage(image, greyscale, imageDiagonal, menpo).value, menpo);
      && (greyscale || image.nChannels == 1 ==> |a.shape| == 2)
      && (!greyscale && image.nChannels > 1 ==> |a.shape| == 3 && a.shape[2] == image.nChannels)
  {
  }

  /** The value detect returns: the detector's regions in the caller's image coordinates. */
  function DetectRegions(detector: NdArray -> seq<Shape>, image: Image, greyscale: bool,
                         imageDiagonal: Option<real>, menpo: Menpo): Result<seq<Shape>, Error>
    requires DetectRequires(image, imageDiagonal, menpo)
  {
    match WorkingImage(image, greyscale, imageDiagonal, menpo)
    case Failure(e) => Failure(e)
    case Success(d) =>
      var pcs := detector(MenpoImageToUint8(d, menpo));
      if imageDiagonal.Some? then
        Success(ScaleAll(pcs, 1.0 / ScaleFactor(imageDiagonal.value, menpo.diagonal(image))))
      else Success(pcs)
  }

  /** detect fails exactly for greyscale requested on a uint8 image with several channels. */
  lemma DetectFailsOnUint8Greyscale(detector: NdArray -> seq<Shape>, image: Image, greyscale: bool,
                                     imageDiagonal: Option<real>, menpo: Menpo)
    requires DetectRequires(image, imageDiagonal, menpo)
    ensures DetectRegions(detector, image, greyscale, imageDiagonal, menpo).Failure?
      <==> greyscale && image.nChannels > 1 && image.dtype == UInt8
    ensures DetectRegions(detector, image, greyscale, imageDiagonal, menpo).Failure? ==>
      DetectRegions(detector, image, greyscale, imageDiagonal, menpo).error == ValueError(Uint8GreyscaleMessage)
  {
  }

  /** Without image_diagonal the detector's regions are returned exactly, unscaled. */
  lemma DetectWithoutDiagonal(detector: NdArray -> seq<Shape>, image: Image, greyscale: bool, menpo: Menpo)
    requires DetectRequires(image, None, menpo)
    requires !(greyscale && image.nChannels > 1 && image.dtype == UInt8)
    ensures var d := if greyscale then Greyscale(image, menpo).value else image;
      DetectRegions(detector, image, greyscale, None, menpo) == Success(detector(MenpoImageToUint8(d, menpo)))
  {
  }

  /**
   * With image_diagonal = t the detector runs on the greyscaled image
   * rescaled by t / diagonal, and every vertex it returns comes back
   * multiplied by diagonal / t; the number of regions, their kinds and
   * their edges are kept.
   */
  lemma DetectWithDiagonal(detector: NdArray -> seq<Shape>, image: Image, greyscale: bool, target: real, menpo: Menpo)
    requires DetectRequires(image, Some(target), menpo)
    requires !(greyscale && image.nChannels > 1 && image.dtype == UInt8)
    ensures var g := if greyscale then Greyscale(image, menpo).value else image;
      var raw := detector(MenpoImageToUint8(menpo.rescale(g, target / menpo.diagonal(image)), menpo));
      var r := DetectRegions(detector, image, greyscale, Some(target), menpo);
      && r.Success? && |r.value| == |raw|
      && forall i :: 0 <= i < |raw| ==>
        && r.value[i].PointCloud? == raw[i].PointCloud?
        && (raw[i].PointDirectedGraph? ==> r.value[i].edges == raw[i].edges)
        && |r.value[i].points| == |raw[i].points|
        && forall j :: 0 <= j < |raw[i].points| ==>
          r.value[i].points[j] == ScalePoint(raw[i].points[j], menpo.diagonal(image) / target)
  {
    var diagonal := menpo.diagonal(image);
    InverseScaleFactor(target, diagonal);
    var g := if greyscale then Greyscale(image, menpo).value else image;
    var raw := detector(MenpoImageToUint8(menpo.rescale(g, target / diagonal), menpo));
    forall i | 0 <= i < |raw| {
      ScaleVertices(raw[i], diagonal / target);
    }
  }

  /** Mapping back undoes the forward rescale: scaling the result by the factor gives the detector's regions. */
  lemma DetectRescaleRoundTrip(detector: NdArray -> seq<Shape>, image: Image, greyscale: bool, target: real, menpo: Menpo)
    requires DetectRequires(image, Some(target), menpo)
    requires !(greyscale && image.nChannels > 1 && image.dtype == UInt8)
    ensures var g := if greyscale then Greyscale(image, menpo).value else image;
      var s := target / menpo.diagonal(image);
      var raw := detector(MenpoImageToUint8(menpo.rescale(g, s), menpo));
      ScaleAll(DetectRegions(detector, image, greyscale, Some(target), menpo).value, s) == raw
  {
    var diagonal := menpo.diagonal(image);
    var s := target / diagonal;
    InverseScaleFactor(target, diagonal);
    var g := if greyscale then Greyscale(image, menpo).value else image;
    var raw := detector(MenpoImageToUint8(menpo.rescale(g, s), menpo));
    var back := ScaleAll(DetectRegions(detector, image, greyscale, Some(target), menpo).value, s);
    forall i | 0 <= i < |raw| ensures back[i] == raw[i] {
      assert 1.0 / (1.0 / s) == s;
      ScaleInverse(raw[i], 1.0 / s);
    }
  }

  /** The unit box [[0, 0], [1, 0], [1, 1], [0, 1]] with the 4-cycle edges. */
  const UnitBox: Shape := PointDirectedGraph(
    [Point(0.0, 0.0), Point(1.0, 0.0), Point(1.0, 1.0), Point(0.0, 1.0)], CycleEdges)

  /**
   * A float (not uint8) image of diagonal 500 detected at image_diagonal 200 by a
   * detector that always finds the unit box gets that box back scaled by 2.5.
   */
  lemma RescaleScenario(detector: NdArray -> seq<Shape>, image: Image, menpo: Menpo)
    requires WellFormed(image) && Sound(menpo) && image.dtype == NotUInt8
    requires menpo.diagonal(image) == 500.0
    requires forall a :: detector(a) == [UnitBox]
    ensures DetectRegions(detector, image, true, Some(200.0), menpo) == Success([PointDirectedGraph(
      [Point(0.0, 0.0), Point(2.5, 0.0), Point(2.5, 2.5), Point(0.0, 2.5)], CycleEdges)])
  {
    DetectWithDiagonal(detector, image, true, 200.0, menpo);
    var g := Greyscale(image, menpo).value;
    var raw := detector(MenpoImageToUint8(menpo.rescale(g, 200.0 / 500.0), menpo));
    assert raw == [UnitBox];
    var r := DetectRegions(detector, image, true, Some(200.0), menpo).value;
    assert |r| == 1 && r[0].PointDirectedGraph? && r[0].edges == CycleEdges;
    assert 500.0 / 200.0 == 2.5;
    assert r[0].points == [Point(0.0, 0.0), Point(2.5, 0.0), Point(2.5, 2.5), Point(0.0, 2.5)];
    assert r == [PointDirectedGraph(r[0].points, CycleEdges)];
  }

  /**
   * detect(detector_callable, image, greyscale, image_diagonal, group_prefix):
   * returns the regions of DetectRegions and stores region i under
   * GroupKey(group_prefix, i, len(str(n))); when it raises, nothing is stored.
   * The image's pixels are never changed (they are a constant of the object).
   */
  method Detect(detector: NdArray -> seq<Shape>, image: LandmarkedImage, greyscale: bool,
                imageDiagonal: Option<real>, groupPrefix: string, menpo: Menpo)
    returns (r: Result<seq<Shape>, Error>)
    requires DetectRequires(image.image, imageDiagonal, menpo)
    modifies image
    ensures r == DetectRegions(detector, image.image, greyscale, imageDiagonal, menpo)
    ensures r.Success? ==>
      image.landmarks == old(image.landmarks) + GroupKeys.Entries(groupPrefix, GroupKeys.NumDigits(|r.value|), r.value)
    ensures r.Failure? ==> image.landmarks == old(image.landmarks)
  {
    var dImage := image.image;
    if greyscale {
      var grey := Greyscale(dImage, menpo);
      if grey.Failure? {
        return Failure(grey.error);
      }
      dImage := grey.value;
    }
    var scaleFactor := 1.0;
    if imageDiagonal.Some? {
      scaleFactor := ScaleFactor(imageDiagonal.value, menpo.diagonal(image.image));
      dImage := menpo.rescale(dImage, scaleFactor);
    }
    var pcs := detector(MenpoImageToUint8(dImage, menpo));
    if imageDiagonal.Some? {
      pcs := ScaleAll(pcs, 1.0 / scaleFactor);
    }
    var paddingMagnitude := GroupKeys.NumDigits(|pcs|);
    image.AttachGroups(groupPrefix, paddingMagnitude, pcs);
    r := Success(pcs);
  }
}
