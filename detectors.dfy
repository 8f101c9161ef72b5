/**
 * menpodetect/detectors.py: the earlier detection framework. It greyscales
 * every image (uint8 included), always converts through PIL and keeps the
 * array PIL returns.
 */
module LegacyDetectors {
  import opened Wrappers
  import opened Geometry
  import opened Images
  import GroupKeys
  import Detect

  /** _greyscale(image) of the earlier framework: never raises. */
  function LegacyGreyscale(im: Image, menpo: Menpo): (r: Image)
    ensures r.nChannels == 1 && r.height == im.height && r.width == im.width && r.dtype == im.dtype
    ensures im.nChannels == 1 ==> r == im
    ensures WellFormed(im) ==> WellFormed(r)
  {
    if im.nChannels > 1 then
      if im.nChannels == 3 then AsGreyscale(im, Luminosity, menpo)
      else AsGreyscale(im, Average, menpo)
    else im
  }

  /**
   * Whatever the pixel type, uint8 included: three channels select
   * luminosity, every other count above one the average.
   */
  lemma LegacyGreyscaleMode(im: Image, menpo: Menpo)
    requires im.nChannels > 1
    ensures im.nChannels == 3 ==> LegacyGreyscale(im, menpo) == AsGreyscale(im, Luminosity, menpo)
    ensures im.nChannels != 3 ==> LegacyGreyscale(im, menpo) == AsGreyscale(im, Average, menpo)
  {
  }

  /**
   * The earlier greyscale agrees with the current one except on uint8
   * images with several channels, which it converts where the current
   * one raises.
   */
  lemma LegacyGreyscaleAgrees(im: Image, menpo: Menpo)
    ensures !(im.nChannels > 1 && im.dtype == UInt8) ==>
      Detect.Greyscale(im, menpo) == Success(LegacyGreyscale(im, menpo))
    ensures im.nChannels > 1 && im.dtype == UInt8 ==>
      Detect.Greyscale(im, menpo).Failure? && LegacyGreyscale(im, menpo).nChannels == 1
  {
  }

  /** menpo_image_to_uint8 of the earlier framework: the PIL array as it is. */
  function LegacyToUint8(im: Image, menpo: Menpo): (a: NdArray)
    ensures ArrayWellFormed(a)
    ensures a.shape == if im.nChannels == 1 then [im.height, im.width] else [im.height, im.width, im.nChannels]
  {
    PilArray(im, menpo)
  }

  /** On images that are not uint8 both conversions produce the same array. */
  lemma LegacyToUint8AgreesOffUint8(im: Image, menpo: Menpo)
    requires WellFormed(im) && im.dtype == NotUInt8
    ensures LegacyToUint8(im, menpo) == Detect.MenpoImageToUint8(im, menpo)
  {
  }

  /** The regions the earlier detect returns. */
  function LegacyDetectRegions(detector: NdArray -> seq<Shape>, image: Image, greyscale: bool,
                               imageDiagonal: Option<real>, menpo: Menpo): seq<Shape>
    requires imageDiagonal.Some? ==> imageDiagonal.value > 0.0 && menpo.diagonal(image) > 0.0
  {
    var g := if greyscale then LegacyGreyscale(image, menpo) else image;
    if imageDiagonal.Some? then
      var s := Detect.ScaleFactor(imageDiagonal.value, menpo.diagonal(image));
      ScaleAll(detector(LegacyToUint8(menpo.rescale(g, s), menpo)), 1.0 / s)
    else detector(LegacyToUint8(g, menpo))
  }

  /**
   * On images that are not uint8 the earlier and the current detect return the same
   * regions for every detector, flag and diagonal.
   */
  lemma LegacyMatchesCurrentOffUint8(detector: NdArray -> seq<Shape>, image: Image, greyscale: bool,
                                    imageDiagonal: Option<real>, menpo: Menpo)
    requires Detect.DetectRequires(image, imageDiagonal, menpo) && image.dtype == NotUInt8
    ensures Detect.DetectRegions(detector, image, greyscale, imageDiagonal, menpo)
      == Success(LegacyDetectRegions(detector, image, greyscale, imageDiagonal, menpo))
  {
    var g := if greyscale then LegacyGreyscale(image, menpo) else image;
    LegacyGreyscaleAgrees(image, menpo);
    if imageDiagonal.Some? {
      var s := Detect.ScaleFactor(imageDiagonal.value, menpo.diagonal(image));
      LegacyToUint8AgreesOffUint8(menpo.rescale(g, s), menpo);
    } else {
      LegacyToUint8AgreesOffUint8(g, menpo);
    }
  }

  /**
   * detect(...) of the earlier framework: never raises, returns the
   * regions and stores region i under GroupKey(group_prefix, i, len(str(n))).
   */
  method LegacyDetect(detector: NdArray -> seq<Shape>, image: LandmarkedImage, greyscale: bool,
                      imageDiagonal: Option<real>, groupPrefix: string, menpo: Menpo)
    returns (pcs: seq<Shape>)
    requires imageDiagonal.Some? ==> imageDiagonal.value > 0.0 && menpo.diagonal(image.image) > 0.0
    modifies image
    ensures pcs == LegacyDetectRegions(detector, image.image, greyscale, imageDiagonal, menpo)
    ensures image.landmarks == old(image.landmarks) + GroupKeys.Entries(groupPrefix, GroupKeys.NumDigits(|pcs|), pcs)
  {
    var dImage := image.image;
    if greyscale {
      dImage := LegacyGreyscale(dImage, menpo);
    }
    var scaleFactor := 1.0;
    if imageDiagonal.Some? {
      scaleFactor := Detect.ScaleFactor(imageDiagonal.value, menpo.diagonal(image.image));
      dImage := menpo.rescale(dImage, scaleFactor);
    }
    pcs := detector(LegacyToUint8(dImage, menpo));
    if imageDiagonal.Some? {
      pcs := ScaleAll(pcs, 1.0 / scaleFactor);
    }
    var paddingMagnitude := GroupKeys.NumDigits(|pcs|);
    image.AttachGroups(groupPrefix, paddingMagnitude, pcs);
  }
}
