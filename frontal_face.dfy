/**
 * menpodetect/_dlib.py: dlib's frontal face detector, created once and
 * cached, run on an average-greyscale copy of the image whose width is
 * capped, with the faces mapped back and stored under fixed two-digit keys.
 */
module FrontalFace {
  import opened Wrappers
  import opened Geometry
  import opened Images
  import GroupKeys
  import opened DlibConversion

  /** pointcloud_from_rect(rect): the two corners (top, left) and (bottom, right). */
  function PointCloudFromRect(rect: Rectangle): (pc: Shape)
    ensures pc.PointCloud? && |pc.points| == 2
    ensures pc.points[0] == Point(rect.top as real, rect.left as real)
    ensures pc.points[1] == Point(rect.bottom as real, rect.right as real)
  {
    PointCloud([Point(rect.top as real, rect.left as real), Point(rect.bottom as real, rect.right as real)])
  }

  /** For an ordered rectangle the two corners span exactly the region rect_to_pointgraph builds. */
  lemma PointCloudSpansRect(rect: Rectangle)
    requires rect.top <= rect.bottom && rect.left <= rect.right
    ensures BoundingBoxOf(PointCloudFromRect(rect)) == RectToPointGraph(rect)
  {
    var pts := PointCloudFromRect(rect).points;
    MinCoordUnique(pts, Row, rect.top as real, 0);
    MinCoordUnique(pts, Col, rect.left as real, 0);
    MaxCoordUnique(pts, Row, rect.bottom as real, 1);
    MaxCoordUnique(pts, Col, rect.right as real, 1);
  }

  /**
   * The rescale decision: a factor width / image width exactly when a width
   * is given and the image is wider; the factor then shrinks the image.
   */
  function RescaleFactor(width: Option<int>, imageWidth: nat): (s: Option<real>)
    requires width.Some? ==> width.value > 0
    ensures s.Some? <==> width.Some? && imageWidth > width.value
    ensures s.Some? ==> 0.0 < s.value < 1.0 && s.value * imageWidth as real == width.value as real
  {
    if width.Some? && imageWidth > width.value then
      var w := width.value as real;
      var iw := imageWidth as real;
      assert w / iw < 1.0 by {
        assert w < iw;
      }
      Some(w / iw)
    else None
  }

  /** (pixels[..., 0] * 255.0).astype(np.uint8): channel 0 as a (height, width) byte array. */
  function ByteArray(im: Image, menpo: Menpo): (a: NdArray)
    requires WellFormed(im) && im.nChannels == 1
    ensures ArrayWellFormed(a) && a.shape == [im.height, im.width]
  {
    ProductSmall(im.height, im.width, 1);
    var n := im.height * im.width;
    NdArray([im.height, im.width], seq(n, k requires 0 <= k < n => menpo.byteValue(im.pixels[k])))
  }

  /** What dlib_detect_frontal_faces demands of its inputs. */
  ghost predicate FrontalFacesRequires(image: Image, width: Option<int>, menpo: Menpo)
  {
    WellFormed(image) && Sound(menpo) && (width.Some? ==> width.value > 0)
  }

  /** The faces dlib_detect_frontal_faces returns, given the detector. */
  function FrontalFaces(detector: NdArray -> seq<Rectangle>, image: Image, width: Option<int>, menpo: Menpo): seq<Shape>
    requires FrontalFacesRequires(image, width, menpo)
  {
    var grey := AsGreyscale(image, Average, menpo);
    var s := RescaleFactor(width, grey.width);
    var d := if s.Some? then menpo.rescale(grey, s.value) else grey;
    var faces := detector(ByteArray(d, menpo));
    var pcs := seq(|faces|, i requires 0 <= i < |faces| => PointCloudFromRect(faces[i]));
    if s.Some? then ScaleAll(pcs, 1.0 / s.value) else pcs
  }

  /** Without a rescale the faces are the detector's rectangles as two-point clouds, unscaled. */
  lemma FrontalFacesUnscaled(detector: NdArray -> seq<Rectangle>, image: Image, width: Option<int>, menpo: Menpo)
    requires FrontalFacesRequires(image, width, menpo)
    requires !(width.Some? && image.width > width.value)
    ensures var faces := detector(ByteArray(AsGreyscale(image, Average, menpo), menpo));
      var r := FrontalFaces(detector, image, width, menpo);
      |r| == |faces| && forall i :: 0 <= i < |faces| ==> r[i] == PointCloudFromRect(faces[i])
  {
  }

  /**
   * After a rescale to the given width, every corner the detector reports
   * comes back multiplied by image width / width, and each face stays a
   * two-point cloud.
   */
  lemma FrontalFacesRescaled(detector: NdArray -> seq<Rectangle>, image: Image, w: int, menpo: Menpo)
    requires FrontalFacesRequires(image, Some(w), menpo)
    requires image.width > w
    ensures var grey := AsGreyscale(image, Average, menpo);
      var faces := detector(ByteArray(menpo.rescale(grey, w as real / image.width as real), menpo));
      var r := FrontalFaces(detector, image, Some(w), menpo);
      && |r| == |faces|
      && forall i :: 0 <= i < |faces| ==>
        && r[i].PointCloud? && |r[i].points| == 2
        && r[i].points[0] == ScalePoint(Point(faces[i].top as real, faces[i].left as real), image.width as real / w as real)
        && r[i].points[1] == ScalePoint(Point(faces[i].bottom as real, faces[i].right as real), image.width as real / w as real)
  {
    var grey := AsGreyscale(image, Average, menpo);
    var s := w as real / image.width as real;
    assert RescaleFactor(Some(w), grey.width) == Some(s);
    assert 1.0 / s == image.width as real / w as real;
    var faces := detector(ByteArray(menpo.rescale(grey, s), menpo));
    var pcs := seq(|faces|, i requires 0 <= i < |faces| => PointCloudFromRect(faces[i]));
    assert FrontalFaces(detector, image, Some(w), menpo) == ScaleAll(pcs, 1.0 / s);
    forall i | 0 <= i < |faces| {
      ScaleVertices(pcs[i], 1.0 / s);
    }
  }

  /** The label of face i: frontal_face_ and the index padded to two digits. */
  function FaceKey(i: nat): string
  {
    GroupKeys.GroupKey("frontal_face", i, 2)
  }

  /** Labels of different faces differ, for any number of faces. */
  lemma FaceKeysDistinct(i: nat, j: nat)
    requires i != j
    ensures FaceKey(i) != FaceKey(j)
  {
    if FaceKey(i) == FaceKey(j) {
      GroupKeys.GroupKeyInjective("frontal_face", i, j, 2);
    }
  }

  /** Below 100 faces every label has the same length and the labels sort in face order. */
  lemma FaceKeyOrder(i: nat, j: nat)
    requires i < 100 && j < 100
    ensures |FaceKey(i)| == |FaceKey(j)| == 15
    ensures GroupKeys.LexLess(FaceKey(i), FaceKey(j)) <==> i < j
  {
    GroupKeys.NumDigitsSmall(i);
    GroupKeys.NumDigitsSmall(j);
    GroupKeys.GroupKeyOrder("frontal_face", i, j, 2);
  }

  /** The padding is fixed, so from the 101st face on the order breaks: face 100 sorts before face 11. */
  lemma FaceKeyOrderBreaksAt100()
    ensures FaceKey(100) == "frontal_face_100" && FaceKey(11) == "frontal_face_11"
    ensures GroupKeys.LexLess(FaceKey(100), FaceKey(11))
  {
    assert GroupKeys.DecimalString(100) == "100" by {
      assert GroupKeys.DecimalString(10) == "10";
    }
    assert GroupKeys.DecimalString(11) == "11";
    var p := "frontal_face_";
    GroupKeys.LexLessCommonPrefix(p, "100", "11");
    assert GroupKeys.LexLess("100", "11") by {
      assert GroupKeys.LexLess("00", "1");
    }
    assert FaceKey(100) == p + "100";
    assert FaceKey(11) == p + "11";
  }

  /** The module-level detector slot, empty until the first call. */
  class FrontalFaceCache {
    var detector: Option<NdArray -> seq<Rectangle>>

    constructor ()
      ensures detector == None
    {
      detector := None;
    }
  }

  /**
   * dlib_detect_frontal_faces(image, add_as_landmarks, width): the cached
   * detector is created (from loadDetector) only when the slot is empty and
   * is reused afterwards; the faces are FrontalFaces of it, and when
   * add_as_landmarks is set face i is stored under FaceKey(i).
   */
  method DetectFrontalFaces(cache: FrontalFaceCache, image: LandmarkedImage, addAsLandmarks: bool,
                            width: Option<int>, loadDetector: NdArray -> seq<Rectangle>, menpo: Menpo)
    returns (pcs: seq<Shape>)
    requires FrontalFacesRequires(image.image, width, menpo)
    modifies cache, image
    ensures cache.detector.Some?
    ensures old(cache.detector).Some? ==> cache.detector == old(cache.detector)
    ensures old(cache.detector).None? ==> cache.detector == Some(loadDetector)
    ensures pcs == FrontalFaces(cache.detector.value, image.image, width, menpo)
    ensures addAsLandmarks ==> image.landmarks == old(image.landmarks) + GroupKeys.Entries("frontal_face", 2, pcs)
    ensures !addAsLandmarks ==> image.landmarks == old(image.landmarks)
  {
    if cache.detector.None? {
      cache.detector := Some(loadDetector);
    }
    var detector := cache.detector.value;
    var dlibImage := AsGreyscale(image.image, Average, menpo);
    var didRescale := false;
    var scaleFactor := 1.0;
    if width.Some? && dlibImage.width > width.value {
      didRescale := true;
      scaleFactor := width.value as real / dlibImage.width as real;
      dlibImage := menpo.rescale(dlibImage, scaleFactor);
    }
    var faces := detector(ByteArray(dlibImage, menpo));
    pcs := seq(|faces|, i requires 0 <= i < |faces| => PointCloudFromRect(faces[i]));
    if didRescale {
      pcs := ScaleAll(pcs, 1.0 / scaleFactor);
    }
    if addAsLandmarks {
      image.AttachGroups("frontal_face", 2, pcs);
    }
  }
}
