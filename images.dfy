/**
 * The image and array values the pipeline works on: a menpo Image (channel
 * count, pixel dtype, height, width and its pixels), a numpy array (shape and
 * row-major elements), the menpo and PIL operations the core calls but does
 * not define, and the image's landmark store.
 */
module Images {
  import opened Geometry
  import GroupKeys

  /**
   * The pixel type as the pipeline tests it: uint8, or any other numpy
   * type (menpo's float images are the usual case).
   */
  datatype DType = UInt8 | NotUInt8

  /** A menpo image always has at least one channel. */
  type ChannelCount = n: nat | n >= 1 witness 1

  /**
   * A menpo Image. The pixels are flattened in menpo's (channels, height,
   * width) order: channel c, row h, column w is pixels[(c * height + h) * width + w].
   */
  datatype Image = Image(nChannels: ChannelCount, dtype: DType, height: nat, width: nat, pixels: seq<real>)

  predicate WellFormed(im: Image)
  {
    |im.pixels| == im.nChannels * im.height * im.width
  }

  /** A numpy array: its shape and its elements in row-major order. */
  datatype NdArray = NdArray(shape: seq<nat>, data: seq<real>)

  function Product(shape: seq<nat>): nat
    decreases |shape|
  {
    if shape == [] then 1 else Product(shape[..|shape| - 1]) * shape[|shape| - 1]
  }

  predicate ArrayWellFormed(a: NdArray)
  {
    |a.data| == Product(a.shape)
  }

  lemma ProductSmall(a: nat, b: nat, c: nat)
    ensures Product([a, b]) == a * b
    ensures Product([a, b, c]) == a * b * c
  {
    assert [a][..0] == [];
    assert Product([a]) == 1 * a == a;
    assert [a, b][..1] == [a];
    assert Product([a, b]) == Product([a]) * b;
    assert [a, b, c][..2] == [a, b];
    assert Product([a, b, c]) == Product([a, b]) * c;
  }

  lemma IndexBound2(i: nat, j: nat, n: nat, m: nat)
    requires i < n && j < m
    ensures i * m + j < n * m
  {
    assert (i + 1) * m <= n * m;
  }

  lemma IndexBound3(i: nat, j: nat, k: nat, n: nat, m: nat, l: nat)
    requires i < n && j < m && k < l
    ensures (i * m + j) * l + k < n * m * l
  {
    IndexBound2(i, j, n, m);
    IndexBound2(i * m + j, k, n * m, l);
  }

  /** a[i, j] of a 2-D array. */
  function At2(a: NdArray, i: nat, j: nat): real
    requires ArrayWellFormed(a) && |a.shape| == 2
    requires i < a.shape[0] && j < a.shape[1]
  {
    var n, m := a.shape[0], a.shape[1];
    assert a.shape == [n, m];
    ProductSmall(n, m, 0);
    IndexBound2(i, j, n, m);
    a.data[i * m + j]
  }

  /** a[i, j, k] of a 3-D array. */
  function At3(a: NdArray, i: nat, j: nat, k: nat): real
    requires ArrayWellFormed(a) && |a.shape| == 3
    requires i < a.shape[0] && j < a.shape[1] && k < a.shape[2]
  {
    var n, m, l := a.shape[0], a.shape[1], a.shape[2];
    assert a.shape == [n, m, l];
    ProductSmall(n, m, l);
    IndexBound3(i, j, k, n, m, l);
    a.data[(i * m + j) * l + k]
  }

  /** image.pixels: the (channels, height, width) array. */
  function PixelArray(im: Image): (a: NdArray)
    requires WellFormed(im)
    ensures ArrayWellFormed(a) && a.shape == [im.nChannels, im.height, im.width]
  {
    ProductSmall(im.nChannels, im.height, im.width);
    NdArray([im.nChannels, im.height, im.width], im.pixels)
  }

  lemma DivModOf(q: nat, r: nat, d: nat)
    requires r < d
    ensures (q * d + r) / d == q && (q * d + r) % d == r
  {
    var k := q * d + r;
    var q', r' := k / d, k % d;
    assert k == q' * d + r';
    QuotientUnique(q, r, q', r', d);
  }

  lemma QuotientUnique(q: nat, r: nat, q': nat, r': nat, d: nat)
    requires r < d && r' < d && q * d + r == q' * d + r'
    ensures q == q' && r == r'
  {
    var x: int := q - q';
    assert x * d == q * d - q' * d;
    ZeroProduct(x, d);
  }

  lemma ZeroProduct(x: int, d: int)
    requires d > 0 && -d < x * d < d
    ensures x == 0
  {
  }

  lemma DivBound(q: nat, r: nat, p: nat, c: nat)
    requires q * c + r < p * c
    ensures q < p
  {
    assert q * c < p * c;
  }

  lemma RolledIndexBound(k: nat, c: nat, p: nat)
    requires c > 0 && k < p * c
    ensures k / c < p && (k % c) * p + k / c < c * p
  {
    var q, r := k / c, k % c;
    assert k == q * c + r;
    DivBound(q, r, p, c);
    IndexBound2(r, q, c, p);
  }

  /** Where element k of the rolled array comes from in the pixel array. */
  function RolledSource(im: Image, k: nat): (src: nat)
    requires WellFormed(im)
    requires k < im.height * im.width * im.nChannels
    ensures src < |im.pixels|
  {
    var c, p := im.nChannels, im.height * im.width;
    RolledIndexBound(k, c, p);
    assert c * im.height * im.width == c * p;
    (k % c) * p + k / c
  }

  /**
   * image.rolled_channels(): the (height, width, channels) array whose
   * element (h, w, c) is the pixel of channel c at (h, w).
   */
  function RolledChannels(im: Image): (a: NdArray)
    requires WellFormed(im)
    ensures ArrayWellFormed(a) && a.shape == [im.height, im.width, im.nChannels]
  {
    ProductSmall(im.height, im.width, im.nChannels);
    var n := im.height * im.width * im.nChannels;
    NdArray([im.height, im.width, im.nChannels],
            seq(n, k requires 0 <= k < n => im.pixels[RolledSource(im, k)]))
  }

  /** Rolling only moves values: element (h, w, c) of the result is pixel (c, h, w). */
  lemma RolledChannelsAt(im: Image, h: nat, w: nat, c: nat)
    requires WellFormed(im)
    requires h < im.height && w < im.width && c < im.nChannels
    ensures At3(RolledChannels(im), h, w, c) == At3(PixelArray(im), c, h, w)
  {
    var H, W, C := im.height, im.width, im.nChannels;
    var k := (h * W + w) * C + c;
    ProductSmall(H, W, C);
    IndexBound3(h, w, c, H, W, C);
    DivModOf(h * W + w, c, C);
    assert RolledSource(im, k) == c * (H * W) + (h * W + w);
    assert c * (H * W) + (h * W + w) == (c * H + h) * W + w;
  }

  /** A single-channel image rolls to its own pixels, now shaped (height, width, 1). */
  lemma RolledSingleChannel(im: Image)
    requires WellFormed(im) && im.nChannels == 1
    ensures RolledChannels(im) == NdArray([im.height, im.width, 1], im.pixels)
  {
    var a := RolledChannels(im);
    assert |a.data| == |im.pixels|;
    forall k | 0 <= k < |a.data| ensures a.data[k] == im.pixels[k] {
      assert RolledSource(im, k) == k;
    }
  }

  // ----- operations of menpo and PIL that the core calls -----

  datatype GreyMode = Luminosity | Average

  /**
   * The pixel-level work of menpo and PIL, which the core only calls:
   * greyValue(im, mode, k) is element k of im.as_greyscale(mode).pixels,
   * rescale(im, s) is im.rescale(s), diagonal(im) is im.diagonal(),
   * pilValue(im, k) is element k of np.array(im.as_PILImage()), and
   * byteValue(p) is (p * 255.0).astype(np.uint8).
   */
  datatype Menpo = Menpo(
    greyValue: (Image, GreyMode, nat) -> real,
    rescale: (Image, real) -> Image,
    diagonal: Image -> real,
    pilValue: (Image, nat) -> real,
    byteValue: real -> real)

  /** menpo's rescale returns a consistent image with the channel count and pixel type it was given. */
  ghost predicate Sound(menpo: Menpo)
  {
    forall im: Image, s: real :: WellFormed(im) ==>
      var r := menpo.rescale(im, s);
      WellFormed(r) && r.nChannels == im.nChannels && r.dtype == im.dtype
  }

  /**
   * image.as_greyscale(mode): a one-channel image of the same size; its pixel
   * values come from menpo.
   */
  function AsGreyscale(im: Image, mode: GreyMode, menpo: Menpo): (g: Image)
    ensures WellFormed(g)
    ensures g.nChannels == 1 && g.height == im.height && g.width == im.width && g.dtype == im.dtype
  {
    var n := im.height * im.width;
    Image(1, im.dtype, im.height, im.width, seq(n, k requires 0 <= k < n => menpo.greyValue(im, mode, k)))
  }

  /**
   * np.array(image.as_PILImage()): a (height, width) array for a one-channel
   * image (PIL mode 'L'), a (height, width, channels) array otherwise.
   */
  function PilArray(im: Image, menpo: Menpo): (a: NdArray)
    ensures ArrayWellFormed(a)
    ensures a.shape == if im.nChannels == 1 then [im.height, im.width] else [im.height, im.width, im.nChannels]
  {
    ProductSmall(im.height, im.width, im.nChannels);
    var n := im.height * im.width * im.nChannels;
    NdArray(if im.nChannels == 1 then [im.height, im.width] else [im.height, im.width, im.nChannels],
            seq(n, k requires 0 <= k < n => menpo.pilValue(im, k)))
  }

  // ----- the image's landmark store -----

  /**
   * The caller's image: its pixel content never changes; its landmark
   * store maps group labels to shapes and is updated in place.
   */
  class LandmarkedImage {
    const image: Image
    var landmarks: map<string, Shape>

    constructor (image: Image, landmarks: map<string, Shape>)
      ensures this.image == image && this.landmarks == landmarks
    {
      this.image := image;
      this.landmarks := landmarks;
    }

    /**
     * Stores shape i under GroupKey(prefix, i, width), in index order.
     * Existing groups under other keys are kept; a group under one of the
     * written keys is replaced.
     */
    method AttachGroups(prefix: string, width: nat, shapes: seq<Shape>)
      modifies this
      ensures landmarks == old(landmarks) + GroupKeys.Entries(prefix, width, shapes)
    {
      var i := 0;
      while i < |shapes|
        invariant 0 <= i <= |shapes|
        invariant landmarks == old(landmarks) + GroupKeys.Entries(prefix, width, shapes[..i])
      {
        assert shapes[..i + 1][..i] == shapes[..i];
        landmarks := landmarks[GroupKeys.GroupKey(prefix, i, width) := shapes[i]];
        i := i + 1;
      }
      assert shapes[..i] == shapes;
    }
  }
}
