# menpodetect: detection pipeline and region geometry in Dafny

This project models the part of menpodetect that runs an object detector on a menpo image and turns its output into landmark groups:

- **The detection pipeline** (`menpodetect/detect.py`, its older copy `menpodetect/detectors.py`, and the dlib frontal-face path `menpodetect/_dlib.py`).
  - It picks a greyscale policy from the channel count and the pixel type.
  - It may rescale a working copy of the image so that its diagonal matches a target.
  - It hands a uint8 array to an arbitrary detector.
  - It maps each region back by the inverse uniform scale.
  - It stores region `i` in the caller's landmark store under `prefix_i`, with `i` zero-padded to `len(str(n))` digits.
- **The region geometry** of the backends' `conversion.py` files, and the helper `bounding_box` of `menpodetect/conversion.py`.
  - Each backend's rectangle, circle or box becomes one fixed four-vertex region with a closed 4-cycle of edges.
  - opencv, dlib and pico build the vertices and edges themselves (`menpodetect/opencv/conversion.py:33-38`, `menpodetect/dlib/conversion.py:6-11`, `menpodetect/pico/conversion.py:5-15`).
  - ffld2 and bob call menpo's own `menpo.shape.bounding_box` (`menpodetect/ffld2/conversion.py:1`, `menpodetect/bob/conversion.py:2`). No file imports `menpodetect/conversion.py`.
  - Going back, `bounds()` and `range()` read the coordinate-wise minimum, maximum and extent.
- **The marshalling loops of the ffld2 trainer** (`menpodetect/ffld2/train.py`). They collect one array per image and one `[x, y, width, height]` box per landmark group.

Modules follow the source files:

| module | file | models |
|---|---|---|
| `Geometry` | geometry.dfy | points, point clouds and point graphs; `bounding_box` of `menpodetect/conversion.py`, which also stands for `menpo.shape.bounding_box`; menpo's `PointCloud.bounds()`, `range()`, `bounding_box()`; menpo's `UniformScale` |
| `GroupKeys` | keys.dfy | `str(n)`, `len(str(n))`, `'{:0{w}d}'` padding, the group labels, Python string order, the label→region map written |
| `Images` | images.dfy | the image record; numpy arrays; `rolled_channels`; the calls into menpo and PIL; the landmark store class |
| `Detect` | detect.dfy | `menpodetect/detect.py` |
| `LegacyDetectors` | detectors.dfy | `menpodetect/detectors.py` |
| `FrontalFace` | frontal_face.dfy | `menpodetect/_dlib.py` |
| `DlibDetect` | dlib_detect.dfy | `menpodetect/dlib/_dlib.py` |
| `OpenCvConversion`, `DlibConversion`, `PicoConversion`, `Ffld2Conversion`, `BobConversion` | *_conversion.dfy | the backends' `conversion.py` |
| `Ffld2Train` | ffld2_train.dfy | `menpodetect/ffld2/train.py` up to `train_model` |

Modelling choices:

- **Images.** An image is a record: channel count, pixel type (uint8, or any other type, `NotUInt8`, since the pipeline only tests for uint8), height, width, and its pixels flat in menpo's (channels, height, width) order. Its landmark store is a `map<string, Shape>` in a class, `Images.LandmarkedImage`. Its pixels are a constant of that class, so only the store can change.
- **The detector.** It is a function parameter.
- **Foreign work.** The pixel-level work of menpo and PIL is a bundle of uninterpreted functions, `Images.Menpo`. This covers the greyscale values, `rescale`, `diagonal()`, the values of `np.array(image.as_PILImage())` and the byte conversion in `_dlib.py`. Three assumptions about menpo are built in, and each is listed again under "## Left out":
  - `Images.Sound` says that `rescale` keeps the image consistent and keeps its channel count and pixel type.
  - `Images.PilArray` fixes the shape of `np.array(image.as_PILImage())` and never fails.
  - `Images.AsGreyscale` keeps the pixel type.

  Only channel counts, pixel types and shapes are modelled.
- **menpo's geometry.** `menpo.shape.bounding_box`, `PointCloud.bounds()`, `range()`, `bounding_box()` and `UniformScale` are menpo's and are not part of this model. They are modelled by the definitions in `Geometry`. `menpo.shape.bounding_box` is taken to build the same vertex order and edges as `menpodetect/conversion.py:24-27`.
- **Python errors.** `ValueError` is a `Failure` of a `Result`.
- **Defaults.** Python's keyword defaults are explicit arguments: `greyscale=True`, `image_diagonal=None`, `group_prefix='object'`, `add_as_landmarks=True`, `width=300`.

## Model

| member | source | states |
|---|---|---|
| `Geometry.CycleEdgesClosed` | menpodetect/conversion.py:27 | the edge list is the closed cycle k→k+1 mod 4 and every index is below 4 |
| `Geometry.BoundingBoxLayout` | menpodetect/conversion.py:24-27 | vertex 0 is min_point, 1 is (max row, min col), 2 is max_point, 3 is (min row, max col); the edges form a closed 4-cycle of axis-aligned sides |
| `Geometry.BoundingBoxEdgesMoveOneAxis` | menpodetect/conversion.py:25-26 | for a box of positive height and width, the two ends of every edge differ in exactly one coordinate |
| `Geometry.BoundingBoxCorners` | menpodetect/conversion.py:7-17 | when min_point ≤ max_point, vertex 0 is componentwise below and vertex 2 componentwise above every vertex (the adjacency diagram) |
| `Geometry.MinCoord` | menpodetect/dlib/conversion.py:15 | the per-axis minimum is below every point's coordinate |
| `Geometry.MaxCoord` | menpodetect/dlib/conversion.py:15 | the per-axis maximum is above every point's coordinate |
| `Geometry.MinCoordAttained` | menpodetect/dlib/conversion.py:15 | the minimum is the coordinate of some point, whose index is returned |
| `Geometry.MaxCoordAttained` | menpodetect/dlib/conversion.py:15 | the maximum is the coordinate of some point, whose index is returned |
| `Geometry.MinCoordUnique` | menpodetect/dlib/conversion.py:15 | a value that is a lower bound and also some point's coordinate is the minimum |
| `Geometry.MaxCoordUnique` | menpodetect/dlib/conversion.py:15 | a value that is an upper bound and also some point's coordinate is the maximum |
| `Geometry.BoundsEnclose` | menpodetect/bob/conversion.py:39 | bounds() encloses every point; min ≤ max; range() is non-negative on both axes |
| `Geometry.MinMaxCoordPermutation` | menpodetect/dlib/conversion.py:15 | the per-axis minimum and maximum depend only on the multiset of points |
| `Geometry.BoundsPermutation` | menpodetect/dlib/conversion.py:15 | bounds() and range() are unchanged by any reordering of the points |
| `Geometry.BoundingBoxBounds` | menpodetect/conversion.py:21-26 | when min_point ≤ max_point, the box's bounds are (min_point, max_point) and its range is max − min |
| `Geometry.BoundingBoxOfBounds` | menpodetect/ffld2/train.py:74-76 | a shape's bounding_box() has the shape's own bounds and range |
| `Geometry.ScaleVertices` | menpodetect/detect.py:113 | UniformScale(s) multiplies every vertex by s and keeps the kind, the point count and the edges |
| `Geometry.ScaleInverse` | menpodetect/detect.py:107-113 | for s ≠ 0, scaling by s and then by 1/s gives the shape back |
| `GroupKeys.DecimalStringDigits` | menpodetect/detect.py:115 | str(n) is a non-empty string of decimal digits |
| `GroupKeys.DecimalStringValue` | menpodetect/detect.py:115 | str(n) reads back as n |
| `GroupKeys.NumDigitsMonotone` | menpodetect/detect.py:115 | len(str(m)) ≤ len(str(n)) when m ≤ n |
| `GroupKeys.IndexFitsWidth` | menpodetect/detect.py:115-117 | every index i < n fits in len(str(n)) digits |
| `GroupKeys.NumDigitsSmall` | menpodetect/_dlib.py:32 | numbers below 10 take one digit and numbers from 10 to 99 take two |
| `GroupKeys.ZeroPadShape` | menpodetect/detect.py:117-118 | '{:0{w}d}' gives digits only, of length w when n fits and of len(str(n)) otherwise |
| `GroupKeys.ZeroPadValue` | menpodetect/detect.py:117-118 | the padded index reads back as the index: padding loses nothing |
| `GroupKeys.GroupKeyInjective` | menpodetect/detect.py:117-119 | two indices with the same label (same prefix and width) are equal |
| `GroupKeys.LexLessIsNumeric` | menpodetect/detect.py:117-118 | for digit strings of equal length, string order is numeric order, both ways |
| `GroupKeys.LexLessCommonPrefix` | menpodetect/detect.py:117-118 | a common prefix does not change string order, both ways |
| `GroupKeys.GroupKeyOrder` | menpodetect/detect.py:117-118 | labels of indices that fit the width have length len(prefix) + 1 + width, and label i sorts before label j exactly when i < j |
| `GroupKeys.DetectionKeysSorted` | menpodetect/detect.py:115-119 | for n results, all labels have equal length and sort in detection order |
| `GroupKeys.EntriesKeys` | menpodetect/detect.py:116-119 | the labels written are exactly prefix_i for i below the number of regions (none for zero regions) |
| `GroupKeys.EntriesLookup` | menpodetect/detect.py:116-119 | label i maps to region i |
| `GroupKeys.EntriesSize` | menpodetect/detect.py:116-119 | exactly n labels are written for n regions |
| `GroupKeys.KeyExamples` | menpodetect/tests/detector_test.py:23 | one result is labelled object_0; with 12 results the labels run from prefix_00 to prefix_11 |
| `Images.PixelArray` | menpodetect/detect.py:55-56 | the pixels form a (channels, height, width) array |
| `Images.RolledChannels` | menpodetect/detect.py:55-56 | rolled_channels() has shape (height, width, channels) |
| `Images.RolledChannelsAt` | menpodetect/detect.py:55-56 | element (h, w, c) of rolled_channels() is pixel (c, h, w) |
| `Images.RolledSingleChannel` | menpodetect/detect.py:59-61 | a one-channel image rolls to its own pixels shaped (height, width, 1) |
| `Images.AsGreyscale` | menpodetect/detect.py:30-36 | as_greyscale gives a consistent one-channel image of the same size and pixel type |
| `Images.PilArray` | menpodetect/detect.py:57-58 | np.array(as_PILImage()) is (height, width) for one channel and (height, width, channels) otherwise |
| `Images.LandmarkedImage.AttachGroups` | menpodetect/detect.py:116-119 | the store afterwards is the old store overridden by label i ↦ region i for every region |
| `Detect.Greyscale` | menpodetect/detect.py:27-37 | fails with the uint8 ValueError exactly for several channels with uint8 pixels; returns a one-channel image unchanged; always yields one channel of the same size |
| `Detect.GreyscaleMode` | menpodetect/detect.py:30-36 | images that are not uint8 with 3 channels use luminosity; every other count above 1 uses average |
| `Detect.DropDeadAxis` | menpodetect/detect.py:59-61 | a 3-D array whose last axis is 1 loses that axis (shape a.shape[..2]); every other array is returned unchanged; the values are kept and the result is never 3-D with a last axis of 1 |
| `Detect.MenpoImageToUint8` | menpodetect/detect.py:55-62 | the array is (height, width) for one channel and (height, width, channels) otherwise, never 3-D with a last axis of 1 |
| `Detect.Uint8ValuesUntouched` | menpodetect/detect.py:55-56 | a uint8 image is only rolled: element (h, w, c) is pixel (c, h, w); one channel gives the pixels shaped (height, width) |
| `Detect.InverseScaleFactor` | menpodetect/detect.py:107-113 | the scale factor is positive and 1/scale_factor is diagonal / image_diagonal |
| `Detect.WorkingImage` | menpodetect/detect.py:101-108 | the greyscaled and rescaled working copy is a consistent image |
| `Detect.DetectorInputShape` | menpodetect/detect.py:79-82 | the detector gets an array with no channel axis after greyscaling (or for one channel), and otherwise the channels as the last axis |
| `Detect.DetectFailsOnUint8Greyscale` | menpodetect/detect.py:27-29 | detect fails exactly when greyscale is asked of a uint8 image with several channels, with the uint8 ValueError |
| `Detect.DetectWithoutDiagonal` | menpodetect/detect.py:106-113 | without image_diagonal the detector's regions are returned exactly |
| `Detect.DetectWithDiagonal` | menpodetect/detect.py:106-113 | with image_diagonal t the detector runs on the image rescaled by t / diagonal, and each vertex comes back multiplied by diagonal / t, keeping count, kinds and edges |
| `Detect.DetectRescaleRoundTrip` | menpodetect/detect.py:107-113 | scaling the returned regions by the factor again gives the detector's own regions |
| `Detect.RescaleScenario` | menpodetect/tests/detector_test.py:17-25 | the unit box found at diagonal 200 on a float image of diagonal 500 comes back as the box of side 2.5 |
| `Detect.Detect` | menpodetect/detect.py:101-120 | returns DetectRegions; on success the store gains exactly label i ↦ region i with len(str(n)) padding; on failure the store is unchanged |
| `LegacyDetectors.LegacyGreyscale` | menpodetect/detectors.py:8-17 | never fails; yields one channel of the same size; a one-channel image is returned unchanged |
| `LegacyDetectors.LegacyGreyscaleMode` | menpodetect/detectors.py:9-16 | for any pixel type, uint8 included, 3 channels use luminosity and every other count above 1 uses average |
| `LegacyDetectors.LegacyGreyscaleAgrees` | menpodetect/detectors.py:8-17 | agrees with the current greyscale everywhere except on multi-channel uint8 images, which it converts where the current one raises |
| `LegacyDetectors.LegacyToUint8` | menpodetect/detectors.py:20-21 | the PIL array as it is: (height, width) for one channel, else (height, width, channels) |
| `LegacyDetectors.LegacyToUint8AgreesOffUint8` | menpodetect/detectors.py:20-21 | on images that are not uint8 it equals the current menpo_image_to_uint8 |
| `LegacyDetectors.LegacyMatchesCurrentOffUint8` | menpodetect/detectors.py:24-38 | on images that are not uint8 the old and the current detect return the same regions for every detector, flag and diagonal |
| `LegacyDetectors.LegacyDetect` | menpodetect/detectors.py:24-45 | returns the old pipeline's regions and stores label i ↦ region i with len(str(n)) padding |
| `FrontalFace.PointCloudFromRect` | menpodetect/_dlib.py:10-12 | a point cloud of exactly 2 points, (top, left) and then (bottom, right) |
| `FrontalFace.PointCloudSpansRect` | menpodetect/_dlib.py:10-12 | for an ordered rectangle the two corners span exactly the region rect_to_pointgraph builds |
| `FrontalFace.RescaleFactor` | menpodetect/_dlib.py:20-24 | a factor exists exactly when width is given and the image is wider; it lies strictly between 0 and 1 and maps the image width to width |
| `FrontalFace.ByteArray` | menpodetect/_dlib.py:25 | channel 0 as a (height, width) array |
| `FrontalFace.FrontalFacesUnscaled` | menpodetect/_dlib.py:19-27 | with no rescale, face i is the detector's rectangle i as a two-point cloud |
| `FrontalFace.FrontalFacesRescaled` | menpodetect/_dlib.py:20-29 | after a rescale, both corners of face i come back multiplied by image width / width |
| `FrontalFace.FaceKeysDistinct` | menpodetect/_dlib.py:31-32 | different faces get different labels, however many there are |
| `FrontalFace.FaceKeyOrder` | menpodetect/_dlib.py:31-32 | below 100 faces every label has length 15 and the labels sort in face order |
| `FrontalFace.FaceKeyOrderBreaksAt100` | menpodetect/_dlib.py:31-32 | with fixed two-digit padding, frontal_face_100 sorts before frontal_face_11 |
| `FrontalFace.FrontalFaceCache.constructor` | menpodetect/_dlib.py:7 | the detector slot starts empty |
| `FrontalFace.DetectFrontalFaces` | menpodetect/_dlib.py:15-33 | the detector is created only when the slot is empty and is kept afterwards; the faces are FrontalFaces of it; labels are written only with add_as_landmarks |
| `DlibDetect.PointGraphFromRect` | menpodetect/dlib/_dlib.py:11-16 | identical to rect_to_pointgraph for every rectangle; 4 points; every edge index is below 4 |
| `OpenCvConversion.PointGraphFromRect` | menpodetect/opencv/conversion.py:33-38 | equals bounding_box((y, x), (y + h, x + w)): rows from y, columns from x, edges a closed 4-cycle |
| `OpenCvConversion.PointGraphFromRectBounds` | menpodetect/opencv/conversion.py:33-37 | for w, h ≥ 0 the bounds are (y, x) and (y + h, x + w), and the range is (h, w) |
| `OpenCvConversion.RectRoundTrip` | menpodetect/opencv/conversion.py:33-37 | for w, h ≥ 0 reading (min col, min row, width, height) off the region gives (x, y, w, h) back |
| `DlibConversion.RectToPointGraph` | menpodetect/dlib/conversion.py:6-11 | the region spanned by (top, left) and (bottom, right), in bounding_box vertex order |
| `DlibConversion.Truncate` | menpodetect/dlib/conversion.py:16-17 | int() truncates toward zero: the integer within 1 of x on x's side of zero |
| `DlibConversion.TruncateMonotone` | menpodetect/dlib/conversion.py:16-17 | truncation is monotone |
| `DlibConversion.TruncateInteger` | menpodetect/dlib/conversion.py:16-17 | truncation leaves integers unchanged |
| `DlibConversion.PointGraphToRect` | menpodetect/dlib/conversion.py:14-17 | the output always has top ≤ bottom and left ≤ right |
| `DlibConversion.PointGraphToRectPermutation` | menpodetect/dlib/conversion.py:15 | any reordering of the vertices gives the same rectangle |
| `DlibConversion.RectRoundTripNormalises` | menpodetect/dlib/conversion.py:6-17 | through the region and back, a rectangle comes back with its sides put in order |
| `DlibConversion.RectRoundTrip` | menpodetect/dlib/conversion.py:6-17 | an integer rectangle with top ≤ bottom and left ≤ right survives the round trip unchanged |
| `PicoConversion.PointGraphFromCircle` | menpodetect/pico/conversion.py:5-15 | the square bounding_box((cy − r, cx − r), (cy − r + d, cx − r + d)) with r = d/2 |
| `PicoConversion.CircleRegionExtent` | menpodetect/pico/conversion.py:11-14 | height and width both equal the diameter |
| `PicoConversion.CircleRegionCentred` | menpodetect/pico/conversion.py:6-14 | the midpoint of vertices 0 and 2 is the fitting's centre |
| `Ffld2Conversion.PointGraphFromRect` | menpodetect/ffld2/conversion.py:19-20 | a region whose point 0 is (y, x), point 2 is (y + height, x + width), and points 1 and 3 are the other corners, taking menpo's `bounding_box` to use the vertex order of `menpodetect/conversion.py` |
| `Ffld2Conversion.EnsureChannelAxis` | menpodetect/ffld2/conversion.py:23-28 | a 2-D array gains a trailing axis of 1 with the same data; any other array is returned unchanged |
| `Ffld2Conversion.EnsureChannelAxisValues` | menpodetect/ffld2/conversion.py:26-27 | element (i, j, 0) of the result is element (i, j) of the input |
| `Ffld2Conversion.EnsureChannelAxisIdempotent` | menpodetect/ffld2/conversion.py:23-28 | applying it twice is the same as applying it once |
| `Ffld2Conversion.EnsureChannelAxisUndoesSqueeze` | menpodetect/ffld2/conversion.py:26-27 | it restores exactly the axis that menpo_image_to_uint8 dropped |
| `Ffld2Conversion.TrainerArrayShape` | menpodetect/ffld2/train.py:69-70 | a converted image always reaches the trainer as (height, width, channels) |
| `BobConversion.BbToPointGraph` | menpodetect/bob/conversion.py:21 | a region whose point 0 is topleft_f and point 2 is bottomright_f, taking menpo's `bounding_box` to use the vertex order of `menpodetect/conversion.py` |
| `BobConversion.PointGraphToBb` | menpodetect/bob/conversion.py:39 | the top-left is the coordinate-wise minimum, top-left + size is the maximum, and the size is non-negative |
| `BobConversion.PointGraphToBbPermutation` | menpodetect/bob/conversion.py:39 | any reordering of the vertices gives the same box |
| `BobConversion.BbRoundTrip` | menpodetect/bob/conversion.py:21-39 | a box with non-negative size survives region and back unchanged |
| `BobConversion.RegionRoundTrip` | menpodetect/bob/conversion.py:21-39 | any point set goes to a box and back to its own bounding box |
| `Ffld2Train.TrainingArray` | menpodetect/ffld2/train.py:69-70 | the array for one image is (height, width, channels) |
| `Ffld2Train.GroupBox` | menpodetect/ffld2/train.py:74-78 | the box is (min col, min row, width, height): the corner is the group's minimum, corner + size its maximum, and the size is non-negative |
| `Ffld2Train.GroupBoxFeedsBack` | menpodetect/ffld2/train.py:74-78 | read back as an ffld2 rectangle, the box gives the group's bounding box |
| `Ffld2Train.ImageBoundingBoxes` | menpodetect/ffld2/train.py:72-79 | one box per landmark group, in order |
| `Ffld2Train.TrainFfld2Detector` | menpodetect/ffld2/train.py:64-84 | one (height, width, channels) array per positive and per negative image, in order, and for positive image i one box per landmark group |

## Left out

- Coordinates, scale factors and pixel values are exact reals, not Python or numpy floats; the integer point arrays of opencv and dlib become reals too. So `Geometry.ScaleInverse`, `Detect.InverseScaleFactor`, `Detect.DetectRescaleRoundTrip` and `Detect.RescaleScenario` are exact equalities here. In the program they hold only up to rounding; `menpodetect/tests/detector_test.py:24-25` compares with a tolerance.
- The pixel-level work of menpo and PIL is uninterpreted. This covers the luminosity and average weights, interpolation in `rescale`, the float-to-uint8 conversion of `as_PILImage`, the `* 255` byte cast in `menpodetect/_dlib.py:25`, and the square root in `diagonal()`. Only channel counts, pixel types and shapes are modelled.
- The arrays carry no element type. That they are uint8 is not stated.
- `Geometry.BoundingBox`: it is the text of `menpodetect/conversion.py:24-27`. As `menpo.shape.bounding_box`, which ffld2 and bob call, it is an assumption: menpo's version is taken to share that vertex order and those edges. Likewise `Geometry.Bounds`, `Geometry.Range`, `Geometry.BoundingBoxOf` and `Geometry.Scale` stand for menpo's `bounds()`, `range()`, `bounding_box()` and `UniformScale`, read as the coordinate-wise minimum and maximum, their difference, the box they span, and multiplication about the origin.
- `Images.PilArray`: the shape of `np.array(image.as_PILImage())` is assumed to be (height, width) for one channel and (height, width, channels) otherwise. The conversion is also modelled as never failing. menpo's `as_PILImage` raises `ValueError` for channel counts other than 1 or 3 and for float values outside [0, 1]; those errors are not modelled. So the claim of `Detect.DetectFailsOnUint8Greyscale` that detect fails only on the uint8 greyscale case, and the claim that `LegacyDetectors.LegacyDetect` never fails, hold only for images `as_PILImage` accepts.
- `Images.Sound`: menpo's `rescale` is assumed to keep the channel count and the pixel type.
- `Images.AsGreyscale`: menpo's `as_greyscale` is assumed to keep the pixel type.
- `Geometry.MinCoord` and `Geometry.MaxCoord` require at least one point, and so do `bounds()`, `range()` and `bounding_box()` and whatever uses them. numpy raises on an empty point set; that error path is not modelled.
- `Detect.Detect`: it requires a positive `image_diagonal` and a positive `diagonal()` when a diagonal is given. A zero or negative target gives a scale factor of at most zero. menpo's `rescale` refuses such a factor, and a zero factor also fails in `1 / scale_factor`. These error paths are not modelled.
- `LegacyDetectors.LegacyDetect`: it requires a positive `image_diagonal` and a positive `diagonal()` when a diagonal is given, for the same reason: zero and negative targets are excluded.
- `FrontalFace.DetectFrontalFaces`: it requires `width` to be positive when given. A zero or negative width reaches menpo's `rescale` with a factor of at most zero.
- `LegacyDetectors.LegacyDetect`: `menpodetect/detectors.py:32` divides by the attribute `image.diagonal`, while `menpodetect/detect.py:107` calls `image.diagonal()`. The legacy module is modelled for the earlier menpo, in which `diagonal` is a property. Under the menpo that `detect.py` is written for, that attribute is a bound method, so the division raises `TypeError` and the legacy detect cannot return once a diagonal is given. `LegacyDetectors.LegacyMatchesCurrentOffUint8` therefore compares the two pipelines as each was meant for its own menpo.
- `FrontalFace.ByteArray`: `pixels[..., 0]` is channel 0 of the greyscale image. This is the channels-last layout `menpodetect/_dlib.py` was written for. With menpo's later (channels, height, width) layout the same expression would select a column instead.
- The ffld2 trainer is given each image's landmark groups as a sequence, in the order the landmark store yields them. The order of a Python dict is not modelled. The `train_model` call and its options are not modelled either.
- The backend adapters (`menpodetect/{opencv,dlib,pico,ffld2,bob}/detect.py`) load models and call into OpenCV, dlib, pico, ffld2 and bob. Their detectors are the function parameters here.
- The `channels_at_back=False` keyword that `menpodetect/bob/detect.py:126` passes is not accepted by `detect`. The signature is modelled as `detect` declares it.
- The adapters' tests expect labels such as `opencv_0`, while the adapters default to `group_prefix='object'`. This belongs to the adapters, which are not part of this model.
- The module constant `_bounding_box_adj` in `menpodetect/detectors.py:5` is never used and is not modelled.
- Packaging, path lookup, the optional-import `__init__.py` files and `menpodetect/dlib/train.py` only configure and call foreign libraries. They are not part of this model.
