# exr-diff core in Dafny

exr-diff compares two OpenEXR images pixel by pixel and writes a false-colour
PNG. For each pixel it:

- scales both pixels' linear RGB by `2^exposure`, in place;
- converts both to CIELAB (linear RGB, then XYZ, then L\*a\*b\* with the
  D65 white);
- computes their CIEDE2000 difference;
- maps the difference on `[0, max_deltaE]` onto a six-stop ramp (black,
  blue, cyan, green, yellow, red);
- writes the result as one opaque RGBA byte pixel.

With `--scale`, a 30-column legend strip is appended on the right.

This project models that core and proves properties of it:

- **`MathFacts`** (`math.dfy`): the `<cmath>` functions and the exposure
  product. They are the fields of a `Math` record, and `Lawful(m)` lists the
  only facts the proofs use about them. The library functions stay
  uninterpreted; the exposure product is the real product, like every other
  float product of the model.
- **`ColorTools`** (`colortools.dfy`): sRGB de-gamma, the RGB-to-XYZ matrix,
  XYZ to Lab, and CIEDE2000. The functions specify the formula step by step.
  The array-filling procedures of the source are methods proved equal to
  those functions.
  - Proved: the difference is non-negative, zero for a colour against
    itself, and symmetric.
  - Every divisor of the formula is at least 1, and the final radicand is
    non-negative.
- **`ColorRamp`** (`colormap.dfy`): `clamp`, `place` and `getRGB`. The
  colour is written as `RangeColor` and proved to fill its array.
  - Proved: black at or below the range, red at or above it, channels in
    [0, 1], and black exactly at 0.
  - An empty range `lo = hi` takes the NaN path, which is red.
- **`BbgrColorMaps`, `TabulatedColorMaps`, `ColorMapModules`**: the
  colour-map classes and the name dispatch of `ColorMapModule::create`.
  - Name tests go through `strcmp` on `c_str()` (module `CStrings`), so
    only the text before the first NUL counts.
  - The tabulated lookup truncates `v (n - 1)`; the C conversions are in
    module `CNumeric`.
- **`ImageModules`, `XyzImages`**: the file-suffix decision of
  `ImageModule::load` and the `XYZImage` buffer class.
- **`DiffMain`** (`main.dfy`): the body of `main` between decoding and
  encoding, as nested loops over arrays. It covers:
  - the dimension check (`Run`);
  - the image loop, which scales both input buffers in place and writes
    each pixel's bytes (`RenderImage`, `RenderRow`, `RenderPixel`, …);
  - the legend loop (`RenderLegend`).

  `RenderDifference` states the complete result:
  - image pixel (x, y) holds the bytes of `OffsetPixel` at input offset
    `y w + x`;
  - every legend pixel of row y holds `LegendPixel(y, h)`;
  - both input buffers end up exposure-scaled on their first `w h` pixels
    and are otherwise unchanged.

  Further lemmas show what the output means:
  - for a positive `max_deltaE`, identical images give opaque black at every
    image pixel;
  - a non-positive `max_deltaE` gives opaque red at every image pixel (the
    legend does not depend on it);
  - the top legend row is red;
  - legend values decrease down the strip;
  - the output ↔ (pixel, channel) correspondence is a bijection.

Floating-point values are real numbers. Where the source divides by zero,
the branch the resulting infinity or NaN takes through the code is modelled
explicitly:

- `place(v, lo, lo)`;
- the one-row legend;
- the two-value `BBGRColorMap` overload.

Properties of the code that the model keeps as written:

- **Tabulated palette lookup.** The index is a truncation of `v (n - 1)`,
  not a nearest-entry lookup, and it is not clamped
  (`TabulatedColorMap.hpp:36`).
- **Legend row value.** Row `y` shows `(height - y) / (height - 1)`
  (`main.cpp:136`). As a result:
  - the bottom row shows `1 / (height - 1)` and is never black
    (`DiffMain.LegendBottomIsNotBlack`);
  - the top row is above 1 and is clamped to red.
- **Legend width.** The legend is a fixed 30 columns wide (`main.cpp:92`),
  whatever the image width.
- **Colour map in `main`.** `main` colours with the free `getRGB` ramp
  (`colormap.hpp`); `ColorMapModule::create` is not called from it.

## Model

| member | source | states |
|---|---|---|
| CNumeric.TruncToInt | src/ColorMap/TabulatedColorMap.hpp:36 | a float-to-int conversion rounds toward zero: the result is within one of x, on x's side of zero |
| CNumeric.TruncOfNonNegative | src/main.cpp:126 | every value in [k, k+1) with k >= 0 converts to k (truncation, not rounding) |
| CNumeric.TruncNearZero | src/ColorMap/TabulatedColorMap.hpp:36 | values strictly between -1 and 1 convert to 0 |
| CNumeric.ToByte | src/main.cpp:125-129 | `255 c` stored in an unsigned char is floor(255 c) for c in [0, 1]; 0 gives 0 and 1 gives 255 |
| CStrings.CStr | src/ColorMap/ColorMapModule.hpp:11-13 | the C-string view is the prefix before the first NUL, contains no NUL, and is followed by a NUL when shorter than the string |
| CStrings.CStrOfNulFree | src/ColorMap/ColorMapModule.hpp:13-19 | a NUL-free string compares as itself |
| ColorTools.DegammaIsChannelwise | src/colortools.hpp:36-42 | each de-gamma output channel depends only on the same input channel |
| ColorTools.DegammaLinearSegment | src/colortools.hpp:37-38 | below 0.04045, negatives included, de-gamma is `c / 12.92`, and black stays black |
| ColorTools.RgbToLinRgb | src/colortools.hpp:34-43 | the loop leaves the de-gamma of the input triple in the output, even when both arrays are the same one |
| ColorTools.ToXyzIsLinear | src/colortools.hpp:49-51 | the RGB-to-XYZ matrix commutes with scaling (an exposure factor, see `DiffMain.ExposedXyzIsScaled`) and with addition |
| ColorTools.LinRgbToXyz | src/colortools.hpp:47-52 | the three assignments fill the output with the matrix product of the input |
| ColorTools.ToLabOfBlack | src/colortools.hpp:61-79 | XYZ black goes exactly to the Lab origin through the linear segment |
| ColorTools.ToLabOfNeutral | src/colortools.hpp:65-79 | equal white-normalised ratios give a = b = 0, and the lightness depends on Y alone |
| ColorTools.XyzToLab | src/colortools.hpp:57-80 | the `f` loop and the three output assignments compute the Lab conversion of the original XYZ, even if the arrays alias |
| ColorTools.LinRgbToLab | src/colortools.hpp:84-89 | the composition through a local XYZ array yields Lab of XYZ of the input |
| ColorTools.Chroma | src/colortools.hpp:103-104 | the chroma is non-negative, positive unless a = b = 0, and 0 for a = b = 0 |
| ColorTools.ChromaIsZeroIffNeutral | src/colortools.hpp:114-115 | the chroma is 0 exactly when a = b = 0 |
| ColorTools.Pow7 | src/colortools.hpp:107-108 | `(c^2)^3 c` is non-negative for c >= 0 and 0 for c = 0 |
| ColorTools.Pow7Ratio | src/colortools.hpp:110 | `c^7 / (c^7 + 25^7)` lies in [0, 1), and is 0 at c = 0 |
| ColorTools.ChromaCorrection | src/colortools.hpp:110 | G lies in (0, 0.5], and is exactly 0.5 for zero mean chroma |
| ColorTools.HuePrime | src/colortools.hpp:117-135 | h' lies in [0, 2 pi); it is 0 when b = a' = 0 and otherwise atan2 shifted by 0 or 2 pi |
| ColorTools.DeltaHuePrime | src/colortools.hpp:137-149 | Delta h' is 0 for zero total chroma; otherwise it is h2 - h1 shifted by a multiple of 2 pi, and lies in [-pi, pi] when both hues are in [0, 2 pi) |
| ColorTools.DeltaHuePrimeIsAntisymmetric | src/colortools.hpp:139-149 | exchanging the hues negates Delta h' |
| ColorTools.MeanHuePrime | src/colortools.hpp:158-168 | the mean hue is the raw sum for zero chroma; otherwise it is half the sum, shifted by pi only across the wrap, and lies in [0, 2 pi) |
| ColorTools.MeanHuePrimeIsSymmetric | src/colortools.hpp:158-168 | exchanging the hues keeps the mean hue |
| ColorTools.HueBlend | src/colortools.hpp:170-174 | T lies in [0.07, 1.93] for any mean hue |
| ColorTools.RotationChroma | src/colortools.hpp:185 | R_C lies in [0, 2) |
| ColorTools.SquaredOffsetFrom50 | src/colortools.hpp:182-183 | (L - 50)^2 is non-negative |
| ColorTools.LightnessWeight | src/colortools.hpp:186 | S_L is at least 1 |
| ColorTools.ChromaWeight | src/colortools.hpp:187 | S_C is at least 1 for non-negative chroma |
| ColorTools.HueWeight | src/colortools.hpp:188 | S_H is at least 1 for non-negative chroma and blend |
| ColorTools.RotationTerm | src/colortools.hpp:176-189 | the magnitude of R_T is at most R_C |
| ColorTools.HueChordIsAntisymmetric | src/colortools.hpp:153 | swapping C'1 and C'2 and negating Delta h' negates Delta H' |
| ColorTools.RadicandNonNegative | src/colortools.hpp:199-203 | with the magnitude of R_T at most 2, the radicand of the final square root is non-negative |
| ColorTools.RadicandOfNegated | src/colortools.hpp:199-203 | negating the three weighted differences keeps the radicand |
| ColorTools.PrimedTerms | src/colortools.hpp:103-135 | G is in (0, 0.5], the primed chromas are non-negative and the hues are in [0, 2 pi); a zero chroma has hue 0, and a neutral colour has zero primed chroma |
| ColorTools.PrimedTermsOfSwapped | src/colortools.hpp:103-135 | exchanging the colours exchanges the primed chromas and hues and keeps G |
| ColorTools.HueTerms | src/colortools.hpp:137-168 | Delta h' is in [-pi, pi] and the mean hue in [0, 2 pi); both are 0 for zero chroma, and equal hues give Delta h' = Delta H' = 0 |
| ColorTools.HueTermsOfSwapped | src/colortools.hpp:137-168 | exchanging the colours negates Delta h' and Delta H' and keeps the mean hue |
| ColorTools.WeightTerms | src/colortools.hpp:170-189 | T >= 0.07, 0 <= R_C < 2, the magnitude of R_T is at most R_C, and S_L, S_C and S_H are each at least 1 |
| ColorTools.DeltaE2000Terms | src/colortools.hpp:93-203 | every intermediate quantity has its bounds, every divisor is at least 1, and the radicand is non-negative |
| ColorTools.DeltaE2000 | src/colortools.hpp:93-204 | the CIEDE2000 difference is non-negative |
| ColorTools.SelfDifferenceIsZero | src/colortools.hpp:93-204 | a colour has difference 0 from itself |
| ColorTools.HuesOfSwapped | src/colortools.hpp:103-168 | exchanging the colours exchanges the primed terms, negates both hue differences and keeps the mean hue |
| ColorTools.WeightsOfSwapped | src/colortools.hpp:151-189 | exchanging the colours keeps every weight and negates Delta L' and Delta C' |
| ColorTools.ReducedTermsOfSwapped | src/colortools.hpp:195-197 | exchanging the colours negates the three weighted differences and keeps R_T |
| ColorTools.DeltaE2000IsSymmetric | src/colortools.hpp:93-204 | the difference is the same in both argument orders |
| ColorRamp.Clamp | src/colormap.hpp:5-8 | `min(max(v, lo), hi)` lies in [lo, hi] and keeps v inside it; a reversed interval gives hi |
| ColorRamp.ClampIsIdempotent | src/colormap.hpp:5-8 | clamping twice is clamping once |
| ColorRamp.Place | src/colormap.hpp:10-14 | `place` lies in [0, 1]: 0 at or below lo and 1 at or above hi; a reversed interval gives 1 |
| ColorRamp.PlaceIsMonotone | src/colormap.hpp:10-14 | `place` never decreases as v grows |
| ColorRamp.SegmentFrom | src/colormap.hpp:36-47 | the search from stop i returns the first stop at or above t, and every stop it skipped is below t |
| ColorRamp.Segment | src/colormap.hpp:36-47 | the segment found is a stop in 1..5 or the fall-through, 6 |
| ColorRamp.SegmentBrackets | src/colormap.hpp:36-47 | the search stops exactly when t <= 1, and the found segment's stops bracket t |
| ColorRamp.SegmentWeight | src/colormap.hpp:38 | the interpolation weight inside a segment lies in [0, 1] |
| ColorRamp.RampColorBelowZero | src/colormap.hpp:36-46 | positions at or below 0 are black |
| ColorRamp.RampColorAboveOne | src/colormap.hpp:36-51 | positions at or above 1 are red, by the last segment or the fall-through |
| ColorRamp.RampColorAtStop | src/colormap.hpp:22-47 | at i/5 the ramp is exactly stop i |
| ColorRamp.RampColorAtMiddle | src/colormap.hpp:22-47 | halfway along, the ramp is the midpoint of cyan and green |
| ColorRamp.BlendChannelInRange | src/colormap.hpp:41-42 | a weight in [0, 1] blends two channel values of [0, 1] into a value between them |
| ColorRamp.RampColorIsConvex | src/colormap.hpp:36-51 | every channel of a ramp colour lies in [0, 1]; its first two clauses only unfold `RampColor` on the colour's segment |
| ColorRamp.RampColorOnSegment | src/colormap.hpp:37-45 | unfolds `RampColor` on segment j: the blend of stops j-1 and j by `place` between them, the step `SearchRamp`'s proof uses |
| ColorRamp.RampColorAboveZeroIsNotBlack | src/colormap.hpp:36-47 | every position above 0 keeps one channel positive, so only positions at or below 0 are black |
| ColorRamp.PlacedValueFindsSegment | src/colormap.hpp:20-47 | after `place` over a non-empty interval the search never falls through |
| ColorRamp.RangeColorEnds | src/colormap.hpp:16-52 | `getRGB` is black at or below lo and red at or above hi, and red for a reversed or empty interval |
| ColorRamp.RangeColorIsBlackIffZero | src/colormap.hpp:16-52 | on [0, hi] with hi > 0, a non-negative value is black exactly when it is 0 |
| ColorRamp.RangeColorInUnit | src/colormap.hpp:16-52 | every channel of `getRGB` lies in [0, 1], whatever the interval |
| ColorRamp.BlendInto | src/colormap.hpp:40-43 | the channel loop leaves the blend of the two stops in the array |
| ColorRamp.StopValues | src/colormap.hpp:30-34 | the `values` loop puts stop i at i/5 |
| ColorRamp.SetColor | src/colormap.hpp:49-51 | the fall-through loop copies the last stop into the array |
| ColorRamp.SearchRamp | src/colormap.hpp:22-51 | the search loop leaves the ramp colour of t in the array, or red for a NaN t |
| ColorRamp.GetRgb | src/colormap.hpp:16-52 | `getRGB` leaves the ramp colour of v relative to [lo, hi] in the array |
| BbgrColorMaps.RampColorOfClamped | src/ColorMap/BBGRColorMap.hpp:52-62 | the ramp of t equals the ramp of t clamped to [0, 1], matching the static `clamp` |
| BbgrColorMaps.QuotientColorIsRangeColor | src/ColorMap/BBGRColorMap.hpp:46-49 | for lo < hi the unclamped two-value overload colours every value as `getRGB` does |
| BbgrColorMaps.BbgrColorMap.GetRgbValue | src/ColorMap/BBGRColorMap.hpp:11-43 | the one-value lookup leaves the ramp colour of v in the array |
| BbgrColorMaps.BbgrColorMap.GetRgbValueIn | src/ColorMap/BBGRColorMap.hpp:46-49 | the two-value lookup leaves the ramp colour of (v - lo)/(hi - lo) in the array; for lo = hi, black below lo and red otherwise |
| TabulatedColorMaps.IndexScale | src/ColorMap/TabulatedColorMap.hpp:36 | `size/3 - 1` in size_t: size/3 - 1 for at least three values, wrapping to SIZE_MAX below that |
| TabulatedColorMaps.LookupInBounds | src/ColorMap/TabulatedColorMap.hpp:36-37 | on a 256-entry palette, every v in [0, 1] reads an entry in range; 0 reads the first entry and 1 the last |
| TabulatedColorMaps.LookupTruncates | src/ColorMap/TabulatedColorMap.hpp:36 | the index is floor(255 v) for v >= 0, so 0.999 reads entry 254 |
| TabulatedColorMaps.LookupOfSlightlyNegative | src/ColorMap/TabulatedColorMap.hpp:36 | values in (-1/255, 0] still read entry 0 |
| TabulatedColorMaps.DefaultMapHasNoEntry | src/ColorMap/TabulatedColorMap.hpp:11-13 | the default one-value map has no in-bounds lookup for any v |
| TabulatedColorMaps.QuotientLookupInBounds | src/ColorMap/TabulatedColorMap.hpp:40-43 | for lo < hi and v in [lo, hi], the two-value lookup reads an entry in range |
| TabulatedColorMaps.TabulatedColorMap.Default | src/ColorMap/TabulatedColorMap.hpp:11-13 | the default constructor holds a single zero value |
| TabulatedColorMaps.TabulatedColorMap.Empty | src/ColorMap/TabulatedColorMap.hpp:15-16 | the named constructor starts from an empty table |
| TabulatedColorMaps.TabulatedColorMap.Init | src/ColorMap/TabulatedColorMap.hpp:46-50 | `init` sets the table to the first 3 n source values |
| TabulatedColorMaps.TabulatedColorMap.FromName | src/ColorMap/TabulatedColorMap.hpp:15-32 | the four palette names give a fresh map holding that palette's 768 values; any other name gives error -1 |
| TabulatedColorMaps.TabulatedColorMap.GetRgbValue | src/ColorMap/TabulatedColorMap.hpp:34-38 | the lookup copies the triple at the truncated index `v (n - 1)` |
| TabulatedColorMaps.TabulatedColorMap.GetRgbValueIn | src/ColorMap/TabulatedColorMap.hpp:40-43 | the two-value lookup copies the triple at the truncated index of (v - lo)/(hi - lo) |
| ColorMapModules.Dispatch | src/ColorMap/ColorMapModule.hpp:9-28 | a name is accepted exactly when its C string is one of the five names; "bbgr" selects the ramp, another accepted name is forwarded, and otherwise the result is error -1 |
| ColorMapModules.CStrIsIdempotent | src/ColorMap/ColorMapModule.hpp:11-20 | the C string of a C string is the same C string |
| ColorMapModules.ForwardedNameIsAccepted | src/ColorMap/ColorMapModule.hpp:15-20 | every name forwarded to the palette constructor is one it accepts, so its throw is unreachable from `create` |
| ColorMapModules.AcceptedNames | src/ColorMap/ColorMapModule.hpp:13-19 | a NUL-free name is accepted exactly when it is one of the five names |
| ColorMapModules.NamesAreCaseSensitive | src/ColorMap/ColorMapModule.hpp:13-27 | "BBGR" and "Magma" are refused with -1 |
| ColorMapModules.EmbeddedNulIsIgnored | src/ColorMap/ColorMapModule.hpp:11-14 | "bbgr" followed by NUL and more characters still selects the ramp |
| ColorMapModules.Create | src/ColorMap/ColorMapModule.hpp:9-29 | `create` builds a fresh ramp for "bbgr" or a fresh map holding the named palette; any other name gives error -1 |
| ImageModules.Extension | src/ImageFormat/ImageModule.hpp:44 | the suffix is the last four bytes, and the name is the rest followed by it |
| ImageModules.LoadFormat | src/ImageFormat/ImageModule.hpp:37-55 | a name under five bytes gives -1; otherwise EXR exactly when the C-string suffix is ".exr" or ".EXR", and -2 for anything else |
| ImageModules.BareExtensionIsTooShort | src/ImageFormat/ImageModule.hpp:40-42 | the bare name ".exr" is refused as too short |
| ImageModules.MixedCaseIsUnknown | src/ImageFormat/ImageModule.hpp:46-53 | ".Exr" is an unknown format, while ".exr" and ".EXR" load |
| ImageModules.NulFreeExtension | src/ImageFormat/ImageModule.hpp:44-48 | for a NUL-free suffix the decision is the raw four-byte comparison |
| ImageModules.DependsOnlyOnExtension | src/ImageFormat/ImageModule.hpp:40-53 | two names of at least five bytes with the same suffix get the same decision |
| XyzImages.Zeros | src/ImageFormat/XYZImage.hpp:40 | the value-initialised buffer has n zeros |
| XyzImages.Resized | src/ImageFormat/XYZImage.hpp:55 | `resize(n)` has n values: it keeps the first ones and appends zeros |
| XyzImages.ResizedToLength | src/ImageFormat/XYZImage.hpp:55 | resizing to the current length changes nothing |
| XyzImages.ResizedIsIdempotent | src/ImageFormat/XYZImage.hpp:55 | resizing twice to the same length is resizing once |
| XyzImages.ShrinkThenGrow | src/ImageFormat/XYZImage.hpp:55 | shrinking and growing back keeps the kept values and zeroes the rest |
| XyzImages.XyzImage.constructor | src/ImageFormat/XYZImage.hpp:37-41 | the image has the given dimensions and 3 w h zeros |
| XyzImages.XyzImage.Width | src/ImageFormat/XYZImage.hpp:47 | returns the stored width |
| XyzImages.XyzImage.Height | src/ImageFormat/XYZImage.hpp:48 | returns the stored height |
| XyzImages.XyzImage.Resize | src/ImageFormat/XYZImage.hpp:51-56 | `resize` stores the new dimensions and resizes the buffer to 3 w h values, keeping the first ones |
| DiffMain.OutWidth | src/main.cpp:92-93 | the output is the image width, plus 30 columns with the legend |
| DiffMain.OutPixel | src/main.cpp:126-129 | a four-byte output pixel lies inside the buffer |
| DiffMain.PixelBelowEnd | src/main.cpp:101 | the offset `y w + x` of an image pixel is below `w h` |
| DiffMain.OutIndexInBounds | src/main.cpp:95-129 | every write of the two loops is inside the `width_out height 4` buffer |
| DiffMain.BlocksAreOrdered | src/main.cpp:126-129 | the four-byte blocks of distinct pixels are disjoint and ordered by row, then column |
| DiffMain.RowsAreOrdered | src/main.cpp:140-144 | the end of a row precedes every index of a later row |
| DiffMain.OutPixelUnchanged | src/main.cpp:125-129 | a pixel outside a written range keeps its bytes |
| DiffMain.PixelOwner | src/main.cpp:99-101 | every pixel number of the raster is a column and row of it |
| DiffMain.ByteOwner | src/main.cpp:95-147 | every byte of the output buffer belongs to a pixel and channel |
| DiffMain.ByteOwnerIsUnique | src/main.cpp:126-129 | at most one pixel and channel own a byte |
| DiffMain.PixelBytes | src/main.cpp:125-129 | the colour bytes are floor(255 c), and alpha is 255 |
| DiffMain.DiffColor | src/main.cpp:113-122 | the map colour of the pixels' CIEDE2000 difference has channels in [0, 1] |
| DiffMain.OffsetPixel | src/main.cpp:101-129 | every image pixel is four bytes with alpha 255 |
| DiffMain.ImagePixel | src/main.cpp:99-129 | every image pixel (x, y), taken at offset `y w + x`, is opaque |
| DiffMain.ImageTable | src/main.cpp:99-131 | the table of all w h image pixels lists each pixel's bytes |
| DiffMain.LegendValue | src/main.cpp:136 | the legend value is positive and at least 1 on the top row; one row gives 1/0, which is clamped like 1 |
| DiffMain.LegendColor | src/main.cpp:136-138 | the legend colour has channels in [0, 1] |
| DiffMain.LegendPixel | src/main.cpp:140-145 | every legend pixel is opaque |
| DiffMain.LegendTable | src/main.cpp:135-146 | the legend table holds every row's legend pixel |
| DiffMain.ExposedValueStep | src/main.cpp:107-110 | scaling pixel n changes only its three colour values, each to the exposure product `fmul` of the decoded value and k |
| DiffMain.ExposedPixelIsScaled | src/main.cpp:103-110 | after n pixels are scaled, each of them holds its decoded colour times k and its decoded alpha, and every later pixel is as decoded |
| DiffMain.ExposedXyzIsScaled | src/main.cpp:105-114 | the exposed colour is the decoded colour times k, so its XYZ value is the decoded XYZ value times k |
| DiffMain.ExposedStep | src/main.cpp:103-110 | scaling pixel n in place moves the buffer from stage n to stage n + 1 and leaves the exposed colour in it |
| DiffMain.EarlierColumnsKept | src/main.cpp:100-130 | writing pixel (x, y) keeps the earlier pixels of its row |
| DiffMain.EarlierFillKept | src/main.cpp:140-145 | writing a legend pixel keeps the earlier legend pixels of its row |
| DiffMain.EarlierRowsKept | src/main.cpp:99-131 | writing the image columns of a row keeps every earlier row |
| DiffMain.LegendKeepsImage | src/main.cpp:134-147 | writing a legend row keeps every image pixel |
| DiffMain.EarlierLegendRowsKept | src/main.cpp:135-146 | writing a legend row keeps the earlier legend rows |
| DiffMain.ExposePixel | src/main.cpp:107-110 | the exposure loop replaces the three colour values of pixel o in both buffers by their `fmul` product with k, which under `Lawful` is the value times k, and changes nothing else |
| DiffMain.WritePixel | src/main.cpp:125-129 | the byte loop writes the pixel's colour bytes and alpha 255, and nothing else |
| DiffMain.ReadPixel | src/main.cpp:103-104 | `&rgba[4 offset]` reads the three colour values of pixel o |
| DiffMain.PixelDeltaE | src/main.cpp:113-118 | the Lab conversion of both pixels gives their CIEDE2000 difference |
| DiffMain.DiffColorOf | src/main.cpp:113-122 | `getRGB` leaves the map colour of the pixels' difference in a fresh array |
| DiffMain.TabulatedColor | src/main.cpp:113-129 | the computed colour has channels in [0, 1], and its bytes are the pixel's entry of the image table |
| DiffMain.ExposedPixels | src/main.cpp:103-110 | scaling pixel o in place moves both buffers to the next stage; the pixels read are the exposed colours |
| DiffMain.ProcessPixel | src/main.cpp:101-129 | one iteration writes the pixel's bytes at its output index, changes no other byte, and advances both buffers one stage |
| DiffMain.RenderPixel | src/main.cpp:100-130 | iteration (x, y) writes the bytes of pixel `y w + x` into output pixel (x, y), and nothing else |
| DiffMain.RenderRow | src/main.cpp:100-130 | the x loop writes every pixel of row y, keeps earlier rows, and changes nothing outside its row |
| DiffMain.RenderImage | src/main.cpp:99-131 | after the y loop every image pixel holds its bytes and both buffers are scaled on all w h pixels |
| DiffMain.FillRow | src/main.cpp:140-145 | the legend x loop gives every column of [from, to) the same colour, and changes nothing else |
| DiffMain.LegendRowColor | src/main.cpp:136-138 | `getRGB(v, 0, 1)` gives the row's legend colour |
| DiffMain.RenderLegend | src/main.cpp:134-147 | the legend loop gives every legend pixel its row's colour and keeps every image pixel |
| DiffMain.TableIsImage | src/main.cpp:99-131 | the table entries of the image pixels are their bytes |
| DiffMain.EndBytes | src/main.cpp:125-129 | black is written as (0, 0, 0, 255) and red as (255, 0, 0, 255) |
| DiffMain.DiffColorIsBlackIffNoDifference | src/main.cpp:118-122 | for a positive scale, a pixel is black exactly when the difference is 0 |
| DiffMain.SaturatedDifferenceIsRed | src/main.cpp:118-122 | a difference at or above the maximum, or any difference on a non-positive scale, is red |
| DiffMain.IdenticalPixelsAreBlack | src/main.cpp:101-129 | two pixels with equal colour values, whatever their alpha, give (0, 0, 0, 255) |
| DiffMain.IdenticalImagesAreBlack | src/main.cpp:99-131 | for a positive `max_deltaE`, an image compared with itself gives (0, 0, 0, 255) at every image pixel |
| DiffMain.NonPositiveScaleIsRed | src/main.cpp:118-129 | `max_deltaE <= 0` gives (255, 0, 0, 255) at every image pixel |
| DiffMain.LegendTopIsRed | src/main.cpp:136-138 | the top legend row is red |
| DiffMain.LegendTopPixelIsRed | src/main.cpp:136-145 | the top legend row's bytes are (255, 0, 0, 255) |
| DiffMain.LegendBottomIsNotBlack | src/main.cpp:136-138 | the bottom legend row shows 1/(h - 1), not 0, so it is not black |
| DiffMain.LegendValueIsDecreasing | src/main.cpp:136 | lower legend rows show smaller values |
| DiffMain.RenderDifference | src/main.cpp:86-147 | the output has `width_out height 4` bytes; each image pixel holds the colour of its pixels' difference, each legend pixel its row's colour, and both inputs are exposure-scaled in place |
| DiffMain.Run | src/main.cpp:78-150 | it returns -1 with no output and unchanged inputs exactly when the dimensions differ; otherwise it returns 0 with the rendered raster |

## Left out

- Decoding the EXR files and the paths that fail to load (`main.cpp:52-76`).
  This is `LoadEXR` from tinyexr; the decoded buffers and their dimensions
  are inputs of `Run`. `src/ImageFormat/EXRImageFormat.hpp` is not part of
  this model, and neither is constructing it in `ImageModule::load`:
  `LoadFormat` only returns which loader is chosen.
- PNG encoding (`main.cpp:149`) and its ignored error code: external codec.
- Command-line parsing with TCLAP, its defaults and the `ArgException`
  handler (`main.cpp:25-49`, `151-153`): external library.
- Messages on stdout and stderr, and the clean-up at `clean_exit`
  (`main.cpp:155-158`): I/O and memory management.
- Floating point: values are reals.
  - Rounding and single precision are not modelled.
  - Infinities and NaN are modelled only where a division by zero
    decides a branch.
  - The `<cmath>` functions are uninterpreted fields of `Math`, and only the
    facts in `Lawful` are assumed of them. The exposure product
    `px *= exposure_mul` is the field `Math.fmul`, which `Lawful` makes the
    real product; `exp2`, which gives `exposure_mul`, stays uninterpreted.
- ColorRamp.StopValues: the stop positions `float(i) / float(5)` are exact
  fifths here, because decimal rounding is not modelled.
- ImageModules.LoadFormat: each element of the file name stands for one
  byte of the `std::string`, so `filename.size()` is the sequence length. A
  name holding multi-byte UTF-8 characters is measured in bytes by the
  source; the model reads such a name byte by byte, not character by
  character.
- ImageModules.Extension: the last four elements are the last four bytes of
  the name, for the same reason.
- DiffMain.Run: `int` overflow in `width_out * height * 4` and
  `y * width + x` is not modelled; dimensions are unbounded naturals.
- DiffMain.Run: the two buffers are required to be distinct arrays, each of
  `4 w h` values, as `LoadEXR` allocates them.
- DiffMain.ReadPixel: the addresses `px_rgb` into the input buffers become
  fresh three-element copies, read after the exposure step. The conversion
  only reads them, so aliasing is not modelled.
- XyzImages.XyzImage.constructor: `3 * width * height` in `size_t` does not
  wrap here.
- `XYZImage::data_xyz` (`XYZImage.hpp:59-61`), which returns the address of
  the buffer: the buffer is a field of the class, and this aliasing is not
  modelled.
- The abstract `ColorMap` interface (`src/ColorMap/ColorMap.hpp`) is the
  `ColorMapModules.ColorMap` datatype with one variant per implementation.
  Dispatch through virtual calls is not modelled.
- The palette data of `ColorMapData.hpp` are abstract sequences of at least
  768 values (`TabulatedColorMaps.Palettes`); the published tables are not
  reproduced.
- TabulatedColorMaps.TabulatedColorMap.GetRgbValue: requires the truncated
  index to name a triple inside the table. The source reads outside
  `_array` otherwise, which is undefined behaviour.
  `TabulatedColorMaps.LookupInBounds` shows the requirement holds for every
  v in [0, 1] on a palette.
- TabulatedColorMaps.TabulatedColorMap.GetRgbValueIn: requires `lo != hi`.
  In the source, the infinite or NaN quotient makes the integer conversion
  undefined.
- ColorTools.DeltaE2000: the final `std::sqrt` and the other library calls
  are uninterpreted, so the value of the difference is not computed.
  Symmetry, the zero self-difference and the bounds of every term are
  proved.
