# Image filter engine: a Dafny model

This project models the filter engine of a small photo-filter web
application (`main.py`). An uploaded photo is decoded into an RGB raster:
a width x height grid of (r, g, b) pixels, each channel an integer 0..255.
The request handler `/api/apply-filter` picks one of thirteen filters by
name, applies it to the raster and returns the result. An unknown name
returns the image unchanged.

What is modelled:

- **Raster** (`raster.dfy`). The pixel datatype `RGB` and the immutable
  `Image` value. The mutable pixel buffer is an `array2<RGB>` indexed as
  `[x, y]`, like Pillow's pixel access object. `Snapshot` reads a buffer
  as an `Image`. `Trunc` is Python's `int()` on a float, truncating toward
  zero. `Cap255` is the handwritten `min(255, …)`. `Clip8` is the value an
  8-bit channel holds after an integer is written to it.
- **Params** (`params.dfy`). The clamp `max(lo, min(hi, x))` and the four
  vintage-film parameters with their ranges: warmth and contrast in
  [0.6, 1.4], grain and vignette in [0, 3].
- **ColorMatrix** (`color_matrix.dfy`). `invert` and `sepia` are in-place
  nested loops over a converted copy of the image, each proved equal to a
  pure image function. `grayscale` goes through one luminance channel.
- **Film** (`film.dfy`). The `VintageFilmFilter` class. Its constructor
  clamps the parameters. Step 1 (warmth) writes a fresh buffer. Steps 2
  (grain) and 3 (vignette) rewrite that buffer in place. Steps 4 and 5
  call the image library. Each step is proved equal to a pure image
  function, and the properties are lemmas about those functions.
- **Pillow** (`pillow.dfy`). The library calls the engine delegates to:
  the luminance of `convert("L")`, the fixed convolution kernels,
  brightness and contrast enhancement, and Gaussian blur. They are passed
  in as a `Library` value. The only assumption about them is
  `Library.Valid`: each maps a valid image to a valid image of the same
  size.
- **Registry** (`registry.dfy`). The ordered 13-entry `FILTERS` table, the
  `if/elif` chain as `Lookup`, the specification `FilterImage` of the
  handler's result, and the method `ApplyFilter` that runs the branches
  over the buffers and is proved to compute `FilterImage`.

Inputs that the source takes from elsewhere become parameters:

- `draw(x, y)` is the value `random.randint(-30, 30)` returns at pixel
  (x, y).
- `distance(x, y)` is the pixel's Euclidean distance from the image
  centre divided by the largest such distance. It therefore lies in
  [0, 1].

Two facts about the code that are easy to miss:

- Sepia turns white into (255, 255, 238): `int` truncates
  0.937 * 255 = 238.935.
- The vintage film filter keeps the image size, like every other filter.

## Model

| member | source | states |
|---|---|---|
| Params.Clamp | main.py:59-62 | the clamped value lies in [lo, hi]; a value already in range is returned unchanged; values below or above saturate at lo or hi |
| Params.ClampFilm | main.py:272-275 | all four clamped parameters lie within their ranges; parameters already in range are unchanged; each out-of-range parameter saturates at the bound it crossed |
| Params.ClampIdempotent | main.py:59-62 | clamping twice is the same as clamping once |
| Params.DoubleClampIsSingle | main.py:272-284 | the handler's clamp followed by the constructor's clamp equals a single clamp |
| Film.VintageFilmFilter.constructor | main.py:57-62 | the filter's parameters are the clamped constructor arguments, so every parameter is within range |
| Film.VintageFilmFilter.ApplyWarmth | main.py:84-98 | step 1 returns a fresh buffer of the source's width and height holding the warmed source image; the source buffer is not in its frame and so cannot change |
| Film.Warmed | main.py:91-98 | the warmth stage keeps width and height |
| Film.WarmChannelInRange | main.py:95-97 | a non-negative channel scaled by a non-negative gain, truncated and capped, is in 0..255 |
| Film.WarmPixelInRange | main.py:95-97 | for any positive warmth, and so for all of [0.6, 1.4], a valid pixel stays valid |
| Film.WarmedValid | main.py:91-98 | the warmth stage maps a valid image to a valid image |
| Film.WarmChannelMonotone | main.py:95-97 | a larger gain never gives a smaller channel |
| Film.WarmthMonotone | main.py:95-97 | raising warmth never lowers red or green and never raises blue |
| Film.WarmShiftsTowardRed | main.py:95-97 | from warmth 1.0 up, red and green never drop and blue never rises relative to the input pixel |
| Film.VintageFilmFilter.AddGrain | main.py:102-110 | step 2 rewrites the buffer in place into the grained image of its old contents, using one draw per pixel scaled by grain |
| Film.VintageFilmFilter.AddGrainRow | main.py:103-110 | one row of step 2: each pixel of row y is grained and every other row is untouched |
| Film.Grained | main.py:102-110 | the grain stage keeps width and height |
| Film.GrainPixelInRange | main.py:107-109 | whatever the noise, each grained channel is in 0..255 |
| Film.GrainedValid | main.py:102-110 | the grain stage always yields a valid image |
| Film.GrainOffIsIdentity | main.py:106-110 | with grain 0 the noise is 0 and a valid image is unchanged, whatever the draws |
| Film.GrainSameNoise | main.py:106-109 | the three channels of a pixel receive the same noise: where no channel saturates, r, g and b all move by exactly the floor of draw * grain |
| Film.GrainBounded | main.py:106-109 | a draw in [-30, 30] raises a channel by at most 30 * grain and lowers it by less than 30 * grain + 1 (the 1 is the truncation) |
| Film.VintageFilmFilter.ApplyVignette | main.py:114-130 | step 3 rewrites the buffer in place into the vignetted image of its old contents |
| Film.VintageFilmFilter.ApplyVignetteRow | main.py:118-130 | one row of step 3: each pixel of row y is scaled by its factor and every other row is untouched |
| Film.Vignetted | main.py:117-130 | the vignette stage keeps width and height |
| Film.VignettedValid | main.py:126-130 | the vignette stage always yields a valid image |
| Film.VignetteOffIsIdentity | main.py:125-130 | with vignette 0 the factor is exactly 1 and a valid image is unchanged |
| Film.VignetteDarkens | main.py:125-130 | a factor of at most 1, negative ones included, never brightens a channel, and the result stays at or above 0 |
| Film.VignetteChannelMonotone | main.py:127-129 | a larger factor never gives a darker channel |
| Film.VignetteFarCornerNegative | main.py:125 | at the far corner (distance 1) the vignette factor is negative exactly when the strength exceeds 1/0.7 |
| Film.VignetteCentreBrighter | main.py:120-129 | for non-negative strength, the same colour nearer the centre ends at least as bright as farther out |
| Film.FilmStages | main.py:89-130 | steps 1 to 3 in sequence keep width and height |
| Film.FilmStagesValid | main.py:89-130 | steps 1 to 3 in sequence always yield a valid image |
| Film.VintageFilmValid | main.py:132-142 | with a valid library, the whole filter gives a valid image of the input's size |
| Film.NeutralFilmIsWarmthOnly | main.py:100-130 | with grain 0 and vignette 0, steps 1 to 3 reduce to the warmth stage alone |
| Film.NoGrainIsDeterministic | main.py:100-142 | with grain 0 the filter's output does not depend on the random draws |
| Film.VintageFilmFilter.Filter | main.py:64-142 | the filter's output is steps 1 to 3 on the input, then contrast 0.8 * contrast, then a Gaussian blur of radius 0.5 * (2 - contrast); the input buffer is left as it was |
| ColorMatrix.Invert | main.py:310-322 | inversion keeps width and height |
| ColorMatrix.InvertPixelInRange | main.py:320 | an inverted valid pixel is valid, and each channel adds up to 255 with the original |
| ColorMatrix.InvertValid | main.py:316-322 | inversion maps a valid image to a valid image |
| ColorMatrix.InvertInvolution | main.py:316-322 | inverting twice restores every pixel exactly |
| ColorMatrix.InvertInPlace | main.py:314-320 | the in-place pass leaves the buffer holding the inverted image of its old contents |
| ColorMatrix.Sepia | main.py:323-344 | sepia keeps width and height |
| ColorMatrix.SepiaThousandths | main.py:333-335 | for non-negative channels, each truncated sepia sum equals the integer division of the thousandths-weighted sum by 1000, capped at 255 |
| ColorMatrix.TruncThousandths | main.py:333-335 | truncating n / 1000 gives the integer quotient of n by 1000 |
| ColorMatrix.SepiaPixelInRange | main.py:333-340 | every sepia channel of a valid pixel is in 0..255 |
| ColorMatrix.SepiaValid | main.py:329-342 | sepia maps a valid image to a valid image |
| ColorMatrix.SepiaBlack | main.py:333-340 | black maps to black |
| ColorMatrix.SepiaWhite | main.py:333-340 | white maps to (255, 255, 238), because `int` truncates |
| ColorMatrix.SepiaInPlace | main.py:327-342 | the in-place pass leaves the buffer holding the sepia image of its old contents |
| ColorMatrix.Grayscale | main.py:285-287 | grayscale keeps width and height |
| ColorMatrix.GrayscaleIsGray | main.py:285-287 | grayscale output has r = g = b at every pixel, and it is valid when luminance is 8-bit |
| Raster.Trunc | main.py:95 | `int(x)`: for x >= 0 the greatest integer at most x, for x < 0 the least integer at least x |
| Raster.Cap255 | main.py:338-340 | `min(255, n)` is at most 255, at most n, and is one of the two |
| Raster.Clip8 | main.py:130 | the stored channel is in 0..255, equals the written value when that is in range, and saturates at 0 or 255 otherwise |
| Raster.CopyBuffer | main.py:312 | `convert('RGB')` gives a fresh buffer holding the same image |
| Registry.Position | main.py:145-159 | each filter's identifier sits at a fixed row of `FILTERS` |
| Registry.Lookup | main.py:270-347 | a selected filter is one whose name is the requested name |
| Registry.LookupKey | main.py:270-344 | each filter's name selects exactly that filter |
| Registry.FiltersDistinct | main.py:145-159 | `FILTERS` has exactly 13 entries with pairwise distinct identifiers |
| Registry.FiltersAreDispatched | main.py:145-159 | a name is recognised by the dispatcher if and only if it is an identifier of `FILTERS` |
| Registry.UnknownFilterIsIdentity | main.py:345-347 | a name outside `FILTERS` returns the image pixel-identical |
| Registry.FilterKeepsSize | main.py:269-347 | with a valid library, every filter, known or not, maps a valid image to a valid image of the same width and height |
| Registry.GrayscaleFilterIsGray | main.py:285-287 | the `grayscale` branch yields r = g = b at every pixel |
| Registry.InvertFilterTwice | main.py:310-322 | two requests for `invert`, each applied to the previous result, restore the image |
| Registry.VintageClampsOnce | main.py:270-284 | the `vintage_film` branch runs the filter on the once-clamped form parameters: warmth 5.0 behaves as 1.4, grain -1.0 as 0 |
| Registry.ApplyVintageFilm | main.py:270-284 | the `vintage_film` branch computes the filter on the form parameters clamped by the handler and again by the constructor |
| Registry.ApplyFilter | main.py:269-347 | the handler's branch chain, over the decoded buffer, computes exactly `FilterImage` and leaves the decoded buffer unchanged |

## Left out

- HTTP and session plumbing is not modelled because it is framework glue: the FastAPI routes `home`, `upload_image`, `get_filter_page` and `download_image`, the `IMAGE_STORE` dictionary and its "Image not found" path, the Jinja templates and `uvicorn.run`.
- Base64, JPEG encoding and decoding, `Image.open` and `thumbnail` are not modelled because they are lossy codec and library calls. The model starts from the decoded RGB buffer. Image modes other than RGB are not modelled.
- The Pillow operations are opaque parameters (`Pillow.Library`), because their numerics live inside that library and are not shown. This covers the `BLUR` … `SMOOTH` kernels, brightness and contrast enhancement at 1.5, the luminance of `convert("L")`, and vintage steps 4 and 5 (contrast `0.8 * contrast`, `GaussianBlur(0.5 * (2 - contrast))`). Only their size and 8-bit validity are assumed.
- `random.randint` becomes the integer input `draw`. The lemmas that need its range assume [-30, 30]. The draw order and the fact that every call draws afresh are not modelled.
- A fractional channel is truncated when stored. In the source the grain noise `randint * grain` is a float, so `max(0, min(255, r + noise))` can be non-integral. The model stores it truncated, the way `int()` would. Whether Pillow truncates or rejects a float channel is Pillow behaviour and is not part of this model.
- Negative vignette products are clipped. `int(c * factor)` is negative wherever the factor `1 - d * 0.7 * vignette` is negative, because the source does not clamp. At the far corner (d = 1) that happens for every vignette above 1/0.7, about 1.43, which is more than half of the [0, 3] range (`Film.VignetteFarCornerNegative`). The model stores it through `Clip8`, saturating at 0 as an 8-bit Pillow pixel write does. That saturation is an assumption about Pillow, not code shown.
- The `sqrt` distance and `max_distance` computation is not modelled. It becomes the input `distance`. No lemma assumes it is at most 1: `Film.VignetteCentreBrighter` needs only 0 <= near <= far.
- Python floats are modelled as exact reals. This is why sepia can be computed exactly in thousandths. NaN and infinities from `float()` of a form value are not modelled.
- `Film.VintageFilmFilter.Filter` reads its input buffer directly instead of first calling `image.convert('RGB')`, because the input is already RGB. How Pillow's `Image.filter` passes the image to a `BuiltinFilter` subclass is not modelled.
- The `print` logging in the handler is not modelled because it is output only.
- `static/js/app.js` is not modelled because it is browser UI: DOM events, drag and drop, the preview and form submission.
