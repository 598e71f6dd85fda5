/** The vintage film filter: three hand-written pixel stages (warmth, grain,
    vignette) that run over an RGB buffer, followed by two library stages
    (contrast enhancement and a Gaussian soft focus).

    The random grain draw and the normalised distance of each pixel from the
    image centre are inputs: `draw(x, y)` stands for `random.randint(-30, 30)`
    at pixel (x, y), `distance(x, y)` for the normalised Euclidean distance,
    which lies in [0, 1]. */
module Film {
  import opened Raster
  import opened Params
  import opened Pillow

  // ------------------------------------------------------- arithmetic help

  lemma ScaleNonNegative(c: int, s: real)
    requires 0 <= c && 0.0 <= s
    ensures 0.0 <= c as real * s
  {
  }

  lemma ScaleMonotone(c: int, s: real, t: real)
    requires 0 <= c && s <= t
    ensures c as real * s <= c as real * t
  {
    ScaleNonNegative(c, t - s);
  }

  /** Truncation of non-negative values is monotone. */
  lemma TruncMonotone(a: real, b: real)
    requires 0.0 <= a <= b
    ensures Trunc(a) <= Trunc(b)
  {
  }

  // ------------------------------------------------------ step 1: warmth

  /** `min(255, int(c * scale))`. */
  function WarmChannel(c: int, scale: real): int {
    Cap255(Trunc(c as real * scale))
  }

  /** Red gains 1.2 * warmth, green 1.1 * warmth, blue 0.8 / warmth. */
  function WarmPixel(p: RGB, warmth: real): RGB
    requires 0.0 < warmth
  {
    RGB(WarmChannel(p.r, 1.2 * warmth), WarmChannel(p.g, 1.1 * warmth), WarmChannel(p.b, 0.8 / warmth))
  }

  function Warmed(img: Image, warmth: real): (out: Image)
    requires img.Shaped() && 0.0 < warmth
    ensures out.Shaped() && SameSize(out, img)
  {
    MapPixels(img, (x, y, p) => WarmPixel(p, warmth))
  }

  /** A non-negative channel scaled by a non-negative gain stays 0..255. */
  lemma WarmChannelInRange(c: int, scale: real)
    requires 0 <= c && 0.0 <= scale
    ensures IsChannel(WarmChannel(c, scale))
  {
    ScaleNonNegative(c, scale);
  }

  /** For any positive warmth, and so for every warmth in [0.6, 1.4], the
      warmth stage maps a valid pixel to a valid pixel. */
  lemma WarmPixelInRange(p: RGB, warmth: real)
    requires IsPixel(p) && 0.0 < warmth
    ensures IsPixel(WarmPixel(p, warmth))
  {
    WarmChannelInRange(p.r, 1.2 * warmth);
    WarmChannelInRange(p.g, 1.1 * warmth);
    WarmChannelInRange(p.b, 0.8 / warmth);
  }

  lemma WarmedValid(img: Image, warmth: real)
    requires img.Valid() && 0.0 < warmth
    ensures Warmed(img, warmth).Valid()
  {
    forall x, y | 0 <= x < img.width && 0 <= y < img.height
      ensures IsPixel(Warmed(img, warmth).rows[y][x])
    {
      WarmPixelInRange(img.rows[y][x], warmth);
    }
  }

  /** A larger gain never gives a smaller channel. */
  lemma WarmChannelMonotone(c: int, s: real, t: real)
    requires 0 <= c && 0.0 <= s <= t
    ensures WarmChannel(c, s) <= WarmChannel(c, t)
  {
    ScaleNonNegative(c, s);
    ScaleMonotone(c, s, t);
    TruncMonotone(c as real * s, c as real * t);
  }

  /** Raising warmth never lowers red or green and never raises blue. */
  lemma WarmthMonotone(p: RGB, w1: real, w2: real)
    requires IsPixel(p) && 0.0 < w1 <= w2
    ensures WarmPixel(p, w1).r <= WarmPixel(p, w2).r
    ensures WarmPixel(p, w1).g <= WarmPixel(p, w2).g
    ensures WarmPixel(p, w1).b >= WarmPixel(p, w2).b
  {
    WarmChannelMonotone(p.r, 1.2 * w1, 1.2 * w2);
    WarmChannelMonotone(p.g, 1.1 * w1, 1.1 * w2);
    assert 0.8 / w2 <= 0.8 / w1 by {
      assert 0.8 / w2 * w2 == 0.8 == 0.8 / w1 * w1;
      ScaleBelow(0.8 / w1, w1, w2);
    }
    WarmChannelMonotone(p.b, 0.8 / w2, 0.8 / w1);
  }

  lemma ScaleBelow(q: real, a: real, b: real)
    requires 0.0 <= q && a <= b
    ensures q * a <= q * b
  {
    assert q * b - q * a == q * (b - a);
  }

  /** From neutral warmth up, red and green are never lowered and blue is
      never raised: the image only gets warmer. */
  lemma WarmShiftsTowardRed(p: RGB, warmth: real)
    requires IsPixel(p) && 1.0 <= warmth
    ensures WarmPixel(p, warmth).r >= p.r
    ensures WarmPixel(p, warmth).g >= p.g
    ensures WarmPixel(p, warmth).b <= p.b
  {
    WarmChannelMonotone(p.r, 1.0, 1.2 * warmth);
    WarmChannelMonotone(p.g, 1.0, 1.1 * warmth);
    assert 0.8 / warmth <= 1.0 by {
      assert 0.8 / warmth * warmth == 0.8;
      ScaleBelow(0.8 / warmth, 1.0, warmth);
    }
    WarmChannelMonotone(p.b, 0.8 / warmth, 1.0);
    WarmChannelUnit(p.r);
    WarmChannelUnit(p.g);
    WarmChannelUnit(p.b);
  }

  lemma WarmChannelUnit(c: int)
    requires IsChannel(c)
    ensures WarmChannel(c, 1.0) == c
  {
  }

  // ------------------------------------------------------- step 2: grain

  /** `max(0, min(255, c + noise))`, stored as an integer channel. */
  function GrainChannel(c: int, noise: real): int {
    Trunc(Clamp(0.0, 255.0, c as real + noise))
  }

  /** One noise value, `draw * grain`, added to all three channels. */
  function GrainPixel(p: RGB, draw: int, grain: real): RGB {
    var noise := draw as real * grain;
    RGB(GrainChannel(p.r, noise), GrainChannel(p.g, noise), GrainChannel(p.b, noise))
  }

  function Grained(img: Image, draw: (int, int) -> int, grain: real): (out: Image)
    requires img.Shaped()
    ensures out.Shaped() && SameSize(out, img)
  {
    MapPixels(img, (x, y, p) => GrainPixel(p, draw(x, y), grain))
  }

  /** Whatever the noise, the grain stage yields channels in 0..255. */
  lemma GrainPixelInRange(p: RGB, draw: int, grain: real)
    ensures IsPixel(GrainPixel(p, draw, grain))
  {
  }

  lemma GrainedValid(img: Image, draw: (int, int) -> int, grain: real)
    requires img.Shaped()
    ensures Grained(img, draw, grain).Valid()
  {
    forall x, y | 0 <= x < img.width && 0 <= y < img.height
      ensures IsPixel(Grained(img, draw, grain).rows[y][x])
    {
      GrainPixelInRange(img.rows[y][x], draw(x, y), grain);
    }
  }

  /** With grain 0 the noise is 0 and a valid image is left unchanged. */
  lemma GrainOffIsIdentity(img: Image, draw: (int, int) -> int)
    requires img.Valid()
    ensures Grained(img, draw, 0.0) == img
  {
    forall x, y | 0 <= x < img.width && 0 <= y < img.height
      ensures Grained(img, draw, 0.0).rows[y][x] == img.rows[y][x]
    {
      GrainPixelOff(img.rows[y][x], draw(x, y));
    }
    SamePixels(Grained(img, draw, 0.0), img);
  }

  lemma GrainPixelOff(p: RGB, draw: int)
    requires IsPixel(p)
    ensures GrainPixel(p, draw, 0.0) == p
  {
    assert draw as real * 0.0 == 0.0;
  }

  /** Where no channel saturates, all three channels move by the same whole
      amount, the floor of the pixel's noise: grain is luminance noise, not
      per-channel colour noise. */
  lemma GrainSameNoise(p: RGB, draw: int, grain: real)
    requires IsPixel(p)
    requires var n := draw as real * grain;
      && 0.0 <= p.r as real + n <= 255.0
      && 0.0 <= p.g as real + n <= 255.0
      && 0.0 <= p.b as real + n <= 255.0
    ensures var q, shift := GrainPixel(p, draw, grain), (draw as real * grain).Floor;
      q.r - p.r == shift && q.g - p.g == shift && q.b - p.b == shift
  {
    var n := draw as real * grain;
    FloorShift(p.r, n);
    FloorShift(p.g, n);
    FloorShift(p.b, n);
  }

  lemma FloorShift(c: int, n: real)
    requires 0.0 <= c as real + n
    ensures Trunc(c as real + n) == c + n.Floor
  {
  }

  /** A draw in [-30, 30] moves a valid channel by at most 30 * grain upward
      and, with truncation, by less than 30 * grain + 1 downward. */
  lemma GrainBounded(c: int, draw: int, grain: real)
    requires IsChannel(c) && -30 <= draw <= 30 && 0.0 <= grain
    ensures var c' := GrainChannel(c, draw as real * grain) as real;
      c as real - 30.0 * grain - 1.0 < c' <= c as real + 30.0 * grain
  {
    ScaleNonNegative(30 - draw, grain);
    ScaleNonNegative(draw + 30, grain);
  }

  // ---------------------------------------------------- step 3: vignette

  /** `1 - distance * 0.7 * strength`; negative far out for strong vignettes. */
  function VignetteFactor(distance: real, strength: real): real {
    1.0 - distance * 0.7 * strength
  }

  /** At the far corner the factor is negative exactly when the strength
      exceeds 1/0.7, that is for most of the range [0, 3]. */
  lemma VignetteFarCornerNegative(strength: real)
    ensures VignetteFactor(1.0, strength) < 0.0 <==> 7.0 * strength > 10.0
  {
  }

  /** `int(c * factor)`, stored in an 8-bit channel. */
  function VignetteChannel(c: int, factor: real): int {
    Clip8(Trunc(c as real * factor))
  }

  function VignettePixel(p: RGB, distance: real, strength: real): RGB {
    var f := VignetteFactor(distance, strength);
    RGB(VignetteChannel(p.r, f), VignetteChannel(p.g, f), VignetteChannel(p.b, f))
  }

  function Vignetted(img: Image, distance: (int, int) -> real, strength: real): (out: Image)
    requires img.Shaped()
    ensures out.Shaped() && SameSize(out, img)
  {
    MapPixels(img, (x, y, p) => VignettePixel(p, distance(x, y), strength))
  }

  lemma VignettedValid(img: Image, distance: (int, int) -> real, strength: real)
    requires img.Shaped()
    ensures Vignetted(img, distance, strength).Valid()
  {
    forall x, y | 0 <= x < img.width && 0 <= y < img.height
      ensures IsPixel(Vignetted(img, distance, strength).rows[y][x])
    {
      var p := img.rows[y][x];
      assert Vignetted(img, distance, strength).rows[y][x] == VignettePixel(p, distance(x, y), strength);
    }
  }

  /** With strength 0 the factor is exactly 1 and a valid image is unchanged. */
  lemma VignetteOffIsIdentity(img: Image, distance: (int, int) -> real)
    requires img.Valid()
    ensures Vignetted(img, distance, 0.0) == img
  {
    forall x, y | 0 <= x < img.width && 0 <= y < img.height
      ensures Vignetted(img, distance, 0.0).rows[y][x] == img.rows[y][x]
    {
      VignettePixelOff(img.rows[y][x], distance(x, y));
    }
    SamePixels(Vignetted(img, distance, 0.0), img);
  }

  lemma VignettePixelOff(p: RGB, distance: real)
    requires IsPixel(p)
    ensures VignettePixel(p, distance, 0.0) == p
  {
    assert VignetteFactor(distance, 0.0) == 1.0;
  }

  /** A factor of at most 1 never brightens a channel. */
  lemma VignetteDarkens(c: int, factor: real)
    requires IsChannel(c) && factor <= 1.0
    ensures 0 <= VignetteChannel(c, factor) <= c
  {
    VignetteChannelMonotone(c, factor, 1.0);
    assert c as real * 1.0 == c as real;
  }

  /** For a non-negative strength, a pixel nearer the centre ends at least as
      bright as the same colour farther out. */
  lemma VignetteCentreBrighter(c: int, near: real, far: real, strength: real)
    requires IsChannel(c) && 0.0 <= near <= far && 0.0 <= strength
    ensures VignetteChannel(c, VignetteFactor(near, strength)) >= VignetteChannel(c, VignetteFactor(far, strength))
  {
    assert VignetteFactor(far, strength) <= VignetteFactor(near, strength) by {
      ScaleBelow(0.7 * strength, near, far);
      assert near * 0.7 * strength == 0.7 * strength * near;
      assert far * 0.7 * strength == 0.7 * strength * far;
    }
    VignetteChannelMonotone(c, VignetteFactor(far, strength), VignetteFactor(near, strength));
  }

  /** A larger factor never gives a darker channel. */
  lemma VignetteChannelMonotone(c: int, f1: real, f2: real)
    requires IsChannel(c) && f1 <= f2
    ensures VignetteChannel(c, f1) <= VignetteChannel(c, f2)
  {
    var v1, v2 := c as real * f1, c as real * f2;
    ScaleMonotone(c, f1, f2);
    if 0.0 <= v1 {
      TruncMonotone(v1, v2);
    }
  }

  // ------------------------------------------------------------ the filter

  /** Steps 1 to 3, each consuming the previous step's whole output. */
  function FilmStages(img: Image, p: FilmParams, draw: (int, int) -> int, distance: (int, int) -> real): (out: Image)
    requires img.Shaped() && 0.0 < p.warmth
    ensures out.Shaped() && SameSize(out, img)
  {
    Vignetted(Grained(Warmed(img, p.warmth), draw, p.grain), distance, p.vignette)
  }

  /** The whole filter: steps 1 to 3, then contrast `0.8 * contrast` and a
      Gaussian blur of radius `0.5 * (2 - contrast)`. */
  function VintageFilmImage(img: Image, p: FilmParams, draw: (int, int) -> int,
                            distance: (int, int) -> real, lib: Library): Image
    requires img.Shaped() && 0.0 < p.warmth
  {
    lib.gaussianBlur(0.5 * (2.0 - p.contrast), lib.contrast(0.8 * p.contrast, FilmStages(img, p, draw, distance)))
  }

  /** Every step keeps the size; steps 1 to 3 always give a valid image. */
  lemma FilmStagesValid(img: Image, p: FilmParams, draw: (int, int) -> int, distance: (int, int) -> real)
    requires img.Shaped() && 0.0 < p.warmth
    ensures FilmStages(img, p, draw, distance).Valid()
  {
    VignettedValid(Grained(Warmed(img, p.warmth), draw, p.grain), distance, p.vignette);
  }

  lemma VintageFilmValid(img: Image, p: FilmParams, draw: (int, int) -> int,
                         distance: (int, int) -> real, lib: Library)
    requires img.Shaped() && 0.0 < p.warmth && lib.Valid()
    ensures Keeps(img, VintageFilmImage(img, p, draw, distance, lib))
  {
    FilmStagesValid(img, p, draw, distance);
  }

  /** With grain and vignette off, steps 1 to 3 reduce to the warmth stage. */
  lemma NeutralFilmIsWarmthOnly(img: Image, p: FilmParams, draw: (int, int) -> int, distance: (int, int) -> real)
    requires img.Valid() && 0.0 < p.warmth && p.grain == 0.0 && p.vignette == 0.0
    ensures FilmStages(img, p, draw, distance) == Warmed(img, p.warmth)
  {
    var warm := Warmed(img, p.warmth);
    WarmedValid(img, p.warmth);
    GrainOffIsIdentity(warm, draw);
    VignetteOffIsIdentity(warm, distance);
  }

  /** With grain off the result does not depend on the random draws: the
      whole filter is deterministic. */
  lemma NoGrainIsDeterministic(img: Image, p: FilmParams, draw1: (int, int) -> int, draw2: (int, int) -> int,
                               distance: (int, int) -> real, lib: Library)
    requires img.Valid() && 0.0 < p.warmth && p.grain == 0.0
    ensures VintageFilmImage(img, p, draw1, distance, lib) == VintageFilmImage(img, p, draw2, distance, lib)
  {
    var warm := Warmed(img, p.warmth);
    WarmedValid(img, p.warmth);
    GrainOffIsIdentity(warm, draw1);
    GrainOffIsIdentity(warm, draw2);
  }

  /** `VintageFilmFilter`: the constructor clamps its parameters, `Filter`
      runs the pipeline over a pixel buffer. */
  class VintageFilmFilter {
    const warmth: real
    const grain: real
    const vignette: real
    const contrast: real

    constructor (warmth: real := 1.0, grain: real := 1.0, vignette: real := 1.0, contrast: real := 1.0)
      ensures Settings() == ClampFilm(FilmParams(warmth, grain, vignette, contrast))
      ensures Valid()
    {
      this.warmth := Clamp(WARMTH_MIN, WARMTH_MAX, warmth);
      this.grain := Clamp(GRAIN_MIN, GRAIN_MAX, grain);
      this.vignette := Clamp(VIGNETTE_MIN, VIGNETTE_MAX, vignette);
      this.contrast := Clamp(CONTRAST_MIN, CONTRAST_MAX, contrast);
    }

    function Settings(): FilmParams {
      FilmParams(warmth, grain, vignette, contrast)
    }

    /** What the constructor establishes: every parameter in range. */
    predicate Valid() {
      InRange(Settings())
    }

    /** Step 1: reads `source` only and writes a fresh result buffer. */
    method ApplyWarmth(source: array2<RGB>) returns (result: array2<RGB>)
      requires Valid()
      ensures fresh(result)
      ensures Snapshot(result) == Warmed(Snapshot(source), warmth)
    {
      var width, height := source.Length0, source.Length1;
      result := new RGB[width, height];
      var y := 0;
      while y < height
        invariant 0 <= y <= height
        invariant forall i, j :: 0 <= i < width && 0 <= j < y ==> result[i, j] == WarmPixel(source[i, j], warmth)
      {
        var x := 0;
        while x < width
          invariant 0 <= x <= width
          invariant forall i, j :: 0 <= i < width && 0 <= j < y ==> result[i, j] == WarmPixel(source[i, j], warmth)
          invariant forall i :: 0 <= i < x ==> result[i, y] == WarmPixel(source[i, y], warmth)
        {
          var p := source[x, y];
          var r := WarmChannel(p.r, 1.2 * warmth);
          var g := WarmChannel(p.g, 1.1 * warmth);
          var b := WarmChannel(p.b, 0.8 / warmth);
          result[x, y] := RGB(r, g, b);
          x := x + 1;
        }
        y := y + 1;
      }
      SamePixels(Snapshot(result), Warmed(Snapshot(source), warmth));
    }

    /** Step 2, in place: one draw per pixel, scaled by grain. */
    method AddGrain(pixels: array2<RGB>, draw: (int, int) -> int)
      modifies pixels
      ensures Snapshot(pixels) == Grained(old(Snapshot(pixels)), draw, grain)
    {
      ghost var before := Snapshot(pixels);
      var width, height := pixels.Length0, pixels.Length1;
      var y := 0;
      while y < height
        invariant 0 <= y <= height
        invariant forall i, j :: 0 <= i < width && 0 <= j < y ==> pixels[i, j] == GrainPixel(old(pixels[i, j]), draw(i, j), grain)
        invariant forall i, j :: 0 <= i < width && y <= j < height ==> pixels[i, j] == old(pixels[i, j])
      {
        AddGrainRow(pixels, y, draw);
        y := y + 1;
      }
      SamePixels(Snapshot(pixels), Grained(before, draw, grain));
    }

    /** The inner `for x` loop of step 2 over row `y`. */
    method AddGrainRow(pixels: array2<RGB>, y: int, draw: (int, int) -> int)
      requires 0 <= y < pixels.Length1
      modifies pixels
      ensures forall i :: 0 <= i < pixels.Length0 ==> pixels[i, y] == GrainPixel(old(pixels[i, y]), draw(i, y), grain)
      ensures forall i, j :: 0 <= i < pixels.Length0 && 0 <= j < pixels.Length1 && j != y ==> pixels[i, j] == old(pixels[i, j])
    {
      var x := 0;
      while x < pixels.Length0
        invariant 0 <= x <= pixels.Length0
        invariant forall i :: 0 <= i < x ==> pixels[i, y] == GrainPixel(old(pixels[i, y]), draw(i, y), grain)
        invariant forall i, j :: 0 <= i < pixels.Length0 && 0 <= j < pixels.Length1 && (j != y || i >= x) ==> pixels[i, j] == old(pixels[i, j])
      {
        var p := pixels[x, y];
        pixels[x, y] := GrainPixel(p, draw(x, y), grain);
        x := x + 1;
      }
    }

    /** Step 3, in place: every channel scaled by the pixel's factor. */
    method ApplyVignette(pixels: array2<RGB>, distance: (int, int) -> real)
      modifies pixels
      ensures Snapshot(pixels) == Vignetted(old(Snapshot(pixels)), distance, vignette)
    {
      ghost var before := Snapshot(pixels);
      var width, height := pixels.Length0, pixels.Length1;
      var y := 0;
      while y < height
        invariant 0 <= y <= height
        invariant forall i, j :: 0 <= i < width && 0 <= j < y ==> pixels[i, j] == VignettePixel(old(pixels[i, j]), distance(i, j), vignette)
        invariant forall i, j :: 0 <= i < width && y <= j < height ==> pixels[i, j] == old(pixels[i, j])
      {
        ApplyVignetteRow(pixels, y, distance);
        y := y + 1;
      }
      SamePixels(Snapshot(pixels), Vignetted(before, distance, vignette));
    }

    /** The inner `for x` loop of step 3 over row `y`. */
    method ApplyVignetteRow(pixels: array2<RGB>, y: int, distance: (int, int) -> real)
      requires 0 <= y < pixels.Length1
      modifies pixels
      ensures forall i :: 0 <= i < pixels.Length0 ==> pixels[i, y] == VignettePixel(old(pixels[i, y]), distance(i, y), vignette)
      ensures forall i, j :: 0 <= i < pixels.Length0 && 0 <= j < pixels.Length1 && j != y ==> pixels[i, j] == old(pixels[i, j])
    {
      var x := 0;
      while x < pixels.Length0
        invariant 0 <= x <= pixels.Length0
        invariant forall i :: 0 <= i < x ==> pixels[i, y] == VignettePixel(old(pixels[i, y]), distance(i, y), vignette)
        invariant forall i, j :: 0 <= i < pixels.Length0 && 0 <= j < pixels.Length1 && (j != y || i >= x) ==> pixels[i, j] == old(pixels[i, j])
      {
        var p := pixels[x, y];
        pixels[x, y] := VignettePixel(p, distance(x, y), vignette);
        x := x + 1;
      }
    }

    /** The whole filter over `image`, which it leaves untouched. */
    method Filter(image: array2<RGB>, draw: (int, int) -> int, distance: (int, int) -> real, lib: Library)
      returns (out: Image)
      requires Valid()
      ensures out == VintageFilmImage(Snapshot(image), Settings(), draw, distance, lib)
    {
      var resultPixels := ApplyWarmth(image);
      AddGrain(resultPixels, draw);
      ApplyVignette(resultPixels, distance);
      var enhanced := lib.contrast(0.8 * contrast, Snapshot(resultPixels));
      var blurRadius := 0.5 * (2.0 - contrast);
      out := lib.gaussianBlur(blurRadius, enhanced);
    }
  }
}
