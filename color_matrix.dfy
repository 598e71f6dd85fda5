/** The per-pixel colour transforms of the request handler: invert and sepia,
    which rewrite an RGB buffer in place, and grayscale, which goes through
    a single luminance channel. */
module ColorMatrix {
  import opened Raster

  // ---------------------------------------------------------------- invert

  /** `(255 - r, 255 - g, 255 - b)`. */
  function InvertPixel(p: RGB): RGB {
    RGB(255 - p.r, 255 - p.g, 255 - p.b)
  }

  function Invert(img: Image): (out: Image)
    requires img.Shaped()
    ensures out.Shaped() && SameSize(out, img)
  {
    MapPixels(img, (x, y, p) => InvertPixel(p))
  }

  /** Each channel of an inverted valid pixel is again 0..255, and adds up
      to 255 with the original. */
  lemma InvertPixelInRange(p: RGB)
    requires IsPixel(p)
    ensures IsPixel(InvertPixel(p))
    ensures InvertPixel(p).r + p.r == 255 && InvertPixel(p).g + p.g == 255 && InvertPixel(p).b + p.b == 255
  {
  }

  /** Inverting a valid image gives a valid image. */
  lemma InvertValid(img: Image)
    requires img.Valid()
    ensures Invert(img).Valid()
  {
    forall x, y | 0 <= x < img.width && 0 <= y < img.height
      ensures IsPixel(Invert(img).rows[y][x])
    {
      InvertPixelInRange(img.rows[y][x]);
    }
  }

  /** Inverting twice restores every pixel exactly. */
  lemma InvertInvolution(img: Image)
    requires img.Shaped()
    ensures Invert(Invert(img)) == img
  {
    SamePixels(Invert(Invert(img)), img);
  }

  /** The `invert` branch: one read-then-write pass over the buffer. */
  method InvertInPlace(pixels: array2<RGB>)
    modifies pixels
    ensures Snapshot(pixels) == Invert(old(Snapshot(pixels)))
  {
    ghost var before := Snapshot(pixels);
    var width, height := pixels.Length0, pixels.Length1;
    var y := 0;
    while y < height
      invariant 0 <= y <= height
      invariant forall i, j :: 0 <= i < width && 0 <= j < y ==> pixels[i, j] == InvertPixel(old(pixels[i, j]))
      invariant forall i, j :: 0 <= i < width && y <= j < height ==> pixels[i, j] == old(pixels[i, j])
    {
      var x := 0;
      while x < width
        invariant 0 <= x <= width
        invariant forall i, j :: 0 <= i < width && 0 <= j < y ==> pixels[i, j] == InvertPixel(old(pixels[i, j]))
        invariant forall i :: 0 <= i < x ==> pixels[i, y] == InvertPixel(old(pixels[i, y]))
        invariant forall i, j :: 0 <= i < width && y <= j < height && (j > y || i >= x) ==> pixels[i, j] == old(pixels[i, j])
      {
        var p := pixels[x, y];
        pixels[x, y] := RGB(255 - p.r, 255 - p.g, 255 - p.b);
        x := x + 1;
      }
      y := y + 1;
    }
    SamePixels(Snapshot(pixels), Invert(before));
  }

  // ----------------------------------------------------------------- sepia

  /** The standard sepia matrix, each channel truncated by `int` and then
      capped at 255. */
  function SepiaPixel(p: RGB): RGB {
    RGB(Cap255(Trunc(0.393 * (p.r as real) + 0.769 * (p.g as real) + 0.189 * (p.b as real))),
        Cap255(Trunc(0.349 * (p.r as real) + 0.686 * (p.g as real) + 0.168 * (p.b as real))),
        Cap255(Trunc(0.272 * (p.r as real) + 0.534 * (p.g as real) + 0.131 * (p.b as real))))
  }

  function Sepia(img: Image): (out: Image)
    requires img.Shaped()
    ensures out.Shaped() && SameSize(out, img)
  {
    MapPixels(img, (x, y, p) => SepiaPixel(p))
  }

  /** The coefficients are exact thousandths, so for non-negative channels
      the truncated products are integer divisions by 1000. */
  lemma SepiaThousandths(p: RGB)
    requires 0 <= p.r && 0 <= p.g && 0 <= p.b
    ensures SepiaPixel(p) == RGB(Cap255((393 * p.r + 769 * p.g + 189 * p.b) / 1000),
                                 Cap255((349 * p.r + 686 * p.g + 168 * p.b) / 1000),
                                 Cap255((272 * p.r + 534 * p.g + 131 * p.b) / 1000))
  {
    TruncThousandths(393 * p.r + 769 * p.g + 189 * p.b);
    TruncThousandths(349 * p.r + 686 * p.g + 168 * p.b);
    TruncThousandths(272 * p.r + 534 * p.g + 131 * p.b);
  }

  lemma TruncThousandths(n: int)
    requires 0 <= n
    ensures Trunc(n as real / 1000.0) == n / 1000
  {
    var q, m := n / 1000, n % 1000;
    assert n as real / 1000.0 == q as real + m as real / 1000.0;
  }

  /** Every sepia channel of a valid pixel is 0..255. */
  lemma SepiaPixelInRange(p: RGB)
    requires IsPixel(p)
    ensures IsPixel(SepiaPixel(p))
  {
  }

  lemma SepiaValid(img: Image)
    requires img.Valid()
    ensures Sepia(img).Valid()
  {
    forall x, y | 0 <= x < img.width && 0 <= y < img.height
      ensures IsPixel(Sepia(img).rows[y][x])
    {
      SepiaPixelInRange(img.rows[y][x]);
    }
  }

  /** Black stays black. */
  lemma SepiaBlack()
    ensures SepiaPixel(RGB(0, 0, 0)) == RGB(0, 0, 0)
  {
  }

  /** White becomes (255, 255, 238): 0.937 * 255 is 238.935, which `int`
      truncates rather than rounds. */
  lemma SepiaWhite()
    ensures SepiaPixel(RGB(255, 255, 255)) == RGB(255, 255, 238)
  {
    SepiaThousandths(RGB(255, 255, 255));
  }

  /** The `sepia` branch: one read-then-write pass over the buffer. */
  method SepiaInPlace(pixels: array2<RGB>)
    modifies pixels
    ensures Snapshot(pixels) == Sepia(old(Snapshot(pixels)))
  {
    ghost var before := Snapshot(pixels);
    var width, height := pixels.Length0, pixels.Length1;
    var py := 0;
    while py < height
      invariant 0 <= py <= height
      invariant forall i, j :: 0 <= i < width && 0 <= j < py ==> pixels[i, j] == SepiaPixel(old(pixels[i, j]))
      invariant forall i, j :: 0 <= i < width && py <= j < height ==> pixels[i, j] == old(pixels[i, j])
    {
      var px := 0;
      while px < width
        invariant 0 <= px <= width
        invariant forall i, j :: 0 <= i < width && 0 <= j < py ==> pixels[i, j] == SepiaPixel(old(pixels[i, j]))
        invariant forall i :: 0 <= i < px ==> pixels[i, py] == SepiaPixel(old(pixels[i, py]))
        invariant forall i, j :: 0 <= i < width && py <= j < height && (j > py || i >= px) ==> pixels[i, j] == old(pixels[i, j])
      {
        var p := pixels[px, py];
        pixels[px, py] := SepiaPixel(p);
        px := px + 1;
      }
      py := py + 1;
    }
    SamePixels(Snapshot(pixels), Sepia(before));
  }

  // ------------------------------------------------------------- grayscale

  /** `convert("L").convert("RGB")`: one luminance value copied to all three
      channels. The luminance weights are Pillow's and are given as `luma`. */
  function GrayPixel(p: RGB, luma: RGB -> int): RGB {
    var l := luma(p);
    RGB(l, l, l)
  }

  function Grayscale(img: Image, luma: RGB -> int): (out: Image)
    requires img.Shaped()
    ensures out.Shaped() && SameSize(out, img)
  {
    MapPixels(img, (x, y, p) => GrayPixel(p, luma))
  }

  /** Grayscale output has r = g = b at every pixel, and it is valid when the
      luminance of a valid pixel is an 8-bit value. */
  lemma GrayscaleIsGray(img: Image, luma: RGB -> int)
    requires img.Valid()
    requires forall p :: IsPixel(p) ==> IsChannel(luma(p))
    ensures Grayscale(img, luma).Valid()
    ensures forall x, y :: 0 <= x < img.width && 0 <= y < img.height ==>
              var q := Grayscale(img, luma).rows[y][x]; q.r == q.g == q.b
  {
    forall x, y | 0 <= x < img.width && 0 <= y < img.height
      ensures IsPixel(Grayscale(img, luma).rows[y][x])
    {
      assert IsPixel(img.rows[y][x]);
    }
  }
}
