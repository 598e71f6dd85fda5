/** The RGB raster every filter reads and writes: 8-bit channels, a pixel
    grid as an immutable value, and the mutable pixel buffer (`array2`,
    indexed `[x, y]` like Pillow's pixel access object). */
module Raster {

  /** One pixel; each channel is 0..255 in a valid image. */
  datatype RGB = RGB(r: int, g: int, b: int)

  predicate IsChannel(c: int) { 0 <= c <= 255 }

  predicate IsPixel(p: RGB) { IsChannel(p.r) && IsChannel(p.g) && IsChannel(p.b) }

  /** A width x height image; `rows[y][x]` is the pixel at column x of row y. */
  datatype Image = Image(width: nat, height: nat, rows: seq<seq<RGB>>) {

    /** The rows really form a width x height grid. */
    predicate Shaped() {
      |rows| == height && forall y :: 0 <= y < height ==> |rows[y]| == width
    }

    /** A grid whose every channel is an 8-bit value. */
    predicate Valid() {
      Shaped() && forall y, x :: 0 <= y < height && 0 <= x < width ==> IsPixel(rows[y][x])
    }
  }

  /** Two images of the same width and height. */
  predicate SameSize(a: Image, b: Image) {
    a.width == b.width && a.height == b.height
  }

  /** Images are equal when their grids agree pixel by pixel. */
  lemma SamePixels(a: Image, b: Image)
    requires a.Shaped() && b.Shaped() && SameSize(a, b)
    requires forall x, y :: 0 <= x < a.width && 0 <= y < a.height ==> a.rows[y][x] == b.rows[y][x]
    ensures a == b
  {
    forall y | 0 <= y < a.height
      ensures a.rows[y] == b.rows[y]
    {
      assert forall x :: 0 <= x < a.width ==> a.rows[y][x] == b.rows[y][x];
    }
  }

  /** The image a pixel buffer currently holds (Pillow's `pixels[x, y]`). */
  function Snapshot(a: array2<RGB>): (img: Image)
    reads a
    ensures img.Shaped() && img.width == a.Length0 && img.height == a.Length1
    ensures forall x, y :: 0 <= x < a.Length0 && 0 <= y < a.Length1 ==> img.rows[y][x] == a[x, y]
  {
    Image(a.Length0, a.Length1,
          seq(a.Length1, y requires 0 <= y < a.Length1 reads a =>
              seq(a.Length0, x requires 0 <= x < a.Length0 reads a => a[x, y])))
  }

  /** The image obtained by rewriting every pixel with `f(x, y, pixel)`. */
  function MapPixels(img: Image, f: (int, int, RGB) -> RGB): (out: Image)
    requires img.Shaped()
    ensures out.Shaped() && SameSize(out, img)
    ensures forall x, y :: 0 <= x < img.width && 0 <= y < img.height ==>
              out.rows[y][x] == f(x, y, img.rows[y][x])
  {
    Image(img.width, img.height,
          seq(img.height, y requires 0 <= y < img.height =>
              seq(img.width, x requires 0 <= x < img.width => f(x, y, img.rows[y][x]))))
  }

  /** Python's `int(x)` on a float: truncation toward zero. */
  function Trunc(x: real): (n: int)
    ensures 0.0 <= x ==> 0 <= n && n as real <= x < n as real + 1.0
    ensures x < 0.0 ==> n <= 0 && n as real - 1.0 < x <= n as real
  {
    if 0.0 <= x then x.Floor else -((-x).Floor)
  }

  /** `min(255, n)`: the upper cap the filters apply by hand. */
  function Cap255(n: int): (c: int)
    ensures c <= 255 && c <= n
    ensures c == n || c == 255
  {
    if n < 255 then n else 255
  }

  /** The value an 8-bit channel of the pixel buffer holds after `n` is
      written to it: out-of-range integers saturate at 0 or 255. */
  function Clip8(n: int): (c: int)
    ensures IsChannel(c)
    ensures IsChannel(n) ==> c == n
    ensures n < 0 ==> c == 0
    ensures 255 < n ==> c == 255
  {
    if n < 0 then 0 else if n > 255 then 255 else n
  }

  /** `img.convert('RGB')` on an image that already is RGB: a fresh copy. */
  method CopyBuffer(a: array2<RGB>) returns (c: array2<RGB>)
    ensures fresh(c)
    ensures Snapshot(c) == Snapshot(a)
  {
    c := new RGB[a.Length0, a.Length1];
    var y := 0;
    while y < a.Length1
      invariant 0 <= y <= a.Length1
      invariant forall i, j :: 0 <= i < a.Length0 && 0 <= j < y ==> c[i, j] == a[i, j]
    {
      var x := 0;
      while x < a.Length0
        invariant 0 <= x <= a.Length0
        invariant forall i, j :: 0 <= i < a.Length0 && 0 <= j < y ==> c[i, j] == a[i, j]
        invariant forall i :: 0 <= i < x ==> c[i, y] == a[i, y]
      {
        c[x, y] := a[x, y];
        x := x + 1;
      }
      y := y + 1;
    }
    SamePixels(Snapshot(c), Snapshot(a));
  }
}
