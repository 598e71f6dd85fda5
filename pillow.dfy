/** The image-library operations the filter engine delegates to and whose
    numerics are not part of this model. They are passed in as a value, and
    the only thing assumed of them is `Library.Valid`: each returns a valid
    image of the size it was given. */
module Pillow {
  import opened Raster

  /** The fixed kernels of `ImageFilter` used by the request handler. */
  datatype Kernel = BLUR | CONTOUR | DETAIL | EDGE_ENHANCE | EMBOSS | SHARPEN | SMOOTH

  datatype Library = Library(
    /** The single channel of `convert("L")` for one pixel. */
    luma: RGB -> int,
    /** `img.filter(ImageFilter.<kernel>)`. */
    convolve: (Kernel, Image) -> Image,
    /** `ImageEnhance.Brightness(img).enhance(factor)`. */
    brightness: (real, Image) -> Image,
    /** `ImageEnhance.Contrast(img).enhance(factor)`. */
    contrast: (real, Image) -> Image,
    /** `img.filter(ImageFilter.GaussianBlur(radius=r))`. */
    gaussianBlur: (real, Image) -> Image)
  {
    /** Every operation maps a valid image to a valid image of the same size,
        and the luminance of a valid pixel is an 8-bit value. */
    ghost predicate Valid() {
      && (forall p :: IsPixel(p) ==> IsChannel(luma(p)))
      && (forall k: Kernel, img: Image :: img.Valid() ==> Keeps(img, convolve(k, img)))
      && (forall f: real, img: Image :: img.Valid() ==> Keeps(img, brightness(f, img)))
      && (forall f: real, img: Image :: img.Valid() ==> Keeps(img, contrast(f, img)))
      && (forall r: real, img: Image :: img.Valid() ==> Keeps(img, gaussianBlur(r, img)))
    }
  }

  /** `out` is a valid image of the size of `img`. */
  predicate Keeps(img: Image, out: Image) {
    out.Valid() && SameSize(out, img)
  }
}
