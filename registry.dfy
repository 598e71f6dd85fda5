/** The filter registry and dispatcher of the `/api/apply-filter` handler:
    the ordered `FILTERS` table shown in the filter picker, the `if/elif`
    chain that selects a filter by name, and the application of the selected
    filter to the decoded image. An unknown name selects no filter and the
    image comes back unchanged. */
module Registry {
  import opened Raster
  import opened Params
  import opened Pillow
  import ColorMatrix
  import Film

  datatype Option<T> = None | Some(value: T)

  /** The thirteen filters, as a closed set. */
  datatype FilterId =
    | Grayscale | Blur | Contour | Detail | EdgeEnhance | Emboss | Sharpen | Smooth
    | Brightness | Contrast | Invert | Sepia | VintageFilm

  /** `FILTERS`: identifier and label, in display (insertion) order. */
  const FILTERS: seq<(string, string)> := [
    ("grayscale", "Convert to grayscale"),
    ("blur", "Blur effect"),
    ("contour", "Contour effect"),
    ("detail", "Enhance details"),
    ("edge_enhance", "Edge enhancement"),
    ("emboss", "Emboss effect"),
    ("sharpen", "Sharpen image"),
    ("smooth", "Smooth image"),
    ("brightness", "Increase brightness"),
    ("contrast", "Increase contrast"),
    ("invert", "Invert colors"),
    ("sepia", "Sepia tone effect"),
    ("vintage_film", "Add film grain effect")
  ]

  /** The identifiers of `FILTERS`, in order. */
  function Keys(): (keys: seq<string>)
    ensures |keys| == |FILTERS|
    ensures forall i :: 0 <= i < |FILTERS| ==> keys[i] == FILTERS[i].0
  {
    seq(|FILTERS|, i requires 0 <= i < |FILTERS| => FILTERS[i].0)
  }

  /** The name under which the handler recognises each filter. */
  function Key(id: FilterId): string {
    match id
    case Grayscale => "grayscale"
    case Blur => "blur"
    case Contour => "contour"
    case Detail => "detail"
    case EdgeEnhance => "edge_enhance"
    case Emboss => "emboss"
    case Sharpen => "sharpen"
    case Smooth => "smooth"
    case Brightness => "brightness"
    case Contrast => "contrast"
    case Invert => "invert"
    case Sepia => "sepia"
    case VintageFilm => "vintage_film"
  }

  /** The `if/elif` chain over `selected_filter`, in the handler's order. */
  function Lookup(name: string): (id: Option<FilterId>)
    ensures id.Some? ==> Key(id.value) == name
  {
    if name == "vintage_film" then Some(VintageFilm)
    else if name == "grayscale" then Some(Grayscale)
    else if name == "blur" then Some(Blur)
    else if name == "contour" then Some(Contour)
    else if name == "detail" then Some(Detail)
    else if name == "edge_enhance" then Some(EdgeEnhance)
    else if name == "emboss" then Some(Emboss)
    else if name == "sharpen" then Some(Sharpen)
    else if name == "smooth" then Some(Smooth)
    else if name == "brightness" then Some(Brightness)
    else if name == "contrast" then Some(Contrast)
    else if name == "invert" then Some(Invert)
    else if name == "sepia" then Some(Sepia)
    else None
  }

  /** Each filter's name selects exactly that filter. */
  lemma LookupKey(id: FilterId)
    ensures Lookup(Key(id)) == Some(id)
  {
  }

  /** `FILTERS` has thirteen distinct identifiers. */
  lemma FiltersDistinct()
    ensures |FILTERS| == 13
    ensures forall i, j :: 0 <= i < j < |FILTERS| ==> Keys()[i] != Keys()[j]
  {
    var keys := Keys();
    forall i | 0 <= i < |FILTERS|
      ensures Lookup(keys[i]).Some? && Position(Lookup(keys[i]).value) == i
    {
    }
  }

  /** The names the dispatcher recognises are exactly the identifiers of
      `FILTERS`. */
  lemma FiltersAreDispatched(name: string)
    ensures Lookup(name).Some? <==> name in Keys()
  {
    if Lookup(name).Some? {
      var id := Lookup(name).value;
      assert name == Keys()[Position(id)];
    }
  }

  /** The row of `FILTERS` that holds a filter's name. */
  function Position(id: FilterId): (i: nat)
    ensures i < |FILTERS| && FILTERS[i].0 == Key(id)
  {
    match id
    case Grayscale => 0
    case Blur => 1
    case Contour => 2
    case Detail => 3
    case EdgeEnhance => 4
    case Emboss => 5
    case Sharpen => 6
    case Smooth => 7
    case Brightness => 8
    case Contrast => 9
    case Invert => 10
    case Sepia => 11
    case VintageFilm => 12
  }

  /** What the handler computes from the decoded image for `selected_filter`
      `name` and the vintage form parameters `form`. The `vintage_film`
      branch clamps `form`, and the filter's constructor clamps again. */
  function FilterImage(name: string, img: Image, form: FilmParams, draw: (int, int) -> int,
                       distance: (int, int) -> real, lib: Library): Image
    requires img.Shaped()
  {
    match Lookup(name)
    case None => img
    case Some(id) =>
      match id
      case VintageFilm =>
        var handlerParams := ClampFilm(form);
        Film.VintageFilmImage(img, ClampFilm(handlerParams), draw, distance, lib)
      case Grayscale => ColorMatrix.Grayscale(img, lib.luma)
      case Blur => lib.convolve(BLUR, img)
      case Contour => lib.convolve(CONTOUR, img)
      case Detail => lib.convolve(DETAIL, img)
      case EdgeEnhance => lib.convolve(EDGE_ENHANCE, img)
      case Emboss => lib.convolve(EMBOSS, img)
      case Sharpen => lib.convolve(SHARPEN, img)
      case Smooth => lib.convolve(SMOOTH, img)
      case Brightness => lib.brightness(1.5, img)
      case Contrast => lib.contrast(1.5, img)
      case Invert => ColorMatrix.Invert(img)
      case Sepia => ColorMatrix.Sepia(img)
  }

  /** A name outside `FILTERS` leaves the image pixel-identical. */
  lemma UnknownFilterIsIdentity(name: string, img: Image, form: FilmParams, draw: (int, int) -> int,
                                distance: (int, int) -> real, lib: Library)
    requires img.Shaped() && name !in Keys()
    ensures FilterImage(name, img, form, draw, distance, lib) == img
  {
    FiltersAreDispatched(name);
  }

  /** Every filter, known or not, maps a valid image to a valid image of the
      same width and height. */
  lemma FilterKeepsSize(name: string, img: Image, form: FilmParams, draw: (int, int) -> int,
                        distance: (int, int) -> real, lib: Library)
    requires img.Valid() && lib.Valid()
    ensures Keeps(img, FilterImage(name, img, form, draw, distance, lib))
  {
    match Lookup(name)
    case None =>
    case Some(id) =>
      match id {
        case VintageFilm =>
          Film.VintageFilmValid(img, ClampFilm(ClampFilm(form)), draw, distance, lib);
        case Grayscale =>
          ColorMatrix.GrayscaleIsGray(img, lib.luma);
        case Invert =>
          ColorMatrix.InvertValid(img);
        case Sepia =>
          ColorMatrix.SepiaValid(img);
        case _ =>
      }
  }

  /** `grayscale` yields r = g = b at every pixel. */
  lemma GrayscaleFilterIsGray(img: Image, form: FilmParams, draw: (int, int) -> int,
                              distance: (int, int) -> real, lib: Library)
    requires img.Valid() && lib.Valid()
    ensures var out := FilterImage("grayscale", img, form, draw, distance, lib);
      SameSize(out, img) &&
      forall x, y :: 0 <= x < img.width && 0 <= y < img.height ==> out.rows[y][x].r == out.rows[y][x].g == out.rows[y][x].b
  {
    ColorMatrix.GrayscaleIsGray(img, lib.luma);
  }

  /** Applying `invert` to the result of `invert` restores the image. */
  lemma InvertFilterTwice(img: Image, form: FilmParams, draw: (int, int) -> int,
                          distance: (int, int) -> real, lib: Library)
    requires img.Shaped()
    ensures var once := FilterImage("invert", img, form, draw, distance, lib);
      once.Shaped() && FilterImage("invert", once, form, draw, distance, lib) == img
  {
    ColorMatrix.InvertInvolution(img);
  }

  /** The vintage film filter sees each parameter clamped once: a request
      with warmth 5.0 is the request with warmth 1.4, grain -1.0 is grain 0. */
  lemma VintageClampsOnce(img: Image, form: FilmParams, draw: (int, int) -> int,
                          distance: (int, int) -> real, lib: Library)
    requires img.Shaped()
    ensures FilterImage("vintage_film", img, form, draw, distance, lib)
         == Film.VintageFilmImage(img, ClampFilm(form), draw, distance, lib)
    ensures FilterImage("vintage_film", img, form, draw, distance, lib)
         == FilterImage("vintage_film", img, ClampFilm(form), draw, distance, lib)
  {
    DoubleClampIsSingle(form);
    DoubleClampIsSingle(ClampFilm(form));
  }

  /** The handler from the decoded image on: the `if/elif` chain, with the
      invert and sepia branches rewriting a converted copy in place. The
      decoded buffer itself is not changed. */
  method ApplyFilter(selectedFilter: string, img: array2<RGB>, form: FilmParams, draw: (int, int) -> int,
                     distance: (int, int) -> real, lib: Library) returns (filtered: Image)
    ensures filtered == FilterImage(selectedFilter, Snapshot(img), form, draw, distance, lib)
  {
    if selectedFilter == "vintage_film" {
      filtered := ApplyVintageFilm(img, form, draw, distance, lib);
    } else if selectedFilter == "grayscale" {
      filtered := ColorMatrix.Grayscale(Snapshot(img), lib.luma);
    } else if selectedFilter == "blur" {
      filtered := lib.convolve(BLUR, Snapshot(img));
    } else if selectedFilter == "contour" {
      filtered := lib.convolve(CONTOUR, Snapshot(img));
    } else if selectedFilter == "detail" {
      filtered := lib.convolve(DETAIL, Snapshot(img));
    } else if selectedFilter == "edge_enhance" {
      filtered := lib.convolve(EDGE_ENHANCE, Snapshot(img));
    } else if selectedFilter == "emboss" {
      filtered := lib.convolve(EMBOSS, Snapshot(img));
    } else if selectedFilter == "sharpen" {
      filtered := lib.convolve(SHARPEN, Snapshot(img));
    } else if selectedFilter == "smooth" {
      filtered := lib.convolve(SMOOTH, Snapshot(img));
    } else if selectedFilter == "brightness" {
      filtered := lib.brightness(1.5, Snapshot(img));
    } else if selectedFilter == "contrast" {
      filtered := lib.contrast(1.5, Snapshot(img));
    } else if selectedFilter == "invert" {
      var rgbImg := CopyBuffer(img);
      ColorMatrix.InvertInPlace(rgbImg);
      filtered := Snapshot(rgbImg);
    } else if selectedFilter == "sepia" {
      var rgbImg := CopyBuffer(img);
      ColorMatrix.SepiaInPlace(rgbImg);
      filtered := Snapshot(rgbImg);
    } else {
      filtered := Snapshot(img);
    }
  }

  /** The `vintage_film` branch: clamp the form parameters, build the filter
      (whose constructor clamps again) and run it. */
  method ApplyVintageFilm(img: array2<RGB>, form: FilmParams, draw: (int, int) -> int,
                          distance: (int, int) -> real, lib: Library) returns (filtered: Image)
    ensures filtered == Film.VintageFilmImage(Snapshot(img), ClampFilm(ClampFilm(form)), draw, distance, lib)
  {
    var clamped := ClampFilm(form);
    var filter := new Film.VintageFilmFilter(clamped.warmth, clamped.grain, clamped.vignette, clamped.contrast);
    filtered := filter.Filter(img, draw, distance, lib);
  }
}
