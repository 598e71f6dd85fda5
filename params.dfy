/** The vintage-film parameters and the clamping that `VintageFilmFilter`'s
    constructor and the `vintage_film` branch of the request handler apply
    to them: out-of-range values are clamped, never rejected. */
module Params {

  /** `max(lo, min(hi, x))`. */
  function Clamp(lo: real, hi: real, x: real): (r: real)
    requires lo <= hi
    ensures lo <= r <= hi
    ensures lo <= x <= hi ==> r == x
    ensures x < lo ==> r == lo
    ensures hi < x ==> r == hi
  {
    var m := if hi < x then hi else x;
    if m < lo then lo else m
  }

  lemma ClampIdempotent(lo: real, hi: real, x: real)
    requires lo <= hi
    ensures Clamp(lo, hi, Clamp(lo, hi, x)) == Clamp(lo, hi, x)
  {
  }

  const WARMTH_MIN: real := 0.6
  const WARMTH_MAX: real := 1.4
  const GRAIN_MIN: real := 0.0
  const GRAIN_MAX: real := 3.0
  const VIGNETTE_MIN: real := 0.0
  const VIGNETTE_MAX: real := 3.0
  const CONTRAST_MIN: real := 0.6
  const CONTRAST_MAX: real := 1.4

  /** The four knobs of the vintage film filter. */
  datatype FilmParams = FilmParams(warmth: real, grain: real, vignette: real, contrast: real)

  /** Every parameter within its safe range. */
  predicate InRange(p: FilmParams) {
    && WARMTH_MIN <= p.warmth <= WARMTH_MAX
    && GRAIN_MIN <= p.grain <= GRAIN_MAX
    && VIGNETTE_MIN <= p.vignette <= VIGNETTE_MAX
    && CONTRAST_MIN <= p.contrast <= CONTRAST_MAX
  }

  /** Clamp each parameter to its range. */
  function ClampFilm(p: FilmParams): (q: FilmParams)
    ensures InRange(q)
    ensures InRange(p) ==> q == p
    ensures p.warmth > WARMTH_MAX ==> q.warmth == WARMTH_MAX
    ensures p.warmth < WARMTH_MIN ==> q.warmth == WARMTH_MIN
    ensures p.grain > GRAIN_MAX ==> q.grain == GRAIN_MAX
    ensures p.grain < GRAIN_MIN ==> q.grain == GRAIN_MIN
    ensures p.vignette > VIGNETTE_MAX ==> q.vignette == VIGNETTE_MAX
    ensures p.vignette < VIGNETTE_MIN ==> q.vignette == VIGNETTE_MIN
    ensures p.contrast > CONTRAST_MAX ==> q.contrast == CONTRAST_MAX
    ensures p.contrast < CONTRAST_MIN ==> q.contrast == CONTRAST_MIN
  {
    FilmParams(Clamp(WARMTH_MIN, WARMTH_MAX, p.warmth),
               Clamp(GRAIN_MIN, GRAIN_MAX, p.grain),
               Clamp(VIGNETTE_MIN, VIGNETTE_MAX, p.vignette),
               Clamp(CONTRAST_MIN, CONTRAST_MAX, p.contrast))
  }

  /** The handler clamps and then the constructor clamps again; the second
      clamp changes nothing. */
  lemma DoubleClampIsSingle(p: FilmParams)
    ensures ClampFilm(ClampFilm(p)) == ClampFilm(p)
  {
  }
}
