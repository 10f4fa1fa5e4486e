/** The end-of-frame clamp of the generator's configuration. */
module Config {

  /** The range of a C `short` (SHRT_MIN, SHRT_MAX), to which the seed is held. */
  const ShortMin: int := -32768
  const ShortMax: int := 32767

  /** The range the grid size is held to. */
  const MinSize: int := 2
  const MaxSize: int := 2500

  /** The distance between two settings values, for the nearest-value promise of
      the clamp; Camera.Dist is its counterpart over real angles. */
  function Dist(a: int, b: int): nat
  {
    if a <= b then b - a else a - b
  }

  /** The value of [lo, hi] nearest to v: v itself when it is in range. */
  function Clamp(v: int, lo: int, hi: int): (r: int)
    requires lo <= hi
    ensures lo <= r <= hi
    ensures lo <= v <= hi ==> r == v
    ensures forall w :: lo <= w <= hi ==> Dist(r, v) <= Dist(w, v)
  {
    if v < lo then lo else if v > hi then hi else v
  }

  /** Clamping twice is clamping once. */
  lemma ClampIdempotent(v: int, lo: int, hi: int)
    requires lo <= hi
    ensures Clamp(Clamp(v, lo, hi), lo, hi) == Clamp(v, lo, hi)
  {
  }
}
