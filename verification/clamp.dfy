/** The `remap` helper of src/App.tsx: clamps a value into `[lo, hi]` as
    `Math.max(Math.min(val, hi), lo)`. Numbers are modelled as reals. */
module Clamp {

  /** `Math.min` on two numbers (no NaN in this model). */
  function Min(a: real, b: real): real {
    if a <= b then a else b
  }

  /** `Math.max` on two numbers (no NaN in this model). */
  function Max(a: real, b: real): real {
    if a >= b then a else b
  }

  /** `remap(val, lo, hi)`. When `lo <= hi` the result lies in `[lo, hi]`,
      equals `val` inside the interval and the nearer bound outside it. The
      source does not demand `lo <= hi`; for `hi < lo` the outer `max` makes
      the result `lo` whatever `val` is. */
  function Remap(val: real, lo: real, hi: real): (r: real)
    ensures lo <= hi ==> lo <= r <= hi
    ensures lo <= val <= hi ==> r == val
    ensures val < lo ==> r == lo
    ensures lo <= hi < val ==> r == hi
    ensures hi < lo ==> r == lo
  {
    Max(Min(val, hi), lo)
  }

  /** Within a non-empty interval, `Remap` picks the point of `[lo, hi]`
      nearest to `val`: no other point of the interval is closer. */
  lemma RemapIsNearestPoint(val: real, lo: real, hi: real, p: real)
    requires lo <= hi
    requires lo <= p <= hi
    ensures Abs(Remap(val, lo, hi) - val) <= Abs(p - val)
  {
  }

  function Abs(x: real): (r: real)
    ensures r >= 0.0
    ensures r == x || r == -x
  {
    if x < 0.0 then -x else x
  }

  /** Clamping is monotone in the clamped value. */
  lemma RemapMonotone(v1: real, v2: real, lo: real, hi: real)
    requires lo <= hi
    requires v1 <= v2
    ensures Remap(v1, lo, hi) <= Remap(v2, lo, hi)
  {
  }

  /** Clamping an already clamped value changes nothing. */
  lemma RemapIdempotent(val: real, lo: real, hi: real)
    requires lo <= hi
    ensures Remap(Remap(val, lo, hi), lo, hi) == Remap(val, lo, hi)
  {
  }
}
