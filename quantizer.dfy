/** Snapping of coordinates and sizes to a grid (src/utils/roundToNearest.ts).
    The source computes `x - x % step + step * (x % step >= step / 2)`, where `%` is
    JavaScript's remainder: it truncates the quotient toward zero, so the remainder
    takes the sign of `x`. Non-negative values therefore round half up, negative
    values round toward zero. */
module Quantizer {

  /** The quotient truncated toward zero, as `%` in JavaScript uses it. */
  function Trunc(q: real): (k: int)
    ensures q >= 0.0 ==> k as real <= q < k as real + 1.0
    ensures q < 0.0 ==> k as real - 1.0 < q <= k as real
  {
    if q >= 0.0 then q.Floor else -((-q).Floor)
  }

  /** JavaScript's `x % step`. */
  function JsRem(x: real, step: real): real
    requires step != 0.0
  {
    x - step * Trunc(x / step) as real
  }

  /** `roundToNearest(x, step)`. */
  function RoundToNearest(x: real, step: real): real
    requires step > 0.0
  {
    var remainder := JsRem(x, step);
    x - remainder + step * (if remainder >= step / 2.0 then 1.0 else 0.0)
  }

  /** The k-th multiple of step. */
  function Scaled(k: int, step: real): real
  {
    k as real * step
  }

  ghost predicate IsMultiple(r: real, step: real)
  {
    exists k: int :: Scaled(k, step) == r
  }

  /** Reference definition: the index of the multiple that `RoundToNearest` picks,
      half up for non-negative values and toward zero for negative ones. */
  function NearestIndex(x: real, step: real): int
    requires step > 0.0
  {
    if x >= 0.0 then (x / step + 0.5).Floor else Trunc(x / step)
  }

  /** Multiples are closed under addition. */
  lemma MultipleAdd(a: real, b: real, step: real)
    requires IsMultiple(a, step) && IsMultiple(b, step)
    ensures IsMultiple(a + b, step)
  {
    var i :| Scaled(i, step) == a;
    var j :| Scaled(j, step) == b;
    assert Scaled(i + j, step) == a + b;
  }
}
