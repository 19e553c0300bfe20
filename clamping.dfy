/** The two clamps the game uses: three.js's `MathUtils.clamp`, which keeps a value
    inside an interval (src/Game.ts:286-289, 308), and `clampOutside`
    (src/utils/clampOutside.ts), which pushes a value out of one. */
module Clamping {

  /** `Math.min`. */
  function Min(a: real, b: real): (r: real)
    ensures r <= a && r <= b && (r == a || r == b)
  {
    if a <= b then a else b
  }

  /** `Math.max`. */
  function Max(a: real, b: real): (r: real)
    ensures r >= a && r >= b && (r == a || r == b)
  {
    if a >= b then a else b
  }

  /** `THREE.MathUtils.clamp(value, lo, hi)`, that is `max(lo, min(hi, value))`. */
  function Clamp(value: real, lo: real, hi: real): (r: real)
    ensures lo <= hi ==> lo <= r <= hi
    ensures lo <= value <= hi ==> r == value
    ensures lo <= hi && value < lo ==> r == lo
    ensures lo <= hi && value > hi ==> r == hi
  {
    Max(lo, Min(hi, value))
  }

  /** `clampOutside(value, min, max, clampToMin)`: a value on or outside the ends of
      (min, max) is returned as it is; one strictly inside is moved to `min` when
      `clampToMin` holds and to `max` otherwise (the argument is optional and an
      omitted one is falsy). */
  function ClampOutside(value: real, min: real, max: real, clampToMin: bool := false): (r: real)
    ensures value <= min || value >= max ==> r == value
    ensures min < value < max ==> r == (if clampToMin then min else max)
    ensures !(min < r < max)
  {
    if value <= min || value >= max then value
    else if clampToMin then Min(value, min)
    else Max(value, max)
  }

  /** Clamping a clamped value changes nothing. */
  lemma ClampIdempotent(value: real, lo: real, hi: real)
    requires lo <= hi
    ensures Clamp(Clamp(value, lo, hi), lo, hi) == Clamp(value, lo, hi)
  {
  }

  /** Pushing a pushed-out value out again changes nothing. */
  lemma ClampOutsideIdempotent(value: real, min: real, max: real, clampToMin: bool)
    ensures ClampOutside(ClampOutside(value, min, max, clampToMin), min, max, clampToMin)
         == ClampOutside(value, min, max, clampToMin)
  {
  }

  /** `Clamp` is monotone in the clamped value. */
  lemma ClampMonotone(a: real, b: real, lo: real, hi: real)
    requires a <= b && lo <= hi
    ensures Clamp(a, lo, hi) <= Clamp(b, lo, hi)
  {
  }
}
