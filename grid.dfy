/** Rounding to the block grid: `roundToNearest(v, Block.FIX_VALUE)`, the only step
    the game passes (src/Block.ts:11, 28-30, 36-37; src/Game.ts:294, 387). With the
    step fixed, the properties below are statements of linear arithmetic. */
module Grid {
  import opened Quantizer

  /** Block.FIX_VALUE. */
  const FIX_VALUE: real := 0.24

  /** `roundToNearest(v, Block.FIX_VALUE)`. */
  function Fix(v: real): real
  {
    RoundToNearest(v, FIX_VALUE)
  }

  ghost predicate OnGrid(v: real)
  {
    IsMultiple(v, FIX_VALUE)
  }

  lemma OnGridIntro(k: int, v: real)
    requires v == Scaled(k, FIX_VALUE)
    ensures OnGrid(v)
  {
  }

  /** `Fix` returns the multiple of FIX_VALUE that `NearestIndex` names. */
  lemma FixIsNearestMultiple(x: real)
    ensures Fix(x) == Scaled(NearestIndex(x, FIX_VALUE), FIX_VALUE)
  {
    var q := x / FIX_VALUE;
    var k := Trunc(q);
    if x >= 0.0 {
      if q - k as real >= 0.5 {
        assert (q + 0.5).Floor == k + 1;
      } else {
        assert (q + 0.5).Floor == k;
      }
    }
  }

  /** The JavaScript remainder has the sign of the dividend and is smaller than the step. */
  lemma JsRemRange(x: real)
    ensures x >= 0.0 ==> 0.0 <= JsRem(x, FIX_VALUE) < FIX_VALUE
    ensures x < 0.0 ==> -FIX_VALUE < JsRem(x, FIX_VALUE) <= 0.0
  {
  }

  /** Every result is on the grid. */
  lemma FixOnGrid(x: real)
    ensures OnGrid(Fix(x))
  {
    FixIsNearestMultiple(x);
  }

  /** For x >= 0 the result is the multiple of the step in (x - step/2, x + step/2],
      the nearest one, a tie going to the higher. */
  lemma FixNonNegative(x: real)
    requires x >= 0.0
    ensures OnGrid(Fix(x))
    ensures x - FIX_VALUE / 2.0 < Fix(x) <= x + FIX_VALUE / 2.0
    ensures Fix(x) >= 0.0
  {
    FixIsNearestMultiple(x);
  }

  /** At an exact tie (remainder == step/2) the result is the higher of the two
      equally near multiples. */
  lemma FixTie(x: real)
    requires JsRem(x, FIX_VALUE) == FIX_VALUE / 2.0
    ensures x >= 0.0
    ensures Fix(x) == x + FIX_VALUE / 2.0
    ensures OnGrid(x - FIX_VALUE / 2.0) && OnGrid(x + FIX_VALUE / 2.0)
  {
    var k := Trunc(x / FIX_VALUE);
    assert Scaled(k, FIX_VALUE) == x - FIX_VALUE / 2.0;
    assert Scaled(k + 1, FIX_VALUE) == x + FIX_VALUE / 2.0;
  }

  /** For x < 0 the result is x rounded toward zero: the least multiple of the step
      that is >= x. */
  lemma FixNegative(x: real)
    requires x < 0.0
    ensures OnGrid(Fix(x))
    ensures x <= Fix(x) <= 0.0
    ensures forall k: int :: Scaled(k, FIX_VALUE) >= x ==> Fix(x) <= Scaled(k, FIX_VALUE)
  {
    FixIsNearestMultiple(x);
    var t := Trunc(x / FIX_VALUE);
    assert Fix(x) == Scaled(t, FIX_VALUE);
    forall k: int | Scaled(k, FIX_VALUE) >= x
      ensures Fix(x) <= Scaled(k, FIX_VALUE)
    {
      assert k as real >= x / FIX_VALUE;
      assert t <= k;
    }
  }

  /** A multiple of the step is left alone. */
  lemma FixMultiple(k: int)
    ensures Fix(Scaled(k, FIX_VALUE)) == Scaled(k, FIX_VALUE)
  {
    assert Scaled(k, FIX_VALUE) / FIX_VALUE == k as real;
    assert Trunc(k as real) == k;
  }

  /** Any value on the grid is a fixed point. */
  lemma FixKeepsGrid(v: real)
    requires OnGrid(v)
    ensures Fix(v) == v
  {
    var k :| Scaled(k, FIX_VALUE) == v;
    FixMultiple(k);
  }

  /** Rounding twice is rounding once. */
  lemma FixIdempotent(x: real)
    ensures Fix(Fix(x)) == Fix(x)
  {
    FixIsNearestMultiple(x);
    FixMultiple(NearestIndex(x, FIX_VALUE));
  }

  /** Rounding is monotone. */
  lemma FixMonotone(x: real, y: real)
    requires x <= y
    ensures Fix(x) <= Fix(y)
  {
    FixIsNearestMultiple(x);
    FixIsNearestMultiple(y);
    assert NearestIndex(x, FIX_VALUE) <= NearestIndex(y, FIX_VALUE);
  }

  /** For x >= 0 the result is zero exactly when x < step/2, and never negative;
      the miss test of the game relies on this. */
  lemma FixZeroIff(x: real)
    requires x >= 0.0
    ensures Fix(x) >= 0.0
    ensures Fix(x) == 0.0 <==> x < FIX_VALUE / 2.0
  {
    FixIsNearestMultiple(x);
  }

  /** For x >= 0 an exact tie is exactly the case where the chosen index sits half a
      unit above x / step. */
  lemma TieIndex(x: real)
    requires x >= 0.0
    ensures JsRem(x, FIX_VALUE) == FIX_VALUE / 2.0 <==> NearestIndex(x, FIX_VALUE) as real == x / FIX_VALUE + 0.5
  {
    var q := x / FIX_VALUE;
    var k := Trunc(q);
    if q - k as real == 0.5 {
      assert (q + 0.5).Floor == k + 1;
    } else if q - k as real < 0.5 {
      assert (q + 0.5).Floor == k;
    } else {
      assert (q + 0.5).Floor == k + 1;
    }
  }

  /** Two distinct grid points are at least one step apart. */
  lemma GridGap(a: real, b: real)
    requires OnGrid(a) && OnGrid(b) && a > b
    ensures a >= b + FIX_VALUE
  {
    var i :| Scaled(i, FIX_VALUE) == a;
    var j :| Scaled(j, FIX_VALUE) == b;
    assert i > j;
  }

  /** For x >= 0, `Fix` goes a full half step up exactly at a tie. */
  lemma FixHalfUpIff(x: real)
    requires x >= 0.0
    ensures Fix(x) == x + FIX_VALUE / 2.0 <==> JsRem(x, FIX_VALUE) == FIX_VALUE / 2.0
  {
    JsRemRange(x);
  }
}
