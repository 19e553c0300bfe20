/** How the placement of the moving block decides a drop: miss, plain hit or
    perfect hit, and how far the new block can reach (src/Game.ts:245-303,
    360-392). */
module DropLaws {
  import opened Quantizer
  import opened Grid
  import opened Clamping
  import opened Tuning
  import opened Blocks
  import opened Engine
  import opened StackLaws

  function Abs(x: real): real
  {
    if x >= 0.0 then x else -x
  }

  /** Along one axis, two spans of the same length w that start d = lo1 - lo2
      apart overlap over max(0, w - |d|). */
  lemma OverlapAlong(lo1: real, lo2: real, w: real)
    requires w > 0.0
    ensures Clamp(lo1 + w, lo2, lo2 + w) - Clamp(lo1, lo2, lo2 + w) == Max(0.0, w - Abs(lo1 - lo2))
  {
  }

  /** Along one axis, the remainder of a span of length w that starts d = lo1 - lo2
      from one of the same length is the overhang |d|; it is the whole span when
      the two line up exactly or do not meet. */
  lemma RemainderAlong(lo1: real, lo2: real, w: real)
    requires w > 0.0
    ensures ClampOutside(lo1 + w, lo2, lo2 + w, true) - ClampOutside(lo1, lo2, lo2 + w)
         == if lo1 == lo2 || Abs(lo1 - lo2) >= w then w else Abs(lo1 - lo2)
  {
  }

  /** Snapping a non-negative length: zero exactly below half a step; a length on
      the grid stays as it is. */
  lemma SnapLength(v: real)
    requires v >= 0.0
    ensures Fix(v) >= 0.0
    ensures Fix(v) <= 0.0 <==> v < FIX_VALUE / 2.0
    ensures OnGrid(v) ==> Fix(v) == v
  {
    FixZeroIff(v);
    if OnGrid(v) {
      FixKeepsGrid(v);
    }
  }

  /** The offset of the moving block from the top block along the sliding axis. */
  function Offset(s: GameState): real
    requires |s.blocks| > 0
  {
    SlideCoord(s.movement, s.moving.position) - SlideCoord(s.movement, Top(s).position)
  }

  /** The top block's length along the sliding axis. */
  function SlideLength(s: GameState): real
    requires |s.blocks| > 0
  {
    if IsZMoving(s.movement) then Top(s).depth else Top(s).width
  }

  /** The top block's length across the sliding axis. */
  function CrossLength(s: GameState): real
    requires |s.blocks| > 0
  {
    if IsZMoving(s.movement) then Top(s).width else Top(s).depth
  }

  /** With an armed block the overlap and the remainder reduce to the offset
      along the sliding axis; across it they are the whole top block. */
  lemma ArmedSpans(s: GameState)
    requires Consistent(s) && s.movingVisible
    ensures var o := Overlap(s); var r := Remainder(s);
      && (if IsZMoving(s.movement) then Depth(o) else Width(o)) == Max(0.0, SlideLength(s) - Abs(Offset(s)))
      && (if IsZMoving(s.movement) then Width(o) else Depth(o)) == CrossLength(s)
      && (if IsZMoving(s.movement) then Depth(r) else Width(r))
         == (if Offset(s) == 0.0 || Abs(Offset(s)) >= SlideLength(s) then SlideLength(s) else Abs(Offset(s)))
      && (if IsZMoving(s.movement) then Width(r) else Depth(r)) == CrossLength(s)
  {
    var top := Top(s);
    assert WellPlaced(top);
    var p := s.moving.position;
    var q := top.position;
    if IsZMoving(s.movement) {
      OverlapAlong(p.z, q.z, top.depth);
      OverlapAlong(p.x, q.x, top.width);
      RemainderAlong(p.z, q.z, top.depth);
      RemainderAlong(p.x, q.x, top.width);
    } else {
      OverlapAlong(p.x, q.x, top.width);
      OverlapAlong(p.z, q.z, top.depth);
      RemainderAlong(p.x, q.x, top.width);
      RemainderAlong(p.z, q.z, top.depth);
    }
  }

  /** A drop of an armed block misses exactly when the overlap along the sliding
      axis is under half a grid step; a hit earns the perfect-stack bonus exactly
      when the block is off by a non-zero amount under half a step. Lining up
      exactly earns no bonus: the whole block is then the cut-off slice, which is
      not transparent. */
  lemma DropOffset(s: GameState)
    requires Consistent(s) && s.movingVisible
    ensures IsMiss(s) <==> SlideLength(s) - Abs(Offset(s)) < FIX_VALUE / 2.0
    ensures !IsMiss(s) ==> (ScoreGain(CutOffPiece(s)) == 3 <==> 0.0 < Abs(Offset(s)) < FIX_VALUE / 2.0)
  {
    var top := Top(s);
    assert WellPlaced(top);
    ArmedSpans(s);
    var w := SlideLength(s);
    var d := Abs(Offset(s));
    SnapLength(Max(0.0, w - d));
    SnapLength(CrossLength(s));
    SnapLength(w);
    SnapLength(d);
    GridGap(w, 0.0) by { OnGridIntro(0, 0.0); }
  }

  /** An exact line-up is a hit worth SCORE_INCREASE only. */
  lemma AlignedDropScoresOne(s: GameState)
    requires Consistent(s) && s.movingVisible && !s.gameOver
    requires s.moving.position == Vec3(Top(s).position.x, s.moving.position.y, Top(s).position.z)
    ensures !IsMiss(s)
    ensures StackBlock(s).score == s.score + SCORE_INCREASE
  {
    DropOffset(s);
    assert Offset(s) == 0.0;
    assert WellPlaced(Top(s));
    GridGap(SlideLength(s), 0.0) by { OnGridIntro(0, 0.0); }
    StackBlockScore(s);
  }

  /** Snapping the start and the length of a span inside [lo2, hi2] keeps its start
      inside and its end at most one step beyond hi2; the end passes hi2 exactly
      when the span ends at hi2 and both its start and its length sit at a half-step
      tie. */
  lemma SnappedSpan(lo2: real, hi2: real, a: real, b: real)
    requires OnGrid(lo2) && OnGrid(hi2)
    requires 0.0 <= lo2 <= a <= b <= hi2
    ensures lo2 <= Fix(a)
    ensures Fix(a) + Fix(b - a) <= hi2 + FIX_VALUE
    ensures Fix(a) + Fix(b - a) > hi2
        <==> b == hi2 && JsRem(a, FIX_VALUE) == FIX_VALUE / 2.0 && JsRem(b - a, FIX_VALUE) == FIX_VALUE / 2.0
  {
    FixMonotone(lo2, a);
    FixKeepsGrid(lo2);
    FixNonNegative(a);
    FixNonNegative(b - a);
    FixHalfUpIff(a);
    FixHalfUpIff(b - a);
    var sum := Fix(a) + Fix(b - a);
    FixOnGrid(a);
    FixOnGrid(b - a);
    MultipleAdd(Fix(a), Fix(b - a), FIX_VALUE);
    if sum > hi2 {
      GridGap(sum, hi2);
    }
  }

  /** The block a hit pushes starts inside the top block and reaches at most one
      grid step past its right and front edges, and only at a double half-step
      tie: the overlap ends at the top block's edge and both its start and its
      length are an odd number of half steps. */
  lemma PlacedFootprint(s: GameState)
    requires |s.blocks| > 0 && WellPlaced(Top(s)) && !IsMiss(s)
    ensures var p := BoundingBoxOf(PlacedBlock(s)); var t := BoundingBoxOf(Top(s)); var o := Overlap(s);
      && t.left <= p.left && p.right <= t.right + FIX_VALUE
      && t.back <= p.back && p.front <= t.front + FIX_VALUE
      && (p.right > t.right <==>
            (o.right == t.right && JsRem(o.left, FIX_VALUE) == FIX_VALUE / 2.0
             && JsRem(Width(o), FIX_VALUE) == FIX_VALUE / 2.0))
      && (p.front > t.front <==>
            (o.front == t.front && JsRem(o.back, FIX_VALUE) == FIX_VALUE / 2.0
             && JsRem(Depth(o), FIX_VALUE) == FIX_VALUE / 2.0))
  {
    var top := Top(s);
    var t := BoundingBoxOf(top);
    var o := Overlap(s);
    MultipleAdd(top.position.x, top.width, FIX_VALUE);
    MultipleAdd(top.position.z, top.depth, FIX_VALUE);
    SnappedSpan(t.left, t.right, o.left, o.right);
    SnappedSpan(t.back, t.front, o.back, o.front);
  }

  /** The state of the example below: the starting block, and over it a block
      sliding along x that stands 0.12 to the right. */
  ghost predicate TieExample(s: GameState)
  {
    s == GameState(false, 0, 0, [STARTING_BLOCK], BlockState(Vec3(0.12, 1.2, 0.0), 12.0, 12.0),
                   true, STARTING_SPEED, [])
  }

  lemma TieExampleConsistent(s: GameState)
    requires TieExample(s)
    ensures Consistent(s) && Offset(s) == 0.12
  {
    StartingStack();
    LevelOnGrid(1);
    assert Armed(s);
  }

  /** 0.12 and 11.88 are both an odd number of half steps. */
  lemma TieRemainders()
    ensures JsRem(0.12, FIX_VALUE) == FIX_VALUE / 2.0
    ensures JsRem(11.88, FIX_VALUE) == FIX_VALUE / 2.0
  {
    assert Trunc(0.12 / FIX_VALUE) == 0;
    assert Trunc(11.88 / FIX_VALUE) == 49;
  }

  lemma TieExampleOverlap(s: GameState)
    requires TieExample(s)
    ensures !IsMiss(s)
    ensures Overlap(s).left == 0.12 && Overlap(s).right == 12.0
    ensures BoundingBoxOf(Top(s)).right == 12.0
  {
    TieExampleConsistent(s);
    DropOffset(s);
  }

  /** At a double half-step tie at the right edge, the new block reaches exactly
      one step past the top block. */
  lemma TieGrowsOneStep(s: GameState)
    requires |s.blocks| > 0 && WellPlaced(Top(s)) && !IsMiss(s)
    requires Overlap(s).right == BoundingBoxOf(Top(s)).right
    requires JsRem(Overlap(s).left, FIX_VALUE) == FIX_VALUE / 2.0
    requires JsRem(Width(Overlap(s)), FIX_VALUE) == FIX_VALUE / 2.0
    ensures BoundingBoxOf(PlacedBlock(s)).right == BoundingBoxOf(Top(s)).right + FIX_VALUE
  {
    var o := Overlap(s);
    var top := Top(s);
    PlacedFootprint(s);
    FixOnGrid(o.left);
    FixOnGrid(Width(o));
    MultipleAdd(Fix(o.left), Fix(Width(o)), FIX_VALUE);
    MultipleAdd(top.position.x, top.width, FIX_VALUE);
    GridGap(BoundingBoxOf(PlacedBlock(s)).right, BoundingBoxOf(top).right);
  }

  /** The growth is reachable: dropped there, the block overlaps [0.12, 12]; both
      0.12 and the length 11.88 sit at a half-step tie, so the block the drop
      pushes (`StackBlockSuccess`) spans [0.24, 12.24], one step past the block
      below. */
  lemma FootprintTieGrows(s: GameState)
    requires TieExample(s)
    ensures Consistent(s) && !IsMiss(s)
    ensures BoundingBoxOf(Top(s)).right == 12.0
    ensures BoundingBoxOf(PlacedBlock(s)).right == 12.24
  {
    TieExampleConsistent(s);
    TieExampleOverlap(s);
    TieRemainders();
    assert WellPlaced(Top(s));
    assert Width(Overlap(s)) == 11.88;
    TieGrowsOneStep(s);
  }
}
