/** What a drop, a frame and a reset do to the game state, and the invariant they
    keep (src/Game.ts). */
module StackLaws {
  import opened Quantizer
  import opened Grid
  import opened Clamping
  import opened Tuning
  import opened Blocks
  import opened Engine

  /** Toggling bit 1 switches the axis and keeps the direction. */
  lemma ToggleAxis(m: bv2)
    ensures IsZMoving(m ^ 2) == !IsZMoving(m)
    ensures IsReversed(m ^ 2) == IsReversed(m)
  {
  }

  /** While the game is over a drop does nothing. */
  lemma StackBlockWhileOver(s: GameState)
    requires |s.blocks| > 0 && s.gameOver
    ensures StackBlock(s) == s
  {
  }

  /** A miss stops the game and hides the moving block; the stack and the score stay
      as they were, and the slice cut off is still pushed. */
  lemma StackBlockMiss(s: GameState)
    requires |s.blocks| > 0 && !s.gameOver && IsMiss(s)
    ensures var r := StackBlock(s);
      && r.gameOver && !r.movingVisible
      && r.blocks == s.blocks && r.score == s.score
      && r.cutOffs == s.cutOffs + [CutOffPiece(s)]
      && r.movement == s.movement && r.moving == s.moving && r.speed == s.speed
  {
  }

  /** A hit pushes exactly one block on top of the others, cuts off one slice,
      switches the axis, brings in the next moving block over the new top (its speed
      updated from the score before this drop) and scores 1 or 3. */
  lemma StackBlockSuccess(s: GameState)
    requires |s.blocks| > 0 && !s.gameOver && !IsMiss(s)
    ensures var r := StackBlock(s);
      && !r.gameOver && r.movingVisible == s.movingVisible
      && r.blocks == s.blocks + [PlacedBlock(s)]
      && r.cutOffs == s.cutOffs + [CutOffPiece(s)]
      && r.movement == s.movement ^ 2
      && r.moving == ArmedBlock(PlacedBlock(s), s.movement ^ 2)
      && r.speed == NextSpeed(s.speed, s.score)
      && r.score == s.score + ScoreGain(CutOffPiece(s))
  {
  }

  /** The score goes up by 1 or 3 on a hit and stays put otherwise. */
  lemma StackBlockScore(s: GameState)
    requires |s.blocks| > 0
    ensures StackBlock(s).score
         == s.score + (if !s.gameOver && !IsMiss(s) then ScoreGain(CutOffPiece(s)) else 0)
  {
    if !s.gameOver && !IsMiss(s) {
      StackBlockSuccess(s);
    }
  }

  /** A block that the game can stand on: on the grid, with positive size, and not
      left of or behind the starting block. */
  ghost predicate WellPlaced(b: BlockState)
  {
    Quantized(b) && b.width > 0.0 && b.depth > 0.0 && b.position.x >= 0.0 && b.position.z >= 0.0
  }

  /** The stack: the starting block at the bottom, block i at height i * HEIGHT. */
  ghost predicate Stacked(blocks: seq<BlockState>)
  {
    && |blocks| > 0
    && blocks[0] == STARTING_BLOCK
    && forall i :: 0 <= i < |blocks| ==> WellPlaced(blocks[i]) && blocks[i].position.y == i as real * HEIGHT
  }

  /** The sliding coordinate has not left its interval by more than one step, and
      where it is out, the direction still points out: the next frame bounces it
      back. */
  ghost predicate InSweep(m: bv2, p: Vec3, speed: real)
  {
    var c := SlideCoord(m, p);
    || SlideMin(m) <= c <= SlideMax(m)
    || (SlideMax(m) < c <= SlideMax(m) + speed && IsReversed(m))
    || (SlideMin(m) - speed <= c < SlideMin(m) && !IsReversed(m))
  }

  /** The moving block is one level above the top block, has its size, lines up
      with it across the sliding axis and sweeps along the sliding axis. */
  ghost predicate Armed(s: GameState)
    requires |s.blocks| > 0
  {
    var top := Top(s);
    && s.moving.position.y == |s.blocks| as real * HEIGHT
    && s.moving.width == top.width && s.moving.depth == top.depth
    && (if IsZMoving(s.movement) then s.moving.position.x == top.position.x
        else s.moving.position.z == top.position.z)
    && InSweep(s.movement, s.moving.position, s.speed)
  }

  /** The invariant of a game: a proper stack, a speed in (0, MAX_SPEED], a hidden
      moving block once the game is over, and an armed one while it is shown. */
  ghost predicate Consistent(s: GameState)
  {
    && Stacked(s.blocks)
    && 0.0 < s.speed <= MAX_SPEED
    && (s.gameOver ==> !s.movingVisible)
    && (s.movingVisible ==> Armed(s))
  }

  /** No reset is pending: the moving block is shown exactly while the game runs. */
  ghost predicate Settled(s: GameState)
  {
    s.gameOver == !s.movingVisible
  }

  /** `k * HEIGHT` is on the grid, HEIGHT being five steps. */
  lemma LevelOnGrid(k: int)
    ensures OnGrid(k as real * HEIGHT)
    ensures Fix(k as real * HEIGHT) == k as real * HEIGHT
  {
    assert Scaled(5 * k, FIX_VALUE) == k as real * HEIGHT;
    FixMultiple(5 * k);
  }

  /** The ends of the sliding interval are on the grid. */
  lemma BoundsFixed()
    ensures Fix(MAX_X) == MAX_X && Fix(MIN_X) == MIN_X
    ensures Fix(MAX_Z) == MAX_Z && Fix(MIN_Z) == MIN_Z
  {
    FixMultiple(50);
    FixMultiple(-50);
    assert Scaled(50, FIX_VALUE) == 12.0;
    assert Scaled(-50, FIX_VALUE) == -12.0;
  }

  /** `resetMovingBlock` over a well-placed top block at level n - 1 arms it. */
  lemma ArmedBlockLinesUp(top: BlockState, n: nat, m: bv2)
    requires n > 0 && WellPlaced(top) && top.position.y == (n - 1) as real * HEIGHT
    ensures var a := ArmedBlock(top, m);
      && a.position.y == n as real * HEIGHT
      && a.width == top.width && a.depth == top.depth
      && (if IsZMoving(m) then a.position.x == top.position.x else a.position.z == top.position.z)
      && SlideCoord(m, a.position) == (if IsReversed(m) then SlideMax(m) else SlideMin(m))
  {
    LevelOnGrid(n);
    assert top.position.y + HEIGHT == n as real * HEIGHT;
    BoundsFixed();
    FixKeepsGrid(top.position.x);
    FixKeepsGrid(top.position.z);
    FixKeepsGrid(top.width);
    FixKeepsGrid(top.depth);
  }

  /** After `resetMovingBlock` on a proper stack the moving block is armed. */
  lemma ResetMovingBlockArms(s: GameState)
    requires Stacked(s.blocks) && 0.0 < s.speed <= MAX_SPEED
    ensures var r := ResetMovingBlock(s); Armed(r) && 0.0 < r.speed <= MAX_SPEED
  {
    var n := |s.blocks|;
    ArmedBlockLinesUp(Top(s), n, s.movement);
  }

  /** The starting block alone is a proper stack. */
  lemma StartingStack()
    ensures WellPlaced(STARTING_BLOCK)
    ensures Stacked([STARTING_BLOCK])
  {
    StartingBlockFixed();
    var blocks := [STARTING_BLOCK];
    forall i | 0 <= i < |blocks|
      ensures WellPlaced(blocks[i]) && blocks[i].position.y == i as real * HEIGHT
    {
      assert i == 0;
    }
  }

  /** Bringing in a shown moving block at the starting speed over a proper stack
      gives a consistent, settled game. */
  lemma RestartConsistent(s: GameState)
    requires Stacked(s.blocks) && !s.gameOver
    ensures var r := ResetMovingBlock(s.(movingVisible := true)).(speed := STARTING_SPEED);
      Consistent(r) && Settled(r)
  {
    ArmedBlockLinesUp(Top(s), |s.blocks|, s.movement);
  }

  /** The starting state is consistent and settled. */
  lemma InitialConsistent(start: bv2)
    ensures Consistent(Initial(start)) && Settled(Initial(start))
  {
    var s0 := GameState(false, start, 0, [STARTING_BLOCK], STARTING_BLOCK, true, 0.0, []);
    StartingStack();
    RestartConsistent(s0);
    assert Initial(start) == ResetMovingBlock(s0.(movingVisible := true)).(speed := STARTING_SPEED);
  }

  /** The game `new Game()` hands over, after its first frame, is consistent and
      settled. */
  lemma {:induction false} StartedConsistent(start: bv2)
    ensures Consistent(Started(start)) && Settled(Started(start))
  {
    InitialConsistent(start);
    MoveTickConsistent(Initial(start));
    UpdateCutOffsConsistent(MoveTick(Initial(start)));
  }

  /** The block a hit pushes from a consistent state with a shown moving block is
      well placed one level above the top. */
  lemma PlacedBlockWellPlaced(s: GameState)
    requires Consistent(s) && s.movingVisible && !IsMiss(s)
    ensures WellPlaced(PlacedBlock(s))
    ensures PlacedBlock(s).position.y == |s.blocks| as real * HEIGHT
  {
    var o := Overlap(s);
    var top := Top(s);
    assert WellPlaced(top);
    LevelOnGrid(|s.blocks|);
    NewBlockQuantized(Width(o), Depth(o));
    FixOnGrid(o.left);
    FixOnGrid(o.back);
    FixOnGrid(s.moving.position.y);
    FixNonNegative(o.left);
    FixNonNegative(o.back);
  }

  /** A drop keeps a game consistent, unless it comes while a reset is pending; a
      settled game stays settled. */
  lemma StackBlockConsistent(s: GameState)
    requires Consistent(s) && (s.gameOver || s.movingVisible)
    ensures Consistent(StackBlock(s))
    ensures Settled(s) ==> Settled(StackBlock(s))
  {
    if !s.gameOver && !IsMiss(s) {
      StackBlockSuccess(s);
      PlacedBlockWellPlaced(s);
      var blocks := s.blocks + [PlacedBlock(s)];
      assert Stacked(blocks);
      ArmedBlockLinesUp(PlacedBlock(s), |blocks|, s.movement ^ 2);
    } else if !s.gameOver {
      StackBlockMiss(s);
    }
  }

  /** One frame of sliding keeps the block in its sweep. */
  lemma MoveTickKeepsSweep(s: GameState)
    requires 0.0 < s.speed <= MAX_SPEED
    requires InSweep(s.movement, s.moving.position, s.speed)
    ensures InSweep(MoveTick(s).movement, MoveTick(s).moving.position, MoveTick(s).speed)
  {
  }

  /** One frame of sliding keeps a game consistent and settled. */
  lemma MoveTickConsistent(s: GameState)
    requires Consistent(s)
    ensures Consistent(MoveTick(s))
    ensures Settled(s) ==> Settled(MoveTick(s))
  {
    if s.movingVisible {
      MoveTickKeepsSweep(s);
    }
  }

  /** One frame of falling slices keeps a game consistent and settled. */
  lemma UpdateCutOffsConsistent(s: GameState)
    requires Consistent(s)
    ensures Consistent(UpdateCutOffs(s))
    ensures Settled(s) ==> Settled(UpdateCutOffs(s))
  {
  }

  /** The reset button keeps a game consistent; what it leaves is a pending reset. */
  lemma OnResetClickConsistent(s: GameState, start: bv2)
    requires Consistent(s)
    ensures Consistent(OnResetClick(s, start))
  {
    StartingBlockFixed();
  }

  /** The deferred half of `reset` makes a running game consistent and settled. */
  lemma FinishResetConsistent(s: GameState)
    requires Consistent(s) && !s.gameOver
    ensures Consistent(FinishReset(s)) && Settled(FinishReset(s))
  {
    RestartConsistent(s);
  }

  /** A reset after a game over, once its deferred half has run, brings back the
      starting state with the new direction, except that the slices still falling
      are kept. */
  lemma ResetThenFinish(s: GameState, start: bv2)
    requires Consistent(s) && s.gameOver
    ensures FinishReset(OnResetClick(s, start)) == Initial(start).(cutOffs := s.cutOffs)
  {
  }
}
