/** The `Game` class (src/Game.ts): its simulation fields and the methods that
    update them in place. Every method is proved to do to `State()` what the
    matching function of Engine says. */
module Stacking {
  import opened Grid
  import opened Clamping
  import opened Tuning
  import opened Blocks
  import opened Engine

  class Game {
    var gameOver: bool
    var movement: bv2
    var score: nat
    /** The stack, bottom first; a pushed block is never changed again, so its
        state is kept as a value. */
    var blocks: seq<BlockState>
    var movingBlock: Block
    /** `movingBlock.userData.speed`. */
    var speed: real
    var cutOffBlocks: seq<CutOff>

    ghost predicate Valid()
      reads this
    {
      |blocks| > 0
    }

    function State(): GameState
      reads this, movingBlock
    {
      GameState(gameOver, movement, score, blocks, movingBlock.State(), movingBlock.visible, speed, cutOffBlocks)
    }

    /** The constructor: the state part of `init()`, with the random start
        direction as a parameter, then the first frame of `animate()`. The last
        steps of `init()` are those of the deferred reset, so they are run through
        `FinishReset`. */
    constructor (start: bv2)
      ensures Valid() && State() == Started(start)
    {
      gameOver := false;
      movement := start;
      score := 0;
      cutOffBlocks := [];
      var startingBlock := Block.CreateStartingBlock();
      blocks := [startingBlock.State()];
      var moving := Block.CreateStartingBlock();
      movingBlock := moving;
      speed := 0.0;
      new;
      ghost var s0 := State();
      assert s0 == Fresh(start);
      Boot(s0);
      StartedIsBoot(start, s0, State());
    }

    /** What the constructor does once the fields exist: `init()`'s last steps,
        which are those of the deferred reset, then the first frame of
        `animate()`. */
    method Boot(ghost s0: GameState)
      requires Valid() && State() == s0
      modifies this`speed, this`movement, this`cutOffBlocks, movingBlock
      ensures Valid() && State() == UpdateCutOffs(MoveTick(Engine.FinishReset(s0)))
    {
      FinishReset();
      Animate();
    }

    /** `animate()`'s two simulation steps. */
    method Animate()
      requires Valid()
      modifies this`movement, this`cutOffBlocks, movingBlock`position
      ensures Valid() && State() == UpdateCutOffs(MoveTick(old(State())))
    {
      UpdateMovingBlock();
      UpdateCutOffBlock();
    }

    /** `reset()`, state part: the new direction comes in as a parameter, the stack
        is cut back to its first block, and the moving block waits for
        `FinishReset`. */
    method Reset(start: bv2)
      requires Valid()
      modifies this`gameOver, this`movement, this`score, this`blocks
      ensures Valid() && State() == Engine.Reset(old(State()), start)
    {
      gameOver := false;
      movement := start;
      score := 0;
      blocks := blocks[..1];
    }

    /** The reset button's handler. */
    method OnResetClick(start: bv2)
      requires Valid()
      modifies this`gameOver, this`movement, this`score, this`blocks
      ensures Valid() && State() == Engine.OnResetClick(old(State()), start)
    {
      if gameOver {
        Reset(start);
      }
    }

    /** The callback `reset()` schedules. */
    method FinishReset()
      requires Valid()
      modifies this`speed, movingBlock
      ensures Valid() && State() == Engine.FinishReset(old(State()))
    {
      movingBlock.visible := true;
      ResetMovingBlock();
      speed := STARTING_SPEED;
    }

    /** `stop()`, state part. */
    method Stop()
      requires Valid()
      modifies this`gameOver, movingBlock`visible
      ensures Valid() && State() == Engine.Stop(old(State()))
    {
      gameOver := true;
      movingBlock.visible := false;
    }

    /** `stackBlock()`. */
    method StackBlock()
      requires Valid()
      modifies this`gameOver, this`movement, this`score, this`blocks, this`speed, this`cutOffBlocks, movingBlock
      ensures Valid() && State() == Engine.StackBlock(old(State()))
    {
      if gameOver {
        return;
      }
      ResetCutOffBlock();
      AddBlockToStack();
      if gameOver {
        return;
      }
      Advance();
    }

    /** The end of `stackBlock()` after a hit. */
    method Advance()
      requires Valid() && |cutOffBlocks| > 0
      modifies this`movement, this`score, this`speed, movingBlock
      ensures Valid() && State() == Engine.Advance(old(State()))
    {
      movement := movement ^ 2;
      ResetMovingBlock();
      var last := cutOffBlocks[|cutOffBlocks| - 1];
      score := score + (if last.opacity == 0.0 then PERFECT_STACK_SCORE_INCREASE else 0) + SCORE_INCREASE;
    }

    /** `addBlockToStack()`. */
    method AddBlockToStack()
      requires Valid()
      modifies this`blocks, this`gameOver, movingBlock`visible
      ensures Valid() && State() == Engine.AddBlockToStack(old(State()))
    {
      var m := movingBlock.BoundingBox();
      var t := BoundingBoxOf(blocks[|blocks| - 1]);
      var left := Clamp(m.left, t.left, t.right);
      var right := Clamp(m.right, t.left, t.right);
      var front := Clamp(m.front, t.back, t.front);
      var back := Clamp(m.back, t.back, t.front);
      var width := right - left;
      var depth := front - back;
      assert Footprint(left, right, back, front) == Overlap(State());
      if Fix(width) <= 0.0 || Fix(depth) <= 0.0 {
        Stop();
        return;
      }
      ghost var placed := PlacedBlock(State());
      var block := new Block(width, depth);
      block.SetPosition(left, movingBlock.position.y, back);
      assert block.State() == placed;
      blocks := blocks + [block.State()];
    }

    /** `updateMovingBlock()`. */
    method UpdateMovingBlock()
      requires Valid()
      modifies this`movement, movingBlock`position
      ensures Valid() && State() == MoveTick(old(State()))
    {
      var p := movingBlock.position;
      var isZ := IsZMoving(movement);
      var changing := if isZ then p.z != Clamp(p.z, MIN_Z, MAX_Z) else p.x != Clamp(p.x, MIN_X, MAX_X);
      movement := movement ^ (if changing then 1 else 0);
      var multiplier := if (!movement) & 1 != 0 then 1.0 else -1.0;
      var step := speed * multiplier;
      movingBlock.position := Vec3(p.x + step * (if isZ then 0.0 else 1.0), p.y, p.z + step * (if isZ then 1.0 else 0.0));
    }

    /** `resetMovingBlock()`. */
    method ResetMovingBlock()
      requires Valid()
      modifies this`speed, movingBlock
      ensures Valid() && State() == Engine.ResetMovingBlock(old(State()))
    {
      var isZ := IsZMoving(movement);
      var rev := IsReversed(movement);
      var top := blocks[|blocks| - 1];
      var t := BoundingBoxOf(top);
      var width := t.right - t.left;
      var depth := t.front - t.back;
      ghost var armed := ArmedBlock(top, movement);
      ghost var next := NextSpeed(speed, score);
      movingBlock.SetPosition(
        if isZ then t.left else if rev then MAX_X else MIN_X,
        top.position.y + HEIGHT,
        if isZ then (if rev then MAX_Z else MIN_Z) else t.back);
      assert movingBlock.position == armed.position;
      movingBlock.SetSize(width, depth);
      assert movingBlock.State() == armed;
      speed := speed + (MAX_SPEED - speed) / SPEED_DAMPING;
      speed := speed / (1.0 + (if score % SPEED_DECREASE_INTERVAL == 0 then SPEED_DECREASE else 0.0));
      assert speed == next;
    }

    /** `updateCutOffBlock()`: each slice falls and fades until one whose opacity
        has run out is met; that one is removed and the walk stops. */
    method UpdateCutOffBlock()
      requires Valid()
      modifies this`cutOffBlocks
      ensures Valid() && State() == UpdateCutOffs(old(State()))
    {
      ghost var cs := cutOffBlocks;
      var i := 0;
      while i < |cutOffBlocks|
        invariant 0 <= i <= |cs| && |cutOffBlocks| == |cs|
        invariant forall j :: 0 <= j < i ==> cs[j].opacity > 0.0
        invariant forall j :: 0 <= j < i ==> cutOffBlocks[j] == Fall(cs[j])
        invariant forall j :: i <= j < |cs| ==> cutOffBlocks[j] == cs[j]
      {
        if cutOffBlocks[i].opacity <= 0.0 {
          CutOffTickAt(cs, i, cutOffBlocks[..i]);
          assert cutOffBlocks[i + 1..] == cs[i + 1..];
          cutOffBlocks := cutOffBlocks[..i] + cutOffBlocks[i + 1..];
          return;
        }
        cutOffBlocks := cutOffBlocks[i := Fall(cutOffBlocks[i])];
        i := i + 1;
      }
      CutOffTickAt(cs, i, cutOffBlocks);
    }

    /** `resetCutOffBlock()`. */
    method ResetCutOffBlock()
      requires Valid()
      modifies this`cutOffBlocks
      ensures Valid() && State() == Engine.ResetCutOffBlock(old(State()))
    {
      var isZ := IsZMoving(movement);
      var m := movingBlock.BoundingBox();
      var t := BoundingBoxOf(blocks[|blocks| - 1]);
      var left := ClampOutside(m.left, t.left, t.right);
      var right := ClampOutside(m.right, t.left, t.right, true);
      var front := ClampOutside(m.front, t.back, t.front, true);
      var back := ClampOutside(m.back, t.back, t.front);
      var width := right - left;
      var depth := front - back;
      ghost var piece := CutOffPiece(State());
      assert Footprint(left, right, back, front) == Remainder(State());
      var block := new Block(width, depth);
      block.SetPosition(if isZ then movingBlock.position.x else left, movingBlock.position.y,
                        if isZ then back else movingBlock.position.z);
      var opacity := if Fix(width) != 0.0 && Fix(depth) != 0.0 then 1.0 else 0.0;
      assert CutOff(block.State(), opacity) == piece;
      cutOffBlocks := cutOffBlocks + [CutOff(block.State(), opacity)];
    }
  }
}
