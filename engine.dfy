/** The game's state and its transitions as values (src/Game.ts). Each function
    here is the effect of one method of the `Game` class on the fields it touches;
    the class in game.dfy is proved to follow them. */
module Engine {
  import opened Quantizer
  import opened Grid
  import opened Clamping
  import opened Tuning
  import opened Blocks

  const SCORE_INCREASE: nat := 1
  const PERFECT_STACK_SCORE_INCREASE: nat := 2

  /** A falling slice: the block it is and the opacity of its material. */
  datatype CutOff = CutOff(block: BlockState, opacity: real)

  /** The horizontal extents of a slice, the way the game computes them. */
  datatype Footprint = Footprint(left: real, right: real, back: real, front: real)

  function Width(f: Footprint): real { f.right - f.left }
  function Depth(f: Footprint): real { f.front - f.back }

  /** The fields of a `Game` that its simulation reads and writes. `movement` is a
      two-bit word: bit 1 set means the block slides along z, bit 0 clear means it
      slides toward +. `moving` and `speed` are the moving block and its
      `userData.speed`. */
  datatype GameState = GameState(
    gameOver: bool,
    movement: bv2,
    score: nat,
    blocks: seq<BlockState>,
    moving: BlockState,
    movingVisible: bool,
    speed: real,
    cutOffs: seq<CutOff>)

  /** `blocks.slice(-1)[0]`, the top of the stack. */
  function Top(s: GameState): BlockState
    requires |s.blocks| > 0
  {
    s.blocks[|s.blocks| - 1]
  }

  /** `!!(movement & 2)`. */
  predicate IsZMoving(m: bv2)
  {
    m & 2 != 0
  }

  /** `!(movement & 1)`: bit 0 clear, the block moves toward + and a fresh one
      starts at the maximum. */
  predicate IsReversed(m: bv2)
  {
    m & 1 == 0
  }

  /** The part of the moving block that lies over the top block: each edge of the
      moving block clamped into the top block's extent (src/Game.ts:286-292). */
  function Overlap(s: GameState): (o: Footprint)
    requires |s.blocks| > 0
    ensures BoundingBoxOf(Top(s)).left <= o.left <= BoundingBoxOf(Top(s)).right
    ensures BoundingBoxOf(Top(s)).left <= o.right <= BoundingBoxOf(Top(s)).right
    ensures BoundingBoxOf(Top(s)).back <= o.back <= BoundingBoxOf(Top(s)).front
    ensures BoundingBoxOf(Top(s)).back <= o.front <= BoundingBoxOf(Top(s)).front
    ensures o.left <= o.right && o.back <= o.front
  {
    var m := BoundingBoxOf(s.moving);
    var t := BoundingBoxOf(Top(s));
    ClampMonotone(m.left, m.right, t.left, t.right);
    ClampMonotone(m.back, m.front, t.back, t.front);
    Footprint(Clamp(m.left, t.left, t.right), Clamp(m.right, t.left, t.right),
              Clamp(m.back, t.back, t.front), Clamp(m.front, t.back, t.front))
  }

  /** The part of the moving block that hangs over: each edge of the moving block
      that lies strictly inside the top block's extent is pushed out to the end
      given by `clampOutside` (src/Game.ts:377-383). */
  function Remainder(s: GameState): Footprint
    requires |s.blocks| > 0
  {
    var m := BoundingBoxOf(s.moving);
    var t := BoundingBoxOf(Top(s));
    Footprint(ClampOutside(m.left, t.left, t.right), ClampOutside(m.right, t.left, t.right, true),
              ClampOutside(m.back, t.back, t.front), ClampOutside(m.front, t.back, t.front, true))
  }

  /** The miss test of `addBlockToStack`: the overlap is less than half a grid step
      wide or deep, so its snapped width or depth is not positive. */
  predicate IsMiss(s: GameState)
    requires |s.blocks| > 0
  {
    var o := Overlap(s);
    Fix(Width(o)) <= 0.0 || Fix(Depth(o)) <= 0.0
  }

  /** The block `addBlockToStack` pushes: the overlap, built as a new block and moved
      to its left/back corner at the moving block's height. */
  function PlacedBlock(s: GameState): BlockState
    requires |s.blocks| > 0
  {
    var o := Overlap(s);
    NewBlockState(Width(o), Depth(o)).(position := Vec3(Fix(o.left), Fix(s.moving.position.y), Fix(o.back)))
  }

  /** The slice `resetCutOffBlock` pushes. On the sliding axis it spans the
      remainder; on the other it stays where the moving block is. Its opacity is 1
      when both snapped sides are non-zero, 0 otherwise. */
  function CutOffPiece(s: GameState): CutOff
    requires |s.blocks| > 0
  {
    var r := Remainder(s);
    var p := s.moving.position;
    var isZ := IsZMoving(s.movement);
    var block := NewBlockState(Width(r), Depth(r)).(position :=
      Vec3(Fix(if isZ then p.x else r.left), Fix(p.y), Fix(if isZ then r.back else p.z)));
    CutOff(block, if Fix(Width(r)) != 0.0 && Fix(Depth(r)) != 0.0 then 1.0 else 0.0)
  }

  /** `resetCutOffBlock()`. */
  function ResetCutOffBlock(s: GameState): GameState
    requires |s.blocks| > 0
  {
    s.(cutOffs := s.cutOffs + [CutOffPiece(s)])
  }

  /** The state part of `stop()`. */
  function Stop(s: GameState): GameState
  {
    s.(gameOver := true, movingVisible := false)
  }

  /** `addBlockToStack()`. */
  function AddBlockToStack(s: GameState): GameState
    requires |s.blocks| > 0
  {
    if IsMiss(s) then Stop(s) else s.(blocks := s.blocks + [PlacedBlock(s)])
  }

  /** The speed update at the end of `resetMovingBlock`: ease toward MAX_SPEED, then
      slow down when the score is a multiple of SPEED_DECREASE_INTERVAL. */
  function NextSpeed(speed: real, score: nat): (r: real)
    ensures 0.0 < speed <= MAX_SPEED ==> 0.0 < r <= MAX_SPEED
    ensures score % SPEED_DECREASE_INTERVAL != 0 && speed < MAX_SPEED ==> speed < r < MAX_SPEED
    ensures score % SPEED_DECREASE_INTERVAL == 0 && speed > 0.0 ==> r < speed + (MAX_SPEED - speed) / SPEED_DAMPING
  {
    var eased := speed + (MAX_SPEED - speed) / SPEED_DAMPING;
    eased / (1.0 + (if score % SPEED_DECREASE_INTERVAL == 0 then SPEED_DECREASE else 0.0))
  }

  /** Where `resetMovingBlock` puts the moving block: on the sliding axis at the
      maximum (bit 0 clear) or the minimum (bit 0 set), on the other axis at the top
      block's left or back, one HEIGHT above the top block, with the top block's
      width and depth. */
  function ArmedBlock(top: BlockState, movement: bv2): BlockState
  {
    var t := BoundingBoxOf(top);
    var isZ := IsZMoving(movement);
    var rev := IsReversed(movement);
    var x := if isZ then t.left else if rev then MAX_X else MIN_X;
    var y := top.position.y + HEIGHT;
    var z := if isZ then (if rev then MAX_Z else MIN_Z) else t.back;
    BlockState(Vec3(Fix(x), Fix(y), Fix(z)), Fix(t.right - t.left), Fix(t.front - t.back))
  }

  /** `resetMovingBlock()`. */
  function ResetMovingBlock(s: GameState): GameState
    requires |s.blocks| > 0
  {
    s.(moving := ArmedBlock(Top(s), s.movement), speed := NextSpeed(s.speed, s.score))
  }

  /** What a drop adds to the score: SCORE_INCREASE, plus
      PERFECT_STACK_SCORE_INCREASE when the slice cut off has opacity 0. */
  function ScoreGain(piece: CutOff): (g: nat)
    ensures g == 1 || g == 3
  {
    (if piece.opacity == 0.0 then PERFECT_STACK_SCORE_INCREASE else 0) + SCORE_INCREASE
  }

  /** `stackBlock()`: cut off the overhang, push the overlap or stop, then switch
      the axis, bring in the next moving block and score. */
  function StackBlock(s: GameState): (r: GameState)
    requires |s.blocks| > 0
    ensures |r.blocks| > 0
  {
    if s.gameOver then s
    else
      var s1 := AddBlockToStack(ResetCutOffBlock(s));
      if s1.gameOver then s1 else Advance(s1)
  }

  /** The end of `stackBlock()` after a hit: switch the axis, bring in the next
      moving block and score the slice just cut off. */
  function Advance(s: GameState): GameState
    requires |s.blocks| > 0 && |s.cutOffs| > 0
  {
    var s2 := ResetMovingBlock(s.(movement := s.movement ^ 2));
    s2.(score := s2.score + ScoreGain(s2.cutOffs[|s2.cutOffs| - 1]))
  }

  /** The coordinate the moving block slides along. */
  function SlideCoord(m: bv2, p: Vec3): real
  {
    if IsZMoving(m) then p.z else p.x
  }

  function SlideMin(m: bv2): real { if IsZMoving(m) then MIN_Z else MIN_X }
  function SlideMax(m: bv2): real { if IsZMoving(m) then MAX_Z else MAX_X }

  /** `updateMovingBlock()`: bounce (flip bit 0) when the sliding coordinate is
      outside its interval, then move by `speed` along the sliding axis. The
      position is not snapped here. */
  function MoveTick(s: GameState): (r: GameState)
    ensures r.moving.width == s.moving.width && r.moving.depth == s.moving.depth
    ensures r.moving.position.y == s.moving.position.y
    ensures IsZMoving(r.movement) == IsZMoving(s.movement)
    ensures IsReversed(r.movement) != IsReversed(s.movement)
        <==> !(SlideMin(s.movement) <= SlideCoord(s.movement, s.moving.position) <= SlideMax(s.movement))
    ensures SlideCoord(s.movement, r.moving.position)
         == SlideCoord(s.movement, s.moving.position) + (if IsReversed(r.movement) then s.speed else -s.speed)
    ensures IsZMoving(s.movement) ==> r.moving.position.x == s.moving.position.x
    ensures !IsZMoving(s.movement) ==> r.moving.position.z == s.moving.position.z
    ensures r.(movement := s.movement, moving := s.moving) == s
  {
    var p := s.moving.position;
    var isZ := IsZMoving(s.movement);
    var changing := if isZ then p.z != Clamp(p.z, MIN_Z, MAX_Z) else p.x != Clamp(p.x, MIN_X, MAX_X);
    var movement := s.movement ^ (if changing then 1 else 0);
    var multiplier := if (!movement) & 1 != 0 then 1.0 else -1.0;
    var step := s.speed * multiplier;
    var moved := Vec3(p.x + step * (if isZ then 0.0 else 1.0), p.y, p.z + step * (if isZ then 1.0 else 0.0));
    s.(movement := movement, moving := s.moving.(position := moved))
  }

  /** One frame of falling for a slice. */
  function Fall(c: CutOff): CutOff
  {
    var p := c.block.position;
    CutOff(c.block.(position := p.(y := p.y + GRAVITY)), c.opacity - FADE_OUT_SPEED)
  }

  /** The index of the first slice whose opacity has run out, |cs| when none has. */
  function FirstSpent(cs: seq<CutOff>): (i: nat)
    ensures i <= |cs|
    ensures i < |cs| ==> cs[i].opacity <= 0.0
    ensures forall j :: 0 <= j < i ==> cs[j].opacity > 0.0
  {
    if cs == [] then 0
    else if cs[0].opacity <= 0.0 then 0
    else 1 + FirstSpent(cs[1..])
  }

  /** `updateCutOffBlock()` on the list of slices: walk the list; a spent slice is
      removed and the walk ends; every slice before it falls one frame. */
  function CutOffTick(cs: seq<CutOff>): (r: seq<CutOff>)
  {
    if cs == [] then []
    else if cs[0].opacity <= 0.0 then cs[1..]
    else [Fall(cs[0])] + CutOffTick(cs[1..])
  }

  /** The walk of `updateCutOffBlock` stopped at `i`: the slices before it were all
      live and have fallen (`done`), and `i` is the end or a spent slice. Then
      `CutOffTick` is `done` followed by what lies after `i`. */
  lemma {:induction false} CutOffTickAt(cs: seq<CutOff>, i: nat, done: seq<CutOff>)
    requires i <= |cs| && |done| == i
    requires forall j :: 0 <= j < i ==> cs[j].opacity > 0.0 && done[j] == Fall(cs[j])
    requires i < |cs| ==> cs[i].opacity <= 0.0
    ensures CutOffTick(cs) == done + (if i < |cs| then cs[i + 1..] else [])
    decreases i
  {
    if i > 0 {
      var tail := cs[1..];
      assert forall j :: 0 <= j < i - 1 ==> tail[j] == cs[j + 1] && done[1..][j] == done[j + 1];
      CutOffTickAt(tail, i - 1, done[1..]);
      assert i < |cs| ==> tail[i..] == cs[i + 1..];
      assert done == [done[0]] + done[1..];
    }
  }

  /** Every slice of `cs` fallen one frame. */
  function FallAll(cs: seq<CutOff>): (r: seq<CutOff>)
    ensures |r| == |cs| && forall j :: 0 <= j < |cs| ==> r[j] == Fall(cs[j])
  {
    seq(|cs|, j requires 0 <= j < |cs| => Fall(cs[j]))
  }

  /** `CutOffTick` in closed form: the slices before the first spent one fall, the
      spent one is removed, and those after it are left as they are. */
  lemma CutOffTickClosed(cs: seq<CutOff>)
    ensures var i := FirstSpent(cs);
            CutOffTick(cs) == FallAll(cs[..i]) + (if i < |cs| then cs[i + 1..] else [])
  {
    var i := FirstSpent(cs);
    CutOffTickAt(cs, i, FallAll(cs[..i]));
  }

  /** The state part of the per-frame `updateCutOffBlock()`. */
  function UpdateCutOffs(s: GameState): GameState
  {
    s.(cutOffs := CutOffTick(s.cutOffs))
  }

  /** The state part of `reset()`, with the random direction as a parameter. The slices
      still falling are kept and the moving block is left where it is. */
  function Reset(s: GameState, start: bv2): (r: GameState)
    requires |s.blocks| > 0
    ensures !r.gameOver && r.score == 0 && r.movement == start
    ensures r.blocks == [s.blocks[0]]
    ensures r.moving == s.moving && r.movingVisible == s.movingVisible
    ensures r.speed == s.speed && r.cutOffs == s.cutOffs
  {
    s.(gameOver := false, movement := start, score := 0, blocks := s.blocks[..1])
  }

  /** The reset button's handler: `gameOver && reset()`. */
  function OnResetClick(s: GameState, start: bv2): (r: GameState)
    requires |s.blocks| > 0
    ensures !s.gameOver ==> r == s
    ensures s.gameOver ==> !r.gameOver && r.score == 0 && |r.blocks| == 1
  {
    if s.gameOver then Reset(s, start) else s
  }

  /** The callback `reset()` defers through `setTimeout`: show the moving block,
      bring it in over the top and restore the starting speed. */
  function FinishReset(s: GameState): GameState
    requires |s.blocks| > 0
  {
    ResetMovingBlock(s.(movingVisible := true)).(speed := STARTING_SPEED)
  }

  /** The fields as the constructor sets them, before `init()` brings in the moving
      block: the stack holds the starting block, the moving block is a second
      starting block, no speed is set yet (0 stands for it) and nothing falls. */
  function Fresh(start: bv2): GameState
  {
    GameState(false, start, 0, [STARTING_BLOCK], STARTING_BLOCK, true, 0.0, [])
  }

  /** The state `init()` leaves, with the random direction as a parameter: it
      runs `resetMovingBlock` and then sets the starting speed, which overwrites
      whatever `resetMovingBlock` made of the unset one. */
  function Initial(start: bv2): GameState
  {
    ResetMovingBlock(Fresh(start)).(speed := STARTING_SPEED)
  }

  /** `init()` does what the deferred half of `reset` does; the moving block is
      shown already. */
  lemma InitialIsFinishReset(start: bv2, s: GameState, r: GameState)
    requires s == Fresh(start) && r == FinishReset(s)
    ensures r == Initial(start)
  {
  }

  /** The state `new Game()` leaves: `init()` and then the first frame of
      `animate()`, which `init()` is followed by in the constructor. */
  function Started(start: bv2): GameState
  {
    UpdateCutOffs(MoveTick(Initial(start)))
  }

  /** `init()`'s last steps and the first frame, run on the freshly built fields,
      give `Started`. */
  lemma StartedIsBoot(start: bv2, s: GameState, r: GameState)
    requires s == Fresh(start) && r == UpdateCutOffs(MoveTick(FinishReset(s)))
    ensures r == Started(start)
  {
    InitialIsFinishReset(start, s, FinishReset(s));
  }
}
