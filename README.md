# stack-up: the stacking engine in Dafny

stack-up is a browser block-stacking game. A block slides back and forth above
the top of a tower; a tap drops it. The part that overlaps the block below stays
on the tower, and the part that hangs over falls away as a fading slice. A drop
that misses ends the game. A drop whose overhang is too thin to survive rounding
earns a bonus.

This project models the simulation core of the game. The modules are:

- `Quantizer` (quantizer.dfy): `roundToNearest`, with JavaScript's truncating `%`.
- `Grid` (grid.dfy): that rounding at the one step the game uses,
  `Block.FIX_VALUE = 0.24`, with its properties. These are: nearest multiple,
  half up, toward zero for negative values, idempotent, monotone, and zero below
  half a step.
- `Clamping` (clamping.dfy): `THREE.MathUtils.clamp` and `clampOutside`.
- `Tuning` (tuning.dfy): the constants of src/constants/BLOCKS.ts.
- `Blocks` (blocks.dfy): the block mesh of src/Block.ts. It is a class whose
  `setPosition` and `setSize` snap to the grid, plus `getBoundingBox` as a
  function of position and size.
- `LegacyBlocks` (legacy_block.dfy): the older mesh of src/meshes/Block.ts and its
  `getSidePositions`.
- `Engine` (engine.dfy): the state of a `Game` as a value. Each method of the
  class has its effect written as a function of that value.
- `StackLaws` (stack_laws.dfy): what a drop, a frame and a reset do. This takes
  in miss, hit and score, and the game invariant `Consistent` that they preserve.
  `Consistent` means all of the following:
  - the tower stands on the starting block, one `HEIGHT` per level;
  - every block is on the grid, has a positive size, and has x >= 0 and z >= 0;
  - the speed lies in (0, MAX_SPEED];
  - once the game is over, the moving block is hidden;
  - a shown moving block is armed: one level above the top, with the top's size,
    lined up with it across the sliding axis, and within its sweep. The sweep
    allows at most one step outside the interval, and only while the direction
    still points out.
- `DropLaws` (drop_laws.dfy): how the offset of the moving block decides the
  outcome of a drop. It covers miss, plain hit and bonus. It also shows that
  rounding can make a new block reach one grid step past the block below, with
  a concrete drop where this happens.
- `Stacking` (game.dfy): the `Game` class. Its fields are updated in place.
  Each method is proved to change `State()` exactly as the matching `Engine`
  function says.
- `Sorting` (sorting.dfy): `sortByKey`. It is an in-place insertion sort on an
  array, proved equal to a stable functional sort. That sort is proved
  ascending, a permutation and stable.

Numbers are exact reals. The random start direction (`randInt(0, 3)`) is a
parameter of the constructor and of `Reset`.

Some of what the code does may not be what a reader expects. The model follows
the code:

- **Movement bits.** Bit 1 of `movement` is the axis, set meaning z. Bit 0 is
  the direction, clear meaning the block moves toward + after being brought in
  at the maximum. The doc comment at src/Game.ts:59-62 lists the axis bit
  first and the direction bit second, which reads the other way round.
- **Direction flips.** `updateMovingBlock` tests the bound before it moves. The
  block therefore goes at most one step past a bound and then turns
  (`MoveTick`, `StackLaws.InSweep`).
- **Exact alignment.** A perfectly aligned drop scores 1, not 3. The cut-off
  slice of an aligned drop is the whole block, because `clampOutside` leaves
  edges that coincide unchanged, so the slice is opaque. The bonus comes only
  from an offset that is non-zero and under half a step
  (`DropLaws.DropOffset`, `DropLaws.AlignedDropScoresOne`).
- **Reset.** `reset` does not clear the falling slices. It brings the moving
  block back only in a deferred callback, modelled as `FinishReset`. Between
  the two, a drop is accepted; invariants that need the moving block armed
  require that no reset is pending.

## Model

| member | source | states |
|---|---|---|
| Quantizer.Trunc | src/utils/roundToNearest.ts:2 | the quotient truncated toward zero lies between it and the next integer away from zero, as JavaScript's `%` uses it |
| Quantizer.JsRem | src/utils/roundToNearest.ts:2 | body only: x minus step times the truncated quotient; `Grid.JsRemRange` states its sign and range at FIX_VALUE |
| Quantizer.RoundToNearest | src/utils/roundToNearest.ts:1-5 | body only: x minus the remainder, plus one step when the remainder is at least half a step; the `Grid` lemmas (Grid.FixIsNearestMultiple and those below it) characterise it at FIX_VALUE |
| Grid.Fix | src/Block.ts:11 | body only: `roundToNearest(v, Block.FIX_VALUE)`; Grid.FixIsNearestMultiple, Grid.FixOnGrid, Grid.FixNonNegative, Grid.FixNegative, Grid.FixIdempotent and Grid.FixMonotone characterise it |
| Grid.FixIsNearestMultiple | src/utils/roundToNearest.ts:1-5 | rounding returns the multiple of the step with the reference index: half up for x >= 0, truncated for x < 0 |
| Grid.JsRemRange | src/utils/roundToNearest.ts:2 | the remainder has the sign of x and is smaller than the step in magnitude |
| Grid.FixOnGrid | src/utils/roundToNearest.ts:1-5 | every result is a multiple of the step |
| Grid.FixNonNegative | src/utils/roundToNearest.ts:2-4 | for x >= 0 the result is a non-negative multiple within (x - step/2, x + step/2] |
| Grid.FixTie | src/utils/roundToNearest.ts:4 | at a remainder of exactly step/2 (only possible for x >= 0) the result is x + step/2, the higher of two equally near multiples |
| Grid.FixNegative | src/utils/roundToNearest.ts:2-4 | for x < 0 the result is in [x, 0] and is the least multiple of the step that is >= x |
| Grid.FixMultiple | src/utils/roundToNearest.ts:2-4 | a multiple of the step is left unchanged |
| Grid.FixKeepsGrid | src/utils/roundToNearest.ts:2-4 | any value on the grid is a fixed point |
| Grid.FixIdempotent | src/utils/roundToNearest.ts:2-4 | rounding twice equals rounding once |
| Grid.FixMonotone | src/utils/roundToNearest.ts:2-4 | x <= y implies round(x) <= round(y) |
| Grid.FixZeroIff | src/utils/roundToNearest.ts:4 | for x >= 0 the result is 0 exactly when x < step/2 |
| Grid.TieIndex | src/utils/roundToNearest.ts:4 | for x >= 0, a tie is exactly the case where the chosen index is x/step + 1/2 |
| Grid.GridGap | src/Block.ts:11 | two distinct grid values differ by at least FIX_VALUE |
| Grid.FixHalfUpIff | src/utils/roundToNearest.ts:4 | for x >= 0 the result is x + step/2 exactly at a tie |
| Clamping.Min | src/utils/clampOutside.ts:5 | `Math.min` is at most both arguments and is one of them |
| Clamping.Max | src/utils/clampOutside.ts:6 | `Math.max` is at least both arguments and is one of them |
| Clamping.Clamp | src/Game.ts:286-289 | the result lies in [lo, hi]; a value inside is kept; one below goes to lo and one above to hi |
| Clamping.ClampOutside | src/utils/clampOutside.ts:1-7 | a value on or outside the ends is kept; one strictly inside goes to min when clampToMin holds and to max otherwise; the result is never strictly inside |
| Clamping.ClampIdempotent | src/Game.ts:286-289 | clamping a clamped value changes nothing |
| Clamping.ClampOutsideIdempotent | src/utils/clampOutside.ts:1-7 | pushing a pushed-out value out again changes nothing |
| Clamping.ClampMonotone | src/Game.ts:286-289 | clamping preserves order, so clamped left <= clamped right |
| Blocks.BoundingBoxOf | src/Block.ts:45-68 | the box spans [x, x+w] x [y-H/2, y+H/2] x [z, z+d] for non-negative sizes; width, height and depth are the differences of its faces; a negative size gives a reversed span of the same length |
| Blocks.NewBlockState | src/Block.ts:13-20 | a new block stands at the origin, and a non-negative requested size stays non-negative after snapping |
| Blocks.FixKeepsSign | src/Block.ts:35-37 | snapping a non-negative size gives a non-negative size |
| Blocks.NewBlockQuantized | src/Block.ts:13-20 | a new block's position and size are on the grid, whatever size was requested |
| Blocks.StartingBlockFixed | src/Block.ts:22-25 | the starting block is the 12 x 12 block at the origin, unchanged by snapping, and is on the grid |
| Blocks.Block.constructor | src/Block.ts:13-20 | the new mesh holds the snapped size at the origin, is visible, and is on the grid |
| Blocks.Block.CreateStartingBlock | src/Block.ts:22-25 | returns a fresh visible block equal to STARTING_BLOCK |
| Blocks.Block.SetPosition | src/Block.ts:27-33 | the position becomes the three snapped coordinates, all on the grid; size and visibility are unchanged |
| Blocks.Block.SetSize | src/Block.ts:35-43 | width and depth become the snapped sizes, on the grid; position and visibility are unchanged |
| LegacyBlocks.NewMeshBlock | src/meshes/Block.ts:7-14 | the mesh is at the origin with the given width and depth and height 1 |
| LegacyBlocks.SidePositions | src/meshes/Block.ts:16-28 | body only: the six faces from the position and the geometry parameters; LegacyBlocks.SidesSpan, LegacyBlocks.SidesMatchRenderedBox and LegacyBlocks.NegativeWidthInverted characterise it |
| LegacyBlocks.RenderedBox | src/meshes/Block.ts:8-11 | the translated geometry spans an interval that is never inverted on each axis, whatever the sign of the sizes |
| LegacyBlocks.SidesSpan | src/meshes/Block.ts:16-28 | left = x, back = z, bottom = y; right - left = width, front - back = depth, top - bottom = height |
| LegacyBlocks.NewMeshSpan | src/meshes/Block.ts:20-22 | for a constructed mesh, bottom = y and top = y + HEIGHT with HEIGHT = 1 |
| LegacyBlocks.SidesMatchRenderedBox | src/meshes/Block.ts:8-27 | for non-negative sizes the sides equal the rendered geometry horizontally and sit half a height above it vertically |
| LegacyBlocks.NegativeWidthInverted | src/meshes/Block.ts:16-28 | a negative width gives right < left, the rendered span reversed |
| LegacyBlocks.SidesMatchBoundingBox | src/meshes/Block.ts:16-28 | for non-negative sizes left, right, back and front agree with the current block's bounding box |
| Engine.Overlap | src/Game.ts:286-292 | the overlap footprint lies inside the top block's extents and is never inverted |
| Engine.Remainder | src/Game.ts:377-383 | body only: the four clampOutside calls; DropLaws.RemainderAlong and DropLaws.ArmedSpans characterise it |
| Engine.IsMiss | src/Game.ts:294 | body only: the snapped overlap width or depth is not positive; DropLaws.DropOffset characterises it by the offset |
| Engine.PlacedBlock | src/Game.ts:299-300 | body only: a new block of the overlap size moved to the overlap's left/back corner at the moving block's height; StackLaws.PlacedBlockWellPlaced and DropLaws.PlacedFootprint characterise it |
| Engine.CutOffPiece | src/Game.ts:382-387 | body only: the remainder as a new block, positioned by axis, with opacity 1 exactly when both snapped sides are non-zero; DropLaws.DropOffset and DropLaws.AlignedDropScoresOne state what it scores |
| Engine.ResetCutOffBlock | src/Game.ts:360-392 | body only: CutOffPiece is appended to the slices; StackLaws.StackBlockMiss and StackLaws.StackBlockSuccess state its effect within a drop |
| Engine.Stop | src/Game.ts:189-191 | body only: gameOver set and the moving block hidden; StackLaws.StackBlockMiss states it within a drop |
| Engine.AddBlockToStack | src/Game.ts:272-303 | body only: stop on a miss, else push PlacedBlock; StackLaws.StackBlockMiss and StackLaws.StackBlockSuccess characterise it |
| Engine.NextSpeed | src/Game.ts:342-343 | a speed in (0, MAX] stays in (0, MAX]; off the decrease interval it strictly rises but stays below MAX; on it, the result is below the eased speed |
| Engine.ArmedBlock | src/Game.ts:318-340 | body only: the placement and size resetMovingBlock gives the moving block; StackLaws.ArmedBlockLinesUp characterises it |
| Engine.ResetMovingBlock | src/Game.ts:318-344 | body only: ArmedBlock and NextSpeed; StackLaws.ResetMovingBlockArms characterises it |
| Engine.ScoreGain | src/Game.ts:266 | a drop scores 1 or 3 |
| Engine.StackBlock | src/Game.ts:245-270 | the stack is never left empty |
| Engine.Advance | src/Game.ts:258-266 | body only: switch the axis, resetMovingBlock, add ScoreGain of the last slice; StackLaws.StackBlockSuccess and StackLaws.StackBlockScore characterise it |
| Engine.MoveTick | src/Game.ts:305-316 | the axis is kept; the direction flips exactly when the sliding coordinate is outside its bounds; that coordinate moves by speed in the new direction; the other axis, the height, the size and every other field are unchanged |
| Engine.Fall | src/Game.ts:355-356 | body only: one GRAVITY step down and one FADE_OUT_SPEED off the opacity; Engine.FallAll and Engine.CutOffTickClosed use it |
| Engine.CutOffTick | src/Game.ts:346-358 | body only: the walk of updateCutOffBlock on the slice list; Engine.CutOffTickAt and Engine.CutOffTickClosed characterise it |
| Engine.FirstSpent | src/Game.ts:347-353 | the index of the first slice with opacity <= 0, or the length when there is none |
| Engine.CutOffTickAt | src/Game.ts:346-358 | when the walk stops at i, because slice i is the first spent one or the list ends, the result is the slices before i fallen one frame followed by the slices after i: the spent slice is removed and the later ones are untouched |
| Engine.CutOffTickClosed | src/Game.ts:346-358 | the per-frame tick in closed form: the slices before the first spent one (FirstSpent) fall one frame, the spent one is removed, and those after it are left as they are |
| Engine.UpdateCutOffs | src/Game.ts:346-358 | body only: CutOffTick on the state's slices; StackLaws.UpdateCutOffsConsistent states what it preserves |
| Engine.Reset | src/Game.ts:161-175 | the game is running again with score 0, the new direction and only the base block; the moving block, speed and slices are untouched |
| Engine.OnResetClick | src/Game.ts:130 | the reset button does nothing while playing and resets after a game over |
| Engine.FinishReset | src/Game.ts:178-182 | body only: show, resetMovingBlock, starting speed; StackLaws.FinishResetConsistent and StackLaws.ResetThenFinish characterise it |
| Engine.Fresh | src/Game.ts:56-117 | body only: the fields the constructor and `init()` set before the moving block is brought in; Engine.InitialIsFinishReset relates it to FinishReset |
| Engine.Initial | src/Game.ts:114-119 | body only: the state `init()` leaves; Engine.InitialIsFinishReset and StackLaws.InitialConsistent characterise it |
| Engine.Started | src/Game.ts:71-72 | body only: Initial followed by one frame of `animate()`; Engine.StartedIsBoot and StackLaws.StartedConsistent characterise it |
| Engine.InitialIsFinishReset | src/Game.ts:114-119 | init's last steps are the deferred half of reset applied to the freshly built fields |
| Engine.StartedIsBoot | src/Game.ts:71-72 | init's last steps and then the first frame of `animate()`, applied to the freshly built fields, give `Started` |
| StackLaws.ToggleAxis | src/Game.ts:258 | `movement ^= 2` switches the axis and keeps the direction |
| StackLaws.StackBlockWhileOver | src/Game.ts:246 | after a game over a drop changes nothing |
| StackLaws.StackBlockMiss | src/Game.ts:245-297 | a miss ends the game and hides the moving block; stack, score, direction, moving block and speed are kept; the slice is still pushed |
| StackLaws.StackBlockSuccess | src/Game.ts:245-270 | a hit pushes exactly the overlap block and one slice, switches the axis, arms the next block over the new top with the eased speed, and adds ScoreGain of the new slice |
| StackLaws.StackBlockScore | src/Game.ts:266 | the score goes up by the slice's gain on a hit and is unchanged otherwise |
| StackLaws.LevelOnGrid | src/Block.ts:8-11 | every level k * HEIGHT is on the grid and unchanged by snapping |
| StackLaws.BoundsFixed | src/constants/BLOCKS.ts:8-11 | the sliding bounds are on the grid |
| StackLaws.ArmedBlockLinesUp | src/Game.ts:318-340 | a block brought in over a well-placed top at level n-1 is at level n, has its size, lines up across the sliding axis, and starts at MAX or MIN by bit 0 |
| StackLaws.ResetMovingBlockArms | src/Game.ts:318-344 | over a proper stack, resetMovingBlock arms the moving block and keeps the speed in (0, MAX] |
| StackLaws.StartingStack | src/Game.ts:114-115 | the starting block alone is a proper stack |
| StackLaws.RestartConsistent | src/Game.ts:178-182 | showing the block, arming it and restoring the starting speed over a proper stack gives a consistent, settled game |
| StackLaws.InitialConsistent | src/Game.ts:114-119 | the state `init()` leaves is consistent and settled |
| StackLaws.StartedConsistent | src/Game.ts:71-72 | the state after construction, `init()` followed by the first frame of `animate()`, is consistent and settled |
| StackLaws.PlacedBlockWellPlaced | src/Game.ts:286-301 | the block a hit pushes is on the grid, has a positive size, is not left of or behind the base, and sits one level above the top |
| StackLaws.StackBlockConsistent | src/Game.ts:245-270 | a drop keeps a consistent game consistent, unless a reset is pending, and keeps it settled |
| StackLaws.MoveTickKeepsSweep | src/Game.ts:305-316 | one frame keeps the block at most one step outside its interval; when outside, the direction still points out, so the next frame turns it back |
| StackLaws.MoveTickConsistent | src/Game.ts:305-316 | one frame of sliding keeps the game consistent and settled |
| StackLaws.UpdateCutOffsConsistent | src/Game.ts:346-358 | one frame of falling slices keeps the game consistent and settled |
| StackLaws.OnResetClickConsistent | src/Game.ts:161-175 | the reset button keeps the game consistent |
| StackLaws.FinishResetConsistent | src/Game.ts:178-182 | the deferred half of reset makes a running game consistent and settled |
| StackLaws.ResetThenFinish | src/Game.ts:161-182 | reset after a game over, then its deferred half, gives the starting state with the new direction, slices kept |
| DropLaws.OverlapAlong | src/Game.ts:286-292 | along one axis two equal spans d apart overlap over max(0, w - abs(d)) |
| DropLaws.RemainderAlong | src/Game.ts:377-383 | along one axis the cut-off length is abs(d), or the whole span when d = 0 or abs(d) >= w |
| DropLaws.SnapLength | src/Game.ts:294 | a non-negative length snaps to <= 0 exactly below half a step, and a grid length is kept |
| DropLaws.ArmedSpans | src/Game.ts:286-292 | for an armed block, overlap and remainder along the sliding axis are given by the offset; across it they are the top block's length |
| DropLaws.DropOffset | src/Game.ts:266-297 | a drop misses exactly when the overlap along the sliding axis is under half a step; a hit earns 3 exactly when the offset is non-zero and under half a step |
| DropLaws.AlignedDropScoresOne | src/Game.ts:377-387 | an exactly aligned drop is a hit that scores SCORE_INCREASE only |
| DropLaws.SnappedSpan | src/Game.ts:299-300 | snapping start and length of a span inside the top keeps the start inside, passes the far edge by at most one step, and passes it exactly at a double tie |
| DropLaws.PlacedFootprint | src/Game.ts:286-301 | the pushed block starts inside the top block and ends at most one step past its right/front edge, and does so exactly at a double tie |
| DropLaws.TieGrowsOneStep | src/Game.ts:299-300 | at a double tie at the right edge the pushed block reaches exactly one step past the top |
| DropLaws.FootprintTieGrows | src/Game.ts:286-301 | from the starting tower with the block 0.12 to the right, the pushed block ends at 12.24, past the base's 12 |
| Stacking.Game.constructor | src/Game.ts:56-72 | the new game is exactly `Started`: the state `init()` leaves (base block only, moving block armed over it, starting speed, score 0, not over) after one frame of `animate()` |
| Stacking.Game.Boot | src/Game.ts:71-72 | the fields become the deferred half of reset applied to the state on entry, followed by one slide and one tick of the slices |
| Stacking.Game.Animate | src/Game.ts:152-153 | a frame is one slide then one tick of the slices |
| Stacking.Game.Reset | src/Game.ts:161-175 | the fields become Engine.Reset of the old state |
| Stacking.Game.OnResetClick | src/Game.ts:130 | the fields become Engine.OnResetClick of the old state |
| Stacking.Game.FinishReset | src/Game.ts:178-182 | the fields become the deferred half of reset applied to the old state |
| Stacking.Game.Stop | src/Game.ts:189-191 | the game is over and the moving block hidden; nothing else changes |
| Stacking.Game.StackBlock | src/Game.ts:245-270 | the fields become Engine.StackBlock of the old state |
| Stacking.Game.Advance | src/Game.ts:258-266 | after a hit the fields become Engine.Advance of the old state: the axis switched, the next block armed with the eased speed, the score raised by the gain of the slice just cut off |
| Stacking.Game.AddBlockToStack | src/Game.ts:272-303 | the fields become Engine.AddBlockToStack of the old state: stop on a miss, else push the snapped overlap block |
| Stacking.Game.UpdateMovingBlock | src/Game.ts:305-316 | the fields become MoveTick of the old state |
| Stacking.Game.ResetMovingBlock | src/Game.ts:318-344 | the fields become Engine.ResetMovingBlock of the old state |
| Stacking.Game.UpdateCutOffBlock | src/Game.ts:346-358 | the slice list becomes CutOffTick of the old one |
| Stacking.Game.ResetCutOffBlock | src/Game.ts:360-392 | exactly CutOffPiece of the old state is appended to the slices |
| Sorting.SortedByKey | src/utils/sortByKey.ts:2 | the reference stable sort keeps the length |
| Sorting.InsertAscending | src/utils/sortByKey.ts:2 | inserting into an ascending sequence keeps it ascending |
| Sorting.InsertMultiset | src/utils/sortByKey.ts:2 | insertion adds exactly the one element |
| Sorting.FilterInsert | src/utils/sortByKey.ts:2 | insertion puts the element after those of equal key and leaves other keys' runs unchanged |
| Sorting.SortedAscending | src/utils/sortByKey.ts:2 | the sorted sequence is non-decreasing by key |
| Sorting.SortedPermutation | src/utils/sortByKey.ts:2 | the sorted sequence is a permutation of the input |
| Sorting.SortedStable | src/utils/sortByKey.ts:2 | elements of equal key keep their relative order |
| Sorting.SortByKey | src/utils/sortByKey.ts:1-3 | the array is sorted in place into exactly the stable ascending order, hence ascending and a permutation |
| Sorting.InsertInPlace | src/utils/sortByKey.ts:2 | one pass moves a[i] left past the larger keys, giving the stable insertion of a[i] into a[..i] and leaving the rest unchanged |

## Left out

- Rendering, camera, lights, the background hue, the score display and its fades, sound, the start and end menus, and window resizing. These are presentation, not simulation.
- The leaderboard, Supabase, localStorage and the high-score merge in `stop`. These are network and storage I/O.
- Timers. The deferred part of `reset` is a separate step, `FinishReset`, which may be called at any time; this covers every interleaving with drops and frames. `BLOCKS.MOVING.RESET_DELAY` is not defined in src/constants/BLOCKS.ts, so the TypeScript compiler rejects that reference; only a build that skips type-checking runs, and it passes `undefined` to `setTimeout`, which browsers treat as a delay of 0.
- The deferred part of `stop` (src/Game.ts:225-235): it moves the camera, fades the score out and shows the end menu with its counter. This is presentation only, and no step models it.
- The animation loop. The constructor runs the first frame of `animate()`; every later frame, which `requestAnimationFrame` schedules, is an explicit `Animate` call.
- Randomness. `randInt(0b00, 0b11)` is the `start` parameter.
- IEEE floating point. Coordinates, sizes, speeds and opacities are exact reals, so rounding error, NaN and infinities are not modelled.
- Grid.FixIsNearestMultiple: this and the other rounding lemmas are proved for the step FIX_VALUE = 0.24, the only step the game passes. For a general step, `Quantizer.RoundToNearest` is defined but its properties are not proved.
- Stacking.Game.constructor: the field `movingBlock.userData.speed` is undefined before `init()` sets it, so `resetMovingBlock` computes NaN there. The model starts from 0, which the assignment that follows overwrites.
- Stacking.Game: the speed is a field of the game rather than of the moving block's `userData`. Stack blocks are values, because the source never changes a block after pushing it. Cut-off slices are values, because only their position and opacity change.
- Stacking.Game.UpdateCutOffBlock: the source removes the spent slice by filtering on its id. The model removes it by index, which is the same when ids are unique.
- Sorting.SortByKey: keys are given as a function to `real`. The model does not cover `+` coercion of non-numeric fields to NaN, or the engine's choice of sorting algorithm. Any stable sort gives the same result.
- LegacyBlocks: only `getSidePositions` and the data it reads are modelled. The class's material and colour are not.
- DropLaws.FootprintTieGrows: the pushed block in the example is stated through `PlacedBlock`, which `StackLaws.StackBlockSuccess` shows is the block `StackBlock` pushes.
