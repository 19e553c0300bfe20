/** Movement and fade constants of the game (src/constants/BLOCKS.ts). */
module Tuning {
  // MOVING
  const STARTING_SPEED: real := 0.12
  const MAX_SPEED: real := 0.36
  const SPEED_DECREASE: real := 0.16
  const SPEED_DECREASE_INTERVAL: nat := 8
  const SPEED_DAMPING: real := 18.0
  const MIN_X: real := -12.0
  const MAX_X: real := 12.0
  const MIN_Z: real := -12.0
  const MAX_Z: real := 12.0

  // CUTOFF
  const GRAVITY: real := -0.12
  const FADE_OUT_SPEED: real := 0.036
}
