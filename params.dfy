/** The compile-time constants of starfield95.c, with `float` literals read as exact reals. */
module Params {
  /** Number of stars in the fixed pool. */
  const STAR_COUNT: nat := 500

  /** Initial window size; also the initial value of the tracked size. */
  const WINDOW_WIDTH: int := 1280
  const WINDOW_HEIGHT: int := 720

  /** A star whose depth falls below this is re-initialised. */
  const MIN_Z: real := 0.05

  /** Freshly placed stars keep at least this lateral distance from the axis. */
  const MIN_RADIUS: real := 0.1

  /** screen = centre + coordinate * (PERSPECTIVE_SCALE / z). */
  const PERSPECTIVE_SCALE: real := 150.0

  /** Stars at this depth or farther are drawn as points, nearer ones as trails. */
  const NEAR_THRESHOLD: real := 0.3
}
