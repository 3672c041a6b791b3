/** The configuration constants of the scene (public/javascripts/constants/dimensions.js). */
module Dimensions {

  /** Polar angle, azimuth step and radius of the static cylindrical track. */
  const THETA_DEG: real := 90.0
  const DELTA_THETA_DEG: int := 5
  const TRACK_RADIUS: real := 10.0

  /** Category thresholds on the uniform draw; PLANET_CHANCE > MOON_CHANCE > STAR_CHANCE. */
  const PLANET_CHANCE: real := 0.995
  const MOON_CHANCE: real := 0.99
  const STAR_CHANCE: real := 0.8

  const PLANET_RADIUS: real := 10.0
  const MOON_RADIUS: real := 5.0
  const STAR_RADIUS: real := 0.5
  /** Upper end of the spawn radius draw; the draw itself is a parameter of the model. */
  const BOUNDARY_RADIUS: real := 7.0

  /** Half-depth of the cylinder: objects are painted while their z lies in (-CYLINDER_Z, CYLINDER_Z). */
  const CYLINDER_Z: real := 20.0

  /** Population size below which one generation attempt is made per frame. */
  const NUM_OBJECTS: nat := 200

  /** Distance every object travels toward the camera per frame. */
  const DZ: real := 0.2
}
