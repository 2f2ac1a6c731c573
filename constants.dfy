/**
 * The game constants of the driving simulation and the geometric helpers that
 * every component shares. All quantities are exact reals: the floating-point
 * rounding of the original is not modelled.
 */
module Constants {

  const ROAD_WIDTH: real := 20.0
  const ROAD_LENGTH: real := 1000.0
  const CAR_WIDTH: real := 2.0
  const MAX_SPEED: real := 50.0
  const ACCELERATION: real := 0.5
  const BRAKE_POWER: real := 0.8
  const TURN_SPEED: real := 0.1
  const FRICTION: real := 0.95
  const COLLISION_DISTANCE: real := 2.5

  /** Distance travelled per tick per unit of speed (the `speed * 0.1` of every move). */
  const TICK_DISTANCE: real := 0.1

  /** The y coordinate every vehicle is created with; no tick changes it. */
  const RIDE_HEIGHT: real := 0.25

  /** Number of traffic cars created at start-up and on every reset. */
  const POOL_SIZE: nat := 10

  /** Half-width of the band the lateral clamps keep cars in: ROAD_WIDTH / 2 - CAR_WIDTH = 8. */
  const ROAD_HALF_WIDTH: real := ROAD_WIDTH / 2.0 - CAR_WIDTH

  /** Width of the band a random lateral position is drawn from: ROAD_WIDTH - CAR_WIDTH = 18. */
  const SPAWN_SPAN: real := ROAD_WIDTH - CAR_WIDTH

  /** A point in the scene: x lateral, y height, z along the road. */
  datatype Vec3 = Vec3(x: real, y: real, z: real)

  const ORIGIN: Vec3 := Vec3(0.0, RIDE_HEIGHT, 0.0)

  function Min(a: real, b: real): (r: real) { if a <= b then a else b }

  function Max(a: real, b: real): (r: real) { if a >= b then a else b }

  function Abs(a: real): (r: real) { if a < 0.0 then -a else a }

  /** A random draw as produced by the platform generator: a real in [0, 1). */
  predicate IsUnitDraw(r: real) { 0.0 <= r < 1.0 }

  /**
   * The hard clamp `max(lo, min(hi, v))` used on lateral positions: a value
   * inside the band is kept, one outside is replaced by the nearer bound.
   */
  function Clamp(v: real, lo: real, hi: real): (r: real)
    requires lo <= hi
    ensures lo <= r <= hi
    ensures lo <= v <= hi ==> r == v
    ensures v < lo ==> r == lo
    ensures v > hi ==> r == hi
  {
    Max(lo, Min(hi, v))
  }
}
