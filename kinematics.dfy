/**
 * Vehicle kinematics and the road recycler: the per-tick updaters for the
 * player's speed, heading, position and the road offset. Each is a pure
 * function of the previous value, as the state updaters of the game loop are.
 */
module Kinematics {
  import opened Constants
  import opened Input

  /** The speed band the game keeps: [-MAX_SPEED / 2, MAX_SPEED] = [-25, 50]. */
  predicate InSpeedRange(s: real)
  {
    -MAX_SPEED / 2.0 <= s <= MAX_SPEED
  }

  /**
   * One speed update. ArrowDown accelerates, saturating at MAX_SPEED;
   * otherwise ArrowUp brakes towards reverse, saturating at -MAX_SPEED / 2;
   * with neither held, friction scales the speed towards zero without ever
   * changing its sign. The speed band is preserved.
   */
  function SpeedStep(s: real, k: KeyFlags): (r: real)
    ensures InSpeedRange(s) ==> InSpeedRange(r)
    ensures k.down ==> r <= MAX_SPEED
    ensures k.down && s + ACCELERATION <= MAX_SPEED ==> r == s + ACCELERATION
    ensures k.down && s + ACCELERATION >= MAX_SPEED ==> r == MAX_SPEED
    ensures !k.down && k.up ==> r >= -MAX_SPEED / 2.0
    ensures !k.down && k.up && s - BRAKE_POWER >= -MAX_SPEED / 2.0 ==> r == s - BRAKE_POWER
    ensures !k.down && k.up && s - BRAKE_POWER <= -MAX_SPEED / 2.0 ==> r == -MAX_SPEED / 2.0
    ensures !k.down && !k.up ==> Abs(r) == Abs(s) * FRICTION
    ensures !k.down && !k.up ==> (s > 0.0 ==> 0.0 < r < s) && (s < 0.0 ==> s < r < 0.0) && (s == 0.0 ==> r == 0.0)
  {
    if k.down then Min(s + ACCELERATION, MAX_SPEED)
    else if k.up then Max(s - BRAKE_POWER, -MAX_SPEED / 2.0)
    else s * FRICTION
  }

  /**
   * One heading update. ArrowLeft turns by +TURN_SPEED whether or not
   * ArrowRight is also held; ArrowRight alone turns by -TURN_SPEED; with
   * neither held the heading is unchanged. No other change is possible.
   */
  function HeadingStep(h: real, k: KeyFlags): (r: real)
    ensures k.left ==> r == h + TURN_SPEED
    ensures !k.left && k.right ==> r == h - TURN_SPEED
    ensures !k.left && !k.right ==> r == h
    ensures r - h in {TURN_SPEED, -TURN_SPEED, 0.0}
  {
    if k.left then h + TURN_SPEED
    else if k.right then h - TURN_SPEED
    else h
  }

  /**
   * One player move, from the speed `s` and heading `h` the tick started
   * with: z advances by cos(h) * s * TICK_DISTANCE, x by the matching sine
   * term and is then clamped to [-ROAD_HALF_WIDTH, ROAD_HALF_WIDTH], and the
   * height is kept. `sin` and `cos` stand for the platform's trigonometry.
   */
  function MovePlayer(p: Vec3, s: real, h: real, sin: real -> real, cos: real -> real): (r: Vec3)
    ensures -ROAD_HALF_WIDTH <= r.x <= ROAD_HALF_WIDTH
    ensures r.y == p.y
    ensures r.z == p.z + cos(h) * s * TICK_DISTANCE
    ensures var x := p.x + sin(h) * s * TICK_DISTANCE;
      (-ROAD_HALF_WIDTH <= x <= ROAD_HALF_WIDTH ==> r.x == x) &&
      (x > ROAD_HALF_WIDTH ==> r.x == ROAD_HALF_WIDTH) &&
      (x < -ROAD_HALF_WIDTH ==> r.x == -ROAD_HALF_WIDTH)
  {
    var moveSpeed := s * TICK_DISTANCE;
    var moved := Vec3(p.x + sin(h) * moveSpeed, p.y, p.z + cos(h) * moveSpeed);
    moved.(x := Clamp(moved.x, -ROAD_HALF_WIDTH, ROAD_HALF_WIDTH))
  }

  /**
   * One road-offset update from the speed `s` the tick started with: the
   * offset advances by s * TICK_DISTANCE unless that takes its magnitude past
   * ROAD_LENGTH, in which case it wraps to exactly 0. Whatever the previous
   * offset, the result is within [-ROAD_LENGTH, ROAD_LENGTH].
   */
  function AdvanceOffset(o: real, s: real): (r: real)
    ensures -ROAD_LENGTH <= r <= ROAD_LENGTH
    ensures Abs(o + s * TICK_DISTANCE) <= ROAD_LENGTH ==> r == o + s * TICK_DISTANCE
    ensures Abs(o + s * TICK_DISTANCE) > ROAD_LENGTH ==> r == 0.0
  {
    var newOffset := o + s * TICK_DISTANCE;
    if Abs(newOffset) > ROAD_LENGTH then 0.0 else newOffset
  }

  /** The speed after `n` ticks with no control held. */
  function Coast(s: real, n: nat): (r: real)
  {
    if n == 0 then s else SpeedStep(Coast(s, n - 1), NO_KEYS)
  }

  /**
   * Coasting never reverses the car and never speeds it up: a positive speed
   * stays positive and does not grow, a negative one stays negative and does
   * not shrink, and every tick strictly reduces a non-zero magnitude.
   */
  lemma {:induction false} CoastKeepsSign(s: real, n: nat)
    ensures s > 0.0 ==> 0.0 < Coast(s, n) <= s
    ensures s < 0.0 ==> s <= Coast(s, n) < 0.0
    ensures s == 0.0 ==> Coast(s, n) == 0.0
    ensures n > 0 && s != 0.0 ==> Abs(Coast(s, n)) < Abs(s)
  {
    if n > 0 {
      CoastKeepsSign(s, n - 1);
    }
  }

  /**
   * The player's move uses the speed from before this tick's speed update:
   * from speed 10 and heading 0, with no key held, z advances by exactly 1.0
   * even though the stored speed drops to 9.5 in the same tick.
   */
  lemma MoveUsesPreTickSpeed(p: Vec3, sin: real -> real, cos: real -> real)
    requires sin(0.0) == 0.0 && cos(0.0) == 1.0
    requires -ROAD_HALF_WIDTH <= p.x <= ROAD_HALF_WIDTH
    ensures SpeedStep(10.0, NO_KEYS) == 9.5
    ensures MovePlayer(p, 10.0, 0.0, sin, cos) == Vec3(p.x, p.y, p.z + 1.0)
  {
  }
}
