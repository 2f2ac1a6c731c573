/**
 * Traffic simulation: the fixed pool of traffic cars, how a car is spawned
 * from random draws, and how every car advances, is clamped and is recycled
 * to the near end of the road once it passes the far end.
 */
module Traffic {
  import opened Constants

  /** Display colour of a traffic car; the simulation never inspects it. */
  type Colour = string

  datatype TrafficCar = TrafficCar(position: Vec3, speed: real, colour: Colour)

  /**
   * The random draws that create one car, in the order the spawn expression
   * makes them: lateral position, position along the road, speed, colour.
   */
  datatype SpawnDraw = SpawnDraw(rx: real, rz: real, rs: real, colour: Colour)

  predicate IsSpawnDraw(d: SpawnDraw)
  {
    IsUnitDraw(d.rx) && IsUnitDraw(d.rz) && IsUnitDraw(d.rs)
  }

  predicate AreSpawnDraws(ds: seq<SpawnDraw>)
  {
    |ds| == POOL_SIZE && forall i :: 0 <= i < |ds| ==> IsSpawnDraw(ds[i])
  }

  predicate AreUnitDraws(rs: seq<real>)
  {
    |rs| == POOL_SIZE && forall i :: 0 <= i < |rs| ==> IsUnitDraw(rs[i])
  }

  /** A lateral position drawn uniformly from [-SPAWN_SPAN / 2, SPAWN_SPAN / 2) = [-9, 9). */
  function RandomLane(r: real): (x: real)
    requires IsUnitDraw(r)
    ensures -SPAWN_SPAN / 2.0 <= x < SPAWN_SPAN / 2.0
  {
    (r - 0.5) * SPAWN_SPAN
  }

  /**
   * What holds of every car in the pool between ticks: a speed from the spawn
   * range [2, 5), a lateral position in [-9, 9), a position along the road in
   * [-ROAD_LENGTH, ROAD_LENGTH], and the ride height.
   */
  predicate CarInvariant(c: TrafficCar)
  {
    2.0 <= c.speed < 5.0 &&
    -SPAWN_SPAN / 2.0 <= c.position.x < SPAWN_SPAN / 2.0 &&
    -ROAD_LENGTH <= c.position.z <= ROAD_LENGTH &&
    c.position.y == RIDE_HEIGHT
  }

  predicate PoolInvariant(pool: seq<TrafficCar>)
  {
    |pool| == POOL_SIZE && forall i :: 0 <= i < |pool| ==> CarInvariant(pool[i])
  }

  /**
   * One freshly spawned car: lateral position in [-9, 9) (wider than the
   * [-8, 8] clamp band), position along the road in (-ROAD_LENGTH, 0], speed
   * in [2, 5), the drawn colour, at ride height.
   */
  function SpawnCar(d: SpawnDraw): (c: TrafficCar)
    requires IsSpawnDraw(d)
    ensures -SPAWN_SPAN / 2.0 <= c.position.x < SPAWN_SPAN / 2.0
    ensures -ROAD_LENGTH < c.position.z <= 0.0
    ensures 2.0 <= c.speed < 5.0
    ensures c.position.y == RIDE_HEIGHT && c.colour == d.colour
    ensures CarInvariant(c)
  {
    TrafficCar(Vec3(RandomLane(d.rx), RIDE_HEIGHT, -d.rz * ROAD_LENGTH), 2.0 + d.rs * 3.0, d.colour)
  }

  /** A fresh pool: exactly POOL_SIZE cars, the i-th made from the i-th draw. */
  function Spawn(ds: seq<SpawnDraw>): (pool: seq<TrafficCar>)
    requires AreSpawnDraws(ds)
    ensures |pool| == POOL_SIZE
    ensures forall i :: 0 <= i < POOL_SIZE ==> pool[i] == SpawnCar(ds[i])
    ensures PoolInvariant(pool)
  {
    seq(POOL_SIZE, i requires 0 <= i < POOL_SIZE => SpawnCar(ds[i]))
  }

  /**
   * One car's tick, with `r` the draw used if it is recycled. The car moves
   * forward by its speed times TICK_DISTANCE; if that takes it past
   * ROAD_LENGTH it is recycled to exactly -ROAD_LENGTH with a freshly drawn
   * lateral position, otherwise its lateral position is clamped to
   * [-ROAD_HALF_WIDTH, ROAD_HALF_WIDTH]. Speed, colour and height never change,
   * and the car never ends past ROAD_LENGTH.
   */
  function AdvanceCar(c: TrafficCar, r: real): (n: TrafficCar)
    requires IsUnitDraw(r)
    ensures n.speed == c.speed && n.colour == c.colour && n.position.y == c.position.y
    ensures n.position.z <= ROAD_LENGTH
    ensures var z := c.position.z + c.speed * TICK_DISTANCE;
      (z > ROAD_LENGTH ==> n.position.z == -ROAD_LENGTH && n.position.x == RandomLane(r)) &&
      (z <= ROAD_LENGTH ==> n.position.z == z && n.position.x == Clamp(c.position.x, -ROAD_HALF_WIDTH, ROAD_HALF_WIDTH))
    ensures c.position.z + c.speed * TICK_DISTANCE <= ROAD_LENGTH ==> -ROAD_HALF_WIDTH <= n.position.x <= ROAD_HALF_WIDTH
    ensures CarInvariant(c) ==> CarInvariant(n)
  {
    var z := c.position.z + c.speed * TICK_DISTANCE;
    var x := Clamp(c.position.x, -ROAD_HALF_WIDTH, ROAD_HALF_WIDTH);
    if z > ROAD_LENGTH then
      c.(position := Vec3(RandomLane(r), c.position.y, -ROAD_LENGTH))
    else
      c.(position := Vec3(x, c.position.y, z))
  }

  /**
   * The traffic tick: every car advances independently, the i-th using the
   * i-th recycle draw. The pool keeps its length and order, each car its
   * speed and colour, and the pool invariant is preserved.
   */
  function AdvancePool(pool: seq<TrafficCar>, rs: seq<real>): (next: seq<TrafficCar>)
    requires |rs| == |pool| && forall i :: 0 <= i < |rs| ==> IsUnitDraw(rs[i])
    ensures |next| == |pool|
    ensures forall i :: 0 <= i < |pool| ==> next[i] == AdvanceCar(pool[i], rs[i])
    ensures forall i :: 0 <= i < |pool| ==> next[i].speed == pool[i].speed && next[i].colour == pool[i].colour
    ensures forall i :: 0 <= i < |pool| ==> next[i].position.z <= ROAD_LENGTH
    ensures PoolInvariant(pool) ==> PoolInvariant(next)
  {
    seq(|pool|, i requires 0 <= i < |pool| => AdvanceCar(pool[i], rs[i]))
  }

  /**
   * A car just short of the far end is recycled: at z = ROAD_LENGTH - 0.05
   * with speed 3 it lands on exactly -ROAD_LENGTH, and its new lateral
   * position can lie outside the [-8, 8] clamp band (8.82 for a draw of 0.99).
   */
  lemma RecycleScenario(colour: Colour)
    ensures var n := AdvanceCar(TrafficCar(Vec3(0.0, RIDE_HEIGHT, ROAD_LENGTH - 0.05), 3.0, colour), 0.99);
      n.position.z == -ROAD_LENGTH && n.position.x == 8.82 && n.position.x > ROAD_HALF_WIDTH
  {
  }

  /**
   * A recycled car does not stay outside the clamp band: one tick after being
   * put at -ROAD_LENGTH it is not recycled again, so its lateral position is
   * clamped into [-ROAD_HALF_WIDTH, ROAD_HALF_WIDTH].
   */
  lemma RecycledCarClampedNextTick(c: TrafficCar, r1: real, r2: real)
    requires CarInvariant(c) && IsUnitDraw(r1) && IsUnitDraw(r2)
    requires c.position.z + c.speed * TICK_DISTANCE > ROAD_LENGTH
    ensures var n := AdvanceCar(AdvanceCar(c, r1), r2);
      -ROAD_HALF_WIDTH <= n.position.x <= ROAD_HALF_WIDTH && n.position.z == -ROAD_LENGTH + c.speed * TICK_DISTANCE
  {
  }
}
