/**
 * The game loop coordinator: the state the game component holds and the
 * fixed-rate tick that updates it. Every state update of a tick is computed
 * from the values the tick started with, in the order the loop issues them;
 * a collision resets the player and replaces the traffic pool, and the
 * traffic advance is then applied to the fresh pool.
 */
module Game {
  import opened Constants
  import opened Input
  import opened Kinematics
  import opened Traffic
  import opened Collision
  import opened Palette

  class CarGame {
    var position: Vec3
    var heading: real
    var speed: real
    var roadOffset: real
    var traffic: seq<TrafficCar>
    var background: string
    /** The flags the key and touch handlers write and the tick reads. */
    const keys: Keys

    /**
     * What holds between ticks: the speed band, the player inside the clamp
     * band at ride height, the road offset within one road length, a full
     * pool of well-formed traffic cars and a palette background.
     */
    predicate Valid()
      reads this
    {
      InSpeedRange(speed) &&
      -ROAD_HALF_WIDTH <= position.x <= ROAD_HALF_WIDTH && position.y == RIDE_HEIGHT &&
      -ROAD_LENGTH <= roadOffset <= ROAD_LENGTH &&
      PoolInvariant(traffic) &&
      background in BACKGROUND_COLORS
    }

    /**
     * The initial state: player at the origin facing forward and at rest, the
     * road unscrolled, a freshly spawned pool, the first palette colour and
     * no key held.
     */
    constructor (spawn: seq<SpawnDraw>)
      requires AreSpawnDraws(spawn)
      ensures Valid()
      ensures position == ORIGIN && heading == 0.0 && speed == 0.0 && roadOffset == 0.0
      ensures traffic == Spawn(spawn) && background == BACKGROUND_COLORS[0]
      ensures fresh(keys) && keys.Flags() == NO_KEYS
    {
      position := ORIGIN;
      heading := 0.0;
      speed := 0.0;
      roadOffset := 0.0;
      traffic := Spawn(spawn);
      background := BACKGROUND_COLORS[0];
      keys := new Keys();
    }

    /**
     * One tick of the game loop. `sin` and `cos` are the platform's
     * trigonometry, `spawn` the draws for a reset pool and `recycle` the
     * lateral draw for each pool slot that is recycled. The result says
     * whether a collision was detected; it is tested on the player position
     * and pool the tick started with. Without a collision the player moves
     * with the speed and heading the tick started with while the stored
     * speed and heading take one update; with a collision player, heading
     * and speed are reset and the pool is replaced before the traffic
     * advance. The road offset advances in either case.
     */
    method Tick(sin: real -> real, cos: real -> real, spawn: seq<SpawnDraw>, recycle: seq<real>)
      returns (collided: bool)
      requires Valid()
      requires AreSpawnDraws(spawn) && AreUnitDraws(recycle)
      modifies this
      ensures Valid()
      ensures collided <==> SomeCarCollides(old(position), old(traffic))
      ensures speed == if collided then 0.0 else SpeedStep(old(speed), keys.Flags())
      ensures heading == if collided then 0.0 else HeadingStep(old(heading), keys.Flags())
      ensures position == if collided then ORIGIN else MovePlayer(old(position), old(speed), old(heading), sin, cos)
      ensures roadOffset == AdvanceOffset(old(roadOffset), old(speed))
      ensures traffic == AdvancePool(if collided then Spawn(spawn) else old(traffic), recycle)
      ensures background == old(background)
    {
      var held := keys.Flags();
      // The values the loop body captured when it was scheduled.
      var startPosition, startHeading, startSpeed, startTraffic := position, heading, speed, traffic;

      speed := SpeedStep(speed, held);
      heading := HeadingStep(heading, held);
      position := MovePlayer(position, startSpeed, startHeading, sin, cos);
      roadOffset := AdvanceOffset(roadOffset, startSpeed);

      collided := DetectCollision(startPosition, startTraffic);
      if collided {
        position := ORIGIN;
        heading := 0.0;
        speed := 0.0;
        traffic := Spawn(spawn);
      }

      traffic := AdvancePool(traffic, recycle);
    }

    /** One event of the background timer: the background moves one step round the palette. */
    method CycleBackground()
      requires Valid()
      modifies this`background
      ensures Valid()
      ensures background == NextColour(BACKGROUND_COLORS, old(background))
    {
      background := NextColour(BACKGROUND_COLORS, background);
    }
  }

  /**
   * A freshly spawned car is never recycled on the tick that spawned it, so
   * on a collision tick the new pool is the spawned pool moved forward once,
   * with lateral positions clamped, and the recycle draws go unused.
   */
  lemma ResetPoolAfterTick(spawn: seq<SpawnDraw>, recycle: seq<real>)
    requires AreSpawnDraws(spawn) && AreUnitDraws(recycle)
    ensures var pool := AdvancePool(Spawn(spawn), recycle);
      |pool| == POOL_SIZE &&
      forall i :: 0 <= i < POOL_SIZE ==>
        var c := SpawnCar(spawn[i]);
        pool[i] == c.(position := Vec3(Clamp(c.position.x, -ROAD_HALF_WIDTH, ROAD_HALF_WIDTH), RIDE_HEIGHT, c.position.z + c.speed * TICK_DISTANCE))
  {
  }
}
