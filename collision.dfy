/**
 * Collision detection: a planar centre-distance test between the player and
 * every traffic car. Distances are compared squared, which is equivalent to
 * comparing the square root with COLLISION_DISTANCE since both are
 * non-negative.
 */
module Collision {
  import opened Constants
  import opened Traffic

  /** The player is within COLLISION_DISTANCE of the car, in the x-z plane. */
  predicate Collides(player: Vec3, car: TrafficCar)
  {
    var dx := player.x - car.position.x;
    var dz := player.z - car.position.z;
    dx * dx + dz * dz < COLLISION_DISTANCE * COLLISION_DISTANCE
  }

  /** Some car of the pool collides with the player. */
  predicate SomeCarCollides(player: Vec3, pool: seq<TrafficCar>)
  {
    exists i :: 0 <= i < |pool| && Collides(player, pool[i])
  }

  /**
   * The collision scan: visits every car of the pool, without stopping at the
   * first hit, and reports whether any of them collides with the player.
   */
  method DetectCollision(player: Vec3, pool: seq<TrafficCar>) returns (detected: bool)
    ensures detected <==> SomeCarCollides(player, pool)
  {
    detected := false;
    var i := 0;
    while i < |pool|
      invariant 0 <= i <= |pool|
      invariant detected <==> exists j :: 0 <= j < i && Collides(player, pool[j])
    {
      if Collides(player, pool[i]) {
        detected := true;
      }
      i := i + 1;
    }
  }

  /** The verdict depends only on which cars the pool holds, not on their order. */
  lemma CollisionOrderIndependent(player: Vec3, a: seq<TrafficCar>, b: seq<TrafficCar>)
    requires multiset(a) == multiset(b)
    ensures SomeCarCollides(player, a) <==> SomeCarCollides(player, b)
  {
    forall a', b' | multiset(a') == multiset(b') && SomeCarCollides(player, a')
      ensures SomeCarCollides(player, b')
    {
      var i :| 0 <= i < |a'| && Collides(player, a'[i]);
      assert a'[i] in multiset(b');
      var j :| 0 <= j < |b'| && b'[j] == a'[i];
    }
  }

  /** The player at the origin and a car 1.0 ahead of it on the same lane collide. */
  lemma CollisionScenario(speed: real, colour: Colour)
    ensures Collides(ORIGIN, TrafficCar(Vec3(0.0, RIDE_HEIGHT, 1.0), speed, colour))
    ensures !Collides(ORIGIN, TrafficCar(Vec3(1.5, RIDE_HEIGHT, 2.0), speed, colour))
  {
  }
}
