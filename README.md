# DriveRush driving simulation, modelled in Dafny

This project models the per-tick simulation of the `CarGame` component of
DriveRush, a browser 3D driving mini-game. A player car is driven with the
four arrow keys or on-screen touch buttons. A pool of ten traffic cars drives
up the road and is recycled to the near end once it passes the far end. The
road offset scrolls and wraps to 0. When the player comes within the
collision distance of a traffic car, the player and the traffic pool are
reset. The background colour cycles through a ten-colour palette on its own
timer.

Modules, one per component of the game loop:

- `Constants` (`constants.dfy`): the game constants, the `Vec3` point and the
  lateral `Clamp`.
- `Input` (`input.dfy`): the four arrow-key flags. The `Keys` class holds them
  and is updated in place by the key and touch handlers. `WithKey` is the pure
  update those handlers perform.
- `Kinematics` (`kinematics.dfy`): the speed, heading, player-position and
  road-offset updaters, as pure functions.
- `Traffic` (`traffic.dfy`): traffic cars, how they are spawned, and the
  per-tick advance, clamp and recycle.
- `Collision` (`collision.dfy`): the centre-distance test and the scan over
  the whole pool.
- `Palette` (`palette.dfy`): the background palette and its cycle.
- `Game` (`game.dfy`): the `CarGame` class, which owns the state, and its
  `Tick` method.

How the model reads the source:

- All arithmetic is on exact reals.
- `Math.sin` and `Math.cos` are parameters of `Tick`.
- Every `Math.random()` draw is a parameter in [0, 1). A reset takes one
  `SpawnDraw` per car (lateral position, position along the road, speed,
  colour, in the order the spawn expression draws them). The traffic advance
  takes one lateral draw per pool slot, used only when that car is recycled.
- The collision test compares the squared distance with
  `COLLISION_DISTANCE * COLLISION_DISTANCE`. This is the same as comparing the
  square root with `COLLISION_DISTANCE`, since both sides are non-negative.
- The tick follows the order of the state updates in the loop body
  (CarGame.jsx:294-401). The speed and heading updaters apply to the latest
  state. The player move reads the speed and heading the loop body captured,
  and the road offset reads the captured speed; both are the values from
  before this tick's updates.
  The collision scan reads the captured player position and traffic pool.
  On a collision, the reset of position, heading and speed is queued after
  their updaters, so it wins. The replacement pool is queued before the
  traffic updater, so the fresh pool is advanced in the same tick. The road
  offset is not reset.

Three consequences of the code that a reader might not expect:

- Collision is tested on the player position and traffic pool the tick
  started with (CarGame.jsx:344, 350), not on the position computed in the
  same tick.
- The player moves with the pre-tick speed, so from speed 10 and heading 0
  with no key held, z grows by 1.0 while the stored speed drops to 9.5
  (`Kinematics.MoveUsesPreTickSpeed`).
- A spawned or recycled traffic car's lateral position is drawn as
  `(Math.random() - 0.5) * (ROAD_WIDTH - CAR_WIDTH)` (CarGame.jsx:247, 395),
  which lies in [-9, 9). That is wider than the [-8, 8] clamp band, so a
  traffic car can sit outside [-8, 8] until its next tick clamps it
  (`Traffic.RecycleScenario`, `Traffic.RecycledCarClampedNextTick`). The pool
  invariant therefore bounds traffic x by [-9, 9), not [-8, 8].

## Model

| member | source | states |
|---|---|---|
| `Constants.Clamp` | CarGame.jsx:324-328 | the clamped value lies in the band; a value inside the band is kept; one below or above it becomes the nearer bound |
| `Input.ControlOf` | CarGame.jsx:280 | a key is recognised exactly when it is the name of one of the four arrow controls, and it is recognised as that control |
| `Input.WithKey` | CarGame.jsx:279-289 | a handler call sets the flag of the control the key names to the given value and keeps every other flag; a key that names no control changes nothing |
| `Input.LastWriteWins` | CarGame.jsx:411-421 | for one key, the last press or release wins over any earlier one |
| `Input.DistinctKeysCommute` | CarGame.jsx:279-289 | handler calls for two different keys give the same flags in either order |
| `Input.Keys.constructor` | CarGame.jsx:257-262 | all four flags start released |
| `Input.Keys.KeyDown` | CarGame.jsx:279-283 | a key-down sets the named arrow's flag and ignores any other key |
| `Input.Keys.KeyUp` | CarGame.jsx:285-289 | a key-up clears the named arrow's flag and ignores any other key |
| `Input.Keys.TouchStart` | CarGame.jsx:411-415 | a touch start has the same effect as a key-down of the same key |
| `Input.Keys.TouchEnd` | CarGame.jsx:417-421 | a touch end has the same effect as a key-up of the same key |
| `Kinematics.SpeedStep` | CarGame.jsx:295-302 | the speed band [-25, 50] is preserved; ArrowDown adds ACCELERATION up to MAX_SPEED; otherwise ArrowUp subtracts BRAKE_POWER down to -MAX_SPEED/2; with neither, the magnitude is scaled by FRICTION and the sign never changes |
| `Kinematics.HeadingStep` | CarGame.jsx:304-309 | ArrowLeft adds TURN_SPEED even when ArrowRight is also held; ArrowRight alone subtracts it; otherwise the heading is unchanged; no other change is possible |
| `Kinematics.MovePlayer` | CarGame.jsx:311-331 | the new x lies in [-8, 8] and is the moved x when that is inside the band, else the nearer bound; z moves by cos(heading) * speed * 0.1; the height is kept |
| `Kinematics.AdvanceOffset` | CarGame.jsx:333-340 | the offset stays within [-ROAD_LENGTH, ROAD_LENGTH] whatever it was; it advances by speed * 0.1 unless the magnitude would pass ROAD_LENGTH, and then it becomes exactly 0 |
| `Kinematics.CoastKeepsSign` | CarGame.jsx:300-301 | over any number of ticks with no key held, speed keeps its sign and never grows in magnitude; every tick strictly shrinks a non-zero speed |
| `Kinematics.MoveUsesPreTickSpeed` | CarGame.jsx:312-321 | from speed 10 and heading 0 with no key held, z moves by exactly 1.0 while the stored speed becomes 9.5 |
| `Traffic.RandomLane` | CarGame.jsx:395 | a drawn lateral position lies in [-9, 9) |
| `Traffic.SpawnCar` | CarGame.jsx:245-253 | a spawned car has x in [-9, 9), z in (-ROAD_LENGTH, 0], speed in [2, 5), the drawn colour, and ride height |
| `Traffic.Spawn` | CarGame.jsx:244-254 | a spawned pool has exactly ten cars, each made from its own draws, each satisfying the pool invariant |
| `Traffic.AdvanceCar` | CarGame.jsx:381-399 | speed, colour and height are unchanged and z never ends past ROAD_LENGTH; a car whose advanced z passes ROAD_LENGTH goes to exactly -ROAD_LENGTH with a fresh lateral draw; any other car keeps its advanced z and gets its x clamped into [-8, 8]; the car invariant is preserved |
| `Traffic.AdvancePool` | CarGame.jsx:380-400 | the pool keeps its length and order; each car advances on its own and keeps its speed and colour; no car ends past ROAD_LENGTH; the pool invariant is preserved |
| `Traffic.RecycleScenario` | CarGame.jsx:392-396 | a car at z = ROAD_LENGTH - 0.05 with speed 3 is recycled to exactly -ROAD_LENGTH, and its redrawn x can be 8.82, outside the clamp band |
| `Traffic.RecycledCarClampedNextTick` | CarGame.jsx:385-396 | one tick after being recycled, a car is not recycled again and its x is clamped into [-8, 8] |
| `Collision.DetectCollision` | CarGame.jsx:349-358 | the scan visits every car and reports a collision exactly when some car's squared planar distance to the player is below 2.5 squared |
| `Collision.CollisionOrderIndependent` | CarGame.jsx:350-358 | permuting the pool does not change whether a collision is detected |
| `Collision.CollisionScenario` | CarGame.jsx:351-355 | a player at the origin collides with a car 1.0 ahead on the same lane, and not with a car at (1.5, 2.0) |
| `Palette.IndexOf` | CarGame.jsx:268 | the result is the first position of the colour, or -1 exactly when the colour is absent |
| `Palette.NextColour` | CarGame.jsx:267-271 | the next background is always a palette colour; an unknown colour maps to the first entry |
| `Palette.NextOfEntry` | CarGame.jsx:268-270 | in a palette without repeats, each entry is followed by the next and the last by the first |
| `Palette.CycleAdvancesIndex` | CarGame.jsx:266-272 | n timer events move from entry i to entry (i + n) mod palette length |
| `Palette.CycleReturns` | CarGame.jsx:269 | as many timer events as there are colours bring any palette colour back to itself |
| `Palette.BackgroundCycle` | CarGame.jsx:26-37 | the background palette has ten distinct colours, and ten timer events return the background to where it started |
| `Game.CarGame.constructor` | CarGame.jsx:239-254 | the game starts with the player at (0, 0.25, 0), heading 0, speed 0, offset 0, a freshly spawned pool, the first palette colour and no key held |
| `Game.CarGame.Tick` | CarGame.jsx:294-401 | the state invariant is kept. The collision verdict is taken on the pre-tick position and pool. Without a collision, speed and heading take one update and the player moves with the pre-tick speed and heading. With a collision, the player is reset to the origin with heading 0 and speed 0, and the pool is replaced by ten fresh cars. The traffic then advances, and the road offset advances from the pre-tick speed in both cases |
| `Game.CarGame.CycleBackground` | CarGame.jsx:266-272 | one timer event moves the background one step round the palette and keeps the state invariant |
| `Game.ResetPoolAfterTick` | CarGame.jsx:366-399 | on a collision tick, no freshly spawned car is recycled, so the new pool is the spawned pool moved forward once with x clamped |

## Left out

- The mesh components `PlayerCar`, `TrafficCar`, `Road` and `TouchControls`
  (CarGame.jsx:40-235), the camera pose (CarGame.jsx:428-437) and the
  stylesheet injected into the page (CarGame.jsx:465-526). These are
  presentation only; nothing in them feeds back into the simulation.
- The React and timer plumbing: `useEffect`, `setInterval`/`clearInterval`,
  `addEventListener` and their teardown. The model treats one tick as one call
  of `Tick`, and one background timer event as one call of `CycleBackground`.
- Stale closures. The loop body is re-created whenever the state changes, and
  the model assumes each tick runs with the values from the latest state. If
  a timer fires before that re-creation, it would reuse older captured values.
  That case is not modelled.
- The flags object is re-created on every render (CarGame.jsx:257-262), and
  the handlers write to the copy from the render they were created in. The
  model keeps one persistent `Keys` object.
- The blocking `alert` on a collision (CarGame.jsx:361). `Tick` returns the
  collision verdict instead.
- The hexadecimal colour string of a spawned car (CarGame.jsx:252). The colour
  is an opaque value that comes with the spawn draws.
- Draws in the source are consumed in call order, and only recycled cars
  consume one. The model gives every pool slot its own recycle draw. Since the
  draws are independent and uniform, this does not change what can happen.
- The `width` and `length` of the player object built for the collision test
  (CarGame.jsx:343-347). The test never reads them.
- Floating-point rounding, and the range of `Math.sin` and `Math.cos`. No
  property here depends on those bounds, because the player's x is clamped and
  z is unbounded.
