# Game-tick core of the snakesilk engine, in Dafny

This project models five pieces of per-tick game logic from the snakesilk
engine. It proves what each one guarantees.

- **World** (`world.dfy`, module `EngineWorld`) is the object registry. It keeps a live list `objects` and a parallel tombstone list `objectsDead`:
  - `removeObject` only marks an entry;
  - `_cleanObjects` splices marked entries out, at one fixed point of the tick;
  - `updateTime` is the tick itself: scale time, time-shift every entry, run collision detection, sweep, then emit the update event.

  The collision subsystem, the scene graph, the entities' own hooks and the event bus are collaborators. Every call the World makes on them is appended to a `calls` trace.
- **Spawner** (`spawner.dfy`, module `SpawnerAsset`) is a gated factory living in a World:
  - it prunes its tracking list;
  - it checks three gates in order: the simultaneous-spawn cap, the players' distance window, and the remaining count;
  - it then builds one of its sources at its own position and registers the result in the World;
  - its `timeShift` retries the spawn until one succeeds.
- **Fallaway** (`fallaway.dfy`, module `FallawayTrait`) is a platform trait. A player's touch starts a countdown; when it runs out, physics is enabled; `reset` puts the platform back where it fell from.
- **Heatman** (`heatman.dfy`, module `HeatmanCharacter`) is an animation router. It picks a label in priority order and moves a flame-transform clock up or down, clamped at its end states. Its health immunity follows its walk speed.
- **Weapon and CrashBomber** (`weapon.dfy`, module `Weapons`; `crashbomber.dfy`, module `CrashBomberWeapon`) cover four things:
  - a cooldown gate;
  - optional ammo with a per-shot cost;
  - a fixed set of projectiles that cycles between an idle pool and a fired pool;
  - CrashBomber's `fire`: pass the gate, take the next idle projectile, emit it.

  The base weapon's own source is not part of this model. Its behaviour is the one `test/unit/tests/weapon.js` asserts.

`engine.dfy` (module `Engine`) holds the vocabulary all of these share:
- an `Option` type for JavaScript's `undefined`;
- a position vector;
- the host `Entity` class;
- `indexOf` and `splice(i, 1)` on sequences.

How the JavaScript is represented:
- Objects whose fields the source updates in place are Dafny classes, and their methods carry `modifies` clauses.
- Where the source loops, the model loops too, with invariants. These are the sweep in `_cleanObjects`, the `for..in` of `cleanReferences`, the player scan of `spawnObject` and the scan of `getObject`.
- Each such method is specified by a function of the old state. The properties are proved about that function.
- `Math.random` is a nondeterministic choice of index.
- `position.distanceTo` is a given function from entity to distance.
- A thrown exception is an outcome value: `TypeError` or `Threw`.

JavaScript behaviour kept as written:
- `hasObject` inspects only the first entry that holds an object. So re-adding an object whose tombstoned entry has not been swept yet appends a second, live entry, and `hasObject` still answers false. `ReAddBeforeSweep` and `SweepAfterReAdd` walk through this.
- `getObject` also returns tombstoned entries.
- An `undefined` `spawnCount` is never `< 1`, and `spawnCount--` keeps it unusable (NaN).
- An `undefined` `spawnInterval` never triggers a spawn.
- The distance window is looked at only when one of the bounds is truthy (non-zero). A comparison with an `undefined` bound is false.
- `cleanReferences` splices inside a `for..in` loop, so the entry after a removed one is never looked at. Pruning is therefore not complete (`PrunedSkipsAfterRemoval`).

Each scenario method below replays one test of `test/unit/tests/weapon.js` or one walk-through of the trait:
- `Weapons.HonorsCoolDown`;
- `Weapons.HonorsProjectileStash`;
- `Weapons.HonorsAmmoLimit`;
- `Weapons.EmitAndRecycle`;
- `FallawayTrait.FallAndReset`;
- `SpawnerAsset.SpawnsWhenPlayersNear` and `SpawnerAsset.RefusesWhenPlayerFar`, the distance window with bounds 0 and 256;
- `SpawnerAsset.TimerSpawns`, a `timeShift` past the interval with every gate open, which spawns and restarts the accumulator.

## Model

| member | source | states |
|---|---|---|
| Engine.IndexOf | src/engine/World.js:64 | `indexOf` returns -1 exactly when the object is absent; otherwise the index of its first occurrence |
| Engine.RemoveAtMultiset | src/engine/World.js:84-85 | `splice(i, 1)` removes exactly one copy of the element at `i` and keeps every other element |
| EngineWorld.ShiftCalls | src/engine/World.js:112-114 | the tick's `forEach` time-shifts every entry exactly once, in list order, with the scaled delta and the new total |
| EngineWorld.Mark | src/engine/World.js:67-76 | after `removeObject(o)` a marker is set exactly when it was set before or it belongs to the first entry holding `o`; nothing changes when `o` is absent |
| EngineWorld.MarkAll | src/engine/World.js:67-76 | after a sequence of `removeObject` calls, a marker is set exactly when it was set before or it belongs to the first entry of one of the removed objects |
| EngineWorld.UnmarkedMembers | src/engine/World.js:77-91 | the sweep keeps an object exactly when some unmarked entry holds it |
| EngineWorld.UnmarkedNoneMarked | src/engine/World.js:77-91 | a sweep with no marker set leaves the live list as it is |
| EngineWorld.SweptAreDetached | src/engine/World.js:82-84 | every marked object gets `unsetWorld` and `collision.removeObject`; only marked objects get `unsetWorld` |
| EngineWorld.RemovedDuringTickIsSwept | src/engine/World.js:112-118 | an object that a hook removes during a tick, and that the live list holds once, is absent after the tick's sweep |
| EngineWorld.NotRemovedSurvivesTick | src/engine/World.js:112-118 | an unmarked object that no hook removes is still live after the tick |
| EngineWorld.World.constructor | src/engine/World.js:22-29 | a new world starts with empty parallel lists, `timeStretch` 1 and `timeTotal` 0 |
| EngineWorld.World.HasObject | src/engine/World.js:62-66 | true exactly when the first entry holding the object is unmarked; true implies the object is listed |
| EngineWorld.World.AddObject | src/engine/World.js:31-47 | TypeError exactly for a non-`Engine.Object`, which changes nothing; a no-op when `hasObject` already holds; otherwise it pushes the object onto both lists (keeping them parallel) and makes the collision, scene and `setWorld` calls; afterwards `hasObject` holds when the object was not listed before |
| EngineWorld.World.GetObject | src/engine/World.js:52-61 | returns the first entry with that id, dead or alive, and nothing (`false`) exactly when no entry has it |
| EngineWorld.World.RemoveObject | src/engine/World.js:67-76 | TypeError exactly for a non-`Engine.Object`; never changes the live list; the markers become `Mark` of the old markers |
| EngineWorld.World.CleanObject | src/engine/World.js:92-99 | appends `unsetWorld`, `collision.removeObject` and, with a model, `scene.remove` to the trace, and nothing else |
| EngineWorld.World.CleanObjects | src/engine/World.js:77-91 | afterwards the lists are still parallel, no marker is set, the live list is exactly the unmarked entries in their original order, and every swept entry was detached, in order |
| EngineWorld.World.ShiftObjects | src/engine/World.js:112-114 | appends one time-shift call per entry to the trace and changes no list |
| EngineWorld.World.RemoveObjects | src/engine/World.js:67-76 | a run of `removeObject` calls leaves the live list as it is and sets the markers to `MarkAll` |
| EngineWorld.World.UpdateTime | src/engine/World.js:107-121 | `timeTotal` grows by `deltaTime * timeStretch`; the time shifts of every entry present at the tick's start, then `detect` over that same list, then the sweep, then the update event carrying the scaled delta and the new total; afterwards the live list is the unmarked entries once the hooks' removals are marked, and no marker remains |
| SpawnerAsset.Pruned | src/object/Spawner.js:18-25 | the tracking list after `cleanReferences` is never longer than before |
| SpawnerAsset.PrunedIsSubsequence | src/object/Spawner.js:18-25 | `cleanReferences` keeps the kept entries in their relative order |
| SpawnerAsset.PrunedOccurrences | src/object/Spawner.js:18-25 | for each entry, `cleanReferences` never adds a copy, and keeps every copy of an entry the scene holds |
| SpawnerAsset.PrunedRemovesOnlyAbsent | src/object/Spawner.js:18-25 | `cleanReferences` adds nothing and removes only entries absent from the scene; every entry the scene holds keeps all its copies |
| SpawnerAsset.PrunedSkipsAfterRemoval | src/object/Spawner.js:18-25 | of two adjacent stale entries, the second survives pruning |
| SpawnerAsset.DistanceGate | src/object/Spawner.js:34-45 | with bounds 0 and 256 only the upper one is truthy; a player 300 away closes the window and one 100 away leaves it open |
| SpawnerAsset.PlayersInRange | src/object/Spawner.js:36-45 | true exactly when no player's distance is above a defined maximum or below a defined minimum |
| SpawnerAsset.Spawner.constructor | src/object/Spawner.js:5-12 | the defaults: cap 1, count and interval undefined, no sources, no tracked objects, no minimum, maximum 256, accumulator 0 |
| SpawnerAsset.Spawner.CleanReferences | src/object/Spawner.js:18-25 | the tracking list becomes `Pruned` of the old one against the scene's objects; no other field changes |
| SpawnerAsset.Spawner.GatesOpen | src/object/Spawner.js:30-49 | open exactly when the tracked count is below the cap, the players are in the window (checked only when a bound is truthy), and the count is not below 1 |
| SpawnerAsset.Spawner.Instantiate | src/object/Spawner.js:50-57 | the count drops by one; with no sources it throws and changes nothing else; otherwise exactly one fresh object, built from some source and placed at the spawner's position, is appended to the tracking list, and the spawn succeeds exactly when that object is an `Engine.Object`; on success the scene appends it to both lists, `hasObject`s it and keeps its time stretch and total; on a throw the scene is unchanged |
| SpawnerAsset.Spawner.SpawnObject | src/object/Spawner.js:27-58 | its effect is `SpawnEffect`: after pruning, it refuses exactly when the cap is reached, a player is outside the window or the count is below 1; a refusal leaves the count and the scene unchanged; otherwise the count drops by exactly one, one fresh object built from some source is appended to the pruned tracking list, and it is spawned into the scene (both lists, `hasObject`, time stretch and total kept) exactly when it is an `Engine.Object` |
| SpawnerAsset.Spawner.TimeShift | src/object/Spawner.js:60-68 | a spawn is attempted exactly when an interval is set and the accumulated time reaches it, and an attempt has exactly the effect of `spawnObject` (`SpawnEffect`: prune, refuse on a shut gate, otherwise decrement, track and register one fresh object); the accumulator is reset to 0 only by a successful spawn and otherwise grows by `dt`; without an attempt nothing else changes; position, cap, interval, sources and both distance bounds are always kept |
| FallawayTrait.Fallaway.constructor | src/traits/Fallaway.js:4-14 | no countdown, no origin, delay 1 |
| FallawayTrait.Fallaway.Reset | src/traits/Fallaway.js:37-44 | physics disabled; a set origin is copied into the host's position and cleared, otherwise the position is unchanged; the countdown is untouched |
| FallawayTrait.Fallaway.Attach | src/traits/Fallaway.js:15-19 | binds the host, which then has physics disabled and its time stretch kept, as `reset` leaves it; a set origin is moved into the host's position and cleared |
| FallawayTrait.Fallaway.Collides | src/traits/Fallaway.js:20-25 | a player starts the countdown at `delay` only when none is running; a running countdown is never restarted |
| FallawayTrait.Fallaway.TimeShift | src/traits/Fallaway.js:26-36 | with no countdown nothing changes; otherwise it counts down, and the first step reaching 0 or below captures the host's position as origin, enables physics and clears the countdown, keeping the host's position and time stretch |
| HeatmanCharacter.Route | src/object/character/Heatman.js:12-41 | which label wins, as an if-and-only-if per label (`toFlame`/`flame` with interim speed, then `fire` > `jump` > `burn` > `fromFlame` > `idle`), and what each label does to the clock: +dt, clamp to the duration, unchanged, -dt, reset to 0 |
| HeatmanCharacter.RouteStaysInBand | src/object/character/Heatman.js:12-41 | one frame keeps the clock inside (-dt, duration + dt) |
| HeatmanCharacter.RouteAllStaysInBand | src/object/character/Heatman.js:12-41 | any run of frames with a fixed, non-negative dt keeps the clock inside (-dt, duration + dt) |
| HeatmanCharacter.HoldingInterimReachesFlame | src/object/character/Heatman.js:14-20 | holding interim speed long enough for `n` steps of dt to cover the distance, the clock ends exactly at the duration after `n + 1` frames |
| HeatmanCharacter.FlameIsSticky | src/object/character/Heatman.js:19-20 | once at or past the duration, interim frames hold the clock exactly at the duration |
| HeatmanCharacter.Heatman.constructor | src/object/character/Heatman.js:5-6 | duration .09, clock 0 |
| HeatmanCharacter.Heatman.RouteAnimation | src/object/character/Heatman.js:12-41 | returns the label `Route` picks and leaves the clock where `Route` puts it; nothing else changes |
| HeatmanCharacter.Heatman.TimeShift | src/object/character/Heatman.js:43-53 | immune exactly when the walk speed is non-zero; then one delegation to the Entity `timeShift` with `dt`, which may set the frame time `deltaTime` to anything; the flame clock and its duration are kept |
| Weapons.Transfer | test/unit/tests/weapon.js:63-70 | moving a projectile between pools keeps their total size; a present projectile leaves its source pool, which shrinks by one, and lands at the end of the other; an absent one moves nothing |
| Weapons.TransferConserves | test/unit/tests/weapon.js:63-70 | a move keeps the two pools together the same multiset of projectiles; a present projectile leaves its source pool exactly once |
| Weapons.EmitThenRecycle | test/unit/tests/weapon.js:148-156 | emit then recycle restores the fired pool exactly, and the idle pool as a multiset, with the projectile moved to its end |
| Weapons.RunPoolConserves | test/unit/tests/weapon.js:63-70 | across any sequence of emits and recycles the pools together keep the owned projectiles, so `|idle| + |fired|` stays the number of projectiles |
| Weapons.PoolsPartition | test/unit/tests/weapon.js:148-156 | with each projectile owned once, it is in exactly one of the two pools, and the pools hold nothing else |
| Weapons.Weapon.constructor | test/unit/tests/weapon.js:13-23 | a new weapon for its user: no cooldown, unlimited ammo, cost 1, empty pools, no events, no world calls |
| Weapons.Weapon.SetCoolDown | test/unit/tests/weapon.js:27 | sets the cooldown duration and leaves the remaining delay alone |
| Weapons.Weapon.SetAmmoMax | test/unit/tests/weapon.js:45 | ammo becomes tracked and starts full at the new maximum |
| Weapons.Weapon.Fire | test/unit/tests/weapon.js:25-60 | succeeds exactly when `Ready()` held; a failure changes nothing; a success starts the cooldown and, with tracked ammo, pays the cost and triggers one ammo-changed event carrying the weapon |
| Weapons.Weapon.TimeShift | test/unit/tests/weapon.js:30-33 | the remaining cooldown shrinks by `dt`, never below 0 |
| Weapons.Weapon.AddProjectile | test/unit/tests/weapon.js:136-145 | the projectile is appended to `projectiles` and to the idle pool; the fired pool is unchanged |
| Weapons.Weapon.GetProjectile | test/unit/tests/weapon.js:35-43 | the first idle projectile, and nothing exactly when the idle pool is empty |
| Weapons.Projectile.Launch | test/unit/tests/weapon.js:118-134 | the projectile's time is reset to 0, it takes the user's time stretch, and the user becomes its emitter |
| Weapons.Weapon.Emit | test/unit/tests/weapon.js:62-70 | moves the projectile from idle to fired as `Transfer` does; resets its time, copies the user's time stretch, sets the user as emitter, adds it to the user's world once |
| Weapons.Weapon.RecycleProjectile | test/unit/tests/weapon.js:147-164 | moves the projectile from fired to idle as `Transfer` does and removes it from the user's world exactly once |
| CrashBomberWeapon.Fire | src/game/object/weapon/CrashBomber.js:4-12 | fails, taking and emitting nothing, exactly when the base gate fails; with no projectiles at all it throws after the gate; otherwise exactly the first idle projectile leaves the idle pool, is emitted (fired pool, world, time, emitter, time stretch), and it returns true; no other projectile is touched, and cooldown, cost and ammo settings are kept |

## Left out

- EngineWorld.World.AddObject: "after a successful `addObject(o)`, `hasObject(o)` holds" is stated only for an object not listed before. When a tombstoned entry of `o` comes first, the source's `hasObject` stays false after the add; `ReAddBeforeSweep` shows this.
- EngineWorld.World.UpdateTime: the `removeObject` calls made by entity hooks during a tick are a parameter applied after the time shifts and `detect`. They are required to be `Engine.Object`s, so a TypeError thrown inside a hook is not modelled. `addObject` calls made by hooks during a tick are not modelled.
- `updateAnimation` and `emitAudio` (src/engine/World.js:48-51, 100-106) are animator and audio pass-throughs.
- The World constructor's ambient light, scene graph, event bus and force constants (gravity, wind, atmospheric density and viscosity) are not modelled, because force integration is not part of this core.
- The Entity class is not part of this model. Its `timeShift`, `setWorld`, `unsetWorld`, trait map and timed callbacks appear only as recorded calls or as the few fields the core files write (position, physics switch, time stretch).
- Collision detection and the THREE scene graph are recorded as calls only.
- `Math.random` and `distanceTo` in the Spawner are a nondeterministic index and a given distance function, because they are randomness and square-root arithmetic.
- The Spawner's inherited `Engine.assets.Object` state is reduced to its position.
- Fallaway's `__requires(Physics)` check is not modelled, because the check belongs to the Trait base class, which is not part of this model. Only the constant list of required trait names is kept. The physics trait is the host's `physicsEnabled` flag.
- Heatman's `deltaTime` is set by the Entity base `timeShift`, and its immune flag belongs to the Health trait; neither is part of this model. They are fields here whose initial values the constructor leaves unspecified. `TimeShift` records the delegated `dt` and leaves `deltaTime` arbitrary afterwards, since the value the base gives it is not modelled.
- Weapon aim clamping and projectile velocity (test/unit/tests/weapon.js:71-117) are left out because they are floating-point vector arithmetic with normalisation.
- The weapon's `directions`, `setUser` (here the constructor's user) and its event bus other than the ammo-changed event are left out.
- The base Weapon source is not part of this model, so these behaviours are chosen to agree with the tests:
  - `emit` and `recycleProjectile` move a projectile only when it is in the pool it leaves;
  - `getProjectile` does not remove: `emit` is what moves a projectile from the idle pool to the fired one (test/unit/tests/weapon.js:63-70), and CrashBomber passes `getProjectile`'s result straight to `emit`, so a removing `getProjectile` would make the pools together lose the projectile;
  - setting `ammo.max` fills the ammo;
  - unlimited ammo is a flag rather than `Infinity`.
- Numbers are unbounded reals and integers, with no floating-point rounding. For example, `1 - .9 - .1` is exactly 0 here.
