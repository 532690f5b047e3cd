# Defender world model

A Dafny model of the simulation core of a browser remake of the arcade game
*Defender*, in two parts. Each is proved against its own specification.

* `World` (src/world/world.ts) holds the whole game state. The world wraps
  horizontally and is about seven screens wide. It contains:
  * a player ship that thrusts, decelerates and fires lasers;
  * six kinds of enemy:
    * Landers dive at grounded humanoids, carry them up and turn into
      Mutants at the top;
    * Mutants, Baiters and Swarmers home in on the player;
    * Bombers drop mines;
    * Pods burst into three to five Swarmers when killed;
  * humanoids, which are carried, fall when their carrier dies, and land or
    die;
  * mines and particles that age out;
  * collision checks;
  * a smart bomb that clears everything within reach of the player.
* `StateMachine` (src/states/state-machine.ts) holds the game's screen
  states and the key of the current one. Its transitions run the old
  state's exit hook and then the new state's enter hook.

## Layout

* `constants.dfy`, module `Constants`: the game constants of
  src/core/constants.ts that the core uses, as exact rationals.
* `geometry.dfy`, module `Geometry`: the wrapping helpers `wrapX`,
  `distWrap` and `dirWrap`. It also holds JavaScript's truncating `%`
  (`JsRem`) and `Math.sign`.
* `seqs.dfy`, module `Seqs`: `Array.prototype.filter` as `Filter`, with
  lemmas saying which elements it keeps.
* `entities.dfy`, module `Entities`: the records `Player`, `Enemy`,
  `Humanoid`, `Laser`, `Mine` and `Particle`. It also holds the records of
  random draws that replace `Math.random()`.
* `rules.dfy`, module `Rules`: the per-entity steps of every update as pure
  functions, with the lemmas about them.
* `ticks.dfy`, module `Ticks`: the pure specification of `updateEnemies`.
  Enemies are visited in order, and each may change the humanoid list
  (Landers) or the mine list (Bombers).
* `combat.dfy`, module `Combat`: the pure specification of
  `checkLaserHits`, `killEnemy` and `smartBomb`.
* `world.dfy`, module `Simulation`: class `World`. It has the source's
  fields as `seq` fields, and its methods update them in place with loops.
  Every method is proved equal to the pure function of the old state that
  specifies it, or states its effect on the fields directly.
* `state_machine.dfy`, module `StateMachines`: class `StateMachine`, with a
  ghost log of the hook calls it makes.

## Modelling choices

* **Numbers.** JavaScript numbers are `real`. `x % m` is modelled as
  truncating toward zero (`JsRem`), and `Math.floor` as `.Floor`.
* **`Math.random()`.** Each call becomes a parameter drawn from `[0, 1)`, and
  the `Unit` predicate checks the range. Draws are grouped in records per
  enemy, spawn, kill and particle.
* **Trigonometry.** The particle draw carries `Math.cos(angle)` and
  `Math.sin(angle)` directly, each within `[-1, 1]`.
* **Square root.** The homing enemies' `Math.sqrt` is a `norm` function
  passed in. `LimitSpeedBounds` assumes only that `norm` returns a
  non-negative square root of `vx² + vy²`.
* **Index back-references.** `Humanoid.carriedBy` is an index into the
  enemy list, exactly as in the source. `updateEnemies` compacts that list
  with `filter`, and the model keeps that behaviour unchanged.

## Model

| member | source | states |
|---|---|---|
| Geometry.Sign | src/world/world.ts:32 | Math.sign on a real is -1, 0 or 1: 0 exactly at 0 and 1 exactly on positives |
| Geometry.WrapX | src/world/world.ts:19-21 | wrapX always lands on the world axis, in [0, WORLD_WIDTH) |
| Geometry.WrapXIsFloorMod | src/world/world.ts:19-21 | the double truncating remainder equals the floored modulus x - W·floor(x/W) |
| Geometry.WrapXOfInWorld | src/world/world.ts:19-21 | wrapX leaves a coordinate already on the axis unchanged |
| Geometry.WrapXIdempotent | src/world/world.ts:19-21 | wrapX(wrapX(x)) == wrapX(x) |
| Geometry.WrapXPeriodic | src/world/world.ts:19-21 | shifting x by any whole number of world widths does not change wrapX(x) |
| Geometry.DistWrap | src/world/world.ts:23-26 | distWrap is at most half the world, and non-negative when the points are at most one world apart |
| Geometry.DistWrapIsDistance | src/world/world.ts:23-26 | on the axis distWrap is symmetric, lies in [0, W/2] and is 0 exactly when the points coincide |
| Geometry.ShortestDeltaReaches | src/world/world.ts:28-31 | dirWrap's adjusted delta lies in [-W/2, W/2], has length distWrap, and leads from `from` to `to` around the wrap |
| Geometry.DirWrap | src/world/world.ts:28-33 | dirWrap is -1, 0 or 1 |
| Geometry.DirWrapAntisymmetric | src/world/world.ts:28-33 | on the axis dirWrap(a,b) == -dirWrap(b,a), it is 0 exactly when a == b, and an exact half-world tie points right one way and left back |
| Geometry.DirWrapFollowsDistance | src/world/world.ts:23-33 | dirWrap times distWrap is the signed shortest delta, so dirWrap points along the shorter way round |
| Geometry.WrappedOffsetDistance | src/world/world.ts:259 | an offset of up to half a world taken from an axis position and wrapped lies exactly that far away around the wrap |
| Rules.Clamp | src/world/world.ts:224 | Math.max(lo, Math.min(hi, v)) lies in [lo, hi] and leaves a value already in range alone |
| Rules.CountDownExpires | src/world/world.ts:229-237 | counting a positive timer down by dt for n frames with n·dt ≥ t brings it to ≤ 0, and never above its start |
| Rules.CountDownStaysOut | src/world/world.ts:229-237 | a timer already at or below zero is left alone by every later frame |
| Rules.NewPlayer | src/world/world.ts:118-127 | the new player starts at the world centre and the vertical middle of the play area, alive, facing right, at rest, with 2 s of invulnerability |
| Rules.LimitPlayerSpeed | src/world/world.ts:202-205 | the speed clamp caps |vx| at PLAYER_MAX_SPEED, keeps the sign, and leaves a legal speed alone |
| Rules.NextPlayerVx | src/world/world.ts:186-205 | the new vx is within the speed cap; without thrust it never flips sign or grows, and (from a speed within the cap) its size drops by PLAYER_DECEL·dtSec or to 0 when that would overshoot; with thrust it is the clamped thrust step |
| Rules.NextPlayerVy | src/world/world.ts:207-215 | up gives -PLAYER_VERT_SPEED, else down gives +PLAYER_VERT_SPEED, else vy is multiplied by 0.9, and set to 0 when the product is below 5 in size, so it never exceeds 0.9·|vy| |
| Rules.PlayerStep | src/world/world.ts:183-232 | after a step the player keeps its facing and life, its new vx and vy are those of NextPlayerVx and NextPlayerVy (so |vx| ≤ max, and without thrust vx never flips sign), its position is the old one moved by the new velocity as MovePlayer says (x on the axis, y inside [TOP+R, GROUND−R]), and invulnerability counts down only while positive |
| Rules.MovePlayer | src/world/world.ts:217-224 | the move sets x to wrapX(x + vx·dtSec) and y to y + vy·dtSec clamped to [TOP+R, GROUND−R], and changes nothing else |
| Rules.LaserFrom | src/world/world.ts:244-250 | a new laser lives LASER_LIFETIME and starts at the ship's height one radius ahead of the ship on the side it faces, flying the way the ship faces |
| Rules.SpawnedEnemy | src/world/world.ts:256-269 | a spawned enemy is alive, carries nothing, starts at rest with timer in [1, 3), lies on the axis and in the upper band, and is 0.6–1 screen widths from the player around the wrap |
| Rules.GroundedHumanoid | src/world/world.ts:165-178 | each spawned humanoid is alive, grounded, not falling, carried by nobody, at GROUND_Y and on the axis |
| Rules.Offspring | src/world/world.ts:567-576 | a Pod's offspring is a live Swarmer with timer 0 carrying nothing, within 15·RS of the Pod and at most half the Swarmer speed on each axis |
| Rules.SwarmCount | src/world/world.ts:566 | the loop bound 3 + floor(random·3), re-drawn at every test, stops the loop after 3 to 5 Swarmers |
| Rules.Spark | src/world/world.ts:508-516 | an explosion particle starts at the explosion point with its colour, lives 0.3–0.8 s and moves at most 200·RS on each axis |
| Rules.TerrainStep | src/world/world.ts:151-153 | one terrain sample step always lands in [20·RS, 90·RS] |
| Rules.TerrainProfile | src/world/world.ts:146-156 | generateTerrain pushes one sample per iteration |
| Rules.TerrainProfileBounded | src/world/world.ts:146-156 | sample j of the terrain is the random walk's height after j + 1 steps, and every sample lies in [20·RS, 90·RS] |
| Rules.TerrainIndex | src/world/world.ts:159-161 | the sampled index lies in [0, terrain.length) |
| Rules.LanderAscend | src/world/world.ts:300-303 | a carrying Lander climbs at 1.5× the descent speed and stays within the Lander speed horizontally, with nothing else changed |
| Rules.Dive | src/world/world.ts:336-341 | a diving Lander heads down, and horizontally in the direction dirWrap gives toward the target |
| Rules.LanderWander | src/world/world.ts:344-348 | the wander jitter keeps the Lander within its horizontal and vertical speed limits |
| Rules.NearestAbductable | src/world/world.ts:324-334 | the nearest-humanoid scan yields -1 or an index below the scanned length |
| Rules.NearestAbductableIsNearest | src/world/world.ts:324-334 | the scan returns -1 exactly when no humanoid is abductable, otherwise an abductable one that is nearest around the wrap and the first of the nearest |
| Rules.LanderSteer | src/world/world.ts:319-348 | an empty Lander's velocity after timer, dive and wander is within its speed limits, with nothing else changed |
| Rules.LanderDives | src/world/world.ts:319-348 | when the timer fires and the nearest abductable humanoid is within a screen width, the Lander ends the step at full speed toward it around the wrap and at full descent speed, whatever the jitter, for ticks up to 0.6 s |
| Rules.BomberDrift | src/world/world.ts:391-394 | a Bomber's drift keeps |vx| ≤ BOMBER_SPEED and |vy| ≤ BOMBER_SPEED/2 |
| Rules.PodDrift | src/world/world.ts:403-409 | a Pod's drift keeps |vx| ≤ POD_SPEED and |vy| ≤ POD_SPEED/2 |
| Rules.LimitSpeed | src/world/world.ts:369-373 | the speed clamp changes only the velocity, and leaves an enemy already within the speed alone |
| Rules.LimitSpeedBounds | src/world/world.ts:369-373 | when norm is the Euclidean norm, the clamped speed is at most the limit |
| Rules.Pull | src/world/world.ts:365-368 | homing changes only the enemy's velocity |
| Rules.MutantSteer | src/world/world.ts:363-374 | updateMutant changes only the Mutant's velocity |
| Rules.BaiterSteer | src/world/world.ts:376-387 | updateBaiter changes only the Baiter's velocity |
| Rules.SwarmerSteer | src/world/world.ts:411-425 | updateSwarmer changes only the Swarmer's velocity |
| Rules.MoveEnemy | src/world/world.ts:288-292 | moving an enemy changes only its position, wraps x onto the axis, keeps y in the enemy band, and leaves an in-band y unclamped |
| Rules.StepLaser | src/world/world.ts:431-434 | one tick sets a laser's x to wrapX(x + vx·dtSec), which is on the axis, shortens its life by the tick, and keeps its height and speed |
| Rules.StepMine | src/world/world.ts:442-444 | one tick leaves a mine where it is and shortens its life by the tick |
| Rules.StepParticle | src/world/world.ts:498-502 | one tick moves a particle by its velocity times the tick, without wrapping, and shortens its life by the tick |
| Rules.AgeLasers | src/world/world.ts:429-436 | updateLasers never adds lasers, and every laser it keeps is alive and on the axis |
| Rules.AgeMines | src/world/world.ts:440-446 | updateMines never adds mines, and every mine it keeps is alive |
| Rules.AgeParticles | src/world/world.ts:496-504 | updateParticles never adds particles, and every particle it keeps is alive |
| Rules.AgeLasersKeepsLiving | src/world/world.ts:429-436 | updateLasers keeps exactly the lasers whose reduced life is positive, in their original order, each stepped; all survivors are alive and on the axis |
| Rules.AgeMinesKeepsLiving | src/world/world.ts:440-446 | updateMines keeps exactly the mines whose reduced life is positive, in order, each aged |
| Rules.AgeParticlesKeepsLiving | src/world/world.ts:496-504 | updateParticles keeps exactly the particles whose reduced life is positive, in order, each stepped |
| Rules.Carrier | src/world/world.ts:459 | the carrier lookup finds an enemy exactly when the index names a live one |
| Rules.HumanoidStep | src/world/world.ts:453-490 | dead, grounded and resting humanoids are unchanged; a carried one follows a live carrier and starts falling when it has none; no humanoid comes back to life, and none dies while the planet exists |
| Rules.FallingHumanoidFalls | src/world/world.ts:469-473 | a falling humanoid still above the ground gains 150·RS·dtSec of speed, moves by it, keeps its x and stays falling and alive |
| Rules.FallingHumanoidLands | src/world/world.ts:469-484 | a falling humanoid that reaches the ground lands there at rest while the planet exists, and dies when it does not |
| Rules.HumanoidStepKeepsExclusive | src/world/world.ts:453-490 | a humanoid is never both carried and falling, nor carried and grounded, and updateHumanoids keeps that so |
| Rules.Blasted | src/world/world.ts:624-632 | the bomb marks dead exactly the live enemies within reach of the player and leaves the rest alone |
| Rules.BombTargets | src/world/world.ts:621-631 | the smart bomb's kill counter never exceeds the number of live enemies |
| Rules.BombTargetsAreKills | src/world/world.ts:620-640 | the number of bomb targets equals the drop in the number of live enemies |
| Ticks.FirstGrab | src/world/world.ts:351-360 | the grab scan yields -1 or an index from its start on |
| Ticks.FirstGrabIsFirst | src/world/world.ts:351-360 | the grab scan returns the first grabbable humanoid in reach, and -1 exactly when none is |
| Ticks.KillCarried | src/world/world.ts:309-312 | mutation kills and releases exactly the carried humanoid (when the index names one) and nothing else |
| Ticks.LanderTick | src/world/world.ts:298-361 | a Lander keeps its position and life; carrying at the top it becomes a Mutant carrying nothing and kills its humanoid; carrying lower it climbs; empty it picks up the first humanoid in reach (back-referenced by its own index) or none |
| Ticks.LanderTickSteers | src/world/world.ts:318-348 | an empty Lander's timer runs down by the tick and is redrawn as 2 + 3·draw when it fires, and its vx and vy are those LanderSteer gives for that timer |
| Ticks.LanderTickKeepsExclusive | src/world/world.ts:298-361 | updateLander keeps every humanoid either grounded, carried or falling, never two at once |
| Ticks.BomberTick | src/world/world.ts:389-401 | a Bomber drops a fresh 8-second mine at its position exactly when its timer runs out, then rewinds the timer to [2, 5); otherwise the timer counts down |
| Ticks.BomberTickDrifts | src/world/world.ts:389-401 | a Bomber's new velocity is that of BomberDrift |
| Ticks.Behave | src/world/world.ts:279-286 | one enemy's behaviour changes only that enemy (not its life), Landers alone touch the humanoids, Bombers alone add a mine, and at most one, at the end, at the Bomber's position |
| Ticks.BehaveSteers | src/world/world.ts:279-286 | the enemy leaves with the velocity (or whole state) of its type's rule: LanderTick, MutantSteer, BaiterSteer, BomberDrift, PodDrift or SwarmerSteer |
| Ticks.EnemyTick | src/world/world.ts:276-293 | one loop iteration skips a dead enemy entirely; a live one behaves and moves, keeps its life, and ends on the axis and in the enemy band; other enemies are untouched |
| Ticks.StepAll | src/world/world.ts:276-293 | the loop keeps every enemy's life and kind (except Lander→Mutant), leaves each visited live enemy on the axis and in the band, and only appends mines |
| Ticks.UpdateEnemiesOutcome | src/world/world.ts:273-296 | after updateEnemies exactly the previously live enemies remain, all alive, on the axis and in the enemy band |
| Ticks.StepAllKeepsExclusive | src/world/world.ts:273-296 | updateEnemies keeps every humanoid in one place at a time |
| Ticks.DroppedMinesAreFresh | src/world/world.ts:389-401 | every mine updateEnemies adds has 8 seconds to live |
| Combat.Sparks | src/world/world.ts:506-518 | an explosion of `count` draws makes `count` particles, each one Spark of its own draw at the explosion point |
| Combat.Drop | src/world/world.ts:557-562 | a released humanoid is carried by nobody, falls from rest, and keeps its position and life |
| Combat.Released | src/world/world.ts:556-562 | killEnemy drops exactly the humanoid its enemy carried, when the index names one, and changes no other |
| Combat.BroodN | src/world/world.ts:566-578 | the first n Swarmers of the split are the Offspring of the first n draws, in order |
| Combat.Brood | src/world/world.ts:564-579 | a dying Pod splits into 3 to 5 fresh live Swarmers |
| Combat.KillEnemies | src/world/world.ts:552-580 | killEnemy marks exactly the named enemy dead and keeps every other one; only a Pod appends, and then 3 to 5 fresh Swarmers |
| Combat.KillCountsOne | src/world/world.ts:552-554 | killing a live enemy lowers the live count by exactly one |
| Combat.EnemyHitBy | src/world/world.ts:527-536 | the enemy scan yields -1 or an index below its start |
| Combat.EnemyHitByIsLast | src/world/world.ts:527-536 | the backward enemy scan finds the highest-indexed live enemy the laser touches, and -1 exactly when it touches none |
| Combat.MineHitBy | src/world/world.ts:539-547 | the mine scan yields -1 or an index below its start |
| Combat.MineHitByIsLast | src/world/world.ts:539-547 | the backward mine scan finds the highest-indexed mine the laser touches, and -1 exactly when it touches none |
| Combat.Without | src/world/world.ts:531 | splice(i, 1) removes exactly element i and keeps the others in order |
| Combat.Sweep | src/world/world.ts:522-550 | the sweep's hit index is -1 or names an enemy |
| Combat.AllMissStep | src/world/world.ts:523-548 | removing a laser that hits no live enemy does not change whether the earlier lasers all miss |
| Combat.SweepFindsHit | src/world/world.ts:522-550 | checkLaserHits reports a hit exactly when some laser touches a live enemy, and the enemy it reports is live and touched by a laser |
| Combat.SweepCounts | src/world/world.ts:522-550 | every laser removed accounts for one destroyed mine or for the enemy hit, each destroyed mine leaves six particles, and older particles stay in front |
| Combat.BombEnemiesKills | src/world/world.ts:620-632 | the bomb kills exactly its targets among the enemies scanned, leaves the rest as they were, and only appends fresh Swarmers from dying Pods |
| Combat.BombEnemiesBlasts | src/world/world.ts:620-640 | over the enemies scanned the bomb leaves exactly the Blasted list, and its kill count is the drop in live enemies there |
| Combat.BombEnemiesCount | src/world/world.ts:620-632 | the returned kill count is the number of bomb targets |
| Combat.BombEnemiesSparks | src/world/world.ts:624-632 | each bomb kill adds eight particles behind the old ones |
| Combat.BombEnemiesReleases | src/world/world.ts:624-632 | the bomb drops exactly the humanoids that its targets carried and leaves the others |
| Combat.BombMinesKeepsOutside | src/world/world.ts:633-639 | the bomb removes exactly the mines within reach and keeps the others in order |
| Combat.BombMinesSparks | src/world/world.ts:633-639 | each mine the bomb removes adds four particles behind the old ones |
| Simulation.World.constructor | src/world/world.ts:101-116 | a new world has the initial player, empty lists, zero cooldown and camera, an intact planet and a generated, bounded terrain |
| Simulation.World.Reset | src/world/world.ts:129-136 | reset empties enemies, lasers, mines and particles, zeroes the cooldown and restores the planet, and touches nothing else |
| Simulation.World.ResetFull | src/world/world.ts:138-144 | resetFull also renews the player and the terrain, and spawns NUM_HUMANOIDS grounded humanoids |
| Simulation.World.GenerateTerrain | src/world/world.ts:146-156 | the loop builds the terrain profile of the draws, every sample in [20·RS, 90·RS] |
| Simulation.World.GetTerrainHeight | src/world/world.ts:158-163 | on generated terrain the ground height lies within GROUND_Y + 0.3·[20·RS, 90·RS] |
| Simulation.World.SpawnHumanoids | src/world/world.ts:165-179 | spawnHumanoids replaces the list with NUM_HUMANOIDS grounded humanoids, none in two places at once |
| Simulation.World.UpdatePlayer | src/world/world.ts:183-238 | updatePlayer makes the player step of PlayerStep, centres the camera on the player, and counts the fire cooldown down |
| Simulation.World.FireLaser | src/world/world.ts:240-252 | fireLaser fires exactly when the cooldown has run out; then it appends one laser from the ship's nose and restarts the cooldown; otherwise nothing changes |
| Simulation.World.SpawnEnemy | src/world/world.ts:256-269 | spawnEnemy appends one spawned enemy and keeps the others |
| Simulation.World.FindNearest | src/world/world.ts:324-334 | the loop finds the nearest abductable humanoid |
| Simulation.World.FindGrab | src/world/world.ts:351-360 | the loop finds the first humanoid in grabbing reach |
| Simulation.World.UpdateLander | src/world/world.ts:298-361 | updateLander updates the Lander and the humanoids as LanderTick says |
| Simulation.World.UpdateBomber | src/world/world.ts:389-401 | updateBomber updates the Bomber and the mines as BomberTick says |
| Simulation.World.UpdateEnemy | src/world/world.ts:279-286 | the switch on the enemy type acts as Behave |
| Simulation.World.UpdateEnemies | src/world/world.ts:273-296 | updateEnemies leaves the enemies, humanoids and mines of StepAll, with dead enemies filtered out |
| Simulation.World.UpdateLasers | src/world/world.ts:429-436 | updateLasers leaves the lasers of AgeLasers |
| Simulation.World.UpdateMines | src/world/world.ts:440-446 | updateMines leaves the mines of AgeMines |
| Simulation.World.UpdateHumanoids | src/world/world.ts:450-492 | updateHumanoids applies HumanoidStep to each humanoid in place and keeps every humanoid in one place at a time |
| Simulation.World.UpdateParticles | src/world/world.ts:496-504 | updateParticles leaves the particles of AgeParticles |
| Simulation.World.SpawnExplosion | src/world/world.ts:506-518 | spawnExplosion appends the explosion's particles behind the old ones |
| Simulation.World.KillEnemy | src/world/world.ts:552-580 | killEnemy leaves the enemies of KillEnemies and releases the humanoid its enemy carried |
| Simulation.World.FindEnemyHit | src/world/world.ts:527-536 | the backward loop finds the last live enemy the laser hits |
| Simulation.World.FindMineHit | src/world/world.ts:539-547 | the backward loop finds the last mine the laser hits |
| Simulation.World.CheckLaserHits | src/world/world.ts:522-550 | checkLaserHits leaves the lasers, mines and particles of Sweep; it returns none and spares the enemies when no laser hits, and otherwise returns the enemy's kind and position and kills it |
| Simulation.World.CheckPlayerHits | src/world/world.ts:582-603 | the player is hit exactly when alive, not invulnerable, and touching a live enemy or a mine |
| Simulation.World.CheckHumanoidCatch | src/world/world.ts:605-616 | the catch returns -1 exactly when the player is dead or touches no falling humanoid, otherwise the first one it touches |
| Simulation.World.SmartBomb | src/world/world.ts:620-641 | smartBomb leaves the state of BombEnemies and BombMines, returns the number of targets, and keeps exactly the mines out of reach |
| StateMachines.TransitionEvents | src/states/state-machine.ts:22-28 | a transition calls the old state's exit hook, then the new state's enter hook; each is called exactly when that state provides it, and exactly once then (the number of calls is the number of hooks provided) |
| StateMachines.HookEvents | src/states/state-machine.ts:30-40 | update and render call the current state's hook exactly when there is a current state that provides it |
| StateMachines.StateMachine.constructor | src/states/state-machine.ts:9-10 | a new machine has no states, no current key and no hook calls |
| StateMachines.StateMachine.Register | src/states/state-machine.ts:18-20 | register adds or replaces one state, keeps the others, and neither runs a hook nor changes the current key |
| StateMachines.StateMachine.Transition | src/states/state-machine.ts:22-28 | transition makes the key current, registered or not, and makes the hook calls of TransitionEvents: the exit hook of the old state and the enter hook of the new one, each once and only when provided |
| StateMachines.StateMachine.Update | src/states/state-machine.ts:30-34 | update makes the hook calls of HookEvents for the update hook |
| StateMachines.StateMachine.Render | src/states/state-machine.ts:36-40 | render makes the hook calls of HookEvents for the render hook |
| StateMachines.RunPairsEnterWithExit | src/states/state-machine.ts:22-28 | from a fresh machine whose states all have both hooks, transitions enter each state and exit it before entering the next |
| StateMachines.RunFrom | src/states/state-machine.ts:22-28 | from a current state, each transition exits the previously entered state and then enters the next |
| StateMachines.SelfTransition | src/states/state-machine.ts:22-28 | a transition to the current state exits it and enters it again |

## Left out

- Rendering, sound, keyboard input and the game loop in src/game.ts are not part of this model. Which update runs when, and with what `dt`, is up to the caller.
- `StateMachine`'s hooks run game code and receive a context object, neither of which is modelled. The log records which hook would be called. A hook that calls back into the machine is not modelled.
- Floating-point rounding, `NaN` and `Infinity` are not modelled: numbers are exact reals. The nearest-humanoid scan's initial `Infinity` is modelled as "no candidate yet".
- `Math.random()`, `Math.cos`, `Math.sin` and `Math.sqrt` are not computed. The random draws, the cosine/sine pair and the norm are passed in, so the model does not fix their values or the order in which the draws are taken across calls.
- Simulation.World.GetTerrainHeight: requires a non-empty terrain. On an empty terrain the source computes `x % 0` and indexes an empty array; the result is `NaN`, which the model does not represent. Its contract states the height range, not its periodicity in `worldX`.
- Simulation.World.UpdateEnemies: states its result through `StepAll`. The survivors' count and position, and the humanoid invariant, are proved about `StepAll` (`UpdateEnemiesOutcome`, `StepAllKeepsExclusive`) rather than restated on the method.
- Simulation.World.SmartBomb: states its result through `BombEnemies` and `BombMines`, plus the kill count and the mines kept. The enemy, humanoid and particle facts are proved about those functions (`BombEnemiesKills`, `BombEnemiesBlasts`, `BombEnemiesReleases`, `BombEnemiesSparks`, `BombMinesSparks`).
- `Humanoid.carriedBy` is not proved consistent with `Enemy.carryingHumanoid`. The source compacts the enemy list in `updateEnemies` without renumbering `carriedBy`, so no such invariant holds across frames.
- The source's constructor regenerates terrain only; the fields' own initialisers build the player. The model gives the constructor the terrain draws and sets every field directly.
