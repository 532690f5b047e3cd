/** The game world (class World in src/world/world.ts): the player, the
    enemies, humanoids, lasers, mines and particles, the terrain, and the
    operations the game loop calls on them every frame. Every Math.random()
    result the source draws is a parameter here; see module Entities. */
module Simulation {
  import opened Constants
  import opened Geometry
  import opened Entities
  import opened Seqs
  import opened Rules
  import opened Ticks
  import opened Combat

  /** The player is touching a live enemy. */
  predicate TouchesEnemy(p: Player, es: seq<Enemy>) {
    exists k :: 0 <= k < |es| && es[k].alive && PlayerTouchesEnemy(p, es[k])
  }

  /** The player is touching a mine. */
  predicate TouchesMine(p: Player, ms: seq<Mine>) {
    exists k :: 0 <= k < |ms| && PlayerTouchesMine(p, ms[k])
  }

  /** A humanoid the player catches: falling free and touching the ship. */
  predicate Catches(p: Player, h: Humanoid) {
    Catchable(h) && PlayerTouchesHumanoid(p, h)
  }

  class World {
    var player: Player
    var enemies: seq<Enemy>
    var humanoids: seq<Humanoid>
    var lasers: seq<Laser>
    var mines: seq<Mine>
    var particles: seq<Particle>
    /** One ground-height sample per 4 screen pixels of world width. */
    var terrain: seq<real>
    var fireCooldown: real
    var cameraX: real
    var planetDestroyed: bool

    /** A new world: a fresh ship, nothing else in it, and a generated terrain. */
    constructor (terrainDraws: seq<TerrainDraw>)
      requires |terrainDraws| == TERRAIN_SAMPLES && ValidTerrainDraws(terrainDraws)
      ensures player == NewPlayer()
      ensures enemies == [] && humanoids == [] && lasers == [] && mines == [] && particles == []
      ensures fireCooldown == 0.0 && cameraX == 0.0 && !planetDestroyed
      ensures terrain == TerrainProfile(terrainDraws) && TerrainValid(terrain)
    {
      player := NewPlayer();
      enemies := [];
      humanoids := [];
      lasers := [];
      mines := [];
      particles := [];
      terrain := [];
      fireCooldown := 0.0;
      cameraX := 0.0;
      planetDestroyed := false;
      new;
      GenerateTerrain(terrainDraws);
    }

    /** reset: clear enemies, shots, mines and particles for a new wave; the
        ship, the humanoids and the terrain stay. */
    method Reset()
      modifies this`enemies, this`lasers, this`mines, this`particles, this`fireCooldown, this`planetDestroyed
      ensures enemies == [] && lasers == [] && mines == [] && particles == []
      ensures fireCooldown == 0.0 && !planetDestroyed
    {
      enemies := [];
      lasers := [];
      mines := [];
      particles := [];
      fireCooldown := 0.0;
      planetDestroyed := false;
    }

    /** resetFull: reset, plus a fresh ship, a new terrain and new humanoids. */
    method ResetFull(terrainDraws: seq<TerrainDraw>, humanoidXs: seq<real>)
      requires |terrainDraws| == TERRAIN_SAMPLES && ValidTerrainDraws(terrainDraws)
      requires |humanoidXs| == NUM_HUMANOIDS && forall x :: x in humanoidXs ==> Unit(x)
      modifies this
      ensures player == NewPlayer()
      ensures enemies == [] && lasers == [] && mines == [] && particles == []
      ensures fireCooldown == 0.0 && !planetDestroyed && cameraX == old(cameraX)
      ensures terrain == TerrainProfile(terrainDraws) && TerrainValid(terrain)
      ensures |humanoids| == NUM_HUMANOIDS
      ensures forall j :: 0 <= j < NUM_HUMANOIDS ==> humanoids[j] == GroundedHumanoid(humanoidXs[j])
    {
      Reset();
      player := NewPlayer();
      humanoids := [];
      GenerateTerrain(terrainDraws);
      SpawnHumanoids(humanoidXs);
    }

    /** generateTerrain: a clamped random walk from 60 native pixels, one
        sample per draw, with an occasional crater. */
    method GenerateTerrain(draws: seq<TerrainDraw>)
      requires |draws| == TERRAIN_SAMPLES && ValidTerrainDraws(draws)
      modifies this`terrain
      ensures terrain == TerrainProfile(draws)
      ensures TerrainValid(terrain)
    {
      terrain := [];
      var h := TERRAIN_START;
      var i := 0;
      while i < TERRAIN_SAMPLES
        invariant 0 <= i <= TERRAIN_SAMPLES
        invariant ValidTerrainDraws(draws[..i])
        invariant terrain == TerrainProfile(draws[..i])
        invariant h == HeightAfter(draws[..i])
      {
        var d := draws[i];
        assert draws[..i + 1][..i] == draws[..i];
        h := h + (d.step - 0.48) * 8.0 * RENDER_SCALE;
        h := Max(TERRAIN_LOW, Min(TERRAIN_HIGH, h));
        if d.crater < 0.05 {
          h := (30.0 + d.height * 50.0) * RENDER_SCALE;
        }
        terrain := terrain + [h];
        i := i + 1;
      }
      assert draws[..i] == draws;
      TerrainProfileBounded(draws);
    }

    /** getTerrainHeight: the ground line at a world position, from the
        sample under it; it lies between 6 and 27 native pixels below GROUND_Y. */
    function GetTerrainHeight(worldX: real): (y: real)
      reads this
      requires |terrain| > 0
      ensures TerrainValid(terrain) ==>
        GROUND_Y + TERRAIN_LOW * 0.3 <= y <= GROUND_Y + TERRAIN_HIGH * 0.3
    {
      var i := TerrainIndex(worldX, |terrain|);
      assert terrain[i] in terrain;
      GROUND_Y + terrain[i] * 0.3
    }

    /** spawnHumanoids: NUM_HUMANOIDS humanoids standing on the ground at
        random positions. */
    method SpawnHumanoids(xs: seq<real>)
      requires |xs| == NUM_HUMANOIDS && forall x :: x in xs ==> Unit(x)
      modifies this`humanoids
      ensures |humanoids| == NUM_HUMANOIDS
      ensures forall j :: 0 <= j < NUM_HUMANOIDS ==> humanoids[j] == GroundedHumanoid(xs[j])
      ensures AllExclusive(humanoids)
    {
      humanoids := [];
      var i := 0;
      while i < NUM_HUMANOIDS
        invariant 0 <= i <= NUM_HUMANOIDS && |humanoids| == i
        invariant forall j :: 0 <= j < i ==> humanoids[j] == GroundedHumanoid(xs[j])
      {
        assert xs[i] in xs;
        var x := xs[i] * WORLD_WIDTH;
        humanoids := humanoids + [Humanoid(x, GROUND_Y, true, true, false, -1, 0.0)];
        i := i + 1;
      }
    }

    // -------------------------------------------------------------------------
    // Player

    /** updatePlayer: one frame of steering and movement for the ship, the
        camera following it, and the two countdowns. dt is in milliseconds. */
    method UpdatePlayer(dt: real, thrust: bool, up: bool, down: bool)
      modifies this`player, this`cameraX, this`fireCooldown
      ensures player == PlayerStep(old(player), dt / 1000.0, thrust, up, down)
      ensures cameraX == player.x - CANVAS_WIDTH / 2.0
      ensures fireCooldown == CountDown(old(fireCooldown), dt / 1000.0)
    {
      var dtSec := dt / 1000.0;
      player := PlayerStep(player, dtSec, thrust, up, down);
      cameraX := player.x - CANVAS_WIDTH / 2.0;
      if fireCooldown > 0.0 {
        fireCooldown := fireCooldown - dtSec;
      }
    }

    /** fireLaser: refused while the cooldown runs; otherwise one laser is
        added at the ship's nose and the cooldown restarts, so an immediate
        second shot is refused. */
    method FireLaser() returns (fired: bool)
      modifies this`fireCooldown, this`lasers
      ensures fired <==> old(fireCooldown) <= 0.0
      ensures !fired ==> fireCooldown == old(fireCooldown) && lasers == old(lasers)
      ensures fired ==> fireCooldown == FIRE_COOLDOWN && fireCooldown > 0.0
      ensures fired ==> lasers == old(lasers) + [LaserFrom(player)]
    {
      if fireCooldown > 0.0 {
        return false;
      }
      fireCooldown := FIRE_COOLDOWN;
      var dir := if player.facingRight then 1.0 else -1.0;
      lasers := lasers + [Laser(player.x + dir * PLAYER_RADIUS, player.y, dir * LASER_SPEED + player.vx * 0.3, LASER_LIFETIME)];
      return true;
    }

    // -------------------------------------------------------------------------
    // Enemies

    /** spawnEnemy: one new enemy of the given type, off-screen from the player. */
    method SpawnEnemy(kind: EnemyType, d: SpawnDraws)
      requires ValidSpawnDraws(d)
      modifies this`enemies
      ensures enemies == old(enemies) + [SpawnedEnemy(kind, player.x, d)]
    {
      var side := if d.side < 0.5 then -1.0 else 1.0;
      var x := WrapX(player.x + side * (CANVAS_WIDTH * 0.6 + d.dist * CANVAS_WIDTH * 0.4));
      var y := PLAY_AREA_TOP + d.y * (GROUND_Y - PLAY_AREA_TOP - 50.0 * RENDER_SCALE);
      enemies := enemies + [Enemy(kind, x, y, 0.0, 0.0, true, 1.0 + d.timer * 2.0, -1)];
    }

    /** updateLander's target scan: the nearest abductable humanoid, the first
        of several equally near, or -1. */
    method FindNearest(x: real) returns (nearest: int)
      ensures nearest == NearestAbductable(humanoids, x, |humanoids|)
    {
      nearest := -1;
      var nearestDist := 0.0;
      var i := 0;
      while i < |humanoids|
        invariant 0 <= i <= |humanoids|
        invariant nearest == NearestAbductable(humanoids, x, i)
        invariant nearest >= 0 ==> nearestDist == DistWrap(x, humanoids[nearest].x)
      {
        var h := humanoids[i];
        if h.alive && h.grounded && h.carriedBy < 0 {
          var d := DistWrap(x, h.x);
          if nearest < 0 || d < nearestDist {
            nearestDist := d;
            nearest := i;
          }
        }
        i := i + 1;
      }
    }

    /** updateLander's grab scan: the first abductable humanoid within reach
        of a Lander at (x, y), or -1. */
    method FindGrab(x: real, y: real) returns (g: int)
      ensures g == FirstGrab(x, y, humanoids, 0)
    {
      var i := 0;
      while i < |humanoids|
        invariant 0 <= i <= |humanoids|
        invariant FirstGrab(x, y, humanoids, i) == FirstGrab(x, y, humanoids, 0)
      {
        var h := humanoids[i];
        if h.alive && h.grounded && h.carriedBy < 0 {
          if DistWrap(x, h.x) < ENEMY_RADIUS + HUMANOID_RADIUS && Abs(y - h.y) < 20.0 * RENDER_SCALE {
            return i;
          }
        }
        i := i + 1;
      }
      return -1;
    }

    /** updateLander for the Lander at index i. */
    method UpdateLander(i: nat, dtSec: real, d: EnemyDraws)
      requires i < |enemies|
      modifies this`enemies, this`humanoids
      ensures enemies == old(enemies)[i := LanderTick(old(enemies)[i], i, old(humanoids), dtSec, d).lander]
      ensures humanoids == LanderTick(old(enemies)[i], i, old(humanoids), dtSec, d).humanoids
    {
      var e := enemies[i];
      if e.carryingHumanoid >= 0 {
        e := LanderAscend(e, dtSec, d.jx);
        if e.y <= MUTATE_HEIGHT {
          e := e.(kind := Mutant);
          var c := e.carryingHumanoid;
          if c < |humanoids| {
            humanoids := humanoids[c := humanoids[c].(alive := false)];
            humanoids := humanoids[c := humanoids[c].(carriedBy := -1)];
          }
          e := e.(carryingHumanoid := -1);
        }
        enemies := enemies[i := e];
        return;
      }
      ghost var e0 := e;
      e := e.(timer := e.timer - dtSec);
      var fired := e.timer <= 0.0;
      if fired {
        e := e.(timer := 2.0 + d.timer * 3.0);
      }
      ghost var timed := e;
      var nearest := FindNearest(e.x);
      if fired && nearest >= 0 && DistWrap(e.x, humanoids[nearest].x) < CANVAS_WIDTH {
        e := Dive(e, humanoids[nearest].x);
      }
      e := LanderWander(e, dtSec, d);
      assert e == LanderSteer(timed, humanoids, fired, dtSec, d);
      var g := FindGrab(e.x, e.y);
      if g >= 0 {
        e := e.(carryingHumanoid := g);
        humanoids := humanoids[g := humanoids[g].(carriedBy := i, grounded := false)];
      }
      enemies := enemies[i := e];
    }

    /** updateBomber for the Bomber at index i. */
    method UpdateBomber(i: nat, dtSec: real, d: EnemyDraws)
      requires i < |enemies|
      modifies this`enemies, this`mines
      ensures enemies == old(enemies)[i := BomberTick(old(enemies)[i], dtSec, d).bomber]
      ensures mines == old(mines) + match BomberTick(old(enemies)[i], dtSec, d).dropped
        case Some(m) => [m]
        case None => []
    {
      var e := BomberDrift(enemies[i], dtSec, d);
      e := e.(timer := e.timer - dtSec);
      if e.timer <= 0.0 {
        e := e.(timer := 2.0 + d.timer * 3.0);
        mines := mines + [Mine(e.x, e.y, 8.0)];
      }
      enemies := enemies[i := e];
    }

    /** updateEnemies' dispatch on the type of the live enemy at index i. */
    method UpdateEnemy(i: nat, dtSec: real, d: EnemyDraws, norm: (real, real) -> real)
      requires i < |enemies|
      modifies this`enemies, this`humanoids, this`mines
      ensures Crowd(enemies, humanoids, mines) == Behave(old(Crowd(enemies, humanoids, mines)), i, player, dtSec, d, norm)
    {
      var e := enemies[i];
      match e.kind {
        case Lander => UpdateLander(i, dtSec, d);
        case Mutant => enemies := enemies[i := MutantSteer(e, player, dtSec, norm)];
        case Baiter => enemies := enemies[i := BaiterSteer(e, player, dtSec, norm)];
        case Bomber => UpdateBomber(i, dtSec, d);
        case Pod => enemies := enemies[i := PodDrift(e, d)];
        case Swarmer => enemies := enemies[i := SwarmerSteer(e, player, dtSec, d, norm)];
      }
    }

    /** updateEnemies: every live enemy behaves by its type and moves, then
        the dead ones are dropped. draws[k] is what enemy k draws this frame;
        norm stands for the Euclidean length Math.sqrt computes. */
    method UpdateEnemies(dt: real, draws: seq<EnemyDraws>, norm: (real, real) -> real)
      requires |enemies| <= |draws|
      modifies this`enemies, this`humanoids, this`mines
      ensures humanoids == StepAll(Crowd(old(enemies), old(humanoids), old(mines)), player, dt / 1000.0, draws, norm, |old(enemies)|).humanoids
      ensures mines == StepAll(Crowd(old(enemies), old(humanoids), old(mines)), player, dt / 1000.0, draws, norm, |old(enemies)|).mines
      ensures enemies ==
        Filter(StepAll(Crowd(old(enemies), old(humanoids), old(mines)), player, dt / 1000.0, draws, norm, |old(enemies)|).enemies, IsAlive)
    {
      var dtSec := dt / 1000.0;
      ghost var c0 := Crowd(enemies, humanoids, mines);
      var i := 0;
      while i < |enemies|
        invariant 0 <= i <= |enemies| == |c0.enemies|
        invariant Crowd(enemies, humanoids, mines) == StepAll(c0, player, dtSec, draws, norm, i)
      {
        if enemies[i].alive {
          UpdateEnemy(i, dtSec, draws[i], norm);
          enemies := enemies[i := MoveEnemy(enemies[i], dtSec)];
        }
        i := i + 1;
      }
      enemies := Filter(enemies, IsAlive);
    }

    // -------------------------------------------------------------------------
    // Lasers, mines, humanoids, particles

    /** updateLasers: move and age every laser, then drop the expired ones. */
    method UpdateLasers(dt: real)
      modifies this`lasers
      ensures lasers == AgeLasers(old(lasers), dt / 1000.0)
    {
      var dtSec := dt / 1000.0;
      ghost var ls0 := lasers;
      var i := 0;
      while i < |lasers|
        invariant 0 <= i <= |lasers| == |ls0|
        invariant forall k :: 0 <= k < i ==> lasers[k] == StepLaser(ls0[k], dtSec)
        invariant forall k :: i <= k < |lasers| ==> lasers[k] == ls0[k]
      {
        lasers := lasers[i := StepLaser(lasers[i], dtSec)];
        i := i + 1;
      }
      assert lasers == StepLasers(ls0, dtSec);
      lasers := Filter(lasers, LaserLive);
    }

    /** updateMines: age every mine, then drop the expired ones. */
    method UpdateMines(dt: real)
      modifies this`mines
      ensures mines == AgeMines(old(mines), dt / 1000.0)
    {
      var dtSec := dt / 1000.0;
      ghost var ms0 := mines;
      var i := 0;
      while i < |mines|
        invariant 0 <= i <= |mines| == |ms0|
        invariant forall k :: 0 <= k < i ==> mines[k] == StepMine(ms0[k], dtSec)
        invariant forall k :: i <= k < |mines| ==> mines[k] == ms0[k]
      {
        mines := mines[i := StepMine(mines[i], dtSec)];
        i := i + 1;
      }
      assert mines == StepMines(ms0, dtSec);
      mines := Filter(mines, MineLive);
    }

    /** updateHumanoids: carried humanoids follow their carrier or start
        falling, falling ones fall and land (or die without a planet). */
    method UpdateHumanoids(dt: real)
      modifies this`humanoids
      ensures |humanoids| == |old(humanoids)|
      ensures forall j :: 0 <= j < |humanoids| ==>
        humanoids[j] == HumanoidStep(old(humanoids)[j], enemies, planetDestroyed, dt / 1000.0)
      ensures AllExclusive(old(humanoids)) ==> AllExclusive(humanoids)
    {
      var dtSec := dt / 1000.0;
      ghost var hs0 := humanoids;
      var i := 0;
      while i < |humanoids|
        invariant 0 <= i <= |humanoids| == |hs0|
        invariant forall k :: 0 <= k < i ==> humanoids[k] == HumanoidStep(hs0[k], enemies, planetDestroyed, dtSec)
        invariant forall k :: i <= k < |humanoids| ==> humanoids[k] == hs0[k]
      {
        var h := humanoids[i];
        if h.alive {
          humanoids := humanoids[i := HumanoidStep(h, enemies, planetDestroyed, dtSec)];
        }
        i := i + 1;
      }
      forall j | 0 <= j < |humanoids| && AllExclusive(hs0)
        ensures Exclusive(humanoids[j])
      {
        HumanoidStepKeepsExclusive(hs0[j], enemies, planetDestroyed, dtSec);
      }
    }

    /** updateParticles: move and age every particle, then drop the expired ones. */
    method UpdateParticles(dt: real)
      modifies this`particles
      ensures particles == AgeParticles(old(particles), dt / 1000.0)
    {
      var dtSec := dt / 1000.0;
      ghost var ps0 := particles;
      var i := 0;
      while i < |particles|
        invariant 0 <= i <= |particles| == |ps0|
        invariant forall k :: 0 <= k < i ==> particles[k] == StepParticle(ps0[k], dtSec)
        invariant forall k :: i <= k < |particles| ==> particles[k] == ps0[k]
      {
        particles := particles[i := StepParticle(particles[i], dtSec)];
        i := i + 1;
      }
      assert particles == StepParticles(ps0, dtSec);
      particles := Filter(particles, ParticleLive);
    }

    /** spawnExplosion: count particles at (x, y), one per draw. */
    method SpawnExplosion(x: real, y: real, color: string, count: nat, ds: seq<ParticleDraw>)
      requires ValidSparks(ds, count)
      modifies this`particles
      ensures particles == old(particles) + Sparks(x, y, color, ds)
    {
      ghost var ps0 := particles;
      var i := 0;
      while i < count
        invariant 0 <= i <= count
        invariant AllValid(ds[..i])
        invariant particles == ps0 + Sparks(x, y, color, ds[..i])
      {
        assert ds[i] in ds && ds[..i + 1][..i] == ds[..i];
        assert Sparks(x, y, color, ds[..i + 1]) == Sparks(x, y, color, ds[..i]) + [Spark(x, y, color, ds[i])];
        particles := particles + [Spark(x, y, color, ds[i])];
        i := i + 1;
      }
      assert ds[..i] == ds;
    }

    // -------------------------------------------------------------------------
    // Collisions and weapons

    /** killEnemy: mark enemy idx dead, drop the humanoid it carried, and
        split a Pod into Swarmers; the loop bound is drawn afresh at every test. */
    method KillEnemy(idx: nat, kd: KillDraws)
      requires idx < |enemies| && ValidKillDraws(kd)
      modifies this`enemies, this`humanoids
      ensures enemies == KillEnemies(old(enemies), idx, kd)
      ensures humanoids == Released(old(humanoids), old(enemies)[idx].carryingHumanoid)
    {
      var e := enemies[idx];
      enemies := enemies[idx := e.(alive := false)];
      if e.carryingHumanoid >= 0 && e.carryingHumanoid < |humanoids| {
        var c := e.carryingHumanoid;
        humanoids := humanoids[c := humanoids[c].(carriedBy := -1, falling := true, vy := 0.0)];
      }
      if e.kind == Pod {
        ghost var dead := enemies;
        var n := 0;
        while n < 3 + (kd.bounds[n] * 3.0).Floor
          invariant 0 <= n <= 5
          invariant n <= SwarmCount(kd.bounds, n) == SwarmCount(kd.bounds, 0)
          invariant enemies == dead + BroodN(e, kd.offspring, n)
          invariant humanoids == Released(old(humanoids), e.carryingHumanoid)
          decreases 5 - n
        {
          assert kd.offspring[n] in kd.offspring;
          enemies := enemies + [Offspring(e, kd.offspring[n])];
          n := n + 1;
        }
        assert enemies == dead + Brood(e, kd);
      }
    }

    /** checkLaserHits' enemy scan: the live enemy laser l hits, from the back, or -1. */
    method FindEnemyHit(l: Laser) returns (ei: int)
      ensures ei == EnemyHitBy(l, enemies, |enemies|)
    {
      ei := |enemies| - 1;
      while ei >= 0
        invariant -1 <= ei < |enemies|
        invariant EnemyHitBy(l, enemies, |enemies|) == EnemyHitBy(l, enemies, ei + 1)
      {
        var e := enemies[ei];
        if e.alive && DistWrap(l.x, e.x) < LASER_LENGTH + ENEMY_RADIUS && Abs(l.y - e.y) < ENEMY_RADIUS {
          return;
        }
        ei := ei - 1;
      }
    }

    /** checkLaserHits' mine scan: the mine laser l hits, from the back, or -1. */
    method FindMineHit(l: Laser) returns (mi: int)
      ensures mi == MineHitBy(l, mines, |mines|)
    {
      mi := |mines| - 1;
      while mi >= 0
        invariant -1 <= mi < |mines|
        invariant MineHitBy(l, mines, |mines|) == MineHitBy(l, mines, mi + 1)
      {
        var m := mines[mi];
        if DistWrap(l.x, m.x) < LASER_LENGTH + 5.0 * RENDER_SCALE && Abs(l.y - m.y) < 8.0 * RENDER_SCALE {
          return;
        }
        mi := mi - 1;
      }
    }

    /** checkLaserHits: sweep the lasers from the back; the first that hits a
        live enemy kills it and ends the sweep, reporting what it hit; a laser
        that hits a mine destroys it in a six-particle explosion. kd is the
        killed enemy's draws, sparks[j] the explosion of laser j. */
    method CheckLaserHits(kd: KillDraws, sparks: seq<seq<ParticleDraw>>) returns (hit: Option<Hit>)
      requires ValidKillDraws(kd) && |lasers| <= |sparks| && ValidSparkTable(sparks, 6)
      modifies this`lasers, this`enemies, this`humanoids, this`mines, this`particles
      ensures var s := Sweep(old(lasers), old(enemies), old(mines), old(particles), sparks, |old(lasers)|);
        && lasers == s.lasers && mines == s.mines && particles == s.particles
        && (s.target == -1 ==> hit.None? && enemies == old(enemies) && humanoids == old(humanoids))
        && (s.target >= 0 ==>
              && hit == Some(Hit(old(enemies)[s.target].kind, old(enemies)[s.target].x, old(enemies)[s.target].y))
              && enemies == KillEnemies(old(enemies), s.target, kd)
              && humanoids == Released(old(humanoids), old(enemies)[s.target].carryingHumanoid))
    {
      ghost var ls0, es0, ms0, ps0 := lasers, enemies, mines, particles;
      var li := |lasers|;
      while li > 0
        invariant 0 <= li <= |lasers| <= |ls0|
        invariant enemies == es0 && humanoids == old(humanoids)
        invariant Sweep(ls0, es0, ms0, ps0, sparks, |ls0|) == Sweep(lasers, es0, mines, particles, sparks, li)
      {
        var l := lasers[li - 1];
        var ei := FindEnemyHit(l);
        if ei >= 0 {
          lasers := Without(lasers, li - 1);
          var e := enemies[ei];
          hit := Some(Hit(e.kind, e.x, e.y));
          KillEnemy(ei, kd);
          return;
        }
        var mi := FindMineHit(l);
        if mi >= 0 {
          lasers := Without(lasers, li - 1);
          var m := mines[mi];
          SpawnExplosion(m.x, m.y, MINE_COLOR, 6, sparks[li - 1]);
          mines := Without(mines, mi);
        }
        li := li - 1;
      }
      hit := None;
    }

    /** checkPlayerHits: the ship is hit when it is alive, out of its grace
        period, and touching a live enemy or a mine. Nothing changes. */
    method CheckPlayerHits() returns (hit: bool)
      ensures hit == (player.alive && !(player.invulnerable > 0.0)
                      && (TouchesEnemy(player, enemies) || TouchesMine(player, mines)))
    {
      if !player.alive || player.invulnerable > 0.0 {
        return false;
      }
      var i := 0;
      while i < |enemies|
        invariant 0 <= i <= |enemies|
        invariant forall k :: 0 <= k < i ==> !(enemies[k].alive && PlayerTouchesEnemy(player, enemies[k]))
      {
        var e := enemies[i];
        if e.alive && DistWrap(player.x, e.x) < PLAYER_RADIUS + ENEMY_RADIUS
           && Abs(player.y - e.y) < PLAYER_RADIUS + ENEMY_RADIUS {
          return true;
        }
        i := i + 1;
      }
      i := 0;
      while i < |mines|
        invariant 0 <= i <= |mines|
        invariant forall k :: 0 <= k < i ==> !PlayerTouchesMine(player, mines[k])
      {
        var m := mines[i];
        if DistWrap(player.x, m.x) < PLAYER_RADIUS + 5.0 * RENDER_SCALE
           && Abs(player.y - m.y) < PLAYER_RADIUS + 5.0 * RENDER_SCALE {
          return true;
        }
        i := i + 1;
      }
      return false;
    }

    /** checkHumanoidCatch: the lowest index of a falling humanoid touching the
        live ship, or -1. Nothing changes. */
    method CheckHumanoidCatch() returns (k: int)
      ensures -1 <= k < |humanoids|
      ensures k == -1 <==> !player.alive || forall j :: 0 <= j < |humanoids| ==> !Catches(player, humanoids[j])
      ensures k >= 0 ==> Catches(player, humanoids[k]) && forall j :: 0 <= j < k ==> !Catches(player, humanoids[j])
    {
      if !player.alive {
        return -1;
      }
      var i := 0;
      while i < |humanoids|
        invariant 0 <= i <= |humanoids|
        invariant forall j :: 0 <= j < i ==> !Catches(player, humanoids[j])
      {
        var h := humanoids[i];
        if h.alive && !h.grounded && h.carriedBy < 0 && h.falling {
          if DistWrap(player.x, h.x) < PLAYER_RADIUS + HUMANOID_RADIUS
             && Abs(player.y - h.y) < PLAYER_RADIUS + HUMANOID_RADIUS {
            return i;
          }
        }
        i := i + 1;
      }
      return -1;
    }

    /** smartBomb: from the back, every live enemy within reach of the ship
        explodes into eight particles and is killed; then every mine within
        reach explodes into four and is removed. Returns the kill count.
        kds[j] and enemySparks[j] are enemy j's draws, mineSparks[j] mine j's. */
    method SmartBomb(kds: seq<KillDraws>, enemySparks: seq<seq<ParticleDraw>>, mineSparks: seq<seq<ParticleDraw>>)
      returns (kills: nat)
      requires |enemies| <= |kds| && |enemies| <= |enemySparks| && |mines| <= |mineSparks|
      requires ValidKillTable(kds) && ValidSparkTable(enemySparks, 8) && ValidSparkTable(mineSparks, 4)
      modifies this`enemies, this`humanoids, this`mines, this`particles
      ensures var a := BombEnemies(old(enemies), old(humanoids), old(particles), player.x, kds, enemySparks, |old(enemies)|);
        var c := BombMines(old(mines), a.particles, player.x, mineSparks, |old(mines)|);
        && kills == a.kills && enemies == a.enemies && humanoids == a.humanoids
        && mines == c.mines && particles == c.particles
      ensures kills == BombTargets(old(enemies), player.x)
      ensures mines == Filter(old(mines), OutsideBlast(player.x))
    {
      ghost var es0, hs0, ms0, ps0 := enemies, humanoids, mines, particles;
      var px := player.x;
      ghost var a := BombEnemies(es0, hs0, ps0, px, kds, enemySparks, |es0|);
      kills := 0;
      var i := |enemies| - 1;
      while i >= 0
        invariant -1 <= i < |es0| <= |enemies|
        invariant mines == ms0
        invariant var r := BombEnemies(enemies, humanoids, particles, px, kds, enemySparks, i + 1);
          a.enemies == r.enemies && a.humanoids == r.humanoids && a.particles == r.particles
          && a.kills == kills + r.kills
      {
        var e := enemies[i];
        if e.alive && DistWrap(px, e.x) < CANVAS_WIDTH / 2.0 + 100.0 * RENDER_SCALE {
          SpawnExplosion(e.x, e.y, BOMB_COLOR, 8, enemySparks[i]);
          KillEnemy(i, kds[i]);
          kills := kills + 1;
        }
        i := i - 1;
      }
      assert enemies == a.enemies && humanoids == a.humanoids && particles == a.particles && kills == a.kills;
      ghost var c := BombMines(ms0, particles, px, mineSparks, |ms0|);
      i := |mines| - 1;
      while i >= 0
        invariant -1 <= i < |mines| <= |ms0|
        invariant enemies == a.enemies && humanoids == a.humanoids && kills == a.kills
        invariant var r := BombMines(mines, particles, px, mineSparks, i + 1);
          c.mines == r.mines && c.particles == r.particles
      {
        if DistWrap(px, mines[i].x) < CANVAS_WIDTH / 2.0 + 100.0 * RENDER_SCALE {
          SpawnExplosion(mines[i].x, mines[i].y, MINE_COLOR, 4, mineSparks[i]);
          mines := Without(mines, i);
        }
        i := i - 1;
      }
      BombEnemiesCount(es0, hs0, ps0, px, kds, enemySparks, |es0|);
      assert es0[..|es0|] == es0;
      BombMinesKeepsOutside(ms0, a.particles, px, mineSparks, |ms0|);
      assert ms0[..|ms0|] == ms0 && ms0[|ms0|..] == [];
    }
  }
}
