/** The per-entity rules of the world simulation (src/world/world.ts): what
    one tick does to one player, enemy, humanoid, laser, mine or particle,
    the hit tests, and the records the spawners create. The World class
    applies them to its lists. */
module Rules {
  import opened Constants
  import opened Geometry
  import opened Entities
  import opened Seqs

  /** Math.max(lo, Math.min(hi, v)). */
  function Clamp(lo: real, hi: real, v: real): (r: real)
    requires lo <= hi
    ensures lo <= r <= hi
    ensures lo <= v <= hi ==> r == v
  {
    Max(lo, Min(hi, v))
  }

  /** A timer that only runs while it is positive (invulnerability, fire cooldown). */
  function CountDown(t: real, dtSec: real): real {
    if t > 0.0 then t - dtSec else t
  }

  /** CountDown applied on n successive ticks. */
  function CountDownN(t: real, dtSec: real, n: nat): real
    decreases n
  {
    if n == 0 then t else CountDownN(CountDown(t, dtSec), dtSec, n - 1)
  }

  /** A countdown never goes up, and after n ticks of dtSec with n * dtSec >= t
      it has run out: a cooldown always expires. */
  lemma {:induction false} CountDownExpires(t: real, dtSec: real, n: nat)
    requires dtSec > 0.0
    requires n as real * dtSec >= t
    ensures CountDownN(t, dtSec, n) <= 0.0
    ensures CountDownN(t, dtSec, n) <= t
    decreases n
  {
    if n > 0 {
      var t' := CountDown(t, dtSec);
      assert (n - 1) as real * dtSec == n as real * dtSec - dtSec;
      if t > 0.0 {
        CountDownExpires(t', dtSec, n - 1);
      } else {
        CountDownStaysOut(t', dtSec, n - 1);
      }
    }
  }

  /** Once a countdown is out, further ticks leave it where it is. */
  lemma {:induction false} CountDownStaysOut(t: real, dtSec: real, n: nat)
    requires t <= 0.0
    ensures CountDownN(t, dtSec, n) == t
  {
    if n > 0 {
      CountDownStaysOut(CountDown(t, dtSec), dtSec, n - 1);
    }
  }

  // ---------------------------------------------------------------------------
  // Player

  /** createPlayer: centre of the world, middle of the play area, two seconds of grace. */
  function NewPlayer(): (p: Player)
    ensures InWorld(p.x) && PLAY_AREA_TOP + PLAYER_RADIUS <= p.y <= GROUND_Y - PLAYER_RADIUS
    ensures p.alive && p.facingRight && p.vx == 0.0 && p.vy == 0.0 && p.invulnerable > 0.0
    ensures p.x == WORLD_WIDTH / 2.0 && p.y == (PLAY_AREA_TOP + GROUND_Y) / 2.0 && p.invulnerable == 2.0
  {
    Player(WORLD_WIDTH / 2.0, (PLAY_AREA_TOP + GROUND_Y) / 2.0, 0.0, 0.0, true, true, 2.0)
  }

  /** The speed clamp of updatePlayer: a speed above the limit keeps its sign at the limit. */
  function LimitPlayerSpeed(vx: real): (r: real)
    ensures Abs(r) <= PLAYER_MAX_SPEED
    ensures Abs(vx) <= PLAYER_MAX_SPEED ==> r == vx
    ensures Sign(r) == Sign(vx)
  {
    if Abs(vx) > PLAYER_MAX_SPEED then Sign(vx) as real * PLAYER_MAX_SPEED else vx
  }

  /** updatePlayer's horizontal rule: thrust the way the ship faces, or coast to
      a stop without overshooting, then clamp to PLAYER_MAX_SPEED. */
  function NextPlayerVx(vx: real, facingRight: bool, thrust: bool, dtSec: real): (r: real)
    ensures Abs(r) <= PLAYER_MAX_SPEED
    ensures !thrust ==> (vx >= 0.0 ==> r >= 0.0) && (vx <= 0.0 ==> r <= 0.0)
    ensures !thrust && dtSec >= 0.0 ==> Abs(r) <= Abs(vx)
    ensures !thrust && dtSec >= 0.0 && Abs(vx) <= PLAYER_MAX_SPEED ==>
      Abs(r) == (if Abs(vx) <= PLAYER_DECEL * dtSec then 0.0 else Abs(vx) - PLAYER_DECEL * dtSec)
    ensures thrust ==> r == LimitPlayerSpeed(vx + (if facingRight then 1.0 else -1.0) * PLAYER_THRUST * dtSec)
  {
    var v :=
      if thrust then vx + (if facingRight then 1.0 else -1.0) * PLAYER_THRUST * dtSec
      else if Abs(vx) > 0.0 then
        var decel := PLAYER_DECEL * dtSec;
        if Abs(vx) <= decel then 0.0 else vx - Sign(vx) as real * decel
      else vx;
    LimitPlayerSpeed(v)
  }

  /** updatePlayer's vertical rule: fixed speed while a key is held, otherwise
      a decay by 0.9 that snaps to rest below 5. */
  function NextPlayerVy(vy: real, up: bool, down: bool): (r: real)
    ensures up ==> r == -PLAYER_VERT_SPEED
    ensures !up && down ==> r == PLAYER_VERT_SPEED
    ensures !up && !down ==> Abs(r) <= Abs(vy) && (r == 0.0 || Abs(r) >= 5.0)
    ensures !up && !down ==> Abs(r) <= 0.9 * Abs(vy)
    ensures !up && !down && Abs(vy * 0.9) < 5.0 ==> r == 0.0
    ensures !up && !down && Abs(vy * 0.9) >= 5.0 ==> r == 0.9 * vy
  {
    if up then -PLAYER_VERT_SPEED
    else if down then PLAYER_VERT_SPEED
    else
      var v := vy * 0.9;
      if Abs(v) < 5.0 then 0.0 else v
  }

  /** updatePlayer on the ship: steer, move (wrapping across the world,
      clamped to the play area vertically) and run down the grace period. */
  function PlayerStep(p: Player, dtSec: real, thrust: bool, up: bool, down: bool): (r: Player)
    ensures r.facingRight == p.facingRight && r.alive == p.alive
    ensures Abs(r.vx) <= PLAYER_MAX_SPEED
    ensures !thrust ==> (p.vx >= 0.0 ==> r.vx >= 0.0) && (p.vx <= 0.0 ==> r.vx <= 0.0)
    ensures InWorld(r.x)
    ensures r.vx == NextPlayerVx(p.vx, p.facingRight, thrust, dtSec)
    ensures r.vy == NextPlayerVy(p.vy, up, down)
    // the ship's old position moved by the new velocity
    ensures r == MovePlayer(p.(vx := r.vx, vy := r.vy, invulnerable := r.invulnerable), dtSec)
    ensures PLAY_AREA_TOP + PLAYER_RADIUS <= r.y <= GROUND_Y - PLAYER_RADIUS
    ensures p.invulnerable > 0.0 ==> r.invulnerable == p.invulnerable - dtSec
    ensures p.invulnerable <= 0.0 ==> r.invulnerable == p.invulnerable
  {
    var steered := p.(vx := NextPlayerVx(p.vx, p.facingRight, thrust, dtSec),
                      vy := NextPlayerVy(p.vy, up, down),
                      invulnerable := CountDown(p.invulnerable, dtSec));
    MovePlayer(steered, dtSec)
  }

  /** The ship moved by its own velocity: wrapped across the world, clamped
      to the play area vertically, nothing else touched. */
  function MovePlayer(p: Player, dtSec: real): (r: Player)
    ensures r == p.(x := r.x, y := r.y)
    ensures r.x == WrapX(p.x + p.vx * dtSec)
    ensures r.y == Clamp(PLAY_AREA_TOP + PLAYER_RADIUS, GROUND_Y - PLAYER_RADIUS, p.y + p.vy * dtSec)
  {
    p.(x := WrapX(p.x + p.vx * dtSec),
       y := Clamp(PLAY_AREA_TOP + PLAYER_RADIUS, GROUND_Y - PLAYER_RADIUS, p.y + p.vy * dtSec))
  }

  /** The laser fireLaser launches: at the nose of the ship, at LASER_SPEED in
      the facing direction plus 0.3 of the ship's speed, for LASER_LIFETIME. */
  function LaserFrom(p: Player): (l: Laser)
    ensures l.life == LASER_LIFETIME && l.y == p.y
    ensures l.x == p.x + (if p.facingRight then PLAYER_RADIUS else -PLAYER_RADIUS)
    ensures Abs(p.vx) <= PLAYER_MAX_SPEED ==> (p.facingRight <==> l.vx > 0.0)
  {
    var dir := if p.facingRight then 1.0 else -1.0;
    Laser(p.x + dir * PLAYER_RADIUS, p.y, dir * LASER_SPEED + p.vx * 0.3, LASER_LIFETIME)
  }

  // ---------------------------------------------------------------------------
  // Spawning

  /** spawnEnemy's new enemy: off-screen to a random side of the player, at
      a random height in the upper play area, at rest, with a 1-3 s timer. */
  function SpawnedEnemy(kind: EnemyType, px: real, d: SpawnDraws): (e: Enemy)
    requires ValidSpawnDraws(d)
    ensures e.kind == kind && e.alive && e.carryingHumanoid == -1
    ensures e.vx == 0.0 && e.vy == 0.0 && 1.0 <= e.timer < 3.0
    ensures InWorld(e.x)
    ensures PLAY_AREA_TOP <= e.y < GROUND_Y - 50.0 * RENDER_SCALE
    ensures InWorld(px) ==> CANVAS_WIDTH * 0.6 <= DistWrap(px, e.x) <= CANVAS_WIDTH
  {
    var side := if d.side < 0.5 then -1.0 else 1.0;
    var off := CANVAS_WIDTH * 0.6 + d.dist * CANVAS_WIDTH * 0.4;
    var x := WrapX(px + side * off);
    var y := PLAY_AREA_TOP + d.y * (GROUND_Y - PLAY_AREA_TOP - 50.0 * RENDER_SCALE);
    WrappedOffsetDistance(px, side, off);
    Enemy(kind, x, y, 0.0, 0.0, true, 1.0 + d.timer * 2.0, -1)
  }

  /** spawnHumanoids' new humanoid: alive, standing on the ground, carried by nobody. */
  function GroundedHumanoid(xDraw: real): (h: Humanoid)
    requires Unit(xDraw)
    ensures InWorld(h.x) && h.y == GROUND_Y
    ensures h.alive && h.grounded && !h.falling && h.carriedBy == -1 && h.vy == 0.0
  {
    Humanoid(xDraw * WORLD_WIDTH, GROUND_Y, true, true, false, -1, 0.0)
  }

  /** The Swarmer a dying Pod releases: alive, within 15 native pixels of the
      Pod on each axis, carrying nothing, with its timer at zero. */
  function Offspring(pod: Enemy, d: SwarmerDraw): (s: Enemy)
    requires ValidSwarmerDraw(d)
    ensures s.kind == Swarmer && s.alive && s.carryingHumanoid == -1 && s.timer == 0.0
    ensures Abs(s.x - pod.x) <= 15.0 * RENDER_SCALE && Abs(s.y - pod.y) <= 15.0 * RENDER_SCALE
    ensures Abs(s.vx) <= SWARMER_SPEED / 2.0 && Abs(s.vy) <= SWARMER_SPEED / 2.0
  {
    Enemy(Swarmer,
      pod.x + (d.dx - 0.5) * 30.0 * RENDER_SCALE,
      pod.y + (d.dy - 0.5) * 30.0 * RENDER_SCALE,
      (d.vx - 0.5) * SWARMER_SPEED,
      (d.vy - 0.5) * SWARMER_SPEED,
      true, 0.0, -1)
  }

  /** The number of Swarmers killEnemy appends for a Pod: its loop runs while
      i < 3 + floor(random * 3), with the bound drawn afresh at every test;
      bounds[i] is the draw made at the test with counter i. */
  function SwarmCount(bounds: seq<real>, i: nat): (n: nat)
    requires |bounds| == 6 && forall b :: b in bounds ==> Unit(b)
    requires i <= 5
    ensures i <= n && 3 <= n <= 5
    decreases 5 - i
  {
    var b := bounds[i];
    assert b in bounds;
    assert Unit(b);
    var extra := (b * 3.0).Floor;
    assert 0 <= extra <= 2 by {
      assert 0.0 <= b * 3.0 < 3.0;
    }
    if i >= 3 + extra then i
    else SwarmCount(bounds, i + 1)
  }

  /** One explosion particle: at the explosion's centre, with speed between 50
      and 200 native pixels per second and a lifetime between 0.3 and 0.8 s. */
  function Spark(x: real, y: real, color: string, d: ParticleDraw): (p: Particle)
    requires ValidParticleDraw(d)
    ensures p.x == x && p.y == y && p.color == color
    ensures 0.3 <= p.life < 0.8
    ensures Abs(p.vx) <= 200.0 * RENDER_SCALE && Abs(p.vy) <= 200.0 * RENDER_SCALE
  {
    var speed := (50.0 + d.speed * 150.0) * RENDER_SCALE;
    SparkSpeedBound(d.cos, speed);
    SparkSpeedBound(d.sin, speed);
    Particle(x, y, d.cos * speed, d.sin * speed, 0.3 + d.life * 0.5, color)
  }

  /** cos or sin of the angle times the speed stays within the speed. */
  lemma SparkSpeedBound(c: real, speed: real)
    requires -1.0 <= c <= 1.0 && 0.0 <= speed <= 200.0 * RENDER_SCALE
    ensures Abs(c * speed) <= 200.0 * RENDER_SCALE
  {
    if c >= 0.0 { assert c * speed <= 1.0 * speed; } else { assert -c * speed <= 1.0 * speed; }
  }

  // ---------------------------------------------------------------------------
  // Terrain

  const TERRAIN_START: real := 60.0 * RENDER_SCALE
  const TERRAIN_LOW: real := 20.0 * RENDER_SCALE
  const TERRAIN_HIGH: real := 90.0 * RENDER_SCALE

  /** floor(WORLD_WIDTH / (4 * RENDER_SCALE)) samples around the wrap. */
  const TERRAIN_SAMPLES: int := (WORLD_WIDTH / (4.0 * RENDER_SCALE)).Floor

  /** One step of generateTerrain's random walk: drift, clamp, and now and then a crater. */
  function TerrainStep(h: real, d: TerrainDraw): (r: real)
    requires ValidTerrainDraw(d)
    ensures TERRAIN_LOW <= r <= TERRAIN_HIGH
  {
    var h1 := h + (d.step - 0.48) * 8.0 * RENDER_SCALE;
    var h2 := Max(TERRAIN_LOW, Min(TERRAIN_HIGH, h1));
    if d.crater < 0.05 then (30.0 + d.height * 50.0) * RENDER_SCALE else h2
  }

  predicate ValidTerrainDraws(ds: seq<TerrainDraw>) {
    forall d :: d in ds ==> ValidTerrainDraw(d)
  }

  /** The walk's height after the given draws. */
  function HeightAfter(ds: seq<TerrainDraw>): real
    requires ValidTerrainDraws(ds)
  {
    if ds == [] then TERRAIN_START
    else TerrainStep(HeightAfter(ds[..|ds| - 1]), ds[|ds| - 1])
  }

  /** The samples generateTerrain pushes, one per draw. */
  function TerrainProfile(ds: seq<TerrainDraw>): (t: seq<real>)
    requires ValidTerrainDraws(ds)
    ensures |t| == |ds|
  {
    if ds == [] then [] else TerrainProfile(ds[..|ds| - 1]) + [HeightAfter(ds)]
  }

  predicate TerrainValid(t: seq<real>) {
    |t| == TERRAIN_SAMPLES && forall h :: h in t ==> TERRAIN_LOW <= h <= TERRAIN_HIGH
  }

  /** Sample j of the profile is the walk's height after j + 1 draws, and
      every sample lies in [20, 90] native pixels. */
  lemma {:induction false} TerrainProfileBounded(ds: seq<TerrainDraw>)
    requires ValidTerrainDraws(ds)
    ensures forall j :: 0 <= j < |ds| ==> TerrainProfile(ds)[j] == HeightAfter(ds[..j + 1])
    ensures forall h :: h in TerrainProfile(ds) ==> TERRAIN_LOW <= h <= TERRAIN_HIGH
  {
    if ds != [] {
      var init := ds[..|ds| - 1];
      TerrainProfileBounded(init);
      forall j | 0 <= j < |ds|
        ensures TerrainProfile(ds)[j] == HeightAfter(ds[..j + 1])
      {
        if j < |init| {
          assert init[..j + 1] == ds[..j + 1];
        } else {
          assert ds[..j + 1] == ds;
        }
      }
    }
  }

  /** getTerrainHeight's sample index for a world position. */
  function TerrainIndex(worldX: real, n: nat): (i: int)
    requires n > 0
    ensures 0 <= i < n
  {
    var wx := WrapX(worldX);
    var idx := (wx / WORLD_WIDTH) * n as real;
    // idx is not negative, so JavaScript's % and Dafny's agree here
    idx.Floor % n
  }

  // ---------------------------------------------------------------------------
  // Enemy behaviour

  /** The height at which a carrying Lander turns into a Mutant. */
  const MUTATE_HEIGHT: real := PLAY_AREA_TOP + ENEMY_RADIUS + 10.0

  /** updateLander while carrying: climb at 1.5 times the descent speed, with
      horizontal jitter clamped to LANDER_SPEED. */
  function LanderAscend(e: Enemy, dtSec: real, jx: real): (r: Enemy)
    ensures r == e.(vx := r.vx, vy := r.vy)
    ensures r.vy == -LANDER_DESCENT_SPEED * 1.5 && Abs(r.vx) <= LANDER_SPEED
  {
    var vx := e.vx + (jx - 0.5) * LANDER_SPEED * dtSec * 5.0;
    e.(vy := -LANDER_DESCENT_SPEED * 1.5, vx := Clamp(-LANDER_SPEED, LANDER_SPEED, vx))
  }

  /** A Lander diving at a humanoid: twice its speed toward it around the
      wrap, twice its descent speed downward. */
  function Dive(e: Enemy, targetX: real): (r: Enemy)
    ensures r == e.(vx := r.vx, vy := r.vy)
    ensures r.vy > 0.0 && Sign(r.vx) == DirWrap(e.x, targetX)
  {
    e.(vx := DirWrap(e.x, targetX) as real * LANDER_SPEED * 2.0, vy := LANDER_DESCENT_SPEED * 2.0)
  }

  /** updateLander's general wander: jitter, then clamp to LANDER_SPEED and
      LANDER_DESCENT_SPEED. */
  function LanderWander(e: Enemy, dtSec: real, d: EnemyDraws): (r: Enemy)
    ensures r == e.(vx := r.vx, vy := r.vy)
    ensures Abs(r.vx) <= LANDER_SPEED && Abs(r.vy) <= LANDER_DESCENT_SPEED
  {
    var vx := e.vx + (d.jx - 0.5) * LANDER_SPEED * dtSec * 3.0;
    var vy := e.vy + (d.jy - 0.5) * LANDER_SPEED * dtSec * 2.0;
    e.(vx := Clamp(-LANDER_SPEED, LANDER_SPEED, vx),
       vy := Clamp(-LANDER_DESCENT_SPEED, LANDER_DESCENT_SPEED, vy))
  }

  /** A humanoid a Lander may target or pick up: alive, on the ground, carried by nobody. */
  predicate Abductable(h: Humanoid) {
    h.alive && h.grounded && h.carriedBy < 0
  }

  /** A Lander at (x, y) is close enough to pick the humanoid up. */
  predicate InReach(x: real, y: real, h: Humanoid) {
    DistWrap(x, h.x) < ENEMY_RADIUS + HUMANOID_RADIUS && Abs(y - h.y) < 20.0 * RENDER_SCALE
  }

  /** The nearest abductable humanoid among hs[..n] as updateLander's scan
      finds it: a strictly closer one replaces the current choice, so ties go
      to the lowest index. -1 when there is none. */
  function NearestAbductable(hs: seq<Humanoid>, x: real, n: nat): (k: int)
    requires n <= |hs|
    ensures -1 <= k < n
  {
    if n == 0 then -1
    else
      var best := NearestAbductable(hs, x, n - 1);
      var h := hs[n - 1];
      if Abductable(h) && (best < 0 || DistWrap(x, h.x) < DistWrap(x, hs[best].x)) then n - 1
      else best
  }

  /** The scan finds a closest abductable humanoid, the first of the closest,
      and finds none only when there is none. */
  lemma {:induction false} NearestAbductableIsNearest(hs: seq<Humanoid>, x: real, n: nat)
    requires n <= |hs|
    ensures var k := NearestAbductable(hs, x, n);
      && -1 <= k < n
      && (k == -1 <==> forall j :: 0 <= j < n ==> !Abductable(hs[j]))
      && (k >= 0 ==>
            && Abductable(hs[k])
            && (forall j :: 0 <= j < n && Abductable(hs[j]) ==> DistWrap(x, hs[k].x) <= DistWrap(x, hs[j].x))
            && (forall j :: 0 <= j < k && Abductable(hs[j]) ==> DistWrap(x, hs[k].x) < DistWrap(x, hs[j].x)))
  {
    if n > 0 {
      NearestAbductableIsNearest(hs, x, n - 1);
    }
  }

  /** The velocity a Lander that is not carrying ends its behaviour step with,
      before the grab check: when the timer fired and the nearest abductable
      humanoid is within a screen width it dives, and in every case it wanders. */
  function LanderSteer(e: Enemy, hs: seq<Humanoid>, fired: bool, dtSec: real, d: EnemyDraws): (r: Enemy)
    ensures r == e.(vx := r.vx, vy := r.vy)
    ensures Abs(r.vx) <= LANDER_SPEED && Abs(r.vy) <= LANDER_DESCENT_SPEED
  {
    var n := NearestAbductable(hs, e.x, |hs|);
    var aimed := if fired && n >= 0 && DistWrap(e.x, hs[n].x) < CANVAS_WIDTH then Dive(e, hs[n].x) else e;
    LanderWander(aimed, dtSec, d)
  }

  lemma MulNonNeg(a: real, b: real)
    requires a >= 0.0 && b >= 0.0
    ensures a * b >= 0.0
  {
  }

  /** A jitter draw centred on zero, scaled by a tick of at most 0.6 s. */
  lemma JitterBound(j: real, dtSec: real)
    requires Unit(j) && 0.0 <= dtSec <= 0.6
    ensures -0.3 <= (j - 0.5) * dtSec <= 0.3
  {
    var a := j - 0.5;
    if a >= 0.0 {
      MulNonNeg(0.5 - a, dtSec);
      MulNonNeg(a, dtSec);
      assert (0.5 - a) * dtSec == 0.5 * dtSec - a * dtSec;
    } else {
      MulNonNeg(0.5 + a, dtSec);
      MulNonNeg(-a, dtSec);
      assert (0.5 + a) * dtSec == 0.5 * dtSec + a * dtSec;
      assert (-a) * dtSec == -(a * dtSec);
    }
  }

  /** The dive: when the timer fires and the nearest abductable humanoid is
      within a screen width (and not straight below), the Lander ends the step
      at full speed toward it around the wrap and at full descent speed,
      however the wander jitter falls, for any tick of at most 0.6 s. */
  lemma LanderDives(e: Enemy, hs: seq<Humanoid>, dtSec: real, d: EnemyDraws)
    requires ValidEnemyDraws(d) && 0.0 <= dtSec <= 0.6
    requires NearestAbductable(hs, e.x, |hs|) >= 0
    requires DistWrap(e.x, hs[NearestAbductable(hs, e.x, |hs|)].x) < CANVAS_WIDTH
    requires DirWrap(e.x, hs[NearestAbductable(hs, e.x, |hs|)].x) != 0
    ensures LanderSteer(e, hs, true, dtSec, d).vx ==
      DirWrap(e.x, hs[NearestAbductable(hs, e.x, |hs|)].x) as real * LANDER_SPEED
    ensures LanderSteer(e, hs, true, dtSec, d).vy == LANDER_DESCENT_SPEED
  {
    var n := NearestAbductable(hs, e.x, |hs|);
    var dive := Dive(e, hs[n].x);
    JitterBound(d.jx, dtSec);
    JitterBound(d.jy, dtSec);
    var jx := (d.jx - 0.5) * dtSec;
    var jy := (d.jy - 0.5) * dtSec;
    assert (d.jx - 0.5) * LANDER_SPEED * dtSec * 3.0 == jx * LANDER_SPEED * 3.0;
    assert (d.jy - 0.5) * LANDER_SPEED * dtSec * 2.0 == jy * LANDER_SPEED * 2.0;
  }

  /** updateBomber's drift: jitter clamped to BOMBER_SPEED across and half of it up and down. */
  function BomberDrift(e: Enemy, dtSec: real, d: EnemyDraws): (r: Enemy)
    ensures r == e.(vx := r.vx, vy := r.vy)
    ensures Abs(r.vx) <= BOMBER_SPEED && Abs(r.vy) <= BOMBER_SPEED * 0.5
  {
    var vx := e.vx + (d.jx - 0.5) * BOMBER_SPEED * dtSec * 2.0;
    var vy := e.vy + (d.jy - 0.5) * BOMBER_SPEED * dtSec;
    e.(vx := Clamp(-BOMBER_SPEED, BOMBER_SPEED, vx),
       vy := Clamp(-BOMBER_SPEED * 0.5, BOMBER_SPEED * 0.5, vy))
  }

  /** updatePod: a slow drift, clamped to POD_SPEED across and half of it up and down. */
  function PodDrift(e: Enemy, d: EnemyDraws): (r: Enemy)
    ensures r == e.(vx := r.vx, vy := r.vy)
    ensures Abs(r.vx) <= POD_SPEED && Abs(r.vy) <= POD_SPEED * 0.5
  {
    var vx := e.vx + (d.jx - 0.5) * POD_SPEED * 0.5;
    var vy := e.vy + (d.jy - 0.5) * POD_SPEED * 0.3;
    e.(vx := Clamp(-POD_SPEED, POD_SPEED, vx),
       vy := Clamp(-POD_SPEED * 0.5, POD_SPEED * 0.5, vy))
  }

  /** The homing enemies' speed limit: a velocity whose length (as `norm`
      measures it) exceeds maxSpeed is scaled back to that length. */
  function LimitSpeed(e: Enemy, maxSpeed: real, norm: (real, real) -> real): (r: Enemy)
    requires maxSpeed > 0.0
    ensures r == e.(vx := r.vx, vy := r.vy)
    ensures norm(e.vx, e.vy) <= maxSpeed ==> r == e
  {
    var speed := norm(e.vx, e.vy);
    if speed > maxSpeed then e.(vx := e.vx / speed * maxSpeed, vy := e.vy / speed * maxSpeed) else e
  }

  /** With the Euclidean norm, the limit really bounds the speed. */
  lemma LimitSpeedBounds(e: Enemy, maxSpeed: real, norm: (real, real) -> real)
    requires maxSpeed > 0.0
    requires norm(e.vx, e.vy) >= 0.0
    requires norm(e.vx, e.vy) * norm(e.vx, e.vy) == e.vx * e.vx + e.vy * e.vy
    ensures var r := LimitSpeed(e, maxSpeed, norm);
      r.vx * r.vx + r.vy * r.vy <= maxSpeed * maxSpeed
  {
    var s := norm(e.vx, e.vy);
    var r := LimitSpeed(e, maxSpeed, norm);
    if s > maxSpeed {
      var k := maxSpeed / s;
      assert r.vx == e.vx * k && r.vy == e.vy * k;
      calc {
        r.vx * r.vx + r.vy * r.vy;
        (e.vx * e.vx + e.vy * e.vy) * (k * k);
        (s * s) * (k * k);
        (s * k) * (s * k);
        maxSpeed * maxSpeed;
      }
    } else {
      assert s * s <= maxSpeed * maxSpeed;
    }
  }

  /** The homing pull of Mutants, Baiters and Swarmers: accelerate toward the
      player around the wrap and vertically. */
  function Pull(e: Enemy, p: Player, speed: real, kx: real, ky: real, dtSec: real): (r: Enemy)
    ensures r == e.(vx := r.vx, vy := r.vy)
  {
    var dx := DirWrap(e.x, p.x) as real;
    var dy := Sign(p.y - e.y) as real;
    e.(vx := e.vx + dx * speed * dtSec * kx, vy := e.vy + dy * speed * dtSec * ky)
  }

  /** updateMutant. */
  function MutantSteer(e: Enemy, p: Player, dtSec: real, norm: (real, real) -> real): (r: Enemy)
    ensures r == e.(vx := r.vx, vy := r.vy)
  {
    LimitSpeed(Pull(e, p, MUTANT_SPEED, 3.0, 2.0, dtSec), MUTANT_SPEED, norm)
  }

  /** updateBaiter: the Mutant's pull, faster and harder across. */
  function BaiterSteer(e: Enemy, p: Player, dtSec: real, norm: (real, real) -> real): (r: Enemy)
    ensures r == e.(vx := r.vx, vy := r.vy)
  {
    LimitSpeed(Pull(e, p, BAITER_SPEED, 4.0, 2.0, dtSec), BAITER_SPEED, norm)
  }

  /** updateSwarmer: a strong pull plus random jitter. */
  function SwarmerSteer(e: Enemy, p: Player, dtSec: real, d: EnemyDraws, norm: (real, real) -> real): (r: Enemy)
    ensures r == e.(vx := r.vx, vy := r.vy)
  {
    var pulled := Pull(e, p, SWARMER_SPEED, 5.0, 3.0, dtSec);
    var jittered := pulled.(
      vx := pulled.vx + (d.jx - 0.5) * SWARMER_SPEED * dtSec * 3.0,
      vy := pulled.vy + (d.jy - 0.5) * SWARMER_SPEED * dtSec * 2.0);
    LimitSpeed(jittered, SWARMER_SPEED, norm)
  }

  predicate InEnemyBand(y: real) {
    PLAY_AREA_TOP + ENEMY_RADIUS <= y <= GROUND_Y - ENEMY_RADIUS
  }

  /** updateEnemies' integration: move by the velocity, wrap x, clamp y to the band. */
  function MoveEnemy(e: Enemy, dtSec: real): (r: Enemy)
    ensures r == e.(x := r.x, y := r.y)
    ensures InWorld(r.x) && InEnemyBand(r.y)
    ensures r.x == WrapX(e.x + e.vx * dtSec)
    ensures InEnemyBand(e.y + e.vy * dtSec) ==> r.y == e.y + e.vy * dtSec
  {
    e.(x := WrapX(e.x + e.vx * dtSec),
       y := Clamp(PLAY_AREA_TOP + ENEMY_RADIUS, GROUND_Y - ENEMY_RADIUS, e.y + e.vy * dtSec))
  }

  function IsAlive(e: Enemy): bool { e.alive }

  // ---------------------------------------------------------------------------
  // Lasers, mines, particles

  function LaserLive(l: Laser): bool { l.life > 0.0 }
  function MineLive(m: Mine): bool { m.life > 0.0 }
  function ParticleLive(p: Particle): bool { p.life > 0.0 }

  /** A laser after one tick: moved along its heading and wrapped onto the
      axis, with a shorter life; its height and speed stay. */
  function StepLaser(l: Laser, dtSec: real): (r: Laser)
    ensures r == l.(x := r.x, life := r.life)
    ensures InWorld(r.x) && r.life == l.life - dtSec
    ensures r.x == WrapX(l.x + l.vx * dtSec)
    ensures dtSec > 0.0 ==> r.life < l.life
  {
    l.(x := WrapX(l.x + l.vx * dtSec), life := l.life - dtSec)
  }

  /** A mine after one tick: in place, with a shorter life. */
  function StepMine(m: Mine, dtSec: real): (r: Mine)
    ensures r.x == m.x && r.y == m.y && r.life == m.life - dtSec
    ensures dtSec > 0.0 ==> r.life < m.life
  {
    m.(life := m.life - dtSec)
  }

  /** A particle after one tick: moved by its velocity (not wrapped), with a
      shorter life; its velocity and colour stay. */
  function StepParticle(p: Particle, dtSec: real): (r: Particle)
    ensures r == p.(x := r.x, y := r.y, life := r.life)
    ensures r.x - p.x == p.vx * dtSec && r.y - p.y == p.vy * dtSec && r.life == p.life - dtSec
    ensures dtSec > 0.0 ==> r.life < p.life
  {
    p.(x := p.x + p.vx * dtSec, y := p.y + p.vy * dtSec, life := p.life - dtSec)
  }

  /** Every laser of the list after one tick's step, in place. */
  function StepLasers(ls: seq<Laser>, dtSec: real): (r: seq<Laser>)
    ensures |r| == |ls|
    ensures forall i :: 0 <= i < |ls| ==> r[i] == StepLaser(ls[i], dtSec)
  {
    seq(|ls|, i requires 0 <= i < |ls| => StepLaser(ls[i], dtSec))
  }

  /** updateLasers' result: every laser moved and aged, the expired ones dropped. */
  function AgeLasers(ls: seq<Laser>, dtSec: real): (r: seq<Laser>)
    ensures |r| <= |ls|
    ensures forall l :: l in r ==> l.life > 0.0 && InWorld(l.x)
  {
    Filter(StepLasers(ls, dtSec), LaserLive)
  }

  /** Every mine of the list after one tick's step, in place. */
  function StepMines(ms: seq<Mine>, dtSec: real): (r: seq<Mine>)
    ensures |r| == |ms|
    ensures forall i :: 0 <= i < |ms| ==> r[i] == StepMine(ms[i], dtSec)
  {
    seq(|ms|, i requires 0 <= i < |ms| => StepMine(ms[i], dtSec))
  }

  /** updateMines' result: every mine aged, the expired ones dropped. */
  function AgeMines(ms: seq<Mine>, dtSec: real): (r: seq<Mine>)
    ensures |r| <= |ms|
    ensures forall m :: m in r ==> m.life > 0.0
  {
    Filter(StepMines(ms, dtSec), MineLive)
  }

  /** Every particle of the list after one tick's step, in place. */
  function StepParticles(ps: seq<Particle>, dtSec: real): (r: seq<Particle>)
    ensures |r| == |ps|
    ensures forall i :: 0 <= i < |ps| ==> r[i] == StepParticle(ps[i], dtSec)
  {
    seq(|ps|, i requires 0 <= i < |ps| => StepParticle(ps[i], dtSec))
  }

  /** updateParticles' result: every particle moved and aged, the expired ones dropped. */
  function AgeParticles(ps: seq<Particle>, dtSec: real): (r: seq<Particle>)
    ensures |r| <= |ps|
    ensures forall p :: p in r ==> p.life > 0.0
  {
    Filter(StepParticles(ps, dtSec), ParticleLive)
  }

  /** updateLasers keeps exactly the lasers whose reduced life is positive,
      each moved, wrapped and aged, in their original order. */
  lemma AgeLasersKeepsLiving(ls: seq<Laser>, dtSec: real)
    ensures var r, stepped := AgeLasers(ls, dtSec), StepLasers(ls, dtSec);
      var idx := Selected(stepped, LaserLive);
      && |idx| == |r| && Ascending(idx)
      && (forall j :: 0 <= j < |r| ==> idx[j] < |ls| && r[j] == StepLaser(ls[idx[j]], dtSec))
      && (forall k :: 0 <= k < |ls| ==> (k in idx <==> ls[k].life - dtSec > 0.0))
      && (forall l :: l in r ==> l.life > 0.0 && InWorld(l.x))
  {
    var stepped := StepLasers(ls, dtSec);
    FilterSelects(stepped, LaserLive);
  }

  /** updateMines keeps exactly the mines whose reduced life is positive, in order. */
  lemma AgeMinesKeepsLiving(ms: seq<Mine>, dtSec: real)
    ensures var r, stepped := AgeMines(ms, dtSec), StepMines(ms, dtSec);
      var idx := Selected(stepped, MineLive);
      && |idx| == |r| && Ascending(idx)
      && (forall j :: 0 <= j < |r| ==> idx[j] < |ms| && r[j] == StepMine(ms[idx[j]], dtSec))
      && (forall k :: 0 <= k < |ms| ==> (k in idx <==> ms[k].life - dtSec > 0.0))
  {
    var stepped := StepMines(ms, dtSec);
    FilterSelects(stepped, MineLive);
  }

  /** updateParticles keeps exactly the particles whose reduced life is positive, in order. */
  lemma AgeParticlesKeepsLiving(ps: seq<Particle>, dtSec: real)
    ensures var r, stepped := AgeParticles(ps, dtSec), StepParticles(ps, dtSec);
      var idx := Selected(stepped, ParticleLive);
      && |idx| == |r| && Ascending(idx)
      && (forall j :: 0 <= j < |r| ==> idx[j] < |ps| && r[j] == StepParticle(ps[idx[j]], dtSec))
      && (forall k :: 0 <= k < |ps| ==> (k in idx <==> ps[k].life - dtSec > 0.0))
  {
    var stepped := StepParticles(ps, dtSec);
    FilterSelects(stepped, ParticleLive);
  }

  // ---------------------------------------------------------------------------
  // Humanoids

  /** A humanoid is in one place at a time: on the ground, falling, or carried. */
  predicate Exclusive(h: Humanoid) {
    h.alive ==>
      (h.grounded && !h.falling && h.carriedBy < 0)
      || (!h.grounded && h.falling && h.carriedBy < 0)
      || (!h.grounded && !h.falling && h.carriedBy >= 0)
  }

  /** enemies.find((e, idx) => idx === carriedBy && e.alive). */
  function Carrier(carriedBy: int, es: seq<Enemy>): (c: Option<Enemy>)
    ensures c.Some? <==> 0 <= carriedBy < |es| && es[carriedBy].alive
    ensures c.Some? ==> c.value == es[carriedBy]
  {
    if 0 <= carriedBy < |es| && es[carriedBy].alive then Some(es[carriedBy]) else None
  }

  /** updateHumanoids on one humanoid: follow a live carrier, start falling when
      the carrier is gone, fall under gravity and land (or die when the planet
      is gone). */
  function HumanoidStep(h: Humanoid, es: seq<Enemy>, planetDestroyed: bool, dtSec: real): (r: Humanoid)
    ensures r.alive ==> h.alive
    ensures !h.alive ==> r == h
    ensures h.carriedBy < 0 && !h.falling ==> r == h
    ensures h.alive && h.carriedBy >= 0 && Carrier(h.carriedBy, es).None? ==>
      r == h.(carriedBy := -1, falling := true, vy := 0.0)
    ensures h.alive && h.carriedBy >= 0 && Carrier(h.carriedBy, es).Some? ==>
      r == h.(x := es[h.carriedBy].x, y := es[h.carriedBy].y + ENEMY_RADIUS + HUMANOID_RADIUS)
    ensures !planetDestroyed ==> r.alive == h.alive
  {
    if !h.alive then h
    else if h.carriedBy >= 0 then
      match Carrier(h.carriedBy, es)
      case Some(c) => h.(x := c.x, y := c.y + ENEMY_RADIUS + HUMANOID_RADIUS)
      case None => h.(carriedBy := -1, falling := true, vy := 0.0)
    else if h.falling then
      var vy := h.vy + 150.0 * RENDER_SCALE * dtSec;
      var fallen := h.(vy := vy, y := h.y + vy * dtSec);
      var landed :=
        if fallen.y >= GROUND_Y then
          if !planetDestroyed then fallen.(y := GROUND_Y, falling := false, grounded := true, vy := 0.0)
          else fallen.(alive := false)
        else fallen;
      if planetDestroyed && landed.y > CANVAS_HEIGHT + 50.0 then landed.(alive := false) else landed
    else h
  }

  /** A falling humanoid that reaches the ground lands there while the planet
      exists, and dies when it does not. */
  lemma FallingHumanoidLands(h: Humanoid, es: seq<Enemy>, planetDestroyed: bool, dtSec: real)
    requires h.alive && h.carriedBy < 0 && h.falling
    requires h.y + (h.vy + 150.0 * RENDER_SCALE * dtSec) * dtSec >= GROUND_Y
    ensures var r := HumanoidStep(h, es, planetDestroyed, dtSec);
      if planetDestroyed then !r.alive
      else r.alive && r.grounded && !r.falling && r.y == GROUND_Y && r.vy == 0.0
  {
  }

  /** A falling humanoid still above the ground after the tick has gained
      speed under gravity and moved by it, and is still falling and alive,
      whether or not the planet exists. */
  lemma FallingHumanoidFalls(h: Humanoid, es: seq<Enemy>, planetDestroyed: bool, dtSec: real)
    requires h.alive && h.carriedBy < 0 && h.falling
    requires h.y + (h.vy + 150.0 * RENDER_SCALE * dtSec) * dtSec < GROUND_Y
    ensures var r := HumanoidStep(h, es, planetDestroyed, dtSec);
      && r.alive && r.falling && r.carriedBy < 0 && r.grounded == h.grounded
      && r.vy == h.vy + 150.0 * RENDER_SCALE * dtSec
      && r.y == h.y + r.vy * dtSec
      && r.x == h.x
  {
  }

  /** updateHumanoids keeps every humanoid in one place at a time. */
  lemma HumanoidStepKeepsExclusive(h: Humanoid, es: seq<Enemy>, planetDestroyed: bool, dtSec: real)
    requires Exclusive(h)
    ensures Exclusive(HumanoidStep(h, es, planetDestroyed, dtSec))
  {
  }

  // ---------------------------------------------------------------------------
  // Hit tests

  predicate LaserHitsEnemy(l: Laser, e: Enemy) {
    DistWrap(l.x, e.x) < LASER_LENGTH + ENEMY_RADIUS && Abs(l.y - e.y) < ENEMY_RADIUS
  }

  predicate LaserHitsMine(l: Laser, m: Mine) {
    DistWrap(l.x, m.x) < LASER_LENGTH + 5.0 * RENDER_SCALE && Abs(l.y - m.y) < 8.0 * RENDER_SCALE
  }

  predicate PlayerTouchesEnemy(p: Player, e: Enemy) {
    DistWrap(p.x, e.x) < PLAYER_RADIUS + ENEMY_RADIUS && Abs(p.y - e.y) < PLAYER_RADIUS + ENEMY_RADIUS
  }

  predicate PlayerTouchesMine(p: Player, m: Mine) {
    DistWrap(p.x, m.x) < PLAYER_RADIUS + 5.0 * RENDER_SCALE && Abs(p.y - m.y) < PLAYER_RADIUS + 5.0 * RENDER_SCALE
  }

  /** A humanoid the player can catch: alive and falling free. */
  predicate Catchable(h: Humanoid) {
    h.alive && !h.grounded && h.carriedBy < 0 && h.falling
  }

  predicate PlayerTouchesHumanoid(p: Player, h: Humanoid) {
    DistWrap(p.x, h.x) < PLAYER_RADIUS + HUMANOID_RADIUS && Abs(p.y - h.y) < PLAYER_RADIUS + HUMANOID_RADIUS
  }

  /** The smart bomb's reach: half a screen plus 100 native pixels around the player. */
  const BLAST_RADIUS: real := CANVAS_WIDTH / 2.0 + 100.0 * RENDER_SCALE

  predicate InBlast(px: real, x: real) {
    DistWrap(px, x) < BLAST_RADIUS
  }

  function OutsideBlast(px: real): Mine -> bool {
    (m: Mine) => !InBlast(px, m.x)
  }

  /** An enemy the smart bomb kills: alive and within reach. */
  predicate BombTarget(px: real, e: Enemy) {
    e.alive && InBlast(px, e.x)
  }

  /** The enemy list as the smart bomb leaves it: targets dead, the rest untouched. */
  function Blasted(es: seq<Enemy>, px: real): (r: seq<Enemy>)
    ensures |r| == |es|
    ensures forall i :: 0 <= i < |es| ==> r[i] == (if BombTarget(px, es[i]) then es[i].(alive := false) else es[i])
  {
    seq(|es|, i requires 0 <= i < |es| => if BombTarget(px, es[i]) then es[i].(alive := false) else es[i])
  }

  /** The number of smart-bomb targets in a list. */
  function BombTargets(es: seq<Enemy>, px: real): (n: nat)
    ensures n <= CountAlive(es)
  {
    if es == [] then 0
    else BombTargets(es[..|es| - 1], px) + (if BombTarget(px, es[|es| - 1]) then 1 else 0)
  }

  function CountAlive(es: seq<Enemy>): nat {
    if es == [] then 0 else CountAlive(es[..|es| - 1]) + (if es[|es| - 1].alive then 1 else 0)
  }

  /** The smart bomb's kill count is exactly the drop in live enemies among
      the ones it looked at. */
  lemma {:induction false} BombTargetsAreKills(es: seq<Enemy>, px: real)
    ensures BombTargets(es, px) == CountAlive(es) - CountAlive(Blasted(es, px))
  {
    if es != [] {
      var n := |es| - 1;
      BombTargetsAreKills(es[..n], px);
      assert Blasted(es, px)[..n] == Blasted(es[..n], px);
    }
  }
}
