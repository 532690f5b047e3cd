/** The records the world holds (src/world/world.ts, lines 37-97), the
    results it reports, and the random draws that stand for Math.random(). */
module Entities {

  datatype EnemyType = Lander | Mutant | Baiter | Bomber | Pod | Swarmer

  /** `timer` is the general-purpose behaviour timer; `carryingHumanoid` is an
      index into the humanoid list, or -1. */
  datatype Enemy = Enemy(
    kind: EnemyType,
    x: real, y: real,
    vx: real, vy: real,
    alive: bool,
    timer: real,
    carryingHumanoid: int)

  /** `carriedBy` is an index into the enemy list, or -1. */
  datatype Humanoid = Humanoid(
    x: real, y: real,
    alive: bool,
    grounded: bool,
    falling: bool,
    carriedBy: int,
    vy: real)

  datatype Laser = Laser(x: real, y: real, vx: real, life: real)

  datatype Mine = Mine(x: real, y: real, life: real)

  datatype Particle = Particle(x: real, y: real, vx: real, vy: real, life: real, color: string)

  datatype Player = Player(
    x: real, y: real,
    vx: real, vy: real,
    facingRight: bool,
    alive: bool,
    invulnerable: real)

  /** What checkLaserHits reports about the enemy a laser killed. */
  datatype Hit = Hit(kind: EnemyType, x: real, y: real)

  datatype Option<+T> = None | Some(value: T)

  // ---------------------------------------------------------------------------
  // Random draws. Each field stands for one Math.random() result.

  /** A Math.random() result. */
  predicate Unit(r: real) { 0.0 <= r < 1.0 }

  /** The draws one enemy's behaviour may make in one tick: a new timer
      interval and a horizontal and a vertical jitter. */
  datatype EnemyDraws = EnemyDraws(timer: real, jx: real, jy: real)

  predicate ValidEnemyDraws(d: EnemyDraws) { Unit(d.timer) && Unit(d.jx) && Unit(d.jy) }

  /** One explosion particle: the cosine and sine of its random angle, and the
      draws for its speed and its lifetime. */
  datatype ParticleDraw = ParticleDraw(cos: real, sin: real, speed: real, life: real)

  predicate ValidParticleDraw(d: ParticleDraw) {
    && -1.0 <= d.cos <= 1.0 && -1.0 <= d.sin <= 1.0
    && d.cos * d.cos + d.sin * d.sin == 1.0
    && Unit(d.speed) && Unit(d.life)
  }

  predicate ValidSparks(ds: seq<ParticleDraw>, count: nat) {
    |ds| == count && forall d :: d in ds ==> ValidParticleDraw(d)
  }

  /** One Swarmer released by a Pod: position offsets and velocity. */
  datatype SwarmerDraw = SwarmerDraw(dx: real, dy: real, vx: real, vy: real)

  predicate ValidSwarmerDraw(d: SwarmerDraw) { Unit(d.dx) && Unit(d.dy) && Unit(d.vx) && Unit(d.vy) }

  /** The draws killEnemy may make: one per evaluation of the loop bound
      (at most six) and one record per Swarmer (at most five). */
  datatype KillDraws = KillDraws(bounds: seq<real>, offspring: seq<SwarmerDraw>)

  predicate ValidKillDraws(d: KillDraws) {
    && |d.bounds| == 6 && (forall b :: b in d.bounds ==> Unit(b))
    && |d.offspring| == 5 && (forall s :: s in d.offspring ==> ValidSwarmerDraw(s))
  }

  /** One terrain sample: the height step, the crater roll and the crater height. */
  datatype TerrainDraw = TerrainDraw(step: real, crater: real, height: real)

  predicate ValidTerrainDraw(d: TerrainDraw) { Unit(d.step) && Unit(d.crater) && Unit(d.height) }

  /** spawnEnemy's draws: the side, the distance, the height and the timer. */
  datatype SpawnDraws = SpawnDraws(side: real, dist: real, y: real, timer: real)

  predicate ValidSpawnDraws(d: SpawnDraws) { Unit(d.side) && Unit(d.dist) && Unit(d.y) && Unit(d.timer) }
}
