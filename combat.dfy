/** Explosions, kills and the two weapons (spawnExplosion, killEnemy,
    checkLaserHits and smartBomb in src/world/world.ts) as functions on the
    lists they change. The World methods are proved to compute exactly these. */
module Combat {
  import opened Constants
  import opened Geometry
  import opened Entities
  import opened Seqs
  import opened Rules

  // ---------------------------------------------------------------------------
  // Explosions

  predicate AllValid(ds: seq<ParticleDraw>) {
    forall d :: d in ds ==> ValidParticleDraw(d)
  }

  /** The particles spawnExplosion appends, one per draw, in draw order. */
  function Sparks(x: real, y: real, color: string, ds: seq<ParticleDraw>): (ps: seq<Particle>)
    requires AllValid(ds)
    ensures |ps| == |ds|
    ensures forall j :: 0 <= j < |ds| ==> ps[j] == Spark(x, y, color, ds[j])
    ensures forall p :: p in ps ==> p.x == x && p.y == y && p.color == color && 0.3 <= p.life < 0.8
  {
    if ds == [] then []
    else
      var init := ds[..|ds| - 1];
      assert forall d :: d in init ==> d in ds;
      Sparks(x, y, color, init) + [Spark(x, y, color, ds[|ds| - 1])]
  }

  /** One explosion draw sequence per index, each of the given size. */
  predicate ValidSparkTable(t: seq<seq<ParticleDraw>>, count: nat) {
    forall j :: 0 <= j < |t| ==> ValidSparks(t[j], count)
  }

  // ---------------------------------------------------------------------------
  // killEnemy

  /** A released humanoid: carried by nobody, falling from rest. */
  function Drop(h: Humanoid): (r: Humanoid)
    ensures r.carriedBy == -1 && r.falling && r.vy == 0.0
    ensures r.alive == h.alive && r.x == h.x && r.y == h.y && r.grounded == h.grounded
  {
    h.(carriedBy := -1, falling := true, vy := 0.0)
  }

  /** The humanoid list after an enemy carrying index c dies: that humanoid,
      when c names one, is dropped; every other humanoid is untouched. */
  function Released(hs: seq<Humanoid>, c: int): (r: seq<Humanoid>)
    ensures |r| == |hs|
    ensures forall j :: 0 <= j < |hs| ==> r[j] == (if j == c then Drop(hs[j]) else hs[j])
  {
    if 0 <= c < |hs| then hs[c := Drop(hs[c])] else hs
  }

  predicate ValidSwarmerDraws(ds: seq<SwarmerDraw>) {
    forall d :: d in ds ==> ValidSwarmerDraw(d)
  }

  /** The first n Swarmers a dying Pod releases. */
  function BroodN(pod: Enemy, ds: seq<SwarmerDraw>, n: nat): (r: seq<Enemy>)
    requires n <= |ds| && ValidSwarmerDraws(ds)
    ensures |r| == n
    ensures forall j :: 0 <= j < n ==> r[j] == Offspring(pod, ds[j])
  {
    if n == 0 then []
    else
      assert ds[n - 1] in ds;
      BroodN(pod, ds, n - 1) + [Offspring(pod, ds[n - 1])]
  }

  /** A Swarmer as a Pod releases it: alive, carrying nothing, timer at zero. */
  predicate FreshSwarmer(s: Enemy) {
    s.kind == Swarmer && s.alive && s.carryingHumanoid == -1 && s.timer == 0.0
  }

  /** All the Swarmers a dying Pod releases: three to five fresh ones. */
  function Brood(pod: Enemy, kd: KillDraws): (r: seq<Enemy>)
    requires ValidKillDraws(kd)
    ensures 3 <= |r| <= 5
    ensures forall s :: s in r ==> FreshSwarmer(s)
  {
    var n := SwarmCount(kd.bounds, 0);
    var r := BroodN(pod, kd.offspring, n);
    forall s | s in r
      ensures FreshSwarmer(s)
    {
      var j :| 0 <= j < n && r[j] == s;
      assert kd.offspring[j] in kd.offspring;
    }
    r
  }

  /** The enemy list after killEnemy(idx): only entry idx changes, to dead;
      a Pod appends three to five fresh Swarmers behind the old entries. */
  function KillEnemies(es: seq<Enemy>, idx: nat, kd: KillDraws): (r: seq<Enemy>)
    requires idx < |es| && ValidKillDraws(kd)
    ensures |es| <= |r|
    ensures r[..|es|] == es[idx := es[idx].(alive := false)]
    ensures es[idx].kind != Pod ==> |r| == |es|
    ensures es[idx].kind == Pod ==> 3 <= |r| - |es| <= 5
    ensures forall k :: |es| <= k < |r| ==> FreshSwarmer(r[k])
  {
    var dead := es[idx := es[idx].(alive := false)];
    var brood := if es[idx].kind == Pod then Brood(es[idx], kd) else [];
    var r := dead + brood;
    assert r[..|es|] == dead;
    forall k | |es| <= k < |r|
      ensures FreshSwarmer(r[k])
    {
      assert r[k] == brood[k - |es|];
    }
    r
  }

  /** killEnemy on a live enemy removes exactly one live enemy from the old entries. */
  lemma {:induction false} KillCountsOne(es: seq<Enemy>, idx: nat)
    requires idx < |es| && es[idx].alive
    ensures CountAlive(es[idx := es[idx].(alive := false)]) == CountAlive(es) - 1
    decreases |es|
  {
    var n := |es| - 1;
    var dead := es[idx := es[idx].(alive := false)];
    assert dead[..n] == if idx < n then es[..n][idx := es[idx].(alive := false)] else es[..n];
    if idx < n {
      KillCountsOne(es[..n], idx);
    }
  }

  // ---------------------------------------------------------------------------
  // checkLaserHits

  /** The live enemy a laser hits, scanning from the back as checkLaserHits
      does: the highest index below n, or -1. */
  function EnemyHitBy(l: Laser, es: seq<Enemy>, n: nat): (k: int)
    requires n <= |es|
    ensures -1 <= k < n
  {
    if n == 0 then -1
    else if es[n - 1].alive && LaserHitsEnemy(l, es[n - 1]) then n - 1
    else EnemyHitBy(l, es, n - 1)
  }

  lemma {:induction false} EnemyHitByIsLast(l: Laser, es: seq<Enemy>, n: nat)
    requires n <= |es|
    ensures var k := EnemyHitBy(l, es, n);
      && (k == -1 <==> forall j :: 0 <= j < n ==> !(es[j].alive && LaserHitsEnemy(l, es[j])))
      && (k >= 0 ==> es[k].alive && LaserHitsEnemy(l, es[k])
                     && forall j :: k < j < n ==> !(es[j].alive && LaserHitsEnemy(l, es[j])))
  {
    if n > 0 {
      EnemyHitByIsLast(l, es, n - 1);
    }
  }

  /** The mine a laser hits, scanning from the back: the highest index below n, or -1. */
  function MineHitBy(l: Laser, ms: seq<Mine>, n: nat): (k: int)
    requires n <= |ms|
    ensures -1 <= k < n
  {
    if n == 0 then -1
    else if LaserHitsMine(l, ms[n - 1]) then n - 1
    else MineHitBy(l, ms, n - 1)
  }

  lemma {:induction false} MineHitByIsLast(l: Laser, ms: seq<Mine>, n: nat)
    requires n <= |ms|
    ensures var k := MineHitBy(l, ms, n);
      && (k == -1 <==> forall j :: 0 <= j < n ==> !LaserHitsMine(l, ms[j]))
      && (k >= 0 ==> LaserHitsMine(l, ms[k]) && forall j :: k < j < n ==> !LaserHitsMine(l, ms[j]))
  {
    if n > 0 {
      MineHitByIsLast(l, ms, n - 1);
    }
  }

  /** A list with entry i taken out (Array.prototype.splice(i, 1)). */
  function Without<T>(s: seq<T>, i: nat): (r: seq<T>)
    requires i < |s|
    ensures |r| == |s| - 1
    ensures forall k :: 0 <= k < i ==> r[k] == s[k]
    ensures forall k :: i <= k < |r| ==> r[k] == s[k + 1]
  {
    s[..i] + s[i + 1..]
  }

  /** What checkLaserHits leaves: the lasers, mines and particles, and the
      index of the enemy hit (-1 when none was). */
  datatype Salvo = Salvo(lasers: seq<Laser>, mines: seq<Mine>, particles: seq<Particle>, target: int)

  /** checkLaserHits' outer loop over the lasers below index li, from the
      back: a laser that hits a live enemy is removed and ends the sweep; one
      that hits a mine is removed with the mine, which explodes into six
      particles; the others stay. sparks[j] is the explosion of laser j. */
  function Sweep(ls: seq<Laser>, es: seq<Enemy>, ms: seq<Mine>, ps: seq<Particle>,
                 sparks: seq<seq<ParticleDraw>>, li: nat): (r: Salvo)
    requires li <= |ls| && li <= |sparks| && ValidSparkTable(sparks, 6)
    ensures -1 <= r.target < |es|
    decreases li
  {
    if li == 0 then Salvo(ls, ms, ps, -1)
    else
      var l := ls[li - 1];
      var ei := EnemyHitBy(l, es, |es|);
      if ei >= 0 then Salvo(Without(ls, li - 1), ms, ps, ei)
      else
        var mi := MineHitBy(l, ms, |ms|);
        if mi >= 0 then
          Sweep(Without(ls, li - 1), es, Without(ms, mi),
                ps + Sparks(ms[mi].x, ms[mi].y, MINE_COLOR, sparks[li - 1]), sparks, li - 1)
        else
          Sweep(ls, es, ms, ps, sparks, li - 1)
  }

  /** None of the first n lasers hits a live enemy. */
  predicate AllMiss(ls: seq<Laser>, es: seq<Enemy>, n: nat)
    requires n <= |ls|
  {
    forall j, k :: 0 <= j < n && 0 <= k < |es| && es[k].alive ==> !LaserHitsEnemy(ls[j], es[k])
  }

  /** One of the first n lasers hits enemy t. */
  predicate SomeHits(ls: seq<Laser>, e: Enemy, n: nat)
    requires n <= |ls|
  {
    exists j :: 0 <= j < n && LaserHitsEnemy(ls[j], e)
  }

  /** Sweeping one more laser that misses every live enemy changes nothing
      about whether all swept lasers miss. */
  lemma AllMissStep(ls: seq<Laser>, ls': seq<Laser>, es: seq<Enemy>, n: nat)
    requires n < |ls| && n <= |ls'|
    requires forall j :: 0 <= j < n ==> ls'[j] == ls[j]
    requires forall k :: 0 <= k < |es| ==> !(es[k].alive && LaserHitsEnemy(ls[n], es[k]))
    ensures AllMiss(ls', es, n) <==> AllMiss(ls, es, n + 1)
  {
    if AllMiss(ls', es, n) {
      forall j, k | 0 <= j < n + 1 && 0 <= k < |es| && es[k].alive
        ensures !LaserHitsEnemy(ls[j], es[k])
      {
        if j < n {
          assert ls[j] == ls'[j];
        }
      }
    }
    if AllMiss(ls, es, n + 1) {
      forall j, k | 0 <= j < n && 0 <= k < |es| && es[k].alive
        ensures !LaserHitsEnemy(ls'[j], es[k])
      {
        assert ls[j] == ls'[j];
      }
    }
  }

  /** The sweep reports an enemy exactly when one of the swept lasers hits a
      live enemy, and the enemy it reports is live and hit by one of them. */
  lemma {:induction false} SweepFindsHit(ls: seq<Laser>, es: seq<Enemy>, ms: seq<Mine>, ps: seq<Particle>,
                                         sparks: seq<seq<ParticleDraw>>, li: nat)
    requires li <= |ls| && li <= |sparks| && ValidSparkTable(sparks, 6)
    ensures Sweep(ls, es, ms, ps, sparks, li).target == -1 <==> AllMiss(ls, es, li)
    ensures Sweep(ls, es, ms, ps, sparks, li).target >= 0 ==>
      es[Sweep(ls, es, ms, ps, sparks, li).target].alive
      && SomeHits(ls, es[Sweep(ls, es, ms, ps, sparks, li).target], li)
    decreases li
  {
    if li > 0 {
      var l := ls[li - 1];
      var ei := EnemyHitBy(l, es, |es|);
      EnemyHitByIsLast(l, es, |es|);
      if ei >= 0 {
        assert !AllMiss(ls, es, li) by {
          assert LaserHitsEnemy(ls[li - 1], es[ei]);
        }
        assert SomeHits(ls, es[ei], li) by {
          assert LaserHitsEnemy(ls[li - 1], es[ei]);
        }
      } else {
        var mi := MineHitBy(l, ms, |ms|);
        var ls' := if mi >= 0 then Without(ls, li - 1) else ls;
        var ms' := if mi >= 0 then Without(ms, mi) else ms;
        var ps' := if mi >= 0 then ps + Sparks(ms[mi].x, ms[mi].y, MINE_COLOR, sparks[li - 1]) else ps;
        assert Sweep(ls, es, ms, ps, sparks, li) == Sweep(ls', es, ms', ps', sparks, li - 1);
        SweepFindsHit(ls', es, ms', ps', sparks, li - 1);
        assert forall j :: 0 <= j < li - 1 ==> ls'[j] == ls[j];
        AllMissStep(ls, ls', es, li - 1);
        var r := Sweep(ls', es, ms', ps', sparks, li - 1);
        if r.target >= 0 {
          var j :| 0 <= j < li - 1 && LaserHitsEnemy(ls'[j], es[r.target]);
          assert LaserHitsEnemy(ls[j], es[r.target]);
        }
      }
    }
  }

  /** Every laser the sweep removes accounts for exactly one mine or for the
      enemy hit, every destroyed mine leaves six particles, and the old
      particles stay in front. */
  lemma {:induction false} SweepCounts(ls: seq<Laser>, es: seq<Enemy>, ms: seq<Mine>, ps: seq<Particle>,
                                       sparks: seq<seq<ParticleDraw>>, li: nat)
    requires li <= |ls| && li <= |sparks| && ValidSparkTable(sparks, 6)
    ensures var r := Sweep(ls, es, ms, ps, sparks, li);
      && |r.mines| <= |ms|
      && |r.lasers| + (|ms| - |r.mines|) + (if r.target >= 0 then 1 else 0) == |ls|
      && |r.particles| == |ps| + 6 * (|ms| - |r.mines|)
      && r.particles[..|ps|] == ps
    decreases li
  {
    if li > 0 {
      var l := ls[li - 1];
      var ei := EnemyHitBy(l, es, |es|);
      if ei < 0 {
        var mi := MineHitBy(l, ms, |ms|);
        if mi >= 0 {
          var ps' := ps + Sparks(ms[mi].x, ms[mi].y, MINE_COLOR, sparks[li - 1]);
          SweepCounts(Without(ls, li - 1), es, Without(ms, mi), ps', sparks, li - 1);
          var r := Sweep(ls, es, ms, ps, sparks, li);
          assert r.particles[..|ps'|] == ps';
          assert r.particles[..|ps|] == ps'[..|ps|];
        } else {
          SweepCounts(ls, es, ms, ps, sparks, li - 1);
        }
      }
    }
  }

  // ---------------------------------------------------------------------------
  // smartBomb

  predicate ValidKillTable(kds: seq<KillDraws>) {
    forall j :: 0 <= j < |kds| ==> ValidKillDraws(kds[j])
  }

  /** What smartBomb's enemy loop leaves: enemies, humanoids, particles and the kill count. */
  datatype Aftermath = Aftermath(enemies: seq<Enemy>, humanoids: seq<Humanoid>, particles: seq<Particle>, kills: nat)

  /** smartBomb's enemy loop over the indices below i, from the back: every
      live enemy within reach of the player at px explodes into eight
      particles and is killed. kds[j] and sparks[j] are enemy j's draws. */
  function BombEnemies(es: seq<Enemy>, hs: seq<Humanoid>, ps: seq<Particle>, px: real,
                       kds: seq<KillDraws>, sparks: seq<seq<ParticleDraw>>, i: nat): (r: Aftermath)
    requires i <= |es| && i <= |kds| && i <= |sparks|
    requires ValidKillTable(kds) && ValidSparkTable(sparks, 8)
    decreases i
  {
    if i == 0 then Aftermath(es, hs, ps, 0)
    else
      var e := es[i - 1];
      if BombTarget(px, e) then
        var rest := BombEnemies(KillEnemies(es, i - 1, kds[i - 1]), Released(hs, e.carryingHumanoid),
                                ps + Sparks(e.x, e.y, BOMB_COLOR, sparks[i - 1]), px, kds, sparks, i - 1);
        rest.(kills := rest.kills + 1)
      else
        BombEnemies(es, hs, ps, px, kds, sparks, i - 1)
  }

  /** A humanoid is released by the bomb when a target below index i carried it. */
  predicate CarriedByTarget(es: seq<Enemy>, px: real, i: nat, j: int)
    requires i <= |es|
  {
    exists k :: 0 <= k < i && BombTarget(px, es[k]) && es[k].carryingHumanoid == j
  }

  /** The bomb kills exactly its targets among the enemies it looks at and
      leaves the others as they were; the Swarmers dying Pods release are
      appended behind them and not visited, so they stay alive. */
  lemma {:induction false} BombEnemiesKills(es: seq<Enemy>, hs: seq<Humanoid>, ps: seq<Particle>, px: real,
                                            kds: seq<KillDraws>, sparks: seq<seq<ParticleDraw>>, i: nat)
    requires i <= |es| && i <= |kds| && i <= |sparks|
    requires ValidKillTable(kds) && ValidSparkTable(sparks, 8)
    ensures |es| <= |BombEnemies(es, hs, ps, px, kds, sparks, i).enemies|
    ensures forall k :: 0 <= k < i ==>
      (BombEnemies(es, hs, ps, px, kds, sparks, i).enemies[k] ==
        if BombTarget(px, es[k]) then es[k].(alive := false) else es[k])
    ensures forall k :: i <= k < |es| ==> BombEnemies(es, hs, ps, px, kds, sparks, i).enemies[k] == es[k]
    ensures forall k :: |es| <= k < |BombEnemies(es, hs, ps, px, kds, sparks, i).enemies| ==>
      FreshSwarmer(BombEnemies(es, hs, ps, px, kds, sparks, i).enemies[k])
    decreases i
  {
    if i > 0 {
      var e := es[i - 1];
      if BombTarget(px, e) {
        var es' := KillEnemies(es, i - 1, kds[i - 1]);
        var hs' := Released(hs, e.carryingHumanoid);
        var ps' := ps + Sparks(e.x, e.y, BOMB_COLOR, sparks[i - 1]);
        BombEnemiesKills(es', hs', ps', px, kds, sparks, i - 1);
        assert forall k :: 0 <= k < |es| ==> es'[k] == es'[..|es|][k];
        assert es'[..i - 1] == es[..i - 1];
      } else {
        BombEnemiesKills(es, hs, ps, px, kds, sparks, i - 1);
      }
    }
  }

  /** The bomb's count is the number of targets among the enemies it looks at. */
  lemma {:induction false} BombEnemiesCount(es: seq<Enemy>, hs: seq<Humanoid>, ps: seq<Particle>, px: real,
                                            kds: seq<KillDraws>, sparks: seq<seq<ParticleDraw>>, i: nat)
    requires i <= |es| && i <= |kds| && i <= |sparks|
    requires ValidKillTable(kds) && ValidSparkTable(sparks, 8)
    ensures BombEnemies(es, hs, ps, px, kds, sparks, i).kills == BombTargets(es[..i], px)
    decreases i
  {
    if i > 0 {
      var e := es[i - 1];
      assert es[..i][..i - 1] == es[..i - 1];
      if BombTarget(px, e) {
        var es' := KillEnemies(es, i - 1, kds[i - 1]);
        var hs' := Released(hs, e.carryingHumanoid);
        var ps' := ps + Sparks(e.x, e.y, BOMB_COLOR, sparks[i - 1]);
        BombEnemiesCount(es', hs', ps', px, kds, sparks, i - 1);
        assert es'[..i - 1] == es'[..|es|][..i - 1] == es[..i - 1];
      } else {
        BombEnemiesCount(es, hs, ps, px, kds, sparks, i - 1);
      }
    }
  }

  /** Over the enemies it looks at, the bomb leaves exactly the blasted list,
      and its kill count is the drop in live enemies there. */
  lemma BombEnemiesBlasts(es: seq<Enemy>, hs: seq<Humanoid>, ps: seq<Particle>, px: real,
                          kds: seq<KillDraws>, sparks: seq<seq<ParticleDraw>>, i: nat)
    requires i <= |es| && i <= |kds| && i <= |sparks|
    requires ValidKillTable(kds) && ValidSparkTable(sparks, 8)
    ensures |es| <= |BombEnemies(es, hs, ps, px, kds, sparks, i).enemies|
    ensures BombEnemies(es, hs, ps, px, kds, sparks, i).enemies[..i] == Blasted(es[..i], px)
    ensures BombEnemies(es, hs, ps, px, kds, sparks, i).kills ==
      CountAlive(es[..i]) - CountAlive(BombEnemies(es, hs, ps, px, kds, sparks, i).enemies[..i])
  {
    var r := BombEnemies(es, hs, ps, px, kds, sparks, i);
    BombEnemiesKills(es, hs, ps, px, kds, sparks, i);
    BombEnemiesCount(es, hs, ps, px, kds, sparks, i);
    BombTargetsAreKills(es[..i], px);
    assert r.enemies[..i] == Blasted(es[..i], px);
  }

  /** Each kill of the bomb leaves eight particles behind the old ones. */
  lemma {:induction false} BombEnemiesSparks(es: seq<Enemy>, hs: seq<Humanoid>, ps: seq<Particle>, px: real,
                                             kds: seq<KillDraws>, sparks: seq<seq<ParticleDraw>>, i: nat)
    requires i <= |es| && i <= |kds| && i <= |sparks|
    requires ValidKillTable(kds) && ValidSparkTable(sparks, 8)
    ensures |BombEnemies(es, hs, ps, px, kds, sparks, i).particles| ==
      |ps| + 8 * BombEnemies(es, hs, ps, px, kds, sparks, i).kills
    ensures BombEnemies(es, hs, ps, px, kds, sparks, i).particles[..|ps|] == ps
    decreases i
  {
    if i > 0 {
      var e := es[i - 1];
      if BombTarget(px, e) {
        var es' := KillEnemies(es, i - 1, kds[i - 1]);
        var hs' := Released(hs, e.carryingHumanoid);
        var ps' := ps + Sparks(e.x, e.y, BOMB_COLOR, sparks[i - 1]);
        BombEnemiesSparks(es', hs', ps', px, kds, sparks, i - 1);
        var r := BombEnemies(es', hs', ps', px, kds, sparks, i - 1);
        assert r.particles[..|ps|] == r.particles[..|ps'|][..|ps|];
      } else {
        BombEnemiesSparks(es, hs, ps, px, kds, sparks, i - 1);
      }
    }
  }

  /** The bomb drops exactly the humanoids its targets carried. */
  lemma {:induction false} BombEnemiesReleases(es: seq<Enemy>, hs: seq<Humanoid>, ps: seq<Particle>, px: real,
                                               kds: seq<KillDraws>, sparks: seq<seq<ParticleDraw>>, i: nat)
    requires i <= |es| && i <= |kds| && i <= |sparks|
    requires ValidKillTable(kds) && ValidSparkTable(sparks, 8)
    ensures |BombEnemies(es, hs, ps, px, kds, sparks, i).humanoids| == |hs|
    ensures forall j :: 0 <= j < |hs| ==>
      (BombEnemies(es, hs, ps, px, kds, sparks, i).humanoids[j] ==
        if CarriedByTarget(es, px, i, j) then Drop(hs[j]) else hs[j])
    decreases i
  {
    if i > 0 {
      var e := es[i - 1];
      if BombTarget(px, e) {
        var es' := KillEnemies(es, i - 1, kds[i - 1]);
        var hs' := Released(hs, e.carryingHumanoid);
        var ps' := ps + Sparks(e.x, e.y, BOMB_COLOR, sparks[i - 1]);
        BombEnemiesReleases(es', hs', ps', px, kds, sparks, i - 1);
        var r := BombEnemies(es', hs', ps', px, kds, sparks, i - 1);
        assert forall k :: 0 <= k < i - 1 ==> es'[k] == es'[..|es|][k] == es[k];
        forall j | 0 <= j < |hs|
          ensures r.humanoids[j] == (if CarriedByTarget(es, px, i, j) then Drop(hs[j]) else hs[j])
        {
          assert CarriedByTarget(es', px, i - 1, j) ==> CarriedByTarget(es, px, i, j);
          if CarriedByTarget(es, px, i, j) {
            var k :| 0 <= k < i && BombTarget(px, es[k]) && es[k].carryingHumanoid == j;
            if k < i - 1 {
              assert CarriedByTarget(es', px, i - 1, j);
            }
          }
        }
      } else {
        BombEnemiesReleases(es, hs, ps, px, kds, sparks, i - 1);
        var r := BombEnemies(es, hs, ps, px, kds, sparks, i - 1);
        forall j | 0 <= j < |hs|
          ensures r.humanoids[j] == (if CarriedByTarget(es, px, i, j) then Drop(hs[j]) else hs[j])
        {
          if CarriedByTarget(es, px, i, j) {
            var k :| 0 <= k < i && BombTarget(px, es[k]) && es[k].carryingHumanoid == j;
            assert k < i - 1;
          }
        }
      }
    }
  }

  /** What smartBomb's mine loop leaves: the mines and the particles. */
  datatype Clearance = Clearance(mines: seq<Mine>, particles: seq<Particle>)

  /** smartBomb's mine loop over the indices below i, from the back: every
      mine within reach explodes into four particles and is removed.
      sparks[j] is mine j's explosion. */
  function BombMines(ms: seq<Mine>, ps: seq<Particle>, px: real, sparks: seq<seq<ParticleDraw>>, i: nat): (r: Clearance)
    requires i <= |ms| && i <= |sparks| && ValidSparkTable(sparks, 4)
    decreases i
  {
    if i == 0 then Clearance(ms, ps)
    else if InBlast(px, ms[i - 1].x) then
      BombMines(Without(ms, i - 1), ps + Sparks(ms[i - 1].x, ms[i - 1].y, MINE_COLOR, sparks[i - 1]), px, sparks, i - 1)
    else
      BombMines(ms, ps, px, sparks, i - 1)
  }

  /** The mine loop removes exactly the mines within reach among the first i
      and keeps the others in order. */
  lemma {:induction false} BombMinesKeepsOutside(ms: seq<Mine>, ps: seq<Particle>, px: real, sparks: seq<seq<ParticleDraw>>, i: nat)
    requires i <= |ms| && i <= |sparks| && ValidSparkTable(sparks, 4)
    ensures BombMines(ms, ps, px, sparks, i).mines == Filter(ms[..i], OutsideBlast(px)) + ms[i..]
    decreases i
  {
    if i > 0 {
      var m := ms[i - 1];
      var keep := OutsideBlast(px);
      if InBlast(px, m.x) {
        var ms' := Without(ms, i - 1);
        var ps' := ps + Sparks(m.x, m.y, MINE_COLOR, sparks[i - 1]);
        assert ms'[..i - 1] == ms[..i - 1] && ms'[i - 1..] == ms[i..] by {
          assert ms' == ms[..i - 1] + ms[i..];
        }
        calc {
          BombMines(ms, ps, px, sparks, i).mines;
          BombMines(ms', ps', px, sparks, i - 1).mines;
          { BombMinesKeepsOutside(ms', ps', px, sparks, i - 1); }
          Filter(ms[..i - 1], keep) + ms[i..];
          { FilterPrefixStep(ms, i, keep); assert !keep(m); }
          Filter(ms[..i], keep) + ms[i..];
        }
      } else {
        calc {
          BombMines(ms, ps, px, sparks, i).mines;
          BombMines(ms, ps, px, sparks, i - 1).mines;
          { BombMinesKeepsOutside(ms, ps, px, sparks, i - 1); }
          Filter(ms[..i - 1], keep) + ms[i - 1..];
          { assert ms[i - 1..] == [m] + ms[i..]; }
          Filter(ms[..i - 1], keep) + [m] + ms[i..];
          { FilterPrefixStep(ms, i, keep); assert keep(m); }
          Filter(ms[..i], keep) + ms[i..];
        }
      }
    }
  }

  /** Each mine the loop removes leaves four particles behind the old ones. */
  lemma {:induction false} BombMinesSparks(ms: seq<Mine>, ps: seq<Particle>, px: real, sparks: seq<seq<ParticleDraw>>, i: nat)
    requires i <= |ms| && i <= |sparks| && ValidSparkTable(sparks, 4)
    ensures |BombMines(ms, ps, px, sparks, i).mines| <= |ms|
    ensures |BombMines(ms, ps, px, sparks, i).particles| ==
      |ps| + 4 * (|ms| - |BombMines(ms, ps, px, sparks, i).mines|)
    ensures BombMines(ms, ps, px, sparks, i).particles[..|ps|] == ps
    decreases i
  {
    if i > 0 {
      var m := ms[i - 1];
      if InBlast(px, m.x) {
        var ms' := Without(ms, i - 1);
        var ps' := ps + Sparks(m.x, m.y, MINE_COLOR, sparks[i - 1]);
        BombMinesSparks(ms', ps', px, sparks, i - 1);
        var r := BombMines(ms', ps', px, sparks, i - 1);
        assert r.particles[..|ps|] == r.particles[..|ps'|][..|ps|];
      } else {
        BombMinesSparks(ms, ps, px, sparks, i - 1);
      }
    }
  }
}
