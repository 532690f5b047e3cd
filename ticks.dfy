/** One tick of enemy behaviour (updateEnemies and the per-type updates in
    src/world/world.ts) as functions on the part of the world it touches.
    World.UpdateEnemies is proved to compute exactly this. */
module Ticks {
  import opened Constants
  import opened Geometry
  import opened Entities
  import opened Seqs
  import opened Rules

  /** The lists updateEnemies may change: the enemies themselves, the
      humanoids (Landers pick them up and kill them) and the mines (Bombers
      drop them). */
  datatype Crowd = Crowd(enemies: seq<Enemy>, humanoids: seq<Humanoid>, mines: seq<Mine>)

  // ---------------------------------------------------------------------------
  // Landers

  /** A humanoid a Lander at (x, y) can pick up this tick. */
  predicate Grabbable(x: real, y: real, h: Humanoid) {
    Abductable(h) && InReach(x, y, h)
  }

  /** The first humanoid at index i or later that a Lander at (x, y) can pick up, or -1. */
  function FirstGrab(x: real, y: real, hs: seq<Humanoid>, i: nat): (k: int)
    ensures k == -1 || i <= k < |hs|
    decreases |hs| - i
  {
    if i >= |hs| then -1
    else if Grabbable(x, y, hs[i]) then i
    else FirstGrab(x, y, hs, i + 1)
  }

  /** The grab scan stops at the first humanoid in reach, and finds none only
      when none is in reach. */
  lemma {:induction false} FirstGrabIsFirst(x: real, y: real, hs: seq<Humanoid>, i: nat)
    ensures var k := FirstGrab(x, y, hs, i);
      && (k == -1 <==> forall j :: i <= j < |hs| ==> !Grabbable(x, y, hs[j]))
      && (k >= 0 ==> Grabbable(x, y, hs[k]) && forall j :: i <= j < k ==> !Grabbable(x, y, hs[j]))
    decreases |hs| - i
  {
    if i < |hs| {
      FirstGrabIsFirst(x, y, hs, i + 1);
    }
  }

  /** What updateLander leaves behind: the Lander and the humanoid list. */
  datatype LanderOutcome = LanderOutcome(lander: Enemy, humanoids: seq<Humanoid>)

  /** The humanoid list after a Lander kills the humanoid it carries (when that
      index names one). */
  function KillCarried(hs: seq<Humanoid>, c: int): (r: seq<Humanoid>)
    ensures |r| == |hs|
    ensures forall j :: 0 <= j < |hs| ==>
      r[j] == (if j == c then hs[j].(alive := false, carriedBy := -1) else hs[j])
  {
    if 0 <= c < |hs| then hs[c := hs[c].(alive := false, carriedBy := -1)] else hs
  }

  /** updateLander for the Lander at index i. A carrying Lander climbs, and
      once high enough turns into a Mutant and kills its humanoid. Otherwise
      it counts its timer down (diving at the nearest abductable humanoid when
      the timer fires), wanders, and picks up the first humanoid in reach. */
  function LanderTick(e: Enemy, i: nat, hs: seq<Humanoid>, dtSec: real, d: EnemyDraws): (r: LanderOutcome)
    ensures r.lander.alive == e.alive && r.lander.x == e.x && r.lander.y == e.y
    ensures |r.humanoids| == |hs|
    // a carrying Lander at the top mutates and kills what it carries
    ensures e.carryingHumanoid >= 0 && e.y <= MUTATE_HEIGHT ==>
      && r.lander.kind == Mutant && r.lander.carryingHumanoid == -1
      && r.humanoids == KillCarried(hs, e.carryingHumanoid)
    // below the top it keeps climbing with its load
    ensures e.carryingHumanoid >= 0 && e.y > MUTATE_HEIGHT ==>
      && r.lander.kind == e.kind && r.lander.carryingHumanoid == e.carryingHumanoid
      && r.lander.vy < 0.0 && r.humanoids == hs
    // an empty Lander picks up the first humanoid in reach, or nothing
    ensures e.carryingHumanoid < 0 ==>
      && r.lander.kind == e.kind
      && var g := FirstGrab(e.x, e.y, hs, 0);
      && (g == -1 ==> r.lander.carryingHumanoid == e.carryingHumanoid && r.humanoids == hs)
      && (g >= 0 ==>
            && r.lander.carryingHumanoid == g
            && r.humanoids == hs[g := hs[g].(carriedBy := i, grounded := false)])
  {
    if e.carryingHumanoid >= 0 then
      var a := LanderAscend(e, dtSec, d.jx);
      if e.y <= MUTATE_HEIGHT then
        LanderOutcome(a.(kind := Mutant, carryingHumanoid := -1), KillCarried(hs, e.carryingHumanoid))
      else
        LanderOutcome(a, hs)
    else
      var t := e.timer - dtSec;
      var fired := t <= 0.0;
      var timed := e.(timer := if fired then 2.0 + d.timer * 3.0 else t);
      var steered := LanderSteer(timed, hs, fired, dtSec, d);
      var g := FirstGrab(steered.x, steered.y, hs, 0);
      if g >= 0 then
        LanderOutcome(steered.(carryingHumanoid := g), hs[g := hs[g].(carriedBy := i, grounded := false)])
      else
        LanderOutcome(steered, hs)
  }

  /** An empty Lander runs its timer down, redraws it between two and five
      seconds when it fires, and takes the velocity the steering rule gives. */
  lemma LanderTickSteers(e: Enemy, i: nat, hs: seq<Humanoid>, dtSec: real, d: EnemyDraws)
    requires e.carryingHumanoid < 0
    ensures var fired := e.timer - dtSec <= 0.0;
      && LanderTick(e, i, hs, dtSec, d).lander.timer == (if fired then 2.0 + d.timer * 3.0 else e.timer - dtSec)
      && var steered := LanderSteer(e.(timer := LanderTick(e, i, hs, dtSec, d).lander.timer), hs, fired, dtSec, d);
      && LanderTick(e, i, hs, dtSec, d).lander.vx == steered.vx
      && LanderTick(e, i, hs, dtSec, d).lander.vy == steered.vy
  {
  }

  predicate AllExclusive(hs: seq<Humanoid>) {
    forall j :: 0 <= j < |hs| ==> Exclusive(hs[j])
  }

  /** A Lander's tick keeps every humanoid in one place at a time: a picked-up
      humanoid leaves the ground as it becomes carried, a killed one is dead. */
  lemma LanderTickKeepsExclusive(e: Enemy, i: nat, hs: seq<Humanoid>, dtSec: real, d: EnemyDraws)
    requires AllExclusive(hs)
    ensures AllExclusive(LanderTick(e, i, hs, dtSec, d).humanoids)
  {
    var r := LanderTick(e, i, hs, dtSec, d);
    if e.carryingHumanoid < 0 {
      var g := FirstGrab(e.x, e.y, hs, 0);
      if g >= 0 {
        FirstGrabIsFirst(e.x, e.y, hs, 0);
        assert Exclusive(hs[g]);
      }
    }
  }

  // ---------------------------------------------------------------------------
  // Bombers

  /** What updateBomber leaves behind: the Bomber and the mine it dropped, if any. */
  datatype BomberOutcome = BomberOutcome(bomber: Enemy, dropped: Option<Mine>)

  /** updateBomber: drift, count the timer down, and when it fires rewind it
      to 2-5 s and drop an 8-second mine where the Bomber is. */
  function BomberTick(e: Enemy, dtSec: real, d: EnemyDraws): (r: BomberOutcome)
    ensures r.bomber == e.(vx := r.bomber.vx, vy := r.bomber.vy, timer := r.bomber.timer)
    ensures r.dropped.Some? <==> e.timer - dtSec <= 0.0
    ensures r.dropped.Some? ==> r.dropped.value == Mine(e.x, e.y, 8.0)
    ensures r.dropped.Some? && Unit(d.timer) ==> 2.0 <= r.bomber.timer < 5.0
    ensures r.dropped.None? ==> r.bomber.timer == e.timer - dtSec
  {
    var b := BomberDrift(e, dtSec, d);
    var t := b.timer - dtSec;
    if t <= 0.0 then BomberOutcome(b.(timer := 2.0 + d.timer * 3.0), Some(Mine(b.x, b.y, 8.0)))
    else BomberOutcome(b.(timer := t), None)
  }

  /** A Bomber takes the velocity of its drift. */
  lemma BomberTickDrifts(e: Enemy, dtSec: real, d: EnemyDraws)
    ensures BomberTick(e, dtSec, d).bomber.vx == BomberDrift(e, dtSec, d).vx
    ensures BomberTick(e, dtSec, d).bomber.vy == BomberDrift(e, dtSec, d).vy
  {
  }

  // ---------------------------------------------------------------------------
  // The whole enemy list

  /** The per-type behaviour of the live enemy at index i, before it moves. */
  function Behave(c: Crowd, i: nat, p: Player, dtSec: real, d: EnemyDraws, norm: (real, real) -> real): (r: Crowd)
    requires i < |c.enemies|
    ensures |r.enemies| == |c.enemies| && |r.humanoids| == |c.humanoids|
    ensures forall k :: 0 <= k < |c.enemies| && k != i ==> r.enemies[k] == c.enemies[k]
    ensures r.enemies[i].alive == c.enemies[i].alive
    ensures r.enemies[i].kind == c.enemies[i].kind
      || (c.enemies[i].kind == Lander && r.enemies[i].kind == Mutant)
    ensures c.enemies[i].kind != Lander ==> r.humanoids == c.humanoids
    ensures c.enemies[i].kind != Bomber ==> r.mines == c.mines
    ensures |c.mines| <= |r.mines| <= |c.mines| + 1 && r.mines[..|c.mines|] == c.mines
    ensures |r.mines| > |c.mines| ==> r.mines[|c.mines|] == Mine(c.enemies[i].x, c.enemies[i].y, 8.0)
  {
    var e := c.enemies[i];
    match e.kind
    case Lander =>
      var o := LanderTick(e, i, c.humanoids, dtSec, d);
      c.(enemies := c.enemies[i := o.lander], humanoids := o.humanoids)
    case Mutant => c.(enemies := c.enemies[i := MutantSteer(e, p, dtSec, norm)])
    case Baiter => c.(enemies := c.enemies[i := BaiterSteer(e, p, dtSec, norm)])
    case Bomber =>
      var o := BomberTick(e, dtSec, d);
      var ms := if o.dropped.Some? then c.mines + [o.dropped.value] else c.mines;
      c.(enemies := c.enemies[i := o.bomber], mines := ms)
    case Pod => c.(enemies := c.enemies[i := PodDrift(e, d)])
    case Swarmer => c.(enemies := c.enemies[i := SwarmerSteer(e, p, dtSec, d, norm)])
  }

  /** The enemy at index i leaves Behave with the velocity its type's rule gives. */
  lemma BehaveSteers(c: Crowd, i: nat, p: Player, dtSec: real, d: EnemyDraws, norm: (real, real) -> real)
    requires i < |c.enemies|
    ensures var e := c.enemies[i];
      var r := Behave(c, i, p, dtSec, d, norm).enemies[i];
      && (e.kind == Lander ==> r == LanderTick(e, i, c.humanoids, dtSec, d).lander)
      && (e.kind == Mutant ==> r == MutantSteer(e, p, dtSec, norm))
      && (e.kind == Baiter ==> r == BaiterSteer(e, p, dtSec, norm))
      && (e.kind == Bomber ==> r.vx == BomberDrift(e, dtSec, d).vx && r.vy == BomberDrift(e, dtSec, d).vy)
      && (e.kind == Pod ==> r == PodDrift(e, d))
      && (e.kind == Swarmer ==> r == SwarmerSteer(e, p, dtSec, d, norm))
  {
    if c.enemies[i].kind == Bomber {
      BomberTickDrifts(c.enemies[i], dtSec, d);
    }
  }

  /** One iteration of updateEnemies' loop: a dead enemy is skipped, a live
      one behaves and then moves. */
  function EnemyTick(c: Crowd, i: nat, p: Player, dtSec: real, d: EnemyDraws, norm: (real, real) -> real): (r: Crowd)
    requires i < |c.enemies|
    ensures !c.enemies[i].alive ==> r == c
    ensures |r.enemies| == |c.enemies| && |r.humanoids| == |c.humanoids|
    ensures forall k :: 0 <= k < |c.enemies| && k != i ==> r.enemies[k] == c.enemies[k]
    ensures r.enemies[i].alive == c.enemies[i].alive
    ensures c.enemies[i].alive ==> InWorld(r.enemies[i].x) && InEnemyBand(r.enemies[i].y)
  {
    if !c.enemies[i].alive then c
    else
      var b := Behave(c, i, p, dtSec, d, norm);
      b.(enemies := b.enemies[i := MoveEnemy(b.enemies[i], dtSec)])
  }

  /** updateEnemies' loop over the first n enemies; draws[k] is what enemy k
      draws from Math.random() this tick. */
  function StepAll(c: Crowd, p: Player, dtSec: real, draws: seq<EnemyDraws>, norm: (real, real) -> real, n: nat): (r: Crowd)
    requires n <= |c.enemies| <= |draws|
    ensures |r.enemies| == |c.enemies| && |r.humanoids| == |c.humanoids|
    ensures forall k :: n <= k < |c.enemies| ==> r.enemies[k] == c.enemies[k]
    ensures forall k :: 0 <= k < |c.enemies| ==> r.enemies[k].alive == c.enemies[k].alive
    ensures forall k :: 0 <= k < n && r.enemies[k].alive ==> InWorld(r.enemies[k].x) && InEnemyBand(r.enemies[k].y)
    ensures forall k :: 0 <= k < |c.enemies| ==>
      r.enemies[k].kind == c.enemies[k].kind || (c.enemies[k].kind == Lander && r.enemies[k].kind == Mutant)
    ensures |c.mines| <= |r.mines| && r.mines[..|c.mines|] == c.mines
    decreases n
  {
    if n == 0 then c
    else
      var prev := StepAll(c, p, dtSec, draws, norm, n - 1);
      EnemyTick(prev, n - 1, p, dtSec, draws[n - 1], norm)
  }

  /** After updateEnemies only live enemies remain, each on the axis and in
      the enemy band, and exactly as many as were alive before. */
  lemma {:induction false} UpdateEnemiesOutcome(c: Crowd, p: Player, dtSec: real, draws: seq<EnemyDraws>, norm: (real, real) -> real)
    requires |c.enemies| <= |draws|
    ensures var r := Filter(StepAll(c, p, dtSec, draws, norm, |c.enemies|).enemies, IsAlive);
      && (forall e :: e in r ==> e.alive && InWorld(e.x) && InEnemyBand(e.y))
      && |r| == |Filter(c.enemies, IsAlive)|
  {
    var s := StepAll(c, p, dtSec, draws, norm, |c.enemies|).enemies;
    var r := Filter(s, IsAlive);
    forall e | e in r
      ensures e.alive && InWorld(e.x) && InEnemyBand(e.y)
    {
      var k :| 0 <= k < |s| && s[k] == e;
    }
    FilterLengthByMask(s, IsAlive, c.enemies, IsAlive);
  }

  /** updateEnemies keeps every humanoid in one place at a time. */
  lemma {:induction false} StepAllKeepsExclusive(c: Crowd, p: Player, dtSec: real, draws: seq<EnemyDraws>, norm: (real, real) -> real, n: nat)
    requires n <= |c.enemies| <= |draws|
    requires AllExclusive(c.humanoids)
    ensures AllExclusive(StepAll(c, p, dtSec, draws, norm, n).humanoids)
    decreases n
  {
    if n > 0 {
      var prev := StepAll(c, p, dtSec, draws, norm, n - 1);
      StepAllKeepsExclusive(c, p, dtSec, draws, norm, n - 1);
      var e := prev.enemies[n - 1];
      if e.alive && e.kind == Lander {
        LanderTickKeepsExclusive(e, n - 1, prev.humanoids, dtSec, draws[n - 1]);
      }
    }
  }

  /** Every mine updateEnemies adds was dropped by a live Bomber: fresh, with
      8 seconds to live. */
  lemma {:induction false} DroppedMinesAreFresh(c: Crowd, p: Player, dtSec: real, draws: seq<EnemyDraws>, norm: (real, real) -> real, n: nat)
    requires n <= |c.enemies| <= |draws|
    ensures forall j :: |c.mines| <= j < |StepAll(c, p, dtSec, draws, norm, n).mines| ==>
      StepAll(c, p, dtSec, draws, norm, n).mines[j].life == 8.0
    decreases n
  {
    if n > 0 {
      DroppedMinesAreFresh(c, p, dtSec, draws, norm, n - 1);
      var prev := StepAll(c, p, dtSec, draws, norm, n - 1);
      assert forall j :: |c.mines| <= j < |prev.mines| ==> prev.mines[j].life == 8.0;
      var r := StepAll(c, p, dtSec, draws, norm, n);
      assert r.mines == prev.mines || r.mines == prev.mines + [Mine(prev.enemies[n - 1].x, prev.enemies[n - 1].y, 8.0)] by {
        if prev.enemies[n - 1].alive {
          var b := Behave(prev, n - 1, p, dtSec, draws[n - 1], norm);
          assert r.mines == b.mines;
          if |b.mines| > |prev.mines| {
            assert b.mines == b.mines[..|prev.mines|] + [b.mines[|prev.mines|]];
          }
        }
      }
      forall j | |c.mines| <= j < |r.mines|
        ensures r.mines[j].life == 8.0
      {
        if j < |prev.mines| {
          assert r.mines[j] == prev.mines[j];
          assert prev.mines[j].life == 8.0;
        } else {
          assert r.mines != prev.mines;
          assert r.mines[j] == Mine(prev.enemies[n - 1].x, prev.enemies[n - 1].y, 8.0);
        }
      }
    }
  }
}
