/** Wrap-aware geometry on the circular x axis of length WORLD_WIDTH
    (src/world/world.ts, wrapX / distWrap / dirWrap). */
module Geometry {
  import opened Constants

  function Abs(x: real): real { if x < 0.0 then -x else x }

  function Min(a: real, b: real): real { if a <= b then a else b }

  function Max(a: real, b: real): real { if a >= b then a else b }

  /** JavaScript's Math.sign on a number that is not NaN. */
  function Sign(x: real): (r: int)
    ensures r == -1 || r == 0 || r == 1
    ensures r == 0 <==> x == 0.0
    ensures r == 1 <==> x > 0.0
  {
    if x > 0.0 then 1 else if x < 0.0 then -1 else 0
  }

  /** The quotient rounded toward zero, as JavaScript's `%` rounds it. */
  function Trunc(q: real): int {
    if q >= 0.0 then q.Floor else -((-q).Floor)
  }

  /** JavaScript's remainder `x % m` for a positive divisor: the result has
      the sign of x, unlike Dafny's Euclidean `%`. */
  function JsRem(x: real, m: real): real
    requires m > 0.0
  {
    x - m * Trunc(x / m) as real
  }

  /** wrapX: `((x % W) + W) % W` with JavaScript's `%`. */
  function WrapX(x: real): (r: real)
    ensures 0.0 <= r < WORLD_WIDTH
  {
    JsRem(JsRem(x, WORLD_WIDTH) + WORLD_WIDTH, WORLD_WIDTH)
  }

  /** Shortest distance between two x positions around the wrap. */
  function DistWrap(x1: real, x2: real): (r: real)
    ensures r <= WORLD_WIDTH / 2.0
    ensures Abs(x2 - x1) <= WORLD_WIDTH ==> 0.0 <= r
  {
    var d := Abs(x2 - x1);
    Min(d, WORLD_WIDTH - d)
  }

  /** The signed delta dirWrap computes before taking its sign: `to - from`,
      shifted once by a world width when it exceeds half the world. */
  function ShortestDelta(from: real, to: real): real {
    var d := to - from;
    var d1 := if d > WORLD_WIDTH / 2.0 then d - WORLD_WIDTH else d;
    if d1 < -WORLD_WIDTH / 2.0 then d1 + WORLD_WIDTH else d1
  }

  /** dirWrap: the direction (-1, 0 or 1) of the shortest way from `from` to `to`. */
  function DirWrap(from: real, to: real): (r: int)
    ensures r == -1 || r == 0 || r == 1
  {
    Sign(ShortestDelta(from, to))
  }

  predicate InWorld(x: real) { 0.0 <= x < WORLD_WIDTH }

  // ---------------------------------------------------------------------------
  // wrapX

  /** wrapX agrees with the mathematical modulus x - W * floor(x / W). */
  lemma WrapXIsFloorMod(x: real)
    ensures WrapX(x) == x - WORLD_WIDTH * (x / WORLD_WIDTH).Floor as real
  {
    var t := Trunc(x / WORLD_WIDTH);
    var a := x - WORLD_WIDTH * t as real;
    assert -WORLD_WIDTH < a < WORLD_WIDTH;
    var u := ((a + WORLD_WIDTH) / WORLD_WIDTH).Floor;
    assert u == 0 || u == 1;
    var k := t + u - 1;
    assert WrapX(x) == x - WORLD_WIDTH * k as real;
    assert k == (x / WORLD_WIDTH).Floor;
  }

  /** A position already on the axis is its own wrap. */
  lemma WrapXOfInWorld(x: real)
    requires InWorld(x)
    ensures WrapX(x) == x
  {
    WrapXIsFloorMod(x);
    assert (x / WORLD_WIDTH).Floor == 0;
  }

  lemma WrapXIdempotent(x: real)
    ensures WrapX(WrapX(x)) == WrapX(x)
  {
    WrapXOfInWorld(WrapX(x));
  }

  /** Shifting by whole world widths does not change the wrapped position. */
  lemma WrapXPeriodic(x: real, k: int)
    ensures WrapX(x + WORLD_WIDTH * k as real) == WrapX(x)
  {
    var y := x + WORLD_WIDTH * k as real;
    WrapXIsFloorMod(x);
    WrapXIsFloorMod(y);
    assert (y / WORLD_WIDTH).Floor == (x / WORLD_WIDTH).Floor + k;
  }

  // ---------------------------------------------------------------------------
  // distWrap and dirWrap

  /** On the axis, distWrap is a symmetric distance bounded by half the world. */
  lemma DistWrapIsDistance(a: real, b: real)
    requires InWorld(a) && InWorld(b)
    ensures DistWrap(a, b) == DistWrap(b, a)
    ensures 0.0 <= DistWrap(a, b) <= WORLD_WIDTH / 2.0
    ensures DistWrap(a, b) == 0.0 <==> a == b
  {
  }

  /** The delta dirWrap takes the sign of is a shortest path: it is at most
      half a world long, its length is distWrap, and it leads to the target. */
  lemma {:induction false} ShortestDeltaReaches(from: real, to: real)
    requires InWorld(from) && InWorld(to)
    ensures -WORLD_WIDTH / 2.0 <= ShortestDelta(from, to) <= WORLD_WIDTH / 2.0
    ensures Abs(ShortestDelta(from, to)) == DistWrap(from, to)
    ensures WrapX(from + ShortestDelta(from, to)) == to
  {
    var d := to - from;
    WrapXOfInWorld(to);
    if d > WORLD_WIDTH / 2.0 {
      WrapXPeriodic(to, -1);
    } else if d < -WORLD_WIDTH / 2.0 {
      WrapXPeriodic(to, 1);
    }
  }

  /** dirWrap is 0 exactly at the target, and flips sign when the ends swap,
      also at the exact half-world tie (which goes right one way, left back). */
  lemma DirWrapAntisymmetric(a: real, b: real)
    requires InWorld(a) && InWorld(b)
    ensures DirWrap(a, b) == -DirWrap(b, a)
    ensures DirWrap(a, b) == 0 <==> a == b
    ensures b - a == WORLD_WIDTH / 2.0 ==> DirWrap(a, b) == 1 && DirWrap(b, a) == -1
  {
  }

  /** dirWrap points the same way as the shortest delta whose length is distWrap. */
  lemma DirWrapFollowsDistance(from: real, to: real)
    requires InWorld(from) && InWorld(to)
    ensures DirWrap(from, to) as real * DistWrap(from, to) == ShortestDelta(from, to)
  {
    ShortestDeltaReaches(from, to);
  }

  /** An offset of at most half a world, taken from an on-axis position and
      wrapped, lies exactly that far away around the wrap. */
  lemma WrappedOffsetDistance(p: real, side: real, off: real)
    requires side == 1.0 || side == -1.0
    requires 0.0 <= off <= WORLD_WIDTH / 2.0
    ensures InWorld(p) ==> DistWrap(p, WrapX(p + side * off)) == off
  {
    if InWorld(p) {
      var q := p + side * off;
      WrapXIsFloorMod(q);
      var k := (q / WORLD_WIDTH).Floor;
      assert -1 <= k <= 1;
    }
  }
}
