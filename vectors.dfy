/**
 * Two-dimensional vectors over the reals, standing for Unity's Vector2/Vector3 in a
 * top-down game whose z coordinate never varies.  Square roots are not available on
 * Dafny's reals, so every operation that needs a magnitude receives it as an argument
 * together with the requirement that it is the magnitude (IsMagnitude).
 */
module Vectors {
  datatype Vec2 = Vec2(x: real, y: real)

  const Zero: Vec2 := Vec2(0.0, 0.0)

  function Add(a: Vec2, b: Vec2): Vec2 { Vec2(a.x + b.x, a.y + b.y) }

  function Sub(a: Vec2, b: Vec2): Vec2 { Vec2(a.x - b.x, a.y - b.y) }

  function Scale(v: Vec2, k: real): Vec2 { Vec2(v.x * k, v.y * k) }

  function SqrMagnitude(v: Vec2): real { v.x * v.x + v.y * v.y }

  function Abs(r: real): real { if r < 0.0 then -r else r }

  /** `m` is the Euclidean length of `v` (the value Unity's `magnitude` computes). */
  predicate IsMagnitude(v: Vec2, m: real) { m >= 0.0 && m * m == SqrMagnitude(v) }

  lemma SquarePositive(a: real)
    requires a != 0.0
    ensures a * a > 0.0
  {
    if a > 0.0 {
      ProductPositive(a, a);
    } else {
      ProductPositive(-a, -a);
      assert (-a) * (-a) == a * a;
    }
  }

  lemma SquareNonNegative(a: real)
    ensures a * a >= 0.0
  {
    if a != 0.0 {
      SquarePositive(a);
    }
  }

  lemma ScaleSqrMagnitude(v: Vec2, k: real)
    ensures SqrMagnitude(Scale(v, k)) == k * k * SqrMagnitude(v)
  {
    calc {
      SqrMagnitude(Scale(v, k));
      (v.x * k) * (v.x * k) + (v.y * k) * (v.y * k);
      k * k * (v.x * v.x + v.y * v.y);
    }
  }

  /** For non-negative reals, comparing squares compares the values. */
  lemma SquaresOrdered(a: real, b: real)
    requires a >= 0.0 && b >= 0.0
    ensures a * a <= b * b <==> a <= b
  {
    assert a * a - b * b == (a - b) * (a + b);
    if a > b {
      ProductPositive(a - b, a + b);
    } else if a < b {
      ProductPositive(b - a, a + b);
    }
  }

  /** A vector longer than `t` along one axis has a squared length above `t * t`. */
  lemma AxisExceeds(a: real, b: real, t: real)
    ensures Abs(a) > Abs(t) ==> a * a + b * b > t * t
  {
    if Abs(a) > Abs(t) {
      SquaresOrdered(Abs(a), Abs(t));
      assert Abs(a) * Abs(a) == a * a && Abs(t) * Abs(t) == t * t;
      SquareNonNegative(b);
    }
  }

  lemma ProductPositive(p: real, q: real)
    requires p > 0.0 && q > 0.0
    ensures p * q > 0.0
  {
  }

  /** Unity's `Vector3.kEpsilon`-style cut-off below which `normalized` returns zero. */
  const NormalizeEpsilon: real := 0.00001

  /**
   * `v.normalized`: `v` divided by its magnitude `mag`, or the zero vector when that
   * magnitude is at most 1e-5.  A normalised vector has length one and points the same way.
   */
  function Normalized(v: Vec2, mag: real): (r: Vec2)
    requires IsMagnitude(v, mag)
    ensures mag <= NormalizeEpsilon ==> r == Zero
    ensures mag > NormalizeEpsilon ==> SqrMagnitude(r) == 1.0
    ensures mag > NormalizeEpsilon ==> v == Scale(r, mag)
  {
    if mag > NormalizeEpsilon then
      var r := Scale(v, 1.0 / mag);
      ScaleSqrMagnitude(v, 1.0 / mag);
      assert (1.0 / mag) * (1.0 / mag) * (mag * mag) == 1.0;
      r
    else
      Zero
  }

  /**
   * `Vector3.MoveTowards(current, target, maxDelta)` as Unity defines it: the target itself
   * when it is already there or within `maxDelta`, otherwise `current` moved `maxDelta`
   * along the straight line to the target; `dist` is the distance between the two.
   */
  function MoveTowards(current: Vec2, target: Vec2, maxDelta: real, dist: real): Vec2
    requires IsMagnitude(Sub(target, current), dist)
  {
    var d := Sub(target, current);
    var sq := SqrMagnitude(d);
    if sq == 0.0 || (maxDelta >= 0.0 && sq <= maxDelta * maxDelta) then target
    else Add(current, Scale(d, maxDelta / dist))
  }

  /**
   * MoveTowards never steps further than `maxDelta`, and it never overshoots: it lands on
   * the target when the target is within reach, and otherwise leaves exactly
   * `dist - maxDelta` still to go.
   */
  lemma MoveTowardsNoOvershoot(current: Vec2, target: Vec2, maxDelta: real, dist: real)
    requires IsMagnitude(Sub(target, current), dist)
    requires maxDelta >= 0.0
    ensures SqrMagnitude(Sub(MoveTowards(current, target, maxDelta, dist), current)) <= maxDelta * maxDelta
    ensures dist <= maxDelta ==> MoveTowards(current, target, maxDelta, dist) == target
    ensures dist > maxDelta ==>
      SqrMagnitude(Sub(target, MoveTowards(current, target, maxDelta, dist))) == (dist - maxDelta) * (dist - maxDelta)
  {
    var d := Sub(target, current);
    var r := MoveTowards(current, target, maxDelta, dist);
    SquaresOrdered(dist, maxDelta);
    if dist <= maxDelta {
      assert r == target;
      assert Sub(r, current) == d;
    } else {
      assert dist > 0.0;
      var k := maxDelta / dist;
      assert r == Add(current, Scale(d, k));
      assert Sub(r, current) == Scale(d, k);
      ScaleSqrMagnitude(d, k);
      assert k * dist == maxDelta;
      assert k * k * (dist * dist) == maxDelta * maxDelta;
      var left := 1.0 - k;
      assert Sub(target, r) == Scale(d, left);
      ScaleSqrMagnitude(d, left);
      assert left * dist == dist - maxDelta;
      assert left * left * (dist * dist) == (dist - maxDelta) * (dist - maxDelta);
    }
  }
}
