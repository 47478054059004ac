/** Points, boxes and the componentwise min/max folds that the viewer's
    bounding-box code is built from. Coordinates are mathematical reals
    standing for the source's 32-bit floats. */
module Geometry {

  datatype Vec2 = Vec2(x: real, y: real)

  datatype Vec3 = Vec3(x: real, y: real, z: real)

  /** An axis-aligned box given by its two extreme corners. */
  datatype AABB = AABB(minCorner: Vec3, maxCorner: Vec3)

  datatype Axis = X | Y | Z

  /** Largest finite 32-bit float, the start value of the running minimum. */
  const FLT_MAX: real := 340282346638528859811704183484516925440.0

  const Zero2: Vec2 := Vec2(0.0, 0.0)
  const Zero3: Vec3 := Vec3(0.0, 0.0, 0.0)
  const ZeroBox: AABB := AABB(Zero3, Zero3)

  /** `glm::vec3(FLT_MAX)` and `glm::vec3(-FLT_MAX)`. */
  const HighSentinel: Vec3 := Vec3(FLT_MAX, FLT_MAX, FLT_MAX)
  const LowSentinel: Vec3 := Vec3(-FLT_MAX, -FLT_MAX, -FLT_MAX)

  function At(v: Vec3, a: Axis): real {
    match a
    case X => v.x
    case Y => v.y
    case Z => v.z
  }

  function Min(a: real, b: real): real { if a <= b then a else b }
  function Max(a: real, b: real): real { if a >= b then a else b }

  /** `glm::min` on vectors. */
  function VMin(a: Vec3, b: Vec3): (r: Vec3)
    ensures forall ax :: At(r, ax) == Min(At(a, ax), At(b, ax))
  {
    Vec3(Min(a.x, b.x), Min(a.y, b.y), Min(a.z, b.z))
  }

  /** `glm::max` on vectors. */
  function VMax(a: Vec3, b: Vec3): (r: Vec3)
    ensures forall ax :: At(r, ax) == Max(At(a, ax), At(b, ax))
  {
    Vec3(Max(a.x, b.x), Max(a.y, b.y), Max(a.z, b.z))
  }

  function Add(a: Vec3, b: Vec3): Vec3 { Vec3(a.x + b.x, a.y + b.y, a.z + b.z) }
  function Sub(a: Vec3, b: Vec3): Vec3 { Vec3(a.x - b.x, a.y - b.y, a.z - b.z) }
  function Times(k: real, v: Vec3): Vec3 { Vec3(k * v.x, k * v.y, k * v.z) }

  /** Componentwise `a <= b`. */
  predicate LessEq(a: Vec3, b: Vec3) {
    forall ax :: At(a, ax) <= At(b, ax)
  }

  predicate ValidBox(b: AABB) { LessEq(b.minCorner, b.maxCorner) }

  predicate ContainsPoint(b: AABB, p: Vec3) {
    LessEq(b.minCorner, p) && LessEq(p, b.maxCorner)
  }

  /** The box moved by the vector `d`. */
  function Shift(b: AABB, d: Vec3): AABB {
    AABB(Add(b.minCorner, d), Add(b.maxCorner, d))
  }

  /** Running componentwise minimum of `start` and every point of `pts`,
      taken in order, as a loop `lo = glm::min(lo, p)` computes it. */
  function MinOf(start: Vec3, pts: seq<Vec3>): Vec3 {
    if pts == [] then start else VMin(MinOf(start, pts[..|pts| - 1]), pts[|pts| - 1])
  }

  /** Running componentwise maximum, the partner of MinOf. */
  function MaxOf(start: Vec3, pts: seq<Vec3>): Vec3 {
    if pts == [] then start else VMax(MaxOf(start, pts[..|pts| - 1]), pts[|pts| - 1])
  }

  /** The running minimum lies below the start value and below every point. */
  lemma {:induction false} MinOfBelow(start: Vec3, pts: seq<Vec3>)
    ensures LessEq(MinOf(start, pts), start)
    ensures forall k :: 0 <= k < |pts| ==> LessEq(MinOf(start, pts), pts[k])
  {
    if pts != [] {
      var init := pts[..|pts| - 1];
      MinOfBelow(start, init);
      forall k | 0 <= k < |pts| ensures LessEq(MinOf(start, pts), pts[k]) {
        if k < |pts| - 1 { assert pts[k] == init[k]; }
      }
    }
  }

  /** Each coordinate of the running minimum is the start value's or that of
      one of the points: the minimum is attained. */
  lemma {:induction false} MinOfAttained(start: Vec3, pts: seq<Vec3>, ax: Axis)
    ensures At(MinOf(start, pts), ax) == At(start, ax)
         || exists k :: 0 <= k < |pts| && At(pts[k], ax) == At(MinOf(start, pts), ax)
  {
    if pts != [] {
      var init := pts[..|pts| - 1];
      MinOfAttained(start, init, ax);
      if At(MinOf(start, pts), ax) != At(pts[|pts| - 1], ax) {
        assert At(MinOf(start, pts), ax) == At(MinOf(start, init), ax);
        if At(MinOf(start, init), ax) != At(start, ax) {
          var k :| 0 <= k < |init| && At(init[k], ax) == At(MinOf(start, init), ax);
          assert pts[k] == init[k];
        }
      }
    }
  }

  /** The running maximum lies above the start value and above every point. */
  lemma {:induction false} MaxOfAbove(start: Vec3, pts: seq<Vec3>)
    ensures LessEq(start, MaxOf(start, pts))
    ensures forall k :: 0 <= k < |pts| ==> LessEq(pts[k], MaxOf(start, pts))
  {
    if pts != [] {
      var init := pts[..|pts| - 1];
      MaxOfAbove(start, init);
      forall k | 0 <= k < |pts| ensures LessEq(pts[k], MaxOf(start, pts)) {
        if k < |pts| - 1 { assert pts[k] == init[k]; }
      }
    }
  }

  /** Each coordinate of the running maximum is attained. */
  lemma {:induction false} MaxOfAttained(start: Vec3, pts: seq<Vec3>, ax: Axis)
    ensures At(MaxOf(start, pts), ax) == At(start, ax)
         || exists k :: 0 <= k < |pts| && At(pts[k], ax) == At(MaxOf(start, pts), ax)
  {
    if pts != [] {
      var init := pts[..|pts| - 1];
      MaxOfAttained(start, init, ax);
      if At(MaxOf(start, pts), ax) != At(pts[|pts| - 1], ax) {
        assert At(MaxOf(start, pts), ax) == At(MaxOf(start, init), ax);
        if At(MaxOf(start, init), ax) != At(start, ax) {
          var k :| 0 <= k < |init| && At(init[k], ax) == At(MaxOf(start, init), ax);
          assert pts[k] == init[k];
        }
      }
    }
  }
}
