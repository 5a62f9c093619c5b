/**
 * Vector arithmetic for the safe zone: the per-tick movement of the zone centre, the
 * radius interpolation and the fixed offsets of the four quadrants.
 * Coordinates are exact reals; distances are compared through their squares so that
 * no square root is needed.
 */
module Geometry {

  datatype Vec3 = Vec3(x: real, y: real, z: real) {

    function Plus(o: Vec3): Vec3 { Vec3(x + o.x, y + o.y, z + o.z) }

    function Minus(o: Vec3): Vec3 { Vec3(x - o.x, y - o.y, z - o.z) }

    function Scale(k: real): Vec3 { Vec3(k * x, k * y, k * z) }

    function SqLength(): real { x * x + y * y + z * z }
  }

  const Origin := Vec3(0.0, 0.0, 0.0)

  function SqDist(a: Vec3, b: Vec3): real { a.Minus(b).SqLength() }

  function Min(a: real, b: real): real { if a <= b then a else b }

  function Max(a: real, b: real): real { if a >= b then a else b }

  function Abs(a: real): real { if a < 0.0 then -a else a }

  function Clamp(v: real, lo: real, hi: real): real { Min(Max(v, lo), hi) }

  /** The engine's UE_SMALL_NUMBER, below which a squared length counts as zero. */
  const SmallNumber: real := 0.00000001

  lemma MulPositive(a: real, b: real)
    requires a > 0.0 && b > 0.0
    ensures a * b > 0.0
  {}

  lemma MulNonNegative(a: real, b: real)
    requires a >= 0.0 && b >= 0.0
    ensures a * b >= 0.0
  {}

  lemma MulMonotone(a: real, b: real, c: real)
    requires 0.0 <= c && a <= b
    ensures a * c <= b * c
  {
    MulNonNegative(b - a, c);
    assert b * c - a * c == (b - a) * c;
  }

  lemma SquareNonNegative(a: real)
    ensures a * a >= 0.0
  {
    if a < 0.0 {
      MulNonNegative(-a, -a);
      assert (-a) * (-a) == a * a;
    } else {
      MulNonNegative(a, a);
    }
  }

  /** Square of a non-negative real bounds it: the step used by the containment proofs. */
  lemma SquareBound(a: real, r: real)
    requires r >= 0.0 && a * a <= r * r
    ensures a <= r && -a <= r
  {
    var b := Abs(a);
    assert b * b == a * a;
    assert b * b - r * r == (b - r) * (b + r);
    if b > r {
      MulPositive(b - r, b + r);
    }
  }

  // ---------------------------------------------------------------------------
  // Quadrant offsets
  // ---------------------------------------------------------------------------

  /**
   * The direction (cos 90i, sin 90i, 0) of quadrant angle index i, with the cosines and
   * sines of multiples of 90 degrees written as their exact values.
   */
  function QuadrantDirection(i: nat): (d: Vec3)
    ensures d.SqLength() == 1.0 && d.z == 0.0
    ensures (d.x == 0.0 || d.y == 0.0) && d.x * d.x + d.y * d.y == 1.0
  {
    match i % 4
    case 0 => Vec3(1.0, 0.0, 0.0)
    case 1 => Vec3(0.0, 1.0, 0.0)
    case 2 => Vec3(-1.0, 0.0, 0.0)
    case _ => Vec3(0.0, -1.0, 0.0)
  }

  /**
   * The directions start at +X and each next index turns the previous one by a quarter
   * turn counter-clockwise, (x, y) to (-y, x): +X, +Y, -X, -Y and round again.
   */
  lemma QuadrantDirectionTurns(i: nat)
    ensures QuadrantDirection(0) == Vec3(1.0, 0.0, 0.0)
    ensures QuadrantDirection(i + 1) == Vec3(-QuadrantDirection(i).y, QuadrantDirection(i).x, 0.0)
    ensures QuadrantDirection(i + 4) == QuadrantDirection(i)
  {
    NextResidue(i);
  }

  /** Stepping an index by one moves its residue modulo 4 round the cycle 0, 1, 2, 3. */
  lemma NextResidue(i: nat)
    ensures (i + 1) % 4 == if i % 4 == 3 then 0 else i % 4 + 1
    ensures (i + 4) % 4 == i % 4
  {
  }

  /** Centre of the quadrant with angle index i around a zone centre. */
  function QuadrantCenter(center: Vec3, quadrantRadius: real, i: nat): (c: Vec3)
    ensures SqDist(c, center) == quadrantRadius * quadrantRadius
    ensures c.z == center.z
  {
    var d := QuadrantDirection(i);
    var c := center.Plus(d.Scale(quadrantRadius));
    assert c.Minus(center) == d.Scale(quadrantRadius);
    assert d.Scale(quadrantRadius).SqLength() == quadrantRadius * quadrantRadius * d.SqLength();
    c
  }

  /** |u + v|^2 expands into |u|^2 + 2 u.v + |v|^2. */
  lemma ExpandSqLength(u: Vec3, v: Vec3)
    ensures u.Plus(v).SqLength() == u.SqLength() + 2.0 * (u.x * v.x + u.y * v.y + u.z * v.z) + v.SqLength()
  {}

  /** Against a quadrant direction, the dot product of a vector no longer than r is at most r. */
  lemma DirectionDotBound(u: Vec3, r: real, i: nat)
    requires r >= 0.0 && u.SqLength() <= r * r
    ensures var d := QuadrantDirection(i); u.x * d.x + u.y * d.y + u.z * d.z <= r
  {
    assert u.x * u.x <= r * r && u.y * u.y <= r * r by {
      SquareNonNegative(u.x);
      SquareNonNegative(u.y);
      SquareNonNegative(u.z);
    }
    SquareBound(u.x, r);
    SquareBound(u.y, r);
  }

  /**
   * Every point of a quadrant's sphere (radius R/2, centred R/2 away from the zone centre)
   * lies inside the zone's sphere of radius R.
   */
  lemma QuadrantSphereInsideZone(center: Vec3, zoneRadius: real, i: nat, p: Vec3)
    requires zoneRadius >= 0.0
    requires SqDist(p, QuadrantCenter(center, zoneRadius / 2.0, i)) <= (zoneRadius / 2.0) * (zoneRadius / 2.0)
    ensures SqDist(p, center) <= zoneRadius * zoneRadius
  {
    var r := zoneRadius / 2.0;
    var d := QuadrantDirection(i);
    var u := p.Minus(QuadrantCenter(center, r, i));
    assert p.Minus(center) == u.Plus(d.Scale(r));
    OffsetWithinDouble(u, r, i);
    assert zoneRadius == 2.0 * r;
  }

  /** A vector no longer than r, moved r along a quadrant direction, is no longer than 2r. */
  lemma OffsetWithinDouble(u: Vec3, r: real, i: nat)
    requires r >= 0.0 && u.SqLength() <= r * r
    ensures u.Plus(QuadrantDirection(i).Scale(r)).SqLength() <= (2.0 * r) * (2.0 * r)
  {
    var d := QuadrantDirection(i);
    var e := u.x * d.x + u.y * d.y + u.z * d.z;
    ExpandSqLength(u, d.Scale(r));
    ScaledSqLength(d, r);
    DotScale(u, d, r);
    DirectionDotBound(u, r, i);
    GrowthBound(u.SqLength(), e, r);
  }

  /** Scaling one side of a dot product scales the product. */
  lemma DotScale(u: Vec3, d: Vec3, r: real)
    ensures u.x * d.Scale(r).x + u.y * d.Scale(r).y + u.z * d.Scale(r).z == r * (u.x * d.x + u.y * d.y + u.z * d.z)
  {
    assert u.x * (r * d.x) == r * (u.x * d.x);
    assert u.y * (r * d.y) == r * (u.y * d.y);
    assert u.z * (r * d.z) == r * (u.z * d.z);
  }

  /** |u|^2 + 2 r (u.d) + r^2 stays within (2r)^2 once |u| <= r and u.d <= r. */
  lemma GrowthBound(a: real, e: real, r: real)
    requires r >= 0.0 && a <= r * r && e <= r
    ensures a + 2.0 * (r * e) + r * r <= (2.0 * r) * (2.0 * r)
  {
    MulMonotone(e, r, r);
    assert r * e == e * r;
  }

  lemma DoubleSquare(r: real)
    ensures (2.0 * r) * (2.0 * r) == 4.0 * (r * r)
  {}

  // ---------------------------------------------------------------------------
  // Random target box
  // ---------------------------------------------------------------------------

  /**
   * p lies in the axis-aligned box spanned by c - (r, r, r) and c + (r, r, r)
   * (either corner order, as the engine's random-point-in-box draws between the bounds).
   */
  predicate InBox(p: Vec3, c: Vec3, r: real)
  {
    Abs(p.x - c.x) <= Abs(r) && Abs(p.y - c.y) <= Abs(r) && Abs(p.z - c.z) <= Abs(r)
  }

  /**
   * The random target is drawn from the box around a quadrant, not from its sphere: a box
   * corner lies outside the quadrant's sphere and even outside the zone that the quadrant
   * belongs to.
   */
  lemma BoxTargetCanLeaveZone(center: Vec3, zoneRadius: real, i: nat)
    requires zoneRadius > 0.0
    ensures exists p :: InBox(p, QuadrantCenter(center, zoneRadius / 2.0, i), zoneRadius / 2.0)
                        && SqDist(p, QuadrantCenter(center, zoneRadius / 2.0, i)) > (zoneRadius / 2.0) * (zoneRadius / 2.0)
                        && SqDist(p, center) > zoneRadius * zoneRadius
  {
    var r := zoneRadius / 2.0;
    var qc := QuadrantCenter(center, r, i);
    // The corner r further along the quadrant's direction, r to its left and r up.
    var p := match i % 4
      case 0 => qc.Plus(Vec3(r, r, r))
      case 1 => qc.Plus(Vec3(-r, r, r))
      case 2 => qc.Plus(Vec3(-r, -r, r))
      case _ => qc.Plus(Vec3(r, -r, r));
    var u := p.Minus(qc);
    var w := p.Minus(center);
    MulPositive(r, r);
    DoubleSquare(r);
    assert (-r) * (-r) == r * r;
    assert (-2.0 * r) * (-2.0 * r) == (2.0 * r) * (2.0 * r);
    assert u.x * u.x == r * r && u.y * u.y == r * r && u.z == r;
    assert w.x * w.x + w.y * w.y == 5.0 * (r * r) && w.z == r;
    CornerOutside(center, qc, p, r);
  }

  /** The corner facts, once the squared coordinates are known multiples of r * r. */
  lemma CornerOutside(center: Vec3, qc: Vec3, p: Vec3, r: real)
    requires r > 0.0
    requires var u := p.Minus(qc); u.x * u.x == r * r && u.y * u.y == r * r && u.z == r
    requires var w := p.Minus(center); w.x * w.x + w.y * w.y == 5.0 * (r * r) && w.z == r
    ensures InBox(p, qc, r)
    ensures SqDist(p, qc) > r * r
    ensures SqDist(p, center) > (2.0 * r) * (2.0 * r)
  {
    var u := p.Minus(qc);
    SquareBound(u.x, r);
    SquareBound(u.y, r);
    MulPositive(r, r);
    ThreeSquares(u.x, u.y, u.z, r);
    var w := p.Minus(center);
    SixSquares(w.x * w.x + w.y * w.y, w.z, r);
  }

  lemma ThreeSquares(a: real, b: real, c: real, r: real)
    requires r > 0.0 && a * a == r * r && b * b == r * r && c == r
    ensures a * a + b * b + c * c > r * r
  {
    calc {
      a * a + b * b + c * c;
      ==
      r * r + r * r + r * r;
      >
      r * r;
    }
  }

  lemma SixSquares(s: real, c: real, r: real)
    requires r > 0.0 && s == 5.0 * (r * r) && c == r
    ensures s + c * c > (2.0 * r) * (2.0 * r)
  {
    calc {
      s + c * c;
      ==
      5.0 * (r * r) + r * r;
      >
      4.0 * (r * r);
      ==
      (2.0 * r) * (2.0 * r);
    }
  }

  // ---------------------------------------------------------------------------
  // Per-tick movement of the zone
  // ---------------------------------------------------------------------------

  /** Fraction of the remaining way covered in one tick: Min(DeltaTime * ShrinkSpeed, 1). */
  function MoveFraction(dt: real, speed: real): (a: real)
    ensures a <= 1.0
    ensures dt >= 0.0 && speed >= 0.0 ==> 0.0 <= a
  {
    Min(dt * speed, 1.0)
  }

  /**
   * New centre after one tick: the safe normal of (target - current) times
   * (distance * fraction). The safe normal is the zero vector when the squared distance
   * is below SmallNumber; otherwise normal times distance is (target - current) itself.
   */
  function StepToward(current: Vec3, target: Vec3, fraction: real): (r: Vec3)
    ensures SqDist(target, current) < SmallNumber ==> r == current
    ensures SqDist(target, current) >= SmallNumber ==>
              SqDist(r, current) == fraction * fraction * SqDist(target, current)
              && SqDist(target, r) == (1.0 - fraction) * (1.0 - fraction) * SqDist(target, current)
    ensures target.z == current.z ==> r.z == current.z
  {
    if SqDist(target, current) < SmallNumber then current
    else
      var d := target.Minus(current);
      var r := current.Plus(d.Scale(fraction));
      assert r.Minus(current) == d.Scale(fraction);
      assert target.Minus(r) == d.Scale(1.0 - fraction);
      ScaledSqLength(d, fraction);
      ScaledSqLength(d, 1.0 - fraction);
      r
  }

  lemma ScaledSqLength(v: Vec3, k: real)
    ensures v.Scale(k).SqLength() == k * k * v.SqLength()
  {
    calc {
      v.Scale(k).SqLength();
      (k * v.x) * (k * v.x) + (k * v.y) * (k * v.y) + (k * v.z) * (k * v.z);
      k * k * (v.x * v.x) + k * k * (v.y * v.y) + k * k * (v.z * v.z);
      k * k * v.SqLength();
    }
  }

  /**
   * One update step never overshoots: the centre moves at most the remaining distance,
   * and what remains afterwards is no more than before.
   */
  lemma StepNeverOvershoots(current: Vec3, target: Vec3, dt: real, speed: real)
    requires dt >= 0.0 && speed >= 0.0
    ensures var r := StepToward(current, target, MoveFraction(dt, speed));
            SqDist(r, current) <= SqDist(target, current)
            && SqDist(target, r) <= SqDist(target, current)
  {
    var a := MoveFraction(dt, speed);
    var s := SqDist(target, current);
    if s >= SmallNumber {
      UnitFractionSquare(a);
      UnitFractionSquare(1.0 - a);
      MulMonotone(a * a, 1.0, s);
      MulMonotone((1.0 - a) * (1.0 - a), 1.0, s);
    }
  }

  lemma UnitFractionSquare(a: real)
    requires 0.0 <= a <= 1.0
    ensures a * a <= 1.0
  {
    MulNonNegative(a, 1.0 - a);
    assert a - a * a == a * (1.0 - a);
  }

  /** When DeltaTime * ShrinkSpeed reaches 1 the step lands exactly on the target. */
  lemma FullStepReachesTarget(current: Vec3, target: Vec3, dt: real, speed: real)
    requires dt * speed >= 1.0
    requires SqDist(target, current) >= SmallNumber
    ensures StepToward(current, target, MoveFraction(dt, speed)) == target
  {
    var d := target.Minus(current);
    assert MoveFraction(dt, speed) == 1.0;
    assert d.Scale(1.0) == d;
    assert current.Plus(d) == target;
  }

  // ---------------------------------------------------------------------------
  // Radius interpolation
  // ---------------------------------------------------------------------------

  /**
   * The engine's FInterpTo: a non-positive speed jumps to the target, a squared gap below
   * SmallNumber snaps to the target, otherwise the gap is closed by the fraction
   * Clamp(DeltaTime * speed, 0, 1).
   */
  function InterpRadius(current: real, target: real, dt: real, speed: real): (r: real)
    ensures Min(current, target) <= r <= Max(current, target)
    ensures Abs(target - r) <= Abs(target - current)
    ensures speed <= 0.0 ==> r == target
  {
    if speed <= 0.0 then target
    else if (target - current) * (target - current) < SmallNumber then target
    else
      var k := Clamp(dt * speed, 0.0, 1.0);
      assert 0.0 <= k <= 1.0;
      FractionBetween(current, target, k);
      current + (target - current) * k
  }

  lemma FractionBetween(a: real, b: real, k: real)
    requires 0.0 <= k <= 1.0
    ensures Min(a, b) <= a + (b - a) * k <= Max(a, b)
    ensures Abs(b - (a + (b - a) * k)) <= Abs(b - a)
  {
    var g := b - a;
    assert b - (a + g * k) == g * (1.0 - k);
    FractionOfGap(g, k);
    FractionOfGap(g, 1.0 - k);
  }

  /** A fraction k in [0, 1] of a gap g lies between 0 and g. */
  lemma FractionOfGap(g: real, k: real)
    requires 0.0 <= k <= 1.0
    ensures Min(0.0, g) <= g * k <= Max(0.0, g)
  {
    if g >= 0.0 {
      MulNonNegative(g, k);
      MulNonNegative(g, 1.0 - k);
      assert g - g * k == g * (1.0 - k);
    } else {
      MulNonNegative(-g, k);
      MulNonNegative(-g, 1.0 - k);
      assert (-g) * k == -(g * k);
      assert g * k - g == (-g) * (1.0 - k);
    }
  }

  // ---------------------------------------------------------------------------
  // Convergence test
  // ---------------------------------------------------------------------------

  /** Per-axis vector equality within a tolerance (FVector::Equals). */
  predicate NearlyEqualVec(a: Vec3, b: Vec3, tolerance: real)
  {
    Abs(a.x - b.x) <= tolerance && Abs(a.y - b.y) <= tolerance && Abs(a.z - b.z) <= tolerance
  }

  /** FMath::IsNearlyEqual. */
  predicate NearlyEqual(a: real, b: real, tolerance: real)
  {
    Abs(a - b) <= tolerance
  }
}
