/** The pure vector helpers of the circle packer: the pairwise separation
    force and the `set_mag` / `limit` steering reshapers. */
module PackerForces {
  import opened Geometry
  import opened Circles

  /** The pair is close enough to push apart: distinct centres closer than
      the sum of the HALF radii (a tighter zone than `Overlaps`, which uses
      the full radii). */
  predicate InSeparationZone(n1: CircleState, n2: CircleState, sqrt: real -> real) {
    var d := Distance(n1.xy, n2.xy, sqrt);
    d > 0.0 && d < n1.radius / 2.0 + n2.radius / 2.0
  }

  /** `get_separation_force`: the unit vector from `n2` towards `n1`, divided
      by their distance, inside the separation zone; zero outside it. */
  function SeparationForce(n1: CircleState, n2: CircleState, sqrt: real -> real): Vec2
  {
    var d := Distance(n1.xy, n2.xy, sqrt);
    if d > 0.0 && d < n1.radius / 2.0 + n2.radius / 2.0 then
      Div(Normalize(Sub(n1.xy, n2.xy), sqrt), d)
    else
      Zero
  }

  /** `set_mag`: the direction of `v` with length `mag`. */
  function SetMag(v: Vec2, mag: real, sqrt: real -> real): Vec2
    requires Length(v, sqrt) != 0.0
  {
    Scale(Normalize(v, sqrt), mag)
  }

  /** `limit`: `v` itself when its squared length is at most `limit²`,
      otherwise its direction scaled to length `limit`. */
  function Limit(v: Vec2, limit: real, sqrt: real -> real): Vec2
    requires IsSqrt(sqrt)
  {
    if LengthSquared(v) > limit * limit then
      OverLimitHasLength(v, limit, sqrt);
      Scale(Normalize(v, sqrt), limit)
    else
      v
  }

  lemma OverLimitHasLength(v: Vec2, limit: real, sqrt: real -> real)
    requires IsSqrt(sqrt) && LengthSquared(v) > limit * limit
    ensures Length(v, sqrt) != 0.0
  {
    SquareSign(limit);
    LengthFacts(v, sqrt);
  }

  // ---- separation force -------------------------------------------------

  lemma DivideTwice(x: real, d: real)
    requires d * d > 0.0
    ensures (x * (1.0 / d)) / d == x * (1.0 / (d * d))
  {
  }

  lemma InverseSquareTimesSquare(s: real)
    requires s > 0.0
    ensures (1.0 / s) * (1.0 / s) * s == 1.0 / s
  {
    var q := 1.0 / s;
    assert q * s == 1.0;
  }

  /** Inside the zone the force is the centre difference divided by the
      squared distance, so its length is one over the distance; outside the
      zone it is the zero vector. */
  lemma SeparationForceShape(n1: CircleState, n2: CircleState, sqrt: real -> real)
    requires IsSqrt(sqrt)
    ensures var d := Distance(n1.xy, n2.xy, sqrt);
      InSeparationZone(n1, n2, sqrt) ==>
        SeparationForce(n1, n2, sqrt) == Scale(Sub(n1.xy, n2.xy), 1.0 / (d * d)) &&
        LengthSquared(SeparationForce(n1, n2, sqrt)) == 1.0 / (d * d)
    ensures !InSeparationZone(n1, n2, sqrt) ==> SeparationForce(n1, n2, sqrt) == Zero
  {
    var d := Distance(n1.xy, n2.xy, sqrt);
    if InSeparationZone(n1, n2, sqrt) {
      var v := Sub(n1.xy, n2.xy);
      LengthFacts(v, sqrt);
      SquareSign(d);
      DivideTwice(v.x, d);
      DivideTwice(v.y, d);
      assert SeparationForce(n1, n2, sqrt) == Scale(v, 1.0 / (d * d));
      LengthSquaredScale(v, 1.0 / (d * d));
      InverseSquareTimesSquare(LengthSquared(v));
    }
  }

  lemma SeparationZoneSymmetric(n1: CircleState, n2: CircleState, sqrt: real -> real)
    ensures InSeparationZone(n2, n1, sqrt) == InSeparationZone(n1, n2, sqrt)
  {
    DistanceSymmetric(n1.xy, n2.xy, sqrt);
  }

  /** The force on the second circle of a pair is the opposite of the force on
      the first: the pair forces are equal and opposite. */
  lemma SeparationForceAntisymmetric(n1: CircleState, n2: CircleState, sqrt: real -> real)
    ensures SeparationForce(n2, n1, sqrt) == Neg(SeparationForce(n1, n2, sqrt))
  {
    SeparationZoneSymmetric(n1, n2, sqrt);
    DistanceSymmetric(n1.xy, n2.xy, sqrt);
    var v := Sub(n1.xy, n2.xy);
    var d := Distance(n1.xy, n2.xy, sqrt);
    if InSeparationZone(n1, n2, sqrt) {
      assert Sub(n2.xy, n1.xy) == Neg(v);
      NormalizeNeg(v, sqrt);
      DivNeg(Normalize(v, sqrt), d);
      calc {
        SeparationForce(n2, n1, sqrt);
        Div(Normalize(Neg(v), sqrt), d);
        Div(Neg(Normalize(v, sqrt)), d);
        Neg(Div(Normalize(v, sqrt), d));
        Neg(SeparationForce(n1, n2, sqrt));
      }
    } else {
      assert SeparationForce(n2, n1, sqrt) == Zero;
    }
  }

  lemma DivNeg(u: Vec2, d: real)
    requires d != 0.0
    ensures Div(Neg(u), d) == Neg(Div(u, d))
  {
  }

  /** A pair produces a force of positive length exactly inside the zone. */
  lemma SeparationForceActiveIff(n1: CircleState, n2: CircleState, sqrt: real -> real)
    requires IsSqrt(sqrt)
    ensures Length(SeparationForce(n1, n2, sqrt), sqrt) > 0.0 <==> InSeparationZone(n1, n2, sqrt)
  {
    SeparationForceShape(n1, n2, sqrt);
    var f := SeparationForce(n1, n2, sqrt);
    LengthFacts(f, sqrt);
    if InSeparationZone(n1, n2, sqrt) {
      var d := Distance(n1.xy, n2.xy, sqrt);
      SquareSign(d);
      assert 1.0 / (d * d) > 0.0;
    } else {
      assert LengthSquared(Zero) == 0.0;
    }
  }

  /** Pairs that push each other apart also overlap. */
  lemma SeparationZoneOverlaps(n1: CircleState, n2: CircleState, sqrt: real -> real)
    requires IsSqrt(sqrt)
    requires InSeparationZone(n1, n2, sqrt)
    ensures Overlaps(n1, n2)
  {
    var d := Distance(n1.xy, n2.xy, sqrt);
    var r := n1.radius + n2.radius;
    LengthFacts(Sub(n1.xy, n2.xy), sqrt);
    assert d < r;
    LessSquares(d, r);
  }

  // ---- steering ---------------------------------------------------------

  /** `set_mag` yields a vector of squared length `mag²` along `v`: `v`
      itself scaled by `mag` over its (positive) length. */
  lemma SetMagLength(v: Vec2, mag: real, sqrt: real -> real)
    requires IsSqrt(sqrt) && Length(v, sqrt) != 0.0
    ensures LengthSquared(SetMag(v, mag, sqrt)) == mag * mag
    ensures 0.0 < Length(v, sqrt) && SetMag(v, mag, sqrt) == Scale(v, mag / Length(v, sqrt))
  {
    NormalizeIsUnit(v, sqrt);
    LengthSquaredScale(Normalize(v, sqrt), mag);
    LengthFacts(v, sqrt);
    ScaleTwice(v, 1.0 / Length(v, sqrt), mag);
  }

  lemma ScaleTwice(v: Vec2, a: real, b: real)
    ensures Scale(Scale(v, a), b) == Scale(v, a * b)
  {
    assert v.x * a * b == v.x * (a * b);
    assert v.y * a * b == v.y * (a * b);
  }

  /** `limit` never yields a vector longer than the limit: vectors within it
      are returned as they are, longer ones are scaled along their own
      direction to exactly the limit. */
  lemma LimitBound(v: Vec2, limit: real, sqrt: real -> real)
    requires IsSqrt(sqrt)
    ensures LengthSquared(v) <= limit * limit ==> Limit(v, limit, sqrt) == v
    ensures LengthSquared(v) > limit * limit ==> LengthSquared(Limit(v, limit, sqrt)) == limit * limit
    ensures LengthSquared(v) > limit * limit ==>
      0.0 < Length(v, sqrt) && Limit(v, limit, sqrt) == Scale(v, limit / Length(v, sqrt))
    ensures LengthSquared(Limit(v, limit, sqrt)) <= limit * limit
  {
    if LengthSquared(v) > limit * limit {
      OverLimitHasLength(v, limit, sqrt);
      SetMagLength(v, limit, sqrt);
    }
  }
}
