/** A circle of the circle-packing sketch: a position, a radius, a velocity
    and an acceleration, updated in place by `apply_force` and `update`. */
module Circles {
  import opened Geometry

  /** The values of a circle's four fields at one moment. */
  datatype CircleState = CircleState(xy: Vec2, radius: real, velocity: Vec2, acceleration: Vec2)

  /** Two circles overlap when the squared distance of their centres is below
      the square of their combined radius. */
  predicate Overlaps(a: CircleState, b: CircleState) {
    DistanceSquared(a.xy, b.xy) < (a.radius + b.radius) * (a.radius + b.radius)
  }

  /** `apply_force`: the force is added to the acceleration. */
  function Applied(c: CircleState, force: Vec2): CircleState {
    c.(acceleration := Add(c.acceleration, force))
  }

  /** `update`: velocity takes the acceleration, the position takes the new
      velocity, and the acceleration is cleared. */
  function Integrated(c: CircleState): CircleState {
    var v := Add(c.velocity, c.acceleration);
    CircleState(Add(c.xy, v), c.radius, v, Scale(c.acceleration, 0.0))
  }

  lemma OverlapsSymmetric(a: CircleState, b: CircleState)
    ensures Overlaps(a, b) <==> Overlaps(b, a)
  {
    DistanceSquaredSymmetric(a.xy, b.xy);
    assert (a.radius + b.radius) == (b.radius + a.radius);
  }

  /** The cases fixed by the source's unit tests: two unit circles on the
      same centre overlap, ... */
  lemma OverlapsConcentric()
    ensures Overlaps(CircleState(Vec2(0.0, 0.0), 1.0, Zero, Zero), CircleState(Vec2(0.0, 0.0), 1.0, Zero, Zero))
  {
  }

  /** ... a unit circle at (10, 0) overlaps a circle of radius 10 at (10, 10), ... */
  lemma OverlapsLargeNeighbour()
    ensures Overlaps(CircleState(Vec2(10.0, 0.0), 1.0, Zero, Zero), CircleState(Vec2(10.0, 10.0), 10.0, Zero, Zero))
  {
  }

  /** ... and unit circles at (0, 0) and (2, 2) do not overlap. */
  lemma NotOverlapsDiagonal()
    ensures !Overlaps(CircleState(Vec2(0.0, 0.0), 1.0, Zero, Zero), CircleState(Vec2(2.0, 2.0), 1.0, Zero, Zero))
  {
  }

  /** Applying two forces one after the other is applying their sum, and only
      the acceleration is affected. */
  lemma AppliedTwice(c: CircleState, f1: Vec2, f2: Vec2)
    ensures Applied(Applied(c, f1), f2) == Applied(c, Add(f1, f2))
    ensures Applied(c, f1).(acceleration := c.acceleration) == c
  {
  }

  /** Integration keeps the radius, always ends with zero acceleration, and
      moves the centre by exactly the new velocity. */
  lemma IntegratedMoves(c: CircleState)
    ensures Integrated(c).radius == c.radius
    ensures Integrated(c).acceleration == Zero
    ensures Sub(Integrated(c).xy, c.xy) == Integrated(c).velocity
    ensures Sub(Integrated(c).velocity, c.velocity) == c.acceleration
  {
  }

  /** With no pending acceleration, integration keeps the velocity and moves
      the centre by it. */
  lemma IntegratedAtRest(c: CircleState)
    requires c.acceleration == Zero
    ensures Integrated(c).velocity == c.velocity
    ensures Integrated(c).xy == Add(c.xy, c.velocity)
  {
  }

  /** A force applied to a circle at rest and then integrated changes its
      velocity by exactly that force. */
  lemma ApplyThenIntegrate(c: CircleState, force: Vec2)
    requires c.acceleration == Zero
    ensures Integrated(Applied(c, force)).velocity == Add(c.velocity, force)
    ensures Integrated(Applied(c, force)).xy == Add(c.xy, Add(c.velocity, force))
    ensures Integrated(Applied(c, force)).acceleration == Zero
  {
  }

  /** A circle with no velocity and no acceleration, given no force, is left
      exactly as it was by an update. */
  lemma AtRestStays(c: CircleState)
    requires c.velocity == Zero && c.acceleration == Zero
    ensures Integrated(Applied(c, Zero)) == c
  {
    assert Applied(c, Zero) == c;
  }

  class Circle {
    var xy: Vec2
    var radius: real
    var velocity: Vec2
    var acceleration: Vec2

    function State(): CircleState
      reads this
    {
      CircleState(xy, radius, velocity, acceleration)
    }

    /** `Circle::new`: a zero radius is refused (the source asserts it). */
    constructor (xy: Vec2, radius: real)
      requires radius != 0.0
      ensures State() == CircleState(xy, radius, Zero, Zero)
    {
      this.xy := xy;
      this.radius := radius;
      this.velocity := Zero;
      this.acceleration := Zero;
    }

    predicate OverlapsWith(other: Circle)
      reads this, other
    {
      Overlaps(State(), other.State())
    }

    method ApplyForce(force: Vec2)
      modifies this
      ensures State() == Applied(old(State()), force)
    {
      acceleration := Add(acceleration, force);
    }

    method Update()
      modifies this
      ensures State() == Integrated(old(State()))
    {
      velocity := Add(velocity, acceleration);
      xy := Add(xy, velocity);
      acceleration := Scale(acceleration, 0.0);
    }
  }
}
