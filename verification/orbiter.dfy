/** One orbiter of the orbiter sketch (src/bin/orbiter/orbiter.rs): a body
    that queues gravitational pulls, then in `update` drains them into its
    velocity, moves, and on a clock tick records its position in a trail of
    bounded length. */
module Orbiters {
  import opened Geometry

  /** What `Massive` exposes of a body: its mass and where it is. */
  datatype Body = Body(mass: real, xy: Vec2)

  /** Newton's gravitational constant, 6.67428e-11, as the sketch writes it. */
  const GravitationalConstant: real := 0.0000000000667428

  /** The factor the sketch scales every pull by. */
  const GravityMultiplier: real := 1000.0

  /** Newton's law of universal gravitation: the magnitude of the pull
      between two masses at a squared distance, `G m M / d^2`, times the
      multiplier. At zero distance the source divides by zero (an infinite
      f32); the model takes zero there, see the README. */
  function Magnitude(mass: real, otherMass: real, distanceSquared: real): real {
    if distanceSquared == 0.0 then 0.0
    else GravitationalConstant * mass * otherMass / distanceSquared * GravityMultiplier
  }

  /** A fixed body (src/bin/orbiter/fixed_body.rs): it pulls but never
      moves. */
  datatype FixedBody = FixedBody(mass: real, radius: real, xy: Vec2)

  /** `FixedBody::default`: a million units of mass at the origin. */
  const DefaultFixedBody: FixedBody := FixedBody(1000000.0, 30.0, Vec2(0.0, 0.0))

  function FixedAsBody(f: FixedBody): Body {
    Body(f.mass, f.xy)
  }

  /** The orbiter sketch's parameters (src/bin/orbiter/params.rs). */
  datatype OrbiterParams = OrbiterParams(
    width: real,
    height: real,
    radiusLow: real,
    radiusHigh: real,
    massLow: real,
    massHigh: real,
    stepsToSimulate: nat,
    rngSeed: nat,
    orbiterCount: nat,
    maxTrailDots: nat)

  const DefaultParams: OrbiterParams := OrbiterParams(
    width := 800.0, height := 800.0, radiusLow := 5.0, radiusHigh := 20.0,
    massLow := 100.0, massHigh := 1000.0, stepsToSimulate := 100, rngSeed := 0,
    orbiterCount := 1, maxTrailDots := 100)

  /** The values of an orbiter's fields at one moment. */
  datatype OrbiterState = OrbiterState(
    mass: real,
    radius: real,
    velocity: Vec2,
    currentXy: Vec2,
    forces: seq<Vec2>,
    trail: seq<Vec2>,
    startXy: Vec2)

  /** `Massive for &Orbiter`: an orbiter pulls from where it is now. */
  function AsBody(s: OrbiterState): Body {
    Body(s.mass, s.currentXy)
  }

  /** The pull does not depend on which of the two masses is the orbiter,
      it is positive between positive masses apart from each other, and it
      falls with the square of the distance. */
  lemma MagnitudeFacts(m: real, n: real, d2: real, k: real)
    ensures Magnitude(m, n, d2) == Magnitude(n, m, d2)
    ensures 0.0 < m && 0.0 < n && 0.0 < d2 ==> 0.0 < Magnitude(m, n, d2)
    ensures 0.0 < d2 && 0.0 < k ==> Magnitude(m, n, k * d2) * k == Magnitude(m, n, d2)
  {
    var c := GravitationalConstant * m * n;
    assert c == GravitationalConstant * n * m;
    if 0.0 < m && 0.0 < n && 0.0 < d2 {
      PositiveQuotient(c, d2);
    }
    if 0.0 < d2 && 0.0 < k {
      QuotientScale(c, d2, k);
    }
  }

  lemma PositiveQuotient(a: real, b: real)
    ensures 0.0 < a && 0.0 < b ==> 0.0 < a / b
  {
  }

  lemma QuotientScale(a: real, b: real, k: real)
    ensures 0.0 < b && 0.0 < k ==> a / (k * b) * GravityMultiplier * k == a / b * GravityMultiplier
  {
    if 0.0 < b && 0.0 < k {
      var q := a / (k * b);
      assert q * (k * b) == a;
      assert (q * k) * b == a;
      assert q * k == a / b;
    }
  }

  /** The pull of `other` on a body of mass `mass` at `xy`: along the unit
      vector towards `other`, or nothing when that direction has no length;
      scaled by the gravity magnitude. */
  function Force(mass: real, xy: Vec2, other: Body, sqrt: real -> real): Vec2
    requires IsSqrt(sqrt)
  {
    var magnitude := Magnitude(mass, other.mass, DistanceSquared(xy, other.xy));
    var direction := Sub(other.xy, xy);
    Scale(Direction(direction, sqrt), magnitude)
  }

  /** A body at the very same point exerts no pull in the model: the
      magnitude is taken as zero there (in `f32` it is infinite). */
  lemma PullAtSamePoint(mass: real, xy: Vec2, other: Body, sqrt: real -> real)
    requires IsSqrt(sqrt) && other.xy == xy
    ensures DistanceSquared(xy, other.xy) == 0.0
    ensures Force(mass, xy, other, sqrt) == Zero
  {
    assert Sub(xy, xy) == Zero;
    assert Magnitude(mass, other.mass, 0.0) == 0.0;
  }

  /** `try_normalize().unwrap_or_default()`: the unit vector along `v`, or
      the zero vector when `v` has no length. */
  function Direction(v: Vec2, sqrt: real -> real): Vec2
    requires IsSqrt(sqrt)
  {
    TryNormalize(v, sqrt).UnwrapOr(Zero)
  }

  /** A body sitting on the orbiter, or any body whose direction has no
      length, pulls with zero force. */
  lemma ForceWithoutDirection(mass: real, xy: Vec2, other: Body, sqrt: real -> real)
    requires IsSqrt(sqrt)
    ensures other.xy == xy ==> LengthSquared(Sub(other.xy, xy)) == 0.0
    ensures LengthSquared(Sub(other.xy, xy)) == 0.0 ==> Force(mass, xy, other, sqrt) == Zero
  {
    if other.xy == xy {
      assert Sub(other.xy, xy) == Zero;
    }
  }

  /** Otherwise the pull points at the other body along a unit vector, with
      the gravity magnitude as its length. */
  lemma ForceAlongDirection(mass: real, xy: Vec2, other: Body, sqrt: real -> real)
    requires IsSqrt(sqrt)
    requires LengthSquared(Sub(other.xy, xy)) != 0.0
    ensures var magnitude := Magnitude(mass, other.mass, DistanceSquared(xy, other.xy));
      var direction := TryNormalize(Sub(other.xy, xy), sqrt);
      && direction.Some? && LengthSquared(direction.value) == 1.0
      && Force(mass, xy, other, sqrt) == Scale(direction.value, magnitude)
      && LengthSquared(Force(mass, xy, other, sqrt)) == magnitude * magnitude
  {
    var magnitude := Magnitude(mass, other.mass, DistanceSquared(xy, other.xy));
    var direction := TryNormalize(Sub(other.xy, xy), sqrt);
    LengthSquaredScale(direction.value, magnitude);
  }

  /** Newton's third law: two bodies pull on each other with opposite
      forces. */
  lemma ForcesOpposite(a: Body, b: Body, sqrt: real -> real)
    requires IsSqrt(sqrt)
    ensures Force(b.mass, b.xy, a, sqrt) == Neg(Force(a.mass, a.xy, b, sqrt))
  {
    var d := Sub(b.xy, a.xy);
    assert Sub(a.xy, b.xy) == Neg(d);
    DirectionNeg(d, sqrt);
    DistanceSquaredSymmetric(a.xy, b.xy);
    MagnitudeFacts(a.mass, b.mass, DistanceSquared(a.xy, b.xy), 1.0);
    ScaleNeg(Direction(d, sqrt), Magnitude(a.mass, b.mass, DistanceSquared(a.xy, b.xy)));
  }

  lemma DirectionNeg(v: Vec2, sqrt: real -> real)
    requires IsSqrt(sqrt)
    ensures Direction(Neg(v), sqrt) == Neg(Direction(v, sqrt))
  {
    LengthOfNeg(v, sqrt);
    if LengthSquared(v) == 0.0 {
      var u := Direction(v, sqrt);
      assert u == Zero && Direction(Neg(v), sqrt) == Zero;
      NegZero();
      NegOfEqual(u, Zero);
    } else {
      LengthFacts(v, sqrt);
      LengthFacts(Neg(v), sqrt);
      NormalizeNeg(v, sqrt);
      var u := Direction(v, sqrt);
      assert u == Normalize(v, sqrt);
      assert Direction(Neg(v), sqrt) == Normalize(Neg(v), sqrt);
      NegOfEqual(u, Normalize(v, sqrt));
    }
  }

  lemma NegOfEqual(u: Vec2, w: Vec2)
    ensures u == w ==> Neg(u) == Neg(w)
  {
  }

  lemma NegZero()
    ensures Neg(Zero) == Zero
  {
  }

  lemma ScaleNeg(u: Vec2, g: real)
    ensures Scale(Neg(u), g) == Neg(Scale(u, g))
  {
  }

  /** The pulls of a list of bodies on a body of mass `mass` at `xy`, in
      order. */
  function Forces(mass: real, xy: Vec2, bodies: seq<Body>, sqrt: real -> real): (r: seq<Vec2>)
    requires IsSqrt(sqrt)
    ensures |r| == |bodies|
  {
    seq(|bodies|, k requires 0 <= k < |bodies| => Force(mass, xy, bodies[k], sqrt))
  }

  /** `queue_force_update` on values: one force more at the back of the
      queue. */
  function Queued(s: OrbiterState, other: Body, sqrt: real -> real): OrbiterState
    requires IsSqrt(sqrt)
  {
    s.(forces := s.forces + [Force(s.mass, s.currentXy, other, sqrt)])
  }

  /** Queueing the pulls of several bodies in turn. */
  function QueuedAll(s: OrbiterState, bodies: seq<Body>, sqrt: real -> real): OrbiterState
    requires IsSqrt(sqrt)
  {
    s.(forces := s.forces + Forces(s.mass, s.currentXy, bodies, sqrt))
  }

  /** Queueing the bodies of a list one at a time, in order, is queueing the
      whole list: queueing one body more after a list is queueing the
      longer list. */
  lemma QueuedAllSnoc(s: OrbiterState, bodies: seq<Body>, b: Body, sqrt: real -> real)
    requires IsSqrt(sqrt)
    ensures Queued(QueuedAll(s, bodies, sqrt), b, sqrt) == QueuedAll(s, bodies + [b], sqrt)
  {
    var f := Forces(s.mass, s.currentXy, bodies, sqrt);
    var g := Forces(s.mass, s.currentXy, bodies + [b], sqrt);
    assert g == f + [Force(s.mass, s.currentXy, b, sqrt)];
  }

  /** Queueing two lists in turn is queueing their concatenation. */
  lemma QueuedAllConcat(s: OrbiterState, a: seq<Body>, b: seq<Body>, sqrt: real -> real)
    requires IsSqrt(sqrt)
    ensures QueuedAll(QueuedAll(s, a, sqrt), b, sqrt) == QueuedAll(s, a + b, sqrt)
  {
    var fa := Forces(s.mass, s.currentXy, a, sqrt);
    var fb := Forces(s.mass, s.currentXy, b, sqrt);
    assert Forces(s.mass, s.currentXy, a + b, sqrt) == fa + fb;
  }

  /** Adding forces to a velocity one after the other, front to back. */
  function AddAll(v: Vec2, forces: seq<Vec2>): Vec2 {
    if |forces| == 0 then v else Add(AddAll(v, forces[..|forces| - 1]), forces[|forces| - 1])
  }

  /** Draining two queues in turn is draining their concatenation. */
  lemma {:induction false} AddAllConcat(v: Vec2, a: seq<Vec2>, b: seq<Vec2>)
    ensures AddAll(AddAll(v, a), b) == AddAll(v, a + b)
  {
    if |b| > 0 {
      var init := b[..|b| - 1];
      AddAllConcat(v, a, init);
      assert (a + b)[..|a + b| - 1] == a + init;
    } else {
      assert a + b == a;
    }
  }

  /** Each coordinate of the drained velocity is the old one plus the sum of
      the forces' coordinates. */
  lemma {:induction false} AddAllSums(v: Vec2, forces: seq<Vec2>)
    ensures AddAll(v, forces) == Vec2(v.x + SumX(forces), v.y + SumY(forces))
  {
    if |forces| > 0 {
      AddAllSums(v, forces[..|forces| - 1]);
    }
  }

  function SumX(forces: seq<Vec2>): real {
    if |forces| == 0 then 0.0 else SumX(forces[..|forces| - 1]) + forces[|forces| - 1].x
  }

  function SumY(forces: seq<Vec2>): real {
    if |forces| == 0 then 0.0 else SumY(forces[..|forces| - 1]) + forces[|forces| - 1].y
  }

  /** The trail after one more dot: the new dot at the back, and the oldest
      one dropped when that makes the trail longer than `maxTrailDots`. */
  function Pushed(trail: seq<Vec2>, xy: Vec2, maxTrailDots: nat): seq<Vec2> {
    var t := trail + [xy];
    if |t| > maxTrailDots then t[1..] else t
  }

  /** `update` on values: the queue is drained into the velocity, the
      orbiter moves by the new velocity, and on a tick the new position
      joins the trail. */
  function Stepped(s: OrbiterState, maxTrailDots: nat, tick: bool): OrbiterState {
    var velocity := AddAll(s.velocity, s.forces);
    var xy := Add(s.currentXy, velocity);
    s.(velocity := velocity, currentXy := xy, forces := [],
       trail := if tick then Pushed(s.trail, xy, maxTrailDots) else s.trail)
  }

  /** What an update promises: the queue ends empty, every queued force is in
      the velocity, the orbiter moves by exactly the new velocity, mass,
      radius and start never change, the trail moves only on a tick, and a
      trail within `maxTrailDots` stays within it, ending in the new
      position and keeping every earlier dot but possibly the oldest. */
  lemma SteppedFacts(s: OrbiterState, maxTrailDots: nat, tick: bool)
    ensures var r := Stepped(s, maxTrailDots, tick);
      && r.forces == []
      && r.velocity == Vec2(s.velocity.x + SumX(s.forces), s.velocity.y + SumY(s.forces))
      && Sub(r.currentXy, s.currentXy) == r.velocity
      && r.mass == s.mass && r.radius == s.radius && r.startXy == s.startXy
      && (!tick ==> r.trail == s.trail)
      && (tick ==>
            (|s.trail| <= maxTrailDots ==> |r.trail| <= maxTrailDots)
            && (0 < maxTrailDots ==> r.trail[|r.trail| - 1] == r.currentXy)
            && (r.trail == s.trail + [r.currentXy] || r.trail == (s.trail + [r.currentXy])[1..]))
  {
    AddAllSums(s.velocity, s.forces);
  }

  class Orbiter {
    const mass: real
    const radius: real
    var velocity: Vec2
    var currentXy: Vec2
    var forcesToBeApplied: seq<Vec2>
    var trail: seq<Vec2>
    const startXy: Vec2

    function State(): OrbiterState
      reads this
    {
      OrbiterState(mass, radius, velocity, currentXy, forcesToBeApplied, trail, startXy)
    }

    /** `Orbiter::new`: at `xy`, which is also the start, with nothing queued
        and an empty trail (its capacity is not modelled). */
    constructor (mass: real, radius: real, velocity: Vec2, xy: Vec2)
      ensures State() == OrbiterState(mass, radius, velocity, xy, [], [], xy)
    {
      this.mass := mass;
      this.radius := radius;
      this.velocity := velocity;
      this.currentXy := xy;
      this.startXy := xy;
      this.forcesToBeApplied := [];
      this.trail := [];
    }

    /** `new_from_params`: in the middle of the canvas, heading left and
        down, with mass and radius drawn from the parameters' ranges. */
    constructor NewFromParams(p: OrbiterParams, mass: real, radius: real)
      requires p.massLow <= mass < p.massHigh && p.radiusLow <= radius < p.radiusHigh
      ensures State() == OrbiterState(mass, radius, Vec2(-0.2, -1.0), Vec2(p.width / 2.0, p.height / 2.0),
                                      [], [], Vec2(p.width / 2.0, p.height / 2.0))
    {
      this.mass := mass;
      this.radius := radius;
      this.velocity := Vec2(-0.2, -1.0);
      this.currentXy := Vec2(p.width / 2.0, p.height / 2.0);
      this.startXy := Vec2(p.width / 2.0, p.height / 2.0);
      this.forcesToBeApplied := [];
      this.trail := [];
    }

    /** `queue_force_update`: exactly one force more at the back of the
        queue, the pull of `other`; nothing else changes. */
    method QueueForceUpdate(other: Body, sqrt: real -> real)
      requires IsSqrt(sqrt)
      modifies this
      ensures State() == Queued(old(State()), other, sqrt)
    {
      var magnitude := Magnitude(mass, other.mass, DistanceSquared(currentXy, other.xy));
      var direction := Sub(other.xy, currentXy);
      var force := Scale(TryNormalize(direction, sqrt).UnwrapOr(Zero), magnitude);
      forcesToBeApplied := forcesToBeApplied + [force];
    }

    /** `update`: drain the queue into the velocity front to back, move, and
        on a tick push the position on the trail, popping the oldest dot
        when the trail outgrows `maxTrailDots`. */
    method Update(maxTrailDots: nat, tick: bool)
      modifies this
      ensures State() == Stepped(old(State()), maxTrailDots, tick)
    {
      var forces := forcesToBeApplied;
      for k := 0 to |forces|
        invariant velocity == AddAll(old(velocity), forces[..k])
        invariant unchanged(`currentXy, `trail, `forcesToBeApplied)
      {
        assert forces[..k + 1][..k] == forces[..k];
        velocity := Add(velocity, forces[k]);
      }
      assert forces[..|forces|] == forces;
      forcesToBeApplied := [];
      currentXy := Add(currentXy, velocity);
      if tick {
        trail := trail + [currentXy];
        if |trail| > maxTrailDots {
          trail := trail[1..];
        }
      }
    }
  }
}
