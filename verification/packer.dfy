/** The circle packer itself: a vector of circles, each a separate cell that
    the per-tick helpers borrow and update in place, and two scratch buffers
    (`separate_forces`, `near_circles`) that `update` allocates for one tick.
    Every method is proved against the value-level description in module
    `PackerSweep`. */
module Packing {
  import opened Geometry
  import opened Circles
  import opened PackerForces
  import opened PackerSweep

  /** Every cell of the packer's vector is its own object. */
  ghost predicate Distinct(cs: seq<Circle>) {
    forall i, j :: 0 <= i < j < |cs| ==> cs[i] != cs[j]
  }

  /** The current states of a sequence of circles, in order. */
  function States(cs: seq<Circle>): (r: seq<CircleState>)
    reads cs
    ensures |r| == |cs|
    ensures forall k :: 0 <= k < |cs| ==> r[k] == cs[k].State()
  {
    if |cs| == 0 then [] else States(cs[..|cs| - 1]) + [cs[|cs| - 1].State()]
  }

  /** `check_borders`: the velocity of circle `index` is reversed on each axis
      where the circle pokes out of the boundary; nothing else changes. */
  method CheckBorders(index: nat, circles: seq<Circle>, boundary: Rect)
    requires index < |circles| && Distinct(circles)
    modifies circles[index]
    ensures States(circles) == old(States(circles))[index := Bordered(old(States(circles))[index], boundary)]
  {
    var circle := circles[index];
    var x := circle.xy.x;
    var y := circle.xy.y;
    var halfR := circle.radius / 2.0;
    if x - halfR < boundary.left || x + halfR > boundary.right {
      circle.velocity := circle.velocity.(x := circle.velocity.x * -1.0);
    }
    if y - halfR < boundary.bottom || y + halfR > boundary.top {
      circle.velocity := circle.velocity.(y := circle.velocity.y * -1.0);
    }
  }

  /** `check_circle_position`: circle `index` looks for an overlapping circle
      among the later ones, stopping at the first; without one its velocity
      is zeroed. */
  method CheckCirclePosition(index: nat, circles: seq<Circle>)
    requires index < |circles| && Distinct(circles)
    modifies circles[index]
    ensures States(circles) == Damped(old(States(circles)), index)
  {
    ghost var cs := States(circles);
    var circleI := circles[index];
    var hasNeighbour := false;
    var j := index + 1;
    while j < |circles|
      invariant index < j <= |circles|
      invariant forall k :: index < k < j ==> !Overlaps(cs[index], cs[k])
    {
      if circleI.OverlapsWith(circles[j]) {
        hasNeighbour := true;
        break;
      }
      j := j + 1;
    }
    assert hasNeighbour <==> HasNeighbour(cs, index);
    if !hasNeighbour {
      circleI.velocity := circleI.velocity.(x := 0.0);
      circleI.velocity := circleI.velocity.(y := 0.0);
    }
  }

  /** The pair loop of `apply_separation_forces_to_circle`: circle `index`
      and every later circle `j` exchange their separation force, when it is
      not the zero vector, and count each other as a neighbour. The circles
      are only read. */
  method ExchangeSeparationForces(index: nat, circles: seq<Circle>, separateForces: array<Vec2>,
                                  nearCircles: array<nat>, sqrt: real -> real)
    requires index < |circles|
    requires separateForces.Length == |circles| && nearCircles.Length == |circles|
    modifies separateForces, nearCircles
    ensures Sweep(States(circles), separateForces[..], nearCircles[..])
         == Gather(Sweep(States(circles), old(separateForces[..]), old(nearCircles[..])), index, |circles|, sqrt)
  {
    ghost var cs := States(circles);
    ghost var s0 := Sweep(cs, separateForces[..], nearCircles[..]);
    var circle := circles[index];
    var j := index + 1;
    while j < |circles|
      invariant index < j <= |circles|
      invariant separateForces[..] == Gather(s0, index, j, sqrt).forces
      invariant nearCircles[..] == Gather(s0, index, j, sqrt).near
    {
      var other := if j == |circles| then 0 else j;
      assert index != other;
      var forceIJ := SeparationForce(circle.State(), circles[other].State(), sqrt);
      assert forceIJ == PairForce(cs, index, j, sqrt);
      GatherNextAt(s0, index, j, sqrt, forceIJ);
      if Distance(forceIJ, Zero, sqrt) > 0.0 {
        ExchangePair(index, other, forceIJ, separateForces, nearCircles);
      }
      j := j + 1;
    }
  }

  /** The body of the pair loop for an active pair: `i` gains the force, `j`
      loses it, and both count one more neighbour. */
  method ExchangePair(i: nat, j: nat, force: Vec2, separateForces: array<Vec2>, nearCircles: array<nat>)
    requires i < j < separateForces.Length && j < nearCircles.Length
    modifies separateForces, nearCircles
    ensures separateForces[..] == old(separateForces[..])[i := Add(old(separateForces[i]), force)][j := Sub(old(separateForces[j]), force)]
    ensures nearCircles[..] == old(nearCircles[..])[i := old(nearCircles[i]) + 1][j := old(nearCircles[j]) + 1]
  {
    separateForces[i] := Add(separateForces[i], force);
    separateForces[j] := Sub(separateForces[j], force);
    nearCircles[i] := nearCircles[i] + 1;
    nearCircles[j] := nearCircles[j] + 1;
  }

  /** The averaging and steering in the middle of
      `apply_separation_forces_to_circle`. */
  method SteeringForce(sum: Vec2, count: nat, velocity: Vec2, maxSpeed: real, maxForce: real, sqrt: real -> real)
    returns (force: Vec2)
    requires IsSqrt(sqrt)
    ensures force == Steer(sum, count, velocity, maxSpeed, maxForce, sqrt)
  {
    force := sum;
    if count > 0 {
      force := Div(force, count as real);
    }
    if Distance(force, Zero, sqrt) > 0.0 {
      assert Sub(force, Zero) == force;
      force := SetMag(force, maxSpeed, sqrt);
      force := Sub(force, velocity);
      force := Limit(force, maxForce, sqrt);
    }
  }

  /** The last two calls of `apply_separation_forces_to_circle`: circle
      `index` takes the force and moves; the other circles stay. */
  method ApplyAndIntegrate(index: nat, circles: seq<Circle>, force: Vec2)
    requires index < |circles| && Distinct(circles)
    modifies circles[index]
    ensures States(circles) == old(States(circles))[index := Integrated(Applied(old(States(circles))[index], force))]
  {
    ghost var cs := States(circles);
    var circle := circles[index];
    circle.ApplyForce(force);
    circle.Update();
    forall k | 0 <= k < |circles| && k != index
      ensures circles[k].State() == cs[k]
    {
      assert circles[k] != circle;
    }
  }

  /** `apply_separation_forces_to_circle`: after the pair loop, circle
      `index`'s accumulated force is averaged over its neighbour count,
      turned into a steering force bounded by `max_force`, applied and
      integrated. The buffers and circle `index` end as `Finish` after
      `Gather` says. */
  method ApplySeparationForcesToCircle(index: nat, circles: seq<Circle>, separateForces: array<Vec2>,
                                       nearCircles: array<nat>, maxForce: real, maxSpeed: real, sqrt: real -> real)
    requires index < |circles| && Distinct(circles) && IsSqrt(sqrt)
    requires separateForces.Length == |circles| && nearCircles.Length == |circles|
    modifies circles[index], separateForces, nearCircles
    ensures Sweep(States(circles), separateForces[..], nearCircles[..])
         == Finish(Gather(Sweep(old(States(circles)), old(separateForces[..]), old(nearCircles[..])), index, |circles|, sqrt),
                   index, maxSpeed, maxForce, sqrt)
  {
    ghost var cs := States(circles);
    ExchangeSeparationForces(index, circles, separateForces, nearCircles, sqrt);
    ghost var g := Sweep(cs, separateForces[..], nearCircles[..]);
    assert g == Gather(Sweep(cs, old(separateForces[..]), old(nearCircles[..])), index, |circles|, sqrt);
    var circle := circles[index];
    assert separateForces[index] == g.forces[index] && nearCircles[index] == g.near[index];
    assert circle.velocity == cs[index].velocity;
    var force := SteeringForce(separateForces[index], nearCircles[index], circle.velocity, maxSpeed, maxForce, sqrt);
    ghost var f := force;
    assert f == Steer(g.forces[index], g.near[index], cs[index].velocity, maxSpeed, maxForce, sqrt);
    separateForces[index] := force;
    ApplyAndIntegrate(index, circles, force);
    assert separateForces[..] == g.forces[index := f] && nearCircles[..] == g.near;
    FinishAt(g, index, maxSpeed, maxForce, sqrt, f);
    assert Sweep(States(circles), separateForces[..], nearCircles[..]) == Finish(g, index, maxSpeed, maxForce, sqrt);
  }

  /** One pass of `update`'s loop for one index: borders, the neighbour
      check, then separation and steering, which together make one `Step`. */
  method UpdateCircle(index: nat, circles: seq<Circle>, separateForces: array<Vec2>, nearCircles: array<nat>, cfg: Config, ghost s0: Sweep)
    requires index < |circles| && Distinct(circles) && ValidConfig(cfg)
    requires separateForces.Length == |circles| && nearCircles.Length == |circles|
    requires Sized(s0) && |s0.circles| == |circles|
    requires Reached(Sweep(States(circles), separateForces[..], nearCircles[..]), s0, index, cfg)
    modifies circles[index], separateForces, nearCircles
    ensures Reached(Sweep(States(circles), separateForces[..], nearCircles[..]), s0, index + 1, cfg)
  {
    ghost var before := Sweep(States(circles), separateForces[..], nearCircles[..]);
    CheckBorders(index, circles, cfg.boundary);
    ghost var bordered := States(circles);
    CheckCirclePosition(index, circles);
    ghost var damped := States(circles);
    assert separateForces[..] == before.forces && nearCircles[..] == before.near;
    ApplySeparationForcesToCircle(index, circles, separateForces, nearCircles, cfg.maxForce, cfg.maxSpeed, cfg.sqrt);
    StepAt(before, index, cfg, bordered, damped, Sweep(States(circles), separateForces[..], nearCircles[..]));
    StepsNext(s0, index, cfg, before);
  }

  /** The loop of `update`: every index in ascending order, each pass one
      `Step`, starting from zeroed buffers. */
  method UpdateAll(circles: seq<Circle>, separateForces: array<Vec2>, nearCircles: array<nat>, cfg: Config)
    requires Distinct(circles) && ValidConfig(cfg)
    requires separateForces.Length == |circles| && nearCircles.Length == |circles|
    requires Sweep(States(circles), separateForces[..], nearCircles[..]) == Start(States(circles))
    modifies circles, separateForces, nearCircles
    ensures Reached(Sweep(States(circles), separateForces[..], nearCircles[..]), Start(old(States(circles))), |circles|, cfg)
  {
    ghost var s0 := Start(States(circles));
    var n := |circles|;
    for circleIndex := 0 to n
      invariant Reached(Sweep(States(circles), separateForces[..], nearCircles[..]), s0, circleIndex, cfg)
    {
      UpdateCircle(circleIndex, circles, separateForces, nearCircles, cfg, s0);
    }
  }

  /** One more pair of the scan, spelt out for a force already computed. */
  lemma GatherNextAt(s: Sweep, i: nat, j: nat, sqrt: real -> real, f: Vec2)
    requires Sized(s) && i < j < |s.circles| && f == PairForce(s.circles, i, j, sqrt)
    ensures var g := Gather(s, i, j, sqrt);
      var g' := Gather(s, i, j + 1, sqrt);
      && g'.forces == (if Distance(f, Zero, sqrt) > 0.0 then g.forces[i := Add(g.forces[i], f)][j := Sub(g.forces[j], f)] else g.forces)
      && g'.near == (if Distance(f, Zero, sqrt) > 0.0 then g.near[i := g.near[i] + 1][j := g.near[j] + 1] else g.near)
  {
    GatherNext(s, i, j, sqrt);
  }

  /** `Finish` spelt out for a steering force already computed. */
  lemma FinishAt(s: Sweep, i: nat, maxSpeed: real, maxForce: real, sqrt: real -> real, f: Vec2)
    requires Sized(s) && i < |s.circles| && IsSqrt(sqrt)
    requires f == Steer(s.forces[i], s.near[i], s.circles[i].velocity, maxSpeed, maxForce, sqrt)
    ensures Finish(s, i, maxSpeed, maxForce, sqrt)
         == Sweep(s.circles[i := Integrated(Applied(s.circles[i], f))], s.forces[i := f], s.near)
  {
  }

  /** The values `Packer::new` draws for one circle: its centre coordinates
      and its radius. */
  datatype CircleDraw = CircleDraw(x: real, y: real, radius: real)

  /** `CircleParams`: where the random draws fall. */
  datatype CircleParams = CircleParams(minRadius: real, maxRadius: real, startPositionVariance: real)

  /** A draw the generator can produce: each coordinate in
      `[-variance, variance)`, the radius in `[min_radius, max_radius)`. */
  predicate InRange(d: CircleDraw, p: CircleParams) {
    -p.startPositionVariance <= d.x < p.startPositionVariance &&
    -p.startPositionVariance <= d.y < p.startPositionVariance &&
    p.minRadius <= d.radius < p.maxRadius
  }

  class Packer {
    var circles: seq<Circle>
    const maxSpeed: real
    const maxForce: real
    /** The square root behind `length`, `distance` and `normalize`. */
    const sqrt: real -> real

    /** Each circle sits in its own cell. */
    ghost predicate Valid()
      reads this, circles
    {
      Distinct(circles) && IsSqrt(sqrt)
    }

    /** `Packer::new`: one circle per draw, `circle_count + 1` of them (the
        range is inclusive), each at rest at its drawn centre with its drawn
        radius; both speed limits are 10. An empty draw range panics in
        `gen_range`, so every draw lies in its range, and a zero radius
        panics in `Circle::new`. */
    constructor (circleCount: nat, params: CircleParams, draws: seq<CircleDraw>, sqrt: real -> real)
      requires IsSqrt(sqrt)
      requires |draws| == circleCount + 1
      requires forall k :: 0 <= k < |draws| ==> InRange(draws[k], params) && draws[k].radius != 0.0
      ensures Valid()
      ensures |circles| == circleCount + 1
      ensures forall k :: 0 <= k < |circles| ==> fresh(circles[k])
      ensures forall k :: 0 <= k < |circles| ==>
        circles[k].State() == CircleState(Vec2(draws[k].x, draws[k].y), draws[k].radius, Zero, Zero)
      ensures maxSpeed == 10.0 && maxForce == 10.0
    {
      var cs: seq<Circle> := [];
      var k := 0;
      while k < |draws|
        invariant 0 <= k <= |draws| && |cs| == k
        invariant Distinct(cs)
        invariant forall m :: 0 <= m < k ==> fresh(cs[m])
        invariant forall m :: 0 <= m < k ==>
          cs[m].State() == CircleState(Vec2(draws[m].x, draws[m].y), draws[m].radius, Zero, Zero)
      {
        var c := new Circle(Vec2(draws[k].x, draws[k].y), draws[k].radius);
        cs := cs + [c];
        k := k + 1;
      }
      circles := cs;
      maxForce := 10.0;
      maxSpeed := 10.0;
      this.sqrt := sqrt;
    }

    /** `add_circle`: the circle is moved into a new cell at the end. */
    method AddCircle(circle: Circle)
      requires Valid() && circle !in circles
      modifies this
      ensures Valid()
      ensures circles == old(circles) + [circle]
    {
      circles := circles + [circle];
    }

    function Len(): nat
      reads this
    {
      |circles|
    }

    /** `is_empty` holds exactly when `len` is zero. */
    method IsEmpty() returns (r: bool)
      ensures r <==> Len() == 0
    {
      r := |circles| == 0;
    }

    /** `update`: fresh zeroed buffers, then borders, neighbour check and
        separation for every index in ascending order. The circles end as
        `Tick` describes; the vector itself is not changed. */
    method Update(width: real, height: real)
      requires Valid()
      modifies circles
      ensures circles == old(circles)
      ensures States(circles) == Tick(old(States(circles)), Config(RectFromWH(width, height), maxSpeed, maxForce, sqrt))
    {
      var n := |circles|;
      var separateForces := new Vec2[n](_ => Zero);
      var nearCircles := new nat[n](_ => 0);
      var cfg := Config(RectFromWH(width, height), maxSpeed, maxForce, sqrt);
      assert Sweep(States(circles), separateForces[..], nearCircles[..]) == Start(States(circles));
      UpdateAll(circles, separateForces, nearCircles, cfg);
    }
  }
}
