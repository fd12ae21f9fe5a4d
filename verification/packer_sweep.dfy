/** What one `Packer::update` does, stated on values: the circles' states and
    the two per-tick buffers (`separate_forces`, `near_circles`) as
    sequences. The imperative packer in module `Packing` is proved to compute
    exactly `Tick`. */
module PackerSweep {
  import opened Geometry
  import opened Circles
  import opened PackerForces

  /** The fixed inputs of one tick: the boundary built from the window size,
      the packer's two speed limits and the square root. */
  datatype Config = Config(boundary: Rect, maxSpeed: real, maxForce: real, sqrt: real -> real)

  ghost predicate ValidConfig(cfg: Config) { IsSqrt(cfg.sqrt) }

  // ---- check_borders ----------------------------------------------------

  predicate OutsideX(c: CircleState, b: Rect) {
    c.xy.x - c.radius / 2.0 < b.left || c.xy.x + c.radius / 2.0 > b.right
  }

  predicate OutsideY(c: CircleState, b: Rect) {
    c.xy.y - c.radius / 2.0 < b.bottom || c.xy.y + c.radius / 2.0 > b.top
  }

  /** `check_borders` on one circle: each velocity component whose axis has
      the circle (by half its radius) past an edge changes sign. */
  function Bordered(c: CircleState, b: Rect): CircleState {
    var vx := if OutsideX(c, b) then c.velocity.x * -1.0 else c.velocity.x;
    var vy := if OutsideY(c, b) then c.velocity.y * -1.0 else c.velocity.y;
    c.(velocity := Vec2(vx, vy))
  }

  // ---- check_circle_position --------------------------------------------

  /** Some circle with a HIGHER index overlaps circle `i`; lower indices are
      never looked at. */
  predicate HasNeighbour(cs: seq<CircleState>, i: nat)
    requires i < |cs|
  {
    exists j :: i < j < |cs| && Overlaps(cs[i], cs[j])
  }

  /** `check_circle_position`: a circle without a neighbour stops. */
  function Damped(cs: seq<CircleState>, i: nat): seq<CircleState>
    requires i < |cs|
  {
    if HasNeighbour(cs, i) then cs else cs[i := cs[i].(velocity := Vec2(0.0, 0.0))]
  }

  // ---- apply_separation_forces_to_circle --------------------------------

  datatype Sweep = Sweep(circles: seq<CircleState>, forces: seq<Vec2>, near: seq<nat>)

  predicate Sized(s: Sweep) {
    |s.forces| == |s.circles| && |s.near| == |s.circles|
  }

  /** The force circle `j` exerts on circle `i`. */
  function PairForce(cs: seq<CircleState>, i: nat, j: nat, sqrt: real -> real): Vec2
    requires i < |cs| && j < |cs|
  {
    SeparationForce(cs[i], cs[j], sqrt)
  }

  /** The pair exchanges a force: the source tests the force's distance from
      the zero vector. */
  predicate Active(cs: seq<CircleState>, i: nat, j: nat, sqrt: real -> real)
    requires i < |cs| && j < |cs|
  {
    Distance(PairForce(cs, i, j, sqrt), Zero, sqrt) > 0.0
  }

  /** One iteration of the scan: an active pair adds the force to `i`'s
      accumulator, subtracts it from `j`'s, and counts a neighbour for both. */
  function AddPair(s: Sweep, i: nat, j: nat, sqrt: real -> real): Sweep
    requires Sized(s) && i < j < |s.circles|
  {
    var f := PairForce(s.circles, i, j, sqrt);
    if Active(s.circles, i, j, sqrt) then
      Sweep(s.circles,
            s.forces[i := Add(s.forces[i], f)][j := Sub(s.forces[j], f)],
            s.near[i := s.near[i] + 1][j := s.near[j] + 1])
    else
      s
  }

  /** The scan over the pairs `(i, j)` with `i < j < hi`, in ascending `j`. */
  function Gather(s: Sweep, i: nat, hi: nat, sqrt: real -> real): (r: Sweep)
    requires Sized(s) && i < hi <= |s.circles|
    ensures Sized(r) && r.circles == s.circles
    decreases hi
  {
    if hi == i + 1 then s else AddPair(Gather(s, i, hi - 1, sqrt), i, hi - 1, sqrt)
  }

  /** The scan one pair further. */
  lemma GatherNext(s: Sweep, i: nat, j: nat, sqrt: real -> real)
    requires Sized(s) && i < j < |s.circles|
    ensures Gather(s, i, j + 1, sqrt) == AddPair(Gather(s, i, j, sqrt), i, j, sqrt)
  {
  }

  /** The force finally applied to circle `i`: the accumulated force averaged
      over its neighbour count (when positive) and, when it is not the zero
      vector, turned into a steering force towards `max_speed` capped at
      `max_force`. */
  function Steer(f: Vec2, count: nat, velocity: Vec2, maxSpeed: real, maxForce: real, sqrt: real -> real): Vec2
    requires IsSqrt(sqrt)
  {
    var avg := if count > 0 then Div(f, count as real) else f;
    if Distance(avg, Zero, sqrt) > 0.0 then
      assert Sub(avg, Zero) == avg;
      Limit(Sub(SetMag(avg, maxSpeed, sqrt), velocity), maxForce, sqrt)
    else
      avg
  }

  /** The end of `apply_separation_forces_to_circle`: the steering force is
      stored, applied to circle `i`, and circle `i` is integrated. */
  function Finish(s: Sweep, i: nat, maxSpeed: real, maxForce: real, sqrt: real -> real): Sweep
    requires Sized(s) && i < |s.circles| && IsSqrt(sqrt)
  {
    var f := Steer(s.forces[i], s.near[i], s.circles[i].velocity, maxSpeed, maxForce, sqrt);
    Sweep(s.circles[i := Integrated(Applied(s.circles[i], f))], s.forces[i := f], s.near)
  }

  // ---- Packer::update ---------------------------------------------------

  /** The three calls made for index `i`, in the source's order. */
  function Step(s: Sweep, i: nat, cfg: Config): Sweep
    requires Sized(s) && i < |s.circles| && ValidConfig(cfg)
  {
    var bordered := s.circles[i := Bordered(s.circles[i], cfg.boundary)];
    var damped := s.(circles := Damped(bordered, i));
    Finish(Gather(damped, i, |s.circles|, cfg.sqrt), i, cfg.maxSpeed, cfg.maxForce, cfg.sqrt)
  }

  /** The first `k` indices processed. */
  function Steps(s: Sweep, k: nat, cfg: Config): (r: Sweep)
    requires Sized(s) && k <= |s.circles| && ValidConfig(cfg)
    ensures Sized(r) && |r.circles| == |s.circles|
    decreases k, 1
  {
    if k == 0 then s else After(s, k - 1, cfg)
  }

  /** `x` is the sweep once the first `k` indices of `s` are processed. */
  ghost predicate Reached(x: Sweep, s: Sweep, k: nat, cfg: Config)
    requires Sized(s) && k <= |s.circles| && ValidConfig(cfg)
  {
    x == Steps(s, k, cfg)
  }

  /** The sweep just after index `i` is processed. */
  function After(s: Sweep, i: nat, cfg: Config): (r: Sweep)
    requires Sized(s) && i < |s.circles| && ValidConfig(cfg)
    ensures Sized(r) && |r.circles| == |s.circles|
    decreases i + 1, 0
  {
    Step(Steps(s, i, cfg), i, cfg)
  }

  /** `Step` spelt out for the intermediate states already computed. */
  lemma StepAt(s: Sweep, i: nat, cfg: Config, bordered: seq<CircleState>, damped: seq<CircleState>, r: Sweep)
    requires Sized(s) && i < |s.circles| && ValidConfig(cfg)
    requires bordered == s.circles[i := Bordered(s.circles[i], cfg.boundary)]
    requires damped == Damped(bordered, i)
    requires r == Finish(Gather(Sweep(damped, s.forces, s.near), i, |s.circles|, cfg.sqrt), i, cfg.maxSpeed, cfg.maxForce, cfg.sqrt)
    ensures r == Step(s, i, cfg)
  {
  }

  /** One index further. */
  lemma StepsNext(s: Sweep, k: nat, cfg: Config, prev: Sweep)
    requires Sized(s) && k < |s.circles| && ValidConfig(cfg) && prev == Steps(s, k, cfg)
    ensures Steps(s, k + 1, cfg) == Step(prev, k, cfg)
  {
  }

  /** The buffers `update` starts from: zero forces, zero neighbour counts. */
  function Start(cs: seq<CircleState>): (s: Sweep)
    ensures Sized(s) && s.circles == cs
  {
    Sweep(cs, seq(|cs|, _ => Zero), seq(|cs|, _ => 0))
  }

  /** `Packer::update`: every index processed once, in ascending order. */
  function Tick(cs: seq<CircleState>, cfg: Config): seq<CircleState>
    requires ValidConfig(cfg)
  {
    Steps(Start(cs), |cs|, cfg).circles
  }

  // ---- what the scan accumulates ----------------------------------------

  /** The number of active pairs `(i, j)` with `i < j < hi`. */
  function ActiveCount(cs: seq<CircleState>, i: nat, hi: nat, sqrt: real -> real): nat
    requires i < hi <= |cs|
    decreases hi
  {
    if hi == i + 1 then 0
    else ActiveCount(cs, i, hi - 1, sqrt) + (if Active(cs, i, hi - 1, sqrt) then 1 else 0)
  }

  /** The sum of the forces of the active pairs `(i, j)` with `i < j < hi`. */
  function ActiveSum(cs: seq<CircleState>, i: nat, hi: nat, sqrt: real -> real): Vec2
    requires i < hi <= |cs|
    decreases hi
  {
    if hi == i + 1 then Zero
    else Add(ActiveSum(cs, i, hi - 1, sqrt), if Active(cs, i, hi - 1, sqrt) then PairForce(cs, i, hi - 1, sqrt) else Zero)
  }

  /** After scanning up to `hi`, circle `i`'s accumulator holds the sum of its
      active pair forces and its count the number of active pairs; each
      scanned `j` lost that pair's force and gained one neighbour if the pair
      was active; every other entry, in particular every index below `i`, is
      untouched. */
  lemma {:induction false} GatherAt(s: Sweep, i: nat, hi: nat, sqrt: real -> real)
    requires Sized(s) && i < hi <= |s.circles|
    ensures var r := Gather(s, i, hi, sqrt);
      && r.forces[i] == Add(s.forces[i], ActiveSum(s.circles, i, hi, sqrt))
      && r.near[i] == s.near[i] + ActiveCount(s.circles, i, hi, sqrt)
      && (forall k :: i < k < hi ==>
            r.forces[k] == (if Active(s.circles, i, k, sqrt) then Sub(s.forces[k], PairForce(s.circles, i, k, sqrt)) else s.forces[k]) &&
            r.near[k] == s.near[k] + (if Active(s.circles, i, k, sqrt) then 1 else 0))
      && (forall k :: 0 <= k < |s.circles| && (k < i || hi <= k) ==>
            r.forces[k] == s.forces[k] && r.near[k] == s.near[k])
  {
    if hi > i + 1 {
      var j := hi - 1;
      GatherAt(s, i, j, sqrt);
      GatherNext(s, i, j, sqrt);
      AddPairEffect(Gather(s, i, j, sqrt), i, j, sqrt);
      ActiveNext(s.circles, i, j, sqrt);
    }
  }

  /** What one pair of the scan changes: entries `i` and `j` when the pair is
      active, nothing else. */
  lemma AddPairEffect(g: Sweep, i: nat, j: nat, sqrt: real -> real)
    requires Sized(g) && i < j < |g.circles|
    ensures var r := AddPair(g, i, j, sqrt);
      var a := Active(g.circles, i, j, sqrt);
      var f := PairForce(g.circles, i, j, sqrt);
      && r.circles == g.circles
      && r.forces[i] == (if a then Add(g.forces[i], f) else g.forces[i])
      && r.near[i] == g.near[i] + (if a then 1 else 0)
      && r.forces[j] == (if a then Sub(g.forces[j], f) else g.forces[j])
      && r.near[j] == g.near[j] + (if a then 1 else 0)
      && (forall k :: 0 <= k < |g.circles| && k != i && k != j ==> r.forces[k] == g.forces[k] && r.near[k] == g.near[k])
  {
  }

  /** The sum and the count one pair further. */
  lemma ActiveNext(cs: seq<CircleState>, i: nat, j: nat, sqrt: real -> real)
    requires i < j < |cs|
    ensures ActiveSum(cs, i, j + 1, sqrt) == Add(ActiveSum(cs, i, j, sqrt), if Active(cs, i, j, sqrt) then PairForce(cs, i, j, sqrt) else Zero)
    ensures ActiveCount(cs, i, j + 1, sqrt) == ActiveCount(cs, i, j, sqrt) + (if Active(cs, i, j, sqrt) then 1 else 0)
  {
  }

  /** The sum of a sequence of vectors. */
  function Total(fs: seq<Vec2>): Vec2 {
    if |fs| == 0 then Zero else Add(Total(fs[..|fs| - 1]), fs[|fs| - 1])
  }

  lemma {:induction false} TotalUpdate(fs: seq<Vec2>, k: nat, v: Vec2)
    requires k < |fs|
    ensures Total(fs[k := v]) == Add(Sub(Total(fs), fs[k]), v)
  {
    var n := |fs|;
    if k == n - 1 {
      assert fs[k := v][..n - 1] == fs[..n - 1];
    } else {
      assert fs[k := v][..n - 1] == fs[..n - 1][k := v];
      TotalUpdate(fs[..n - 1], k, v);
    }
  }

  /** The scan only moves force between two circles of a pair, never creates
      any: the buffer's total force is unchanged (equal and opposite forces). */
  lemma {:induction false} GatherConserves(s: Sweep, i: nat, hi: nat, sqrt: real -> real)
    requires Sized(s) && i < hi <= |s.circles|
    ensures Total(Gather(s, i, hi, sqrt).forces) == Total(s.forces)
  {
    if hi > i + 1 {
      var j := hi - 1;
      GatherConserves(s, i, j, sqrt);
      GatherNext(s, i, j, sqrt);
      AddPairConserves(Gather(s, i, j, sqrt), i, j, sqrt);
    }
  }

  /** One pair's exchange of equal and opposite forces keeps the total. */
  lemma AddPairConserves(g: Sweep, i: nat, j: nat, sqrt: real -> real)
    requires Sized(g) && i < j < |g.circles|
    ensures Total(AddPair(g, i, j, sqrt).forces) == Total(g.forces)
  {
    if Active(g.circles, i, j, sqrt) {
      var f := PairForce(g.circles, i, j, sqrt);
      var fi := g.forces[i];
      var fj := g.forces[j];
      var t := Total(g.forces);
      var fs1 := g.forces[i := Add(fi, f)];
      TotalUpdate(g.forces, i, Add(fi, f));
      assert fs1[j] == fj;
      TotalUpdate(fs1, j, Sub(fj, f));
      assert AddPair(g, i, j, sqrt).forces == fs1[j := Sub(fj, f)];
      assert Add(Sub(Add(Sub(t, fi), Add(fi, f)), fj), Sub(fj, f)) == t;
    }
  }

  // ---- what a step changes ----------------------------------------------

  /** Processing index `i` changes no other circle, leaves the buffer entries
      of lower indices alone, keeps circle `i`'s radius and clears its
      acceleration. */
  lemma StepFrame(s: Sweep, i: nat, cfg: Config)
    requires Sized(s) && i < |s.circles| && ValidConfig(cfg)
    ensures var r := Step(s, i, cfg);
      && Sized(r) && |r.circles| == |s.circles|
      && (forall k :: 0 <= k < |s.circles| && k != i ==> r.circles[k] == s.circles[k])
      && (forall k :: 0 <= k < i ==> r.forces[k] == s.forces[k] && r.near[k] == s.near[k])
      && r.circles[i].radius == s.circles[i].radius
      && r.circles[i].acceleration == Zero
  {
    var bordered := s.circles[i := Bordered(s.circles[i], cfg.boundary)];
    var damped := s.(circles := Damped(bordered, i));
    GatherAt(damped, i, |s.circles|, cfg.sqrt);
  }

  lemma StepKeepsOther(s: Sweep, i: nat, m: nat, cfg: Config)
    requires Sized(s) && i < |s.circles| && m < |s.circles| && m != i && ValidConfig(cfg)
    ensures Step(s, i, cfg).circles[m] == s.circles[m]
  {
  }

  /** After the first `k` indices, circles from `k` on are as they were, and
      every processed circle kept its radius and has no acceleration left. */
  lemma StepsFrame(s: Sweep, k: nat, cfg: Config)
    requires Sized(s) && k <= |s.circles| && ValidConfig(cfg)
    ensures var r := Steps(s, k, cfg);
      && (forall m :: k <= m < |s.circles| ==> r.circles[m] == s.circles[m])
      && (forall m :: 0 <= m < k ==> r.circles[m].radius == s.circles[m].radius && r.circles[m].acceleration == Zero)
  {
    if k > 0 {
      StepsFrame(s, k - 1, cfg);
      var prev := Steps(s, k - 1, cfg);
      var r := Steps(s, k, cfg);
      assert r == Step(prev, k - 1, cfg);
      StepFrame(prev, k - 1, cfg);
      forall m | k <= m < |s.circles| ensures r.circles[m] == s.circles[m] {
        assert r.circles[m] == prev.circles[m];
      }
      forall m | 0 <= m < k - 1 ensures r.circles[m].radius == s.circles[m].radius && r.circles[m].acceleration == Zero {
        assert r.circles[m] == prev.circles[m];
      }
    }
  }

  /** A circle is final once its index has been processed. */
  lemma StepsKeepDone(s: Sweep, k: nat, n: nat, m: nat, cfg: Config)
    requires Sized(s) && m < k <= n <= |s.circles| && ValidConfig(cfg)
    ensures Steps(s, n, cfg).circles[m] == Steps(s, k, cfg).circles[m]
  {
    if n == k {
      assert Steps(s, n, cfg) == Steps(s, k, cfg);
    } else {
      StepsKeepDone(s, k, n - 1, m, cfg);
      StepsLast(s, n, m, cfg);
    }
  }

  lemma StepsLast(s: Sweep, n: nat, m: nat, cfg: Config)
    requires Sized(s) && m < n - 1 && n <= |s.circles| && ValidConfig(cfg)
    ensures Steps(s, n, cfg).circles[m] == Steps(s, n - 1, cfg).circles[m]
  {
    StepKeepsOther(Steps(s, n - 1, cfg), n - 1, m, cfg);
  }

  /** A tick keeps the number of circles and every radius, and leaves no
      circle with a pending acceleration. */
  lemma TickKeepsShape(cs: seq<CircleState>, cfg: Config)
    requires ValidConfig(cfg)
    ensures |Tick(cs, cfg)| == |cs|
    ensures forall m :: 0 <= m < |cs| ==> Tick(cs, cfg)[m].radius == cs[m].radius && Tick(cs, cfg)[m].acceleration == Zero
  {
    StepsFrame(Start(cs), |cs|, cfg);
  }

  // ---- the steering force -----------------------------------------------

  /** The force applied to a circle is never longer than `max_force`. */
  lemma SteerBound(f: Vec2, count: nat, velocity: Vec2, maxSpeed: real, maxForce: real, sqrt: real -> real)
    requires IsSqrt(sqrt)
    ensures LengthSquared(Steer(f, count, velocity, maxSpeed, maxForce, sqrt)) <= maxForce * maxForce
  {
    var avg := if count > 0 then Div(f, count as real) else f;
    assert Sub(avg, Zero) == avg;
    if Distance(avg, Zero, sqrt) > 0.0 {
      LimitBound(Sub(SetMag(avg, maxSpeed, sqrt), velocity), maxForce, sqrt);
    } else {
      LengthFacts(avg, sqrt);
      SquareSign(maxForce);
    }
  }

  /** Processing index `i` moves circle `i` by its new velocity, and that
      velocity differs from the one left by the border and neighbour checks
      by a vector no longer than `max_force`. */
  lemma StepVelocityBound(s: Sweep, i: nat, cfg: Config)
    requires Sized(s) && i < |s.circles| && ValidConfig(cfg)
    requires s.circles[i].acceleration == Zero
    ensures var before := Damped(s.circles[i := Bordered(s.circles[i], cfg.boundary)], i)[i];
      var after := Step(s, i, cfg).circles[i];
      && after.xy == Add(s.circles[i].xy, after.velocity)
      && LengthSquared(Sub(after.velocity, before.velocity)) <= cfg.maxForce * cfg.maxForce
  {
    var bordered := s.circles[i := Bordered(s.circles[i], cfg.boundary)];
    var damped := s.(circles := Damped(bordered, i));
    var g := Gather(damped, i, |s.circles|, cfg.sqrt);
    var before := damped.circles[i];
    var f := Steer(g.forces[i], g.near[i], before.velocity, cfg.maxSpeed, cfg.maxForce, cfg.sqrt);
    SteerBound(g.forces[i], g.near[i], before.velocity, cfg.maxSpeed, cfg.maxForce, cfg.sqrt);
    ApplyThenIntegrate(before, f);
    assert Sub(Add(before.velocity, f), before.velocity) == f;
  }

  /** Active pairs overlap (they lie in the tighter separation zone). */
  lemma ActiveOverlaps(cs: seq<CircleState>, i: nat, j: nat, sqrt: real -> real)
    requires IsSqrt(sqrt) && i < |cs| && j < |cs|
    requires Active(cs, i, j, sqrt)
    ensures Overlaps(cs[i], cs[j])
  {
    var f := PairForce(cs, i, j, sqrt);
    assert Sub(f, Zero) == f;
    SeparationForceActiveIff(cs[i], cs[j], sqrt);
    SeparationZoneOverlaps(cs[i], cs[j], sqrt);
  }

  /** Reversing velocity components changes no overlap. */
  lemma BorderedKeepsNeighbours(cs: seq<CircleState>, i: nat, b: Rect)
    requires i < |cs|
    ensures HasNeighbour(cs[i := Bordered(cs[i], b)], i) == HasNeighbour(cs, i)
  {
    var bs := cs[i := Bordered(cs[i], b)];
    forall j | i < j < |cs| ensures Overlaps(bs[i], bs[j]) == Overlaps(cs[i], cs[j]) {
      assert bs[i].xy == cs[i].xy && bs[i].radius == cs[i].radius;
      assert bs[j] == cs[j];
    }
  }

  /** Without a neighbour above it, no pair of circle `i` is active. */
  lemma NoNeighbourNoActivePair(cs: seq<CircleState>, i: nat, sqrt: real -> real)
    requires IsSqrt(sqrt) && i < |cs| && !HasNeighbour(cs, i)
    ensures forall j :: i < j < |cs| ==> !Active(cs, i, j, sqrt)
  {
    forall j | i < j < |cs| ensures !Active(cs, i, j, sqrt) {
      if Active(cs, i, j, sqrt) {
        ActiveOverlaps(cs, i, j, sqrt);
      }
    }
  }

  /** Nothing accumulated and no neighbours counted: no steering force. */
  lemma SteerNothing(velocity: Vec2, maxSpeed: real, maxForce: real, sqrt: real -> real)
    requires IsSqrt(sqrt)
    ensures Steer(Zero, 0, velocity, maxSpeed, maxForce, sqrt) == Zero
  {
    LengthFacts(Zero, sqrt);
    assert LengthSquared(Zero) == 0.0;
    assert Sub(Zero, Zero) == Zero;
  }

  /** A circle that nothing above it overlaps, with no force accumulated for
      it and no pending acceleration, stops dead where it is. */
  lemma StepIsolated(s: Sweep, i: nat, cfg: Config)
    requires Sized(s) && i < |s.circles| && ValidConfig(cfg)
    requires !HasNeighbour(s.circles, i)
    requires s.forces[i] == Zero && s.near[i] == 0 && s.circles[i].acceleration == Zero
    ensures Step(s, i, cfg).circles[i] == s.circles[i].(velocity := Zero)
  {
    var n := |s.circles|;
    var bordered := s.circles[i := Bordered(s.circles[i], cfg.boundary)];
    BorderedKeepsNeighbours(s.circles, i, cfg.boundary);
    var damped := s.(circles := Damped(bordered, i));
    assert damped.circles == bordered[i := bordered[i].(velocity := Vec2(0.0, 0.0))];
    var c := damped.circles[i];
    assert c == s.circles[i].(velocity := Zero);
    NoNeighbourNoActivePair(damped.circles, i, cfg.sqrt) by {
      BorderedKeepsNeighbours(bordered, i, cfg.boundary);
      assert damped.circles == bordered[i := c];
      NeighboursIgnoreVelocity(bordered, i, c);
    }
    GatherQuiet(damped, i, n, cfg.sqrt);
    FinishAtRest(Gather(damped, i, n, cfg.sqrt), i, cfg.maxSpeed, cfg.maxForce, cfg.sqrt);
  }

  /** A scan in which no pair is active changes nothing. */
  lemma {:induction false} GatherQuiet(s: Sweep, i: nat, hi: nat, sqrt: real -> real)
    requires Sized(s) && i < hi <= |s.circles|
    requires forall j :: i < j < hi ==> !Active(s.circles, i, j, sqrt)
    ensures Gather(s, i, hi, sqrt) == s
  {
    if hi > i + 1 {
      GatherQuiet(s, i, hi - 1, sqrt);
    }
  }

  /** A circle at rest with nothing accumulated stays where it is. */
  lemma FinishAtRest(g: Sweep, i: nat, maxSpeed: real, maxForce: real, sqrt: real -> real)
    requires Sized(g) && i < |g.circles| && IsSqrt(sqrt)
    requires g.forces[i] == Zero && g.near[i] == 0
    requires g.circles[i].velocity == Zero && g.circles[i].acceleration == Zero
    ensures Finish(g, i, maxSpeed, maxForce, sqrt).circles[i] == g.circles[i]
  {
    var c := g.circles[i];
    SteerNothing(Zero, maxSpeed, maxForce, sqrt);
    var f := Steer(g.forces[i], g.near[i], c.velocity, maxSpeed, maxForce, sqrt);
    assert f == Zero;
    AtRestStays(c);
  }

  /** Only position and radius decide overlaps. */
  lemma NeighboursIgnoreVelocity(cs: seq<CircleState>, i: nat, c: CircleState)
    requires i < |cs| && c.xy == cs[i].xy && c.radius == cs[i].radius
    ensures HasNeighbour(cs[i := c], i) == HasNeighbour(cs, i)
  {
    var bs := cs[i := c];
    forall j | i < j < |cs| ensures Overlaps(bs[i], bs[j]) == Overlaps(cs[i], cs[j]) {
      assert bs[j] == cs[j];
    }
  }

  /** In a tick, the first circle, when no other circle overlaps it and it
      has no pending acceleration, ends at rest in its place. */
  lemma TickFirstIsolated(cs: seq<CircleState>, cfg: Config)
    requires ValidConfig(cfg) && |cs| > 0
    requires !HasNeighbour(cs, 0) && cs[0].acceleration == Zero
    ensures Tick(cs, cfg)[0] == cs[0].(velocity := Zero)
  {
    var s := Start(cs);
    StepsKeepDone(s, 1, |cs|, 0, cfg);
    StepIsolated(s, 0, cfg);
  }
}
