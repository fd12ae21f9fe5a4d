/** The orbiter sketch's system (src/bin/orbiter/system.rs): a vector of
    orbiters and a vector of fixed bodies. One update first queues, on every
    orbiter, the pull of every fixed body and of every other orbiter as they
    stood before the update (a snapshot), and only then lets every orbiter
    drain its queue and move. The clock's tick is an input. */
module Systems {
  import opened Geometry
  import opened Orbiters

  // ---- the schedule on values -----------------------------------------------

  /** The orbiters of a snapshot as the bodies they pull with. */
  function Bodies(ss: seq<OrbiterState>): (r: seq<Body>)
    ensures |r| == |ss|
    ensures forall k :: 0 <= k < |ss| ==> r[k] == AsBody(ss[k])
  {
    seq(|ss|, k requires 0 <= k < |ss| => AsBody(ss[k]))
  }

  function FixedBodies(fixed: seq<FixedBody>): (r: seq<Body>)
    ensures |r| == |fixed|
    ensures forall k :: 0 <= k < |fixed| ==> r[k] == FixedAsBody(fixed[k])
  {
    seq(|fixed|, k requires 0 <= k < |fixed| => FixedAsBody(fixed[k]))
  }

  /** Where the pull of orbiter `j` sits among the orbiter pulls queued on
      orbiter `i`: the orbiters keep their order and `i` itself is skipped. */
  function Slot(i: nat, j: nat): nat
    requires i != j
  {
    if j < i then j else j - 1
  }

  /** The bodies whose pulls orbiter `i` queues, in the order it queues
      them: every fixed body, then every orbiter of the snapshot but
      itself. */
  function Sources(fixed: seq<FixedBody>, ss: seq<OrbiterState>, i: nat): (r: seq<Body>)
    requires i < |ss|
    ensures |r| == |fixed| + |ss| - 1
    ensures forall k :: 0 <= k < |fixed| ==> r[k] == FixedAsBody(fixed[k])
    ensures forall j :: 0 <= j < |ss| && j != i ==> r[|fixed| + Slot(i, j)] == AsBody(ss[j])
  {
    var r := FixedBodies(fixed) + Others(ss, i);
    assert forall j :: 0 <= j < |ss| && j != i ==> r[|fixed| + Slot(i, j)] == AsBody(ss[j]) by {
      forall j | 0 <= j < |ss| && j != i
        ensures r[|fixed| + Slot(i, j)] == AsBody(ss[j])
      {
        if j < i {
          assert Bodies(ss[..i])[j] == AsBody(ss[..i][j]);
        } else {
          assert Bodies(ss[i + 1..])[j - 1 - i] == AsBody(ss[i + 1..][j - 1 - i]);
        }
      }
    }
    r
  }

  /** Orbiter `index` of the snapshot with the pulls of its sources
      queued. */
  function Queuing(fixed: seq<FixedBody>, ss: seq<OrbiterState>, index: nat, sqrt: real -> real): OrbiterState
    requires IsSqrt(sqrt) && index < |ss|
  {
    QueuedAll(ss[index], Sources(fixed, ss, index), sqrt)
  }

  /** Every orbiter of the snapshot with the pulls of its sources queued:
      the state after `update`'s first loop. */
  function QueuingAll(fixed: seq<FixedBody>, ss: seq<OrbiterState>, sqrt: real -> real): (r: seq<OrbiterState>)
    requires IsSqrt(sqrt)
    ensures |r| == |ss|
  {
    seq(|ss|, i requires 0 <= i < |ss| => Queuing(fixed, ss, i, sqrt))
  }

  /** Every orbiter stepped with the same tick: `update`'s second loop. */
  function SteppedAll(ss: seq<OrbiterState>, maxTrailDots: nat, tick: bool): (r: seq<OrbiterState>)
    ensures |r| == |ss|
  {
    seq(|ss|, i requires 0 <= i < |ss| => Stepped(ss[i], maxTrailDots, tick))
  }

  /** One `update` of the system on values: every orbiter queues the pulls
      of its sources in the snapshot `ss`, and only then every orbiter
      steps. */
  function Step(ss: seq<OrbiterState>, fixed: seq<FixedBody>, maxTrailDots: nat, tick: bool,
                sqrt: real -> real): (r: seq<OrbiterState>)
    requires IsSqrt(sqrt)
    ensures |r| == |ss|
  {
    SteppedAll(QueuingAll(fixed, ss, sqrt), maxTrailDots, tick)
  }

  /** What one update does to orbiter `i`: it queues exactly one pull per
      fixed body and one per other orbiter, drains all of them (with any it
      had queued before) into its velocity, ends with an empty queue, moves
      by its new velocity, and keeps its mass, radius and start. */
  lemma StepFacts(ss: seq<OrbiterState>, fixed: seq<FixedBody>, maxTrailDots: nat, tick: bool,
                  sqrt: real -> real, i: nat)
    requires IsSqrt(sqrt) && i < |ss|
    ensures var pulls := Forces(ss[i].mass, ss[i].currentXy, Sources(fixed, ss, i), sqrt);
      var r := Step(ss, fixed, maxTrailDots, tick, sqrt)[i];
      && |pulls| == |fixed| + |ss| - 1
      && r.forces == []
      && r.velocity == AddAll(ss[i].velocity, ss[i].forces + pulls)
      && Sub(r.currentXy, ss[i].currentXy) == r.velocity
      && r.mass == ss[i].mass && r.radius == ss[i].radius && r.startXy == ss[i].startXy
      && (!tick ==> r.trail == ss[i].trail)
      && (tick && |ss[i].trail| <= maxTrailDots ==> |r.trail| <= maxTrailDots)
  {
    var q := QueuedAll(ss[i], Sources(fixed, ss, i), sqrt);
    SteppedFacts(q, maxTrailDots, tick);
  }

  /** Newton's third law inside one update: the pull orbiter `i` queues from
      orbiter `j` is the opposite of the pull `j` queues from `i`, both
      taken from the snapshot. */
  lemma PullsOpposite(ss: seq<OrbiterState>, fixed: seq<FixedBody>, sqrt: real -> real, i: nat, j: nat)
    requires IsSqrt(sqrt) && i < |ss| && j < |ss| && i != j
    ensures var onI := Forces(ss[i].mass, ss[i].currentXy, Sources(fixed, ss, i), sqrt);
      var onJ := Forces(ss[j].mass, ss[j].currentXy, Sources(fixed, ss, j), sqrt);
      onI[|fixed| + Slot(i, j)] == Neg(onJ[|fixed| + Slot(j, i)])
  {
    ForcesOpposite(AsBody(ss[j]), AsBody(ss[i]), sqrt);
  }

  /** Only the masses and positions of the snapshot matter to the pulls:
      two snapshots that agree on them give every orbiter the same sources,
      whatever the velocities, queues and trails of the others. */
  lemma SourcesFromPositions(ss: seq<OrbiterState>, ts: seq<OrbiterState>, fixed: seq<FixedBody>, i: nat)
    requires i < |ss| == |ts|
    requires forall k :: 0 <= k < |ss| ==> AsBody(ss[k]) == AsBody(ts[k])
    ensures Sources(fixed, ss, i) == Sources(fixed, ts, i)
  {
    var a := Sources(fixed, ss, i);
    var b := Sources(fixed, ts, i);
    forall k | 0 <= k < |a|
      ensures a[k] == b[k]
    {
      if |fixed| <= k {
        var j := if k - |fixed| < i then k - |fixed| else k - |fixed| + 1;
        assert |fixed| + Slot(i, j) == k;
      }
    }
  }

  /** The orbiters `new_from_params` builds, from the generator's draws of
      a mass and a radius for each. */
  function Initial(p: OrbiterParams, draws: seq<(real, real)>): (r: seq<OrbiterState>)
    ensures |r| == |draws|
  {
    var centre := Vec2(p.width / 2.0, p.height / 2.0);
    seq(|draws|, k requires 0 <= k < |draws| =>
      OrbiterState(draws[k].0, draws[k].1, Vec2(-0.2, -1.0), centre, [], [], centre))
  }

  /** All orbiters start at the canvas centre, so in the first update every
      pull between two of them is taken at distance zero. There the source's
      `f32` magnitude is infinite and the pull NaN; the model's pull is the
      zero vector. */
  lemma InitialCoincide(p: OrbiterParams, draws: seq<(real, real)>, i: nat, j: nat, sqrt: real -> real)
    requires IsSqrt(sqrt) && i < |draws| && j < |draws|
    ensures Initial(p, draws)[i].currentXy == Initial(p, draws)[j].currentXy
    ensures var s := Initial(p, draws);
      Force(s[i].mass, s[i].currentXy, AsBody(s[j]), sqrt) == Zero
  {
    var s := Initial(p, draws);
    PullAtSamePoint(s[i].mass, s[i].currentXy, AsBody(s[j]), sqrt);
  }

  /** Every draw within the parameters' ranges, as `gen_range` returns. */
  predicate InRanges(p: OrbiterParams, draws: seq<(real, real)>) {
    forall k :: 0 <= k < |draws| ==>
      p.massLow <= draws[k].0 < p.massHigh && p.radiusLow <= draws[k].1 < p.radiusHigh
  }

  // ---- the system object ----------------------------------------------------

  ghost predicate Distinct(os: seq<Orbiter>) {
    forall i, j :: 0 <= i < j < |os| ==> os[i] != os[j]
  }

  /** The current states of a sequence of orbiters, in order. */
  function States(os: seq<Orbiter>): (r: seq<OrbiterState>)
    reads os
    ensures |r| == |os|
    ensures forall k :: 0 <= k < |os| ==> r[k] == os[k].State()
  {
    if |os| == 0 then [] else States(os[..|os| - 1]) + [os[|os| - 1].State()]
  }

  /** The orbiters of the snapshot but `index` up to position `j`, as the
      inner loop of `update` has queued them. */
  function OthersUpTo(ss: seq<OrbiterState>, index: nat, j: nat): seq<Body>
    requires index < |ss| && j <= |ss|
  {
    if j <= index then Bodies(ss[..j]) else Bodies(ss[..index]) + Bodies(ss[index + 1..j])
  }

  lemma OthersUpToNext(ss: seq<OrbiterState>, index: nat, j: nat)
    requires index < |ss| && j < |ss|
    ensures j == index ==> OthersUpTo(ss, index, j + 1) == OthersUpTo(ss, index, j)
    ensures j != index ==> OthersUpTo(ss, index, j + 1) == OthersUpTo(ss, index, j) + [AsBody(ss[j])]
  {
    if j < index {
      assert Bodies(ss[..j + 1]) == Bodies(ss[..j]) + [AsBody(ss[j])];
    } else if j == index {
      assert Bodies(ss[index + 1..j + 1]) == [];
    } else {
      assert Bodies(ss[index + 1..j + 1]) == Bodies(ss[index + 1..j]) + [AsBody(ss[j])];
    }
  }

  /** The body of `update`'s first loop for one orbiter: the pull of every
      fixed body, then of every orbiter of the snapshot but its own index. */
  method QueueForces(o: Orbiter, fixed: seq<FixedBody>, cloned: seq<OrbiterState>, index: nat,
                     sqrt: real -> real)
    requires IsSqrt(sqrt) && index < |cloned|
    modifies o
    requires o.State() == cloned[index]
    ensures o.State() == QueuingAll(fixed, cloned, sqrt)[index]
  {
    QueueFixed(o, fixed, sqrt);
    QueueOthers(o, cloned, index, sqrt);
    QueuedAllConcat(cloned[index], FixedBodies(fixed), Others(cloned, index), sqrt);
  }

  /** The orbiters of the snapshot but `index`, in order. */
  function Others(ss: seq<OrbiterState>, index: nat): seq<Body>
    requires index < |ss|
  {
    Bodies(ss[..index]) + Bodies(ss[index + 1..])
  }

  /** The inner loop over the fixed bodies. */
  method QueueFixed(o: Orbiter, fixed: seq<FixedBody>, sqrt: real -> real)
    requires IsSqrt(sqrt)
    modifies o
    ensures o.State() == QueuedAll(old(o.State()), FixedBodies(fixed), sqrt)
  {
    ghost var s0 := o.State();
    ghost var bodies := FixedBodies(fixed);
    for k := 0 to |fixed|
      invariant o.State() == QueuedAll(s0, bodies[..k], sqrt)
    {
      QueuedAllSnoc(s0, bodies[..k], FixedAsBody(fixed[k]), sqrt);
      assert bodies[..k] + [FixedAsBody(fixed[k])] == bodies[..k + 1];
      o.QueueForceUpdate(FixedAsBody(fixed[k]), sqrt);
    }
    assert bodies[..|fixed|] == bodies;
  }

  /** The inner loop over the snapshot, skipping the orbiter's own index. */
  method QueueOthers(o: Orbiter, cloned: seq<OrbiterState>, index: nat, sqrt: real -> real)
    requires IsSqrt(sqrt) && index < |cloned|
    modifies o
    ensures o.State() == QueuedAll(old(o.State()), Others(cloned, index), sqrt)
  {
    ghost var s0 := o.State();
    for j := 0 to |cloned|
      invariant o.State() == QueuedAll(s0, OthersUpTo(cloned, index, j), sqrt)
    {
      OthersUpToNext(cloned, index, j);
      if j != index {
        QueuedAllSnoc(s0, OthersUpTo(cloned, index, j), AsBody(cloned[j]), sqrt);
        o.QueueForceUpdate(AsBody(cloned[j]), sqrt);
      }
    }
    assert cloned[index + 1..|cloned|] == cloned[index + 1..];
  }

  /** `update`'s first loop: every orbiter queues the pulls of its sources
      in the snapshot `cloned`. */
  method QueueAllForces(os: seq<Orbiter>, fixed: seq<FixedBody>, cloned: seq<OrbiterState>,
                        sqrt: real -> real)
    requires Distinct(os) && IsSqrt(sqrt) && States(os) == cloned
    modifies os
    ensures States(os) == QueuingAll(fixed, cloned, sqrt)
  {
    ghost var target := QueuingAll(fixed, cloned, sqrt);
    for i := 0 to |os|
      invariant forall m :: 0 <= m < i ==> os[m].State() == target[m]
      invariant forall m :: i <= m < |os| ==> os[m].State() == cloned[m]
    {
      QueueForces(os[i], fixed, cloned, i, sqrt);
    }
    assert forall m :: 0 <= m < |os| ==> States(os)[m] == target[m];
  }

  /** `update`'s second loop: every orbiter drains its queue and moves,
      with the same tick. */
  method UpdateAll(os: seq<Orbiter>, maxTrailDots: nat, tick: bool)
    requires Distinct(os)
    modifies os
    ensures States(os) == SteppedAll(old(States(os)), maxTrailDots, tick)
  {
    ghost var s0 := States(os);
    for i := 0 to |os|
      invariant forall m :: 0 <= m < i ==> os[m].State() == Stepped(s0[m], maxTrailDots, tick)
      invariant forall m :: i <= m < |os| ==> os[m].State() == s0[m]
    {
      os[i].Update(maxTrailDots, tick);
    }
    assert forall m :: 0 <= m < |os| ==> States(os)[m] == SteppedAll(s0, maxTrailDots, tick)[m];
  }

  class System {
    // Neither vector is ever replaced; only the orbiters in it change.
    const orbiters: seq<Orbiter>
    const fixedBodies: seq<FixedBody>

    /** Each orbiter is its own element of the vector. */
    ghost predicate Valid() {
      Distinct(orbiters)
    }

    /** `new_from_params`: one orbiter per draw (`orbiter_count` of them),
        each built by `Orbiter::new_from_params`, and exactly one fixed
        body, the default one. */
    constructor NewFromParams(p: OrbiterParams, draws: seq<(real, real)>)
      requires |draws| == p.orbiterCount && InRanges(p, draws)
      ensures Valid() && forall k :: 0 <= k < |orbiters| ==> fresh(orbiters[k])
      ensures |orbiters| == p.orbiterCount
      ensures States(orbiters) == Initial(p, draws)
      ensures fixedBodies == [DefaultFixedBody]
    {
      var os: seq<Orbiter> := [];
      ghost var target := Initial(p, draws);
      for k := 0 to |draws|
        invariant |os| == k && Distinct(os)
        invariant forall m :: 0 <= m < k ==> fresh(os[m])
        invariant forall m :: 0 <= m < k ==> os[m].State() == target[m]
      {
        var o := new Orbiter.NewFromParams(p, draws[k].0, draws[k].1);
        os := os + [o];
      }
      orbiters := os;
      fixedBodies := [DefaultFixedBody];
    }

    /** `update`: snapshot the orbiters, queue on each the pulls of the
        fixed bodies and of the other orbiters of the snapshot, then update
        every orbiter with the same tick. The mouse only feeds a log line,
        so it changes nothing. */
    method Update(maxTrailDots: nat, tick: bool, mouse: Option<Vec2>, justPressed: bool,
                  sqrt: real -> real)
      requires Valid() && IsSqrt(sqrt)
      modifies orbiters
      ensures States(orbiters) == Step(old(States(orbiters)), fixedBodies, maxTrailDots, tick, sqrt)
    {
      var cloned := States(orbiters);
      QueueAllForces(orbiters, fixedBodies, cloned, sqrt);
      UpdateAll(orbiters, maxTrailDots, tick);
    }

    /** `orbiters()`. */
    function Orbiters(): seq<Orbiter>
      reads this
    {
      orbiters
    }
  }
}
