/** The object model of swarm_opt.py: a `Swarm` owns a list of `Particle`
    objects, each of which points back to its swarm and updates its own
    position, velocity and best in place. Python lists of floats become
    `Vector` values, so a copy (`[:]`) is the value itself. */
module SwarmOpt {
  import opened Vectors
  import opened SwarmSpec

  /** The swarm best a particle steers toward; a missing best only occurs
      with no dimensions to steer in. */
  function Global(best: Option<Vector>): Vector
  {
    if best.Some? then best.value else []
  }

  class Particle {
    const swarm: Swarm
    var position: Vector
    var velocity: Vector
    var best: Vector

    ghost function State(): ParticleState
      reads this
    {
      ParticleState(position, velocity, best)
    }

    /** `Particle(swarm, best, position, velocity)`; `u1` and `u2` are the
        `random.random()` values `_random_vector` draws for a missing position
        and a missing velocity. */
    constructor (swarm: Swarm, best: Option<Vector>, position: Option<Vector>, velocity: Option<Vector>,
                 u1: Vector, u2: Vector)
      requires |u1| == swarm.dimensions && |u2| == swarm.dimensions
      requires position.Some? ==> |position.value| == swarm.dimensions
      requires velocity.Some? ==> |velocity.value| == swarm.dimensions
      requires best.Some? ==> |best.value| == swarm.dimensions
      ensures this.swarm == swarm
      ensures State() == NewParticle(best, position, velocity, u1, u2)
      ensures Shaped(State(), swarm.dimensions)
    {
      this.swarm := swarm;
      var x := if position.None? then RandomVector(u1) else position.value;
      this.position := x;
      this.velocity := if velocity.None? then RandomVector(u2) else velocity.value;
      this.best := if best.None? then x else best.value;
    }

    /** `step()`: for each dimension, pull the velocity toward the personal
        and the swarm best and move by it; then keep the new position as the
        personal best if `f` is strictly lower there. Reading the swarm's
        best when it has none raises a `TypeError` before anything changes:
        then `ok` is false. */
    method Step(d: Draw) returns (ok: bool)
      requires Shaped(State(), swarm.dimensions) && ValidDraw(d, swarm.dimensions)
      requires swarm.best.Some? ==> |swarm.best.value| == swarm.dimensions
      modifies this
      ensures ok <==> swarm.best.Some? || swarm.dimensions == 0
      ensures ok ==> State() == ParticleAfter(swarm.f, old(State()), Global(swarm.best), d)
      ensures !ok ==> State() == old(State())
    {
      var n := swarm.dimensions;
      if swarm.best.None? && n > 0 {
        return false;
      }
      var g := Global(swarm.best);
      ghost var p0 := State();
      ghost var v1 := NewVelocity(p0, g, d);
      ghost var x1 := Add(p0.position, v1);
      var k := 0;
      while k < n
        invariant 0 <= k <= n
        invariant |velocity| == n && |position| == n && best == p0.best
        invariant forall j :: 0 <= j < k ==> velocity[j] == v1[j] && position[j] == x1[j]
        invariant forall j :: k <= j < n ==> velocity[j] == p0.velocity[j] && position[j] == p0.position[j]
      {
        velocity := velocity[k := velocity[k] + (2.0 * d.r1[k] * (best[k] - position[k]) + 2.0 * d.r2[k] * (g[k] - position[k]))];
        assert velocity[k] == v1[k];
        position := position[k := position[k] + velocity[k]];
        assert position[k] == x1[k];
        k := k + 1;
      }
      assert velocity == v1 && position == x1;
      if swarm.f(position) < swarm.f(best) {
        best := position;
      }
      ok := true;
    }
  }

  class Swarm {
    /** The module-level objective `f`, taking one argument per dimension. */
    const f: Vector -> real
    /** The number of arguments `f` takes. */
    const dimensions: nat
    var particles: seq<Particle>
    var best: Option<Vector>
    var time: nat

    /** `Swarm()`; the dimension count the source reads off `f`'s signature
        is passed in. */
    constructor (f: Vector -> real, dimensions: nat)
      ensures this.f == f && this.dimensions == dimensions
      ensures particles == [] && best == None && time == 0
      ensures Valid()
    {
      this.f := f;
      this.dimensions := dimensions;
      particles := [];
      best := None;
      time := 0;
    }

    /** Every particle belongs to this swarm, appears once and has
        `dimensions` components in each list, and so has the best. */
    ghost predicate Shapes()
      reads this, particles
    {
      (forall i :: 0 <= i < |particles| ==> particles[i].swarm == this && Shaped(particles[i].State(), dimensions))
      && (forall i, j :: 0 <= i < j < |particles| ==> particles[i] != particles[j])
      && (best.Some? ==> |best.value| == dimensions)
    }

    /** A swarm with particles has a best. */
    ghost predicate Valid()
      reads this, particles
    {
      Shapes() && (particles != [] ==> best.Some?)
    }

    /** The best is no worse than any particle's current position. */
    ghost predicate BestDominates()
      reads this, particles
    {
      best.Some? && forall i :: 0 <= i < |particles| ==> f(best.value) <= f(particles[i].position)
    }

    function Positions(): seq<Vector>
      reads this, particles
    {
      seq(|particles|, i requires 0 <= i < |particles| reads this, particles => particles[i].position)
    }

    ghost function States(): seq<ParticleState>
      reads this, particles
    {
      seq(|particles|, i requires 0 <= i < |particles| reads this, particles => particles[i].State())
    }

    /** `add(particle)`: append the particle, then update the best. */
    method Add(particle: Particle)
      requires Valid() && particle.swarm == this && particle !in particles
      requires Shaped(particle.State(), dimensions)
      modifies this
      ensures particles == old(particles) + [particle] && time == old(time)
      ensures best == UpdatedBest(f, old(best), Positions())
      ensures Valid() && BestDominates()
    {
      particles := particles + [particle];
      var ok := UpdateBest();
    }

    /** `_update_best()`: the position of the particle `min` picks becomes
        the best when there is none yet or it is strictly better. `min` of an
        empty list raises a `ValueError` before anything changes: then `ok`
        is false. */
    method UpdateBest() returns (ok: bool)
      requires Shapes()
      modifies this
      ensures particles == old(particles) && time == old(time)
      ensures ok <==> particles != []
      ensures ok ==> best == UpdatedBest(f, old(best), Positions())
      ensures !ok ==> best == old(best)
      ensures old(best).Some? ==> best.Some? && f(best.value) <= f(old(best).value)
      ensures Shapes() && (ok ==> BestDominates())
    {
      if particles == [] {
        return false;
      }
      var xs := Positions();
      assert forall i :: 0 <= i < |particles| ==> xs[i] == particles[i].position;
      var cur := particles[FirstMin(f, xs)].position;
      if best.None? || f(cur) < f(best.value) {
        best := Some(cur);
      }
      assert Positions() == xs;
      UpdatedBestReplaces(f, old(best), xs);
      UpdatedBestDominates(f, old(best), xs);
      UpdatedBestMonotone(f, old(best), xs);
      ok := true;
    }

    /** `step()`: advance the clock, step every particle in list order
        against the current best, then update the best. On an empty swarm
        `_update_best` raises after the clock has moved: then `ok` is
        false. */
    method Step(ds: seq<Draw>) returns (ok: bool)
      requires Valid() && |ds| == |particles|
      requires forall i :: 0 <= i < |ds| ==> ValidDraw(ds[i], dimensions)
      modifies this, particles
      ensures particles == old(particles) && time == old(time) + 1
      ensures States() == StepAll(f, old(States()), Global(old(best)), ds)
      ensures ok <==> particles != []
      ensures ok ==> best == UpdatedBest(f, old(best), Positions())
      ensures !ok ==> best == old(best)
      ensures old(best).Some? ==> best.Some? && f(best.value) <= f(old(best).value)
      ensures Valid() && (ok ==> BestDominates())
    {
      time := time + 1;
      StepParticles(ds);
      ghost var s1 := States();
      ok := UpdateBest();
      assert States() == s1;
    }

    /** The loop of `step()`: every particle, in list order, takes one step
        toward the same swarm best. */
    method StepParticles(ds: seq<Draw>)
      requires Valid() && |ds| == |particles|
      requires forall i :: 0 <= i < |ds| ==> ValidDraw(ds[i], dimensions)
      modifies particles
      ensures States() == StepAll(f, old(States()), Global(best), ds)
      ensures Valid()
    {
      ghost var s0 := States();
      var i := 0;
      while i < |particles|
        invariant 0 <= i <= |particles|
        invariant forall k :: 0 <= k < i ==> particles[k].State() == ParticleAfter(f, s0[k], Global(best), ds[k])
        invariant forall k :: i <= k < |particles| ==> particles[k].State() == s0[k]
      {
        var stepped := particles[i].Step(ds[i]);
        i := i + 1;
      }
    }
  }
}
