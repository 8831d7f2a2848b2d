/** The stateful side of pso.py: the `RunNumberTimes` stopping condition and
    `WikiPSOOptimiser` with its `step` and `run` loops. Each method is proved
    to leave exactly the state, and emit exactly the events, that the
    functions of `PsoSpec` describe, so the lemmas proved there (bests never
    get worse, the global best dominates, events come in order) hold of the
    object. */
module Pso {
  import opened Vectors
  import opened PsoEvents
  import opened PsoSpec

  /** Stops a run after `n` steps. */
  class RunNumberTimes {
    var n: int

    constructor (n: int)
      ensures this.n == n
    {
      this.n := n;
    }

    /** `step()`: count down, and allow one more step while the count is not
        negative. */
    method Step() returns (go: bool)
      modifies this
      ensures n == old(n) - 1
      ensures go <==> n >= 0
    {
      n := n - 1;
      go := n >= 0;
    }
  }

  /** The loop of `run` stops at the first negative count, having taken
      `max(n0, 0)` steps from a count of `n0`. */
  lemma StepCount(n0: int, k: nat, n: int)
    requires n == n0 - k - 1 && n < 0 && (k == 0 || n >= -1)
    ensures k == if n0 > 0 then n0 else 0
  {
  }

  /** `WikiPSOOptimiser`, with its base classes `PSOOptimiser` and `Optimiser`
      merged in and the `EventEmitter` base held as a component. */
  class WikiPSOOptimiser {
    /** The objective, its number of dimensions and the three weights. */
    const c: Config
    const nParticles: nat
    const emitter: EventEmitter
    var particles: seq<Particle>
    var best: Option<Vector>
    var steps: nat

    /** Every vector has `n_dims` components, there are `n_particles`
        particles, and the global best dominates every personal best. */
    ghost predicate Valid()
      reads this
    {
      WellShaped(State(particles, best), c.n) && |particles| == nParticles && Dominates(c.f, State(particles, best))
    }

    /** `__init__`: create the particles from their initial draws (position
        and velocity, each from `uniform(-1, 1)`), keeping as global best a
        copy of the first position of least objective value. */
    constructor (c: Config, nParticles: nat, inits: seq<(Vector, Vector)>)
      requires |inits| == nParticles
      requires forall i :: 0 <= i < |inits| ==>
        |inits[i].0| == c.n && |inits[i].1| == c.n
      ensures Valid() && fresh(emitter)
      ensures this.c == c && this.nParticles == nParticles
      ensures State(particles, best) == Initial(c.f, inits) && steps == 0
      ensures emitter.listeners == [] && emitter.emitted == [] && emitter.calls == []
    {
      var ps: seq<Particle> := [];
      var b: Option<Vector> := None;
      var i: nat := 0;
      while i < |inits|
        invariant i <= |inits|
        invariant ps == NewParticles(inits[..i]) && b == InitialBest(c.f, Positions(inits[..i]))
      {
        var (x, v) := inits[i];
        InitialAppend(c.f, inits, i);
        ps := ps + [NewParticle(x, v)];
        if b.None? || c.f(x) < c.f(b.value) {
          b := Some(x);
        }
        i := i + 1;
      }
      assert inits[..i] == inits;
      InitialValid(c.f, c.n, inits);
      this.c := c;
      this.nParticles := nParticles;
      emitter := new EventEmitter();
      particles := ps;
      best := b;
      steps := 0;
    }

    /** `listen(f)`, inherited from `EventEmitter`. */
    method Listen(l: Listener)
      modifies emitter
      ensures emitter.listeners == old(emitter.listeners) + [l]
      ensures emitter.emitted == old(emitter.emitted) && emitter.calls == old(emitter.calls)
    {
      emitter.Listen(l);
    }

    /** `PSOOptimiser.step`, with `update_vel` drawing `ds[i]` for particle
        `i`: every particle moves in index order, and the bests and events
        are exactly those of `PsoSpec.Step`. */
    method Step(ds: seq<Draw>)
      requires Valid() && ValidDraws(ds, c.n) && |ds| == |particles|
      modifies this, emitter
      ensures Valid() && steps == old(steps)
      ensures State(particles, best) == PsoSpec.Step(c, old(State(particles, best)), ds, steps).state
      ensures emitter.listeners == old(emitter.listeners)
      ensures emitter.emitted == old(emitter.emitted) + PsoSpec.Step(c, old(State(particles, best)), ds, steps).events
      ensures emitter.calls ==
        old(emitter.calls) + Broadcast(emitter.listeners, PsoSpec.Step(c, old(State(particles, best)), ds, steps).events)
    {
      ghost var s0 := State(particles, best);
      var i: nat := 0;
      while i < |particles|
        invariant i <= |particles| == |s0.particles|
        invariant steps == old(steps) && emitter.listeners == old(emitter.listeners)
        invariant StepTracked(c, s0, ds, steps, old(emitter.emitted), old(emitter.calls),
          i, State(particles, best), emitter.emitted, emitter.calls, emitter.listeners)
      {
        TrackedTurn(s0, ds, old(emitter.emitted), old(emitter.calls), i);
        i := i + 1;
      }
      assert i == |s0.particles|;
      StepUpToPreservesDominance(c, s0, ds, steps, i);
    }

    /** Turn `i` of `step`, extending the trace of the step so far. */
    method TrackedTurn(ghost s0: State, ds: seq<Draw>, ghost e0: seq<Event>, ghost c0: seq<Call>, i: nat)
      requires i < |s0.particles|
      requires StepTracked(c, s0, ds, steps, e0, c0, i, State(particles, best),
        emitter.emitted, emitter.calls, emitter.listeners)
      modifies this, emitter
      ensures steps == old(steps) && emitter.listeners == old(emitter.listeners)
      ensures StepTracked(c, s0, ds, steps, e0, c0, i + 1, State(particles, best),
        emitter.emitted, emitter.calls, emitter.listeners)
    {
      ghost var prev, e1, c1 := State(particles, best), emitter.emitted, emitter.calls;
      Turn(i, ds[i]);
      TurnAdvances(c, s0, ds, steps, e0, c0, i, prev, e1, c1,
        State(particles, best), emitter.emitted, emitter.calls, emitter.listeners);
    }

    /** Particle `i`'s turn in `step`: `update_vel`, `x += v`, the
        `update_particle` event, then `ImproveBests`. */
    method Turn(i: nat, d: Draw)
      requires WellShaped(State(particles, best), c.n) && i < |particles| && ValidDraw(d, c.n)
      modifies this, emitter
      ensures var o := ParticleStep(c, old(particles[i]), old(best.value), d, i, steps);
        particles == old(particles)[i := o.q] && best == Some(o.best) &&
        emitter.emitted == old(emitter.emitted) + o.events &&
        emitter.calls == old(emitter.calls) + Broadcast(emitter.listeners, o.events)
      ensures steps == old(steps) && emitter.listeners == old(emitter.listeners)
    {
      var q := particles[i];
      q := q.(v := UpdateVel(c.w, q, best.value, d));
      q := q.(x := Add(q.x, q.v));
      var moved := UpdateParticle(i, q.x, q.v, c.f(q.x), steps);
      emitter.Emit(moved);
      particles := particles[i := q];
      ghost var e1, c1 := emitter.emitted, emitter.calls;
      ImproveBests(i);
      ghost var r := Improve(c, q, old(best.value), i, steps);
      EventsAppend(emitter.emitted, old(emitter.emitted), [moved], r.events);
      CallsPrepend(emitter.calls, old(emitter.calls), emitter.listeners, moved, r.events);
    }

    /** The end of particle `i`'s turn: keep its new position as its
        personal best on a strict improvement, and that as the global best on
        a further strict improvement, announced by an `update_best` event. */
    method ImproveBests(i: nat)
      requires WellShaped(State(particles, best), c.n) && i < |particles|
      modifies this, emitter
      ensures var r := Improve(c, old(particles[i]), old(best.value), i, steps);
        particles == old(particles)[i := r.q] && best == Some(r.best) &&
        emitter.emitted == old(emitter.emitted) + r.events &&
        emitter.calls == old(emitter.calls) + Broadcast(emitter.listeners, r.events)
      ensures steps == old(steps) && emitter.listeners == old(emitter.listeners)
    {
      var q := particles[i];
      if c.f(q.x) < c.f(q.p) {
        q := q.(p := q.x);
        particles := particles[i := q];
        if c.f(q.p) < c.f(best.value) {
          best := Some(q.p);
          var improved := UpdateBest(i, best.value, c.f(best.value), steps);
          emitter.Emit(improved);
          BroadcastSnoc(emitter.listeners, [], improved);
        }
      }
    }

    /** `Optimiser.run`: consult the condition before every step and count
        the steps taken. With `RunNumberTimes(k)` this takes `max(k, 0)`
        steps after `max(k, 0) + 1` consultations, and the state and events
        are those of `PsoSpec.RunSteps`. */
    method Run(cond: RunNumberTimes, dss: seq<seq<Draw>>)
      requires Valid() && ValidRunDraws(dss, |particles|, c.n) && cond.n <= |dss|
      modifies this, emitter, cond
      ensures Valid()
      ensures var k := if old(cond.n) > 0 then old(cond.n) else 0;
        steps == old(steps) + k &&
        cond.n == old(cond.n) - k - 1 &&
        State(particles, best) == RunSteps(c, old(State(particles, best)), dss, old(steps), k).state &&
        emitter.listeners == old(emitter.listeners) &&
        emitter.emitted == old(emitter.emitted) + RunSteps(c, old(State(particles, best)), dss, old(steps), k).events &&
        emitter.calls ==
          old(emitter.calls) + Broadcast(emitter.listeners, RunSteps(c, old(State(particles, best)), dss, old(steps), k).events)
    {
      ghost var s0 := State(particles, best);
      var k: nat := 0;
      var go := cond.Step();
      while go
        invariant cond.n == old(cond.n) - k - 1 && (go <==> cond.n >= 0) && (k == 0 || cond.n >= -1)
        invariant Valid() && emitter.listeners == old(emitter.listeners)
        invariant RunTracked(c, s0, dss, old(steps), old(emitter.emitted), old(emitter.calls),
          k, steps, State(particles, best), emitter.emitted, emitter.calls, emitter.listeners)
        decreases if go then cond.n + 1 else 0
      {
        go := StepAndCount(cond, s0, dss, old(steps), old(emitter.emitted), old(emitter.calls), k);
        k := k + 1;
      }
      StepCount(old(cond.n), k, cond.n);
    }

    /** One pass of `run`'s loop: `self.step()` and `self.steps += 1`, then
        the next consultation of the condition. */
    method StepAndCount(cond: RunNumberTimes, ghost s0: State, dss: seq<seq<Draw>>, ghost steps0: nat,
                        ghost e0: seq<Event>, ghost c0: seq<Call>, k: nat) returns (go: bool)
      requires Valid() && k < |dss|
      requires RunTracked(c, s0, dss, steps0, e0, c0, k, steps, State(particles, best),
        emitter.emitted, emitter.calls, emitter.listeners)
      modifies this, emitter, cond
      ensures cond.n == old(cond.n) - 1 && (go <==> cond.n >= 0)
      ensures Valid() && emitter.listeners == old(emitter.listeners)
      ensures RunTracked(c, s0, dss, steps0, e0, c0, k + 1, steps, State(particles, best),
        emitter.emitted, emitter.calls, emitter.listeners)
    {
      ghost var prev, e1, c1 := State(particles, best), emitter.emitted, emitter.calls;
      Step(dss[k]);
      RunAdvances(c, s0, dss, steps0, e0, c0, k, steps, prev, e1, c1,
        State(particles, best), emitter.emitted, emitter.calls, emitter.listeners);
      steps := steps + 1;
      go := cond.Step();
    }
  }
}
