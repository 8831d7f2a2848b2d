/** What swarm_opt.py computes, as values: one particle's step, the swarm
    best's update through Python's `min` over `__cmp__`, and the objective
    `polynomial`. The classes in swarm_opt.dfy are proved against these
    functions. The objective `f` the module selects is a parameter here. */
module SwarmSpec {
  import opened Vectors

  /** The three lists a `Particle` holds. */
  datatype ParticleState = ParticleState(position: Vector, velocity: Vector, best: Vector)

  /** The two `random.random()` values one `Particle.step` draws for each
      dimension: `r1[k]` scales the pull toward the particle's own best,
      `r2[k]` the pull toward the swarm's best. */
  datatype Draw = Draw(r1: Vector, r2: Vector)

  predicate Shaped(p: ParticleState, n: nat)
  {
    |p.position| == n && |p.velocity| == n && |p.best| == n
  }

  predicate ValidDraw(d: Draw, n: nat)
  {
    |d.r1| == n && |d.r2| == n
  }

  /** `_random_vector` applied to the `random.random()` values `u`. */
  function RandomVector(u: Vector): (r: Vector)
    ensures |r| == |u|
  {
    seq(|u|, k requires 0 <= k < |u| => (u[k] - 0.5) * 2.0)
  }

  /** Draws from [0, 1) give components in [-1, 1). */
  lemma RandomVectorRange(u: Vector)
    requires AllIn(u, 0.0, 1.0)
    ensures AllIn(RandomVector(u), -1.0, 1.0)
  {
  }

  /** The lists `Particle.__init__` stores: a given position or velocity is
      taken as it is, a missing one is drawn with `_random_vector` (from `u1`
      and `u2` respectively), and a missing best is a copy of the position. */
  function NewParticle(best: Option<Vector>, position: Option<Vector>, velocity: Option<Vector>,
                       u1: Vector, u2: Vector): (p: ParticleState)
    ensures position.Some? ==> p.position == position.value
    ensures velocity.Some? ==> p.velocity == velocity.value
    ensures best.Some? ==> p.best == best.value
    ensures best.None? ==> p.best == p.position
    ensures position.None? ==> p.position == RandomVector(u1)
    ensures velocity.None? ==> p.velocity == RandomVector(u2)
  {
    var x := if position.None? then RandomVector(u1) else position.value;
    var v := if velocity.None? then RandomVector(u2) else velocity.value;
    ParticleState(x, v, if best.None? then x else best.value)
  }

  /** A particle built with every list either given with `n` components or
      drawn from `n` values has `n` components in each list. */
  lemma NewParticleShaped(best: Option<Vector>, position: Option<Vector>, velocity: Option<Vector>,
                          u1: Vector, u2: Vector, n: nat)
    requires |u1| == n && |u2| == n
    requires position.Some? ==> |position.value| == n
    requires velocity.Some? ==> |velocity.value| == n
    requires best.Some? ==> |best.value| == n
    ensures Shaped(NewParticle(best, position, velocity, u1, u2), n)
  {
  }

  /** The velocity after the first loop of `Particle.step`: component `k`
      grows by `2 r1 (best - position) + 2 r2 (swarm best - position)`. */
  function NewVelocity(p: ParticleState, g: Vector, d: Draw): (v: Vector)
    requires Shaped(p, |g|) && ValidDraw(d, |g|)
    ensures |v| == |g|
  {
    seq(|g|, k requires 0 <= k < |g| =>
      p.velocity[k] + (2.0 * d.r1[k] * (p.best[k] - p.position[k]) + 2.0 * d.r2[k] * (g[k] - p.position[k])))
  }

  /** With draws in [0, 1), the change of each velocity component lies
      between the negative parts and the positive parts of twice the two
      distances: the particle is pulled toward both bests, never past twice
      their distance. */
  lemma VelocityPullBounded(p: ParticleState, g: Vector, d: Draw, k: nat)
    requires Shaped(p, |g|) && ValidDraw(d, |g|) && AllIn(d.r1, 0.0, 1.0) && AllIn(d.r2, 0.0, 1.0)
    requires k < |g|
    ensures Min0(2.0 * (p.best[k] - p.position[k])) + Min0(2.0 * (g[k] - p.position[k]))
      <= NewVelocity(p, g, d)[k] - p.velocity[k]
      <= Max0(2.0 * (p.best[k] - p.position[k])) + Max0(2.0 * (g[k] - p.position[k]))
  {
    var a, b := 2.0 * (p.best[k] - p.position[k]), 2.0 * (g[k] - p.position[k]);
    assert NewVelocity(p, g, d)[k] - p.velocity[k] == d.r1[k] * a + d.r2[k] * b;
    ScaledSumBetween(d.r1[k], a, d.r2[k], b);
  }

  /** A particle sitting on both bests keeps its velocity. */
  lemma VelocityAtRest(p: ParticleState, g: Vector, d: Draw)
    requires Shaped(p, |g|) && ValidDraw(d, |g|) && p.best == p.position && g == p.position
    ensures NewVelocity(p, g, d) == p.velocity
  {
  }

  /** `Particle.step` with the swarm best `g`: new velocity, then
      `position += velocity` component by component, then the personal best
      moves to the new position exactly when `f` is strictly lower there. */
  function ParticleAfter(f: Vector -> real, p: ParticleState, g: Vector, d: Draw): (q: ParticleState)
    requires Shaped(p, |g|) && ValidDraw(d, |g|)
    ensures Shaped(q, |g|)
    ensures q.velocity == NewVelocity(p, g, d)
    ensures forall k :: 0 <= k < |g| ==> q.position[k] == p.position[k] + q.velocity[k]
  {
    var v := NewVelocity(p, g, d);
    var x := Add(p.position, v);
    ParticleState(x, v, if f(x) < f(p.best) then x else p.best)
  }

  /** A step never makes the personal best worse, leaves it no worse than
      the new position, and changes it only on a strict improvement. */
  lemma ParticleAfterBest(f: Vector -> real, p: ParticleState, g: Vector, d: Draw)
    requires Shaped(p, |g|) && ValidDraw(d, |g|)
    ensures var q := ParticleAfter(f, p, g, d);
      f(q.best) <= f(p.best) && f(q.best) <= f(q.position) &&
      (q.best != p.best ==> q.best == q.position && f(q.position) < f(p.best)) &&
      (f(q.position) < f(p.best) ==> q.best == q.position)
  {
  }

  /** Every particle of `ps` stepped once with its own draws and the same
      swarm best `g` (the loop of `Swarm.step`). */
  function StepAll(f: Vector -> real, ps: seq<ParticleState>, g: Vector, ds: seq<Draw>): (r: seq<ParticleState>)
    requires |ds| == |ps|
    requires forall i :: 0 <= i < |ps| ==> Shaped(ps[i], |g|) && ValidDraw(ds[i], |g|)
    ensures |r| == |ps|
    ensures forall i :: 0 <= i < |ps| ==> r[i] == ParticleAfter(f, ps[i], g, ds[i])
  {
    seq(|ps|, i requires 0 <= i < |ps| => ParticleAfter(f, ps[i], g, ds[i]))
  }

  /** After a swarm step every personal best is at least as good as before. */
  lemma StepAllBestsMonotone(f: Vector -> real, ps: seq<ParticleState>, g: Vector, ds: seq<Draw>, i: nat)
    requires |ds| == |ps|
    requires forall i :: 0 <= i < |ps| ==> Shaped(ps[i], |g|) && ValidDraw(ds[i], |g|)
    requires i < |ps|
    ensures f(StepAll(f, ps, g, ds)[i].best) <= f(ps[i].best)
    ensures Shaped(StepAll(f, ps, g, ds)[i], |g|)
  {
    ParticleAfterBest(f, ps[i], g, ds[i]);
  }

  /** `Particle.__cmp__` on the positions `a` and `b`: the sign of
      `f(a) - f(b)`. */
  function Cmp(f: Vector -> real, a: Vector, b: Vector): (r: int)
    ensures r == -1 || r == 0 || r == 1
  {
    var delta := f(a) - f(b);
    if delta < 0.0 then -1 else if delta == 0.0 then 0 else 1
  }

  /** `__cmp__` orders particles by the objective at their positions. */
  lemma CmpSign(f: Vector -> real, a: Vector, b: Vector)
    ensures Cmp(f, a, b) < 0 <==> f(a) < f(b)
    ensures Cmp(f, a, b) == 0 <==> f(a) == f(b)
    ensures Cmp(f, a, b) > 0 <==> f(a) > f(b)
    ensures Cmp(f, a, b) == -Cmp(f, b, a)
  {
  }

  /** The index Python 2's `min` picks from `xs` when items compare by
      `Cmp`: it keeps its current choice unless a later item is strictly
      smaller, so it returns the first position where `f` is least. */
  function FirstMin(f: Vector -> real, xs: seq<Vector>): (m: nat)
    requires xs != []
    ensures IsFirstMin(f, xs, m)
    decreases |xs|
  {
    if |xs| == 1 then 0
    else
      var j := FirstMin(f, xs[..|xs| - 1]);
      if Cmp(f, xs[|xs| - 1], xs[j]) < 0 then |xs| - 1 else j
  }

  /** `_update_best` on a non-empty swarm whose positions are `xs`: the
      position `min` picks replaces the best when there is none yet or when
      it is strictly better. */
  function UpdatedBest(f: Vector -> real, b: Option<Vector>, xs: seq<Vector>): (r: Option<Vector>)
    requires xs != []
    ensures r.Some?
  {
    var cur := xs[FirstMin(f, xs)];
    if b.None? || f(cur) < f(b.value) then Some(cur) else b
  }

  /** The updated best is at least as good as every current position. */
  lemma UpdatedBestDominates(f: Vector -> real, b: Option<Vector>, xs: seq<Vector>)
    requires xs != []
    ensures forall k :: 0 <= k < |xs| ==> f(UpdatedBest(f, b, xs).value) <= f(xs[k])
  {
  }

  /** The swarm best never gets worse. */
  lemma UpdatedBestMonotone(f: Vector -> real, b: Option<Vector>, xs: seq<Vector>)
    requires xs != []
    ensures b.Some? ==> f(UpdatedBest(f, b, xs).value) <= f(b.value)
  {
  }

  /** The best is kept exactly when it already beats or ties every
      position; otherwise it becomes a copy of one of the positions, strictly
      better than the old best. */
  lemma UpdatedBestReplaces(f: Vector -> real, b: Option<Vector>, xs: seq<Vector>)
    requires xs != []
    ensures var r := UpdatedBest(f, b, xs);
      (r == b <==> b.Some? && forall k :: 0 <= k < |xs| ==> f(b.value) <= f(xs[k])) &&
      (r != b ==> r.value in xs && (b.Some? ==> f(r.value) < f(b.value)))
  {
    var r := UpdatedBest(f, b, xs);
    var m := FirstMin(f, xs);
    if b.Some? && forall k :: 0 <= k < |xs| ==> f(b.value) <= f(xs[k]) {
      assert f(b.value) <= f(xs[m]);
    }
  }

  /** `polynomial(x)`: `x ** 2` after shifting the minimum to 0. */
  function Polynomial(x: real): (y: real)
    ensures y >= 0.0
  {
    Sq(x - 0.0)
  }

  /** `polynomial` is zero exactly at its minimum, 0, and positive elsewhere. */
  lemma PolynomialMinimum(x: real)
    ensures Polynomial(x) >= 0.0
    ensures Polynomial(x) == 0.0 <==> x == 0.0
    ensures Polynomial(0.0) <= Polynomial(x)
  {
    if x != 0.0 {
      SquarePositive(x - 0.0);
    }
  }
}
