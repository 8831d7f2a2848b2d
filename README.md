# Particle swarm optimisation, modelled in Dafny

This project models two particle swarm optimisers written in Python.

`pso.py` is the numpy version.
- A `WikiPSOOptimiser` holds a list of particles. Each particle has a position `x`, a velocity `v` and a best seen position `p`. The optimiser also holds a global best and a step counter.
- Each `step` moves every particle in index order:
  - the velocity gets inertia plus random pulls toward `p` and toward the global best;
  - the position moves by the velocity;
  - `p` follows the new position on a strict improvement, and so does the global best.
- Every move and every improvement of the global best is announced to the listeners registered with its `EventEmitter`.
- `run` steps the optimiser until a `RunNumberTimes` stopping condition says stop.
- `Polynomial` is the squared distance to a chosen minimum.

`swarm_opt.py` is the plain-Python version.
- A `Swarm` owns `Particle` objects that update their own lists in place.
- `_update_best` takes the position Python's `min` picks through `Particle.__cmp__`. It becomes the swarm best only when there is no best yet or it is strictly better than the old best.
- `polynomial` is `x ** 2`.

How the model is laid out:
- The modules `PsoSpec` and `SwarmSpec` describe what one particle's turn, one step and one run compute. They are functions of the state and of the random draws. The lemmas about them are the algorithm's promises:
  - the personal and global bests never get worse;
  - the global best dominates every personal best;
  - vector lengths are kept;
  - the events of a step come in particle order, each `update_best` right after its particle's `update_particle`;
  - `__cmp__` has the sign of the objective difference;
  - the polynomials are zero exactly at their minimum.
- The classes in `Pso` (with `PsoEvents`) and `SwarmOpt` keep the source's objects and their updates in place. Their methods are proved to leave exactly the state, and emit exactly the events, that those functions describe.
- `Vectors` holds the element-wise vector operations and a few facts about real arithmetic.
- Some definitions restate their elements in their `ensures` only so that the proofs using them stay small: `Vectors.Add`, `PsoEvents.Deliver`, `PsoSpec.NewParticle`, `PsoSpec.StepLogs`, `SwarmSpec.NewParticle` and `SwarmSpec.StepAll`. These are definitions, not proved properties. What they model is promised by the methods proved against them and by the lemmas in the table below.

## Model

| member | source | states |
|---|---|---|
| PsoEvents.EventEmitter.constructor | pso.py:43-44 | A new emitter has no listeners, and nothing has been emitted or called yet. |
| PsoEvents.EventEmitter.Listen | pso.py:46-47 | The listener is added after the ones already registered. Nothing is emitted or called. |
| PsoEvents.EventEmitter.Emit | pso.py:49-51 | The event is logged once. The calls made are exactly one per listener, in registration order, each with the same event. The listener list is unchanged. |
| PsoEvents.BroadcastAppend | pso.py:49-51 | Emitting `a` and then `b` makes the calls of `a` followed by the calls of `b`. |
| PsoEvents.BroadcastAt | pso.py:49-51 | In a run of emits, the calls of event `i` form one contiguous block after those of the earlier events. Entry `j` of that block is listener `j` receiving event `i`. |
| PsoEvents.BroadcastLength | pso.py:49-51 | The number of calls is the number of events times the number of listeners. |
| PsoObjective.SumSquaredDiff | pso.py:25 | The sum of squared differences is never negative. |
| PsoObjective.SumSquaredDiffZero | pso.py:25 | The sum of squared differences is zero exactly when the two vectors are equal. |
| PsoObjective.PolynomialMinimum | pso.py:18-25 | `Polynomial.__call__` is non-negative and zero exactly at `minimum`. `minimum` is its global minimiser. |
| Pso.RunNumberTimes.constructor | pso.py:65-67 | The counter starts at `n`. |
| Pso.RunNumberTimes.Step | pso.py:69-71 | The counter drops by one. The answer is true exactly when the new counter is non-negative. |
| Pso.StepCount | pso.py:83-87 | The arithmetic of the `run` loop's exit: once the counter is first negative, the loop has taken `max(n, 0)` steps from a start of `n`. |
| Pso.WikiPSOOptimiser.constructor | pso.py:107-119 | The particles are built from their initial draws with `p` a copy of `x`. The global best is the first position of least objective value. All vectors have `n_dims` components, and the global best dominates. The step counter is 0 and the emitter is fresh. |
| Pso.WikiPSOOptimiser.Listen | pso.py:46-47 | The inherited `listen` appends the listener and emits nothing. |
| Pso.WikiPSOOptimiser.Step | pso.py:121-133 | The new state, the emitted events and the listener calls are exactly those of `PsoSpec.Step` from the old state. Shapes and dominance are kept, and the step counter is unchanged. |
| Pso.WikiPSOOptimiser.TrackedTurn | pso.py:122-133 | One pass of `step`'s loop extends the state and the logs from `i` turns to `i + 1` turns of `PsoSpec.StepUpTo`. |
| Pso.WikiPSOOptimiser.Turn | pso.py:123-133 | Particle `i` becomes the particle of `ParticleStep`, and the global best becomes its best. The events and calls are extended by its events, and nothing else changes. |
| Pso.WikiPSOOptimiser.ImproveBests | pso.py:128-133 | On strict improvements, the personal best and then the global best follow the new position, announced by one `update_best` event. Otherwise nothing changes. |
| Pso.WikiPSOOptimiser.Run | pso.py:83-87 | With `RunNumberTimes(n)`, the run takes `max(n, 0)` steps. The counter ends at `n - max(n, 0) - 1`, one consultation more than the steps. `steps` grows by the number of steps taken. State, events and calls are those of `PsoSpec.RunSteps`. |
| Pso.WikiPSOOptimiser.StepAndCount | pso.py:85-87 | One pass of `run`'s loop steps once, counts the step and consults the condition once more. |
| PsoSpec.InitialBestIsFirstMinimum | pso.py:113-119 | The best the constructor's loop keeps is absent exactly for no particles. Otherwise it is the first position of least objective value: no position is better and every earlier one is strictly worse. |
| PsoSpec.InitialAppend | pso.py:114-119 | One more loop iteration appends the particle. It replaces the best only if there is none or the new position is strictly better. |
| PsoSpec.InitialValid | pso.py:107-119 | After construction, all vectors have `n_dims` components. There is a best exactly when there is a particle, and it dominates every personal best. |
| PsoSpec.VelocityAt | pso.py:152-155 | Component `k` of the new velocity is `w_vel v[k] + w_local rp[k] (p[k] - x[k]) + w_global rg[k] (best[k] - x[k])`. |
| PsoSpec.VelocityPull | pso.py:152-155 | Apart from inertia, the velocity change is the draw-weighted sum of the weighted distances to both bests. |
| PsoSpec.PullBounded | pso.py:148-155 | With draws in [0, 1), the non-inertial part of each component lies between the sum of the negative parts and the sum of the positive parts of the two weighted distances. |
| PsoSpec.Move | pso.py:123-124 | The moved particle keeps `p` and the vector lengths. Each position component grows by the new velocity's component. |
| PsoSpec.ParticleStepOutcome | pso.py:123-133 | In one turn, the personal best changes only to the new position, and only when that is strictly better. The global best changes only to that personal best, and only when it is strictly better. Neither gets worse. The turn emits `update_particle` with the new `x`, `v` and `f(x)`. It then emits `update_best` exactly when the global best improved. |
| PsoSpec.ParticleStepEvents | pso.py:125-133 | A turn emits one `update_particle`, then possibly one `update_best`, both for particle `i` and the current counter. |
| PsoSpec.StepUpTo | pso.py:122-133 | During a step, all shapes are kept and the number of particles is unchanged. |
| PsoSpec.Step | pso.py:121-133 | A step keeps every vector's length and the number of particles. |
| PsoSpec.StepUpToLeavesRest | pso.py:122 | Turns go in index order: after `k` turns, particles `k` and up are untouched. |
| PsoSpec.StepUpToBestMonotone | pso.py:130-131 | Within a step the global best never gets worse. |
| PsoSpec.StepUpToPersonalBestMonotone | pso.py:128-129 | Within a step no personal best gets worse. |
| PsoSpec.StepUpToPreservesDominance | pso.py:128-133 | If the global best dominates every personal best before a turn, it still does after the turn. |
| PsoSpec.StepUpToParticleIndices | pso.py:122-126 | After `k` turns, the `update_particle` events name particles `0, 1, ..., k - 1`, each once, in that order. |
| PsoSpec.StepEventOrder | pso.py:121-133 | A step's events are in non-decreasing particle order. Each `update_best` directly follows the `update_particle` of the same particle. All events carry the step counter. |
| PsoSpec.RunSteps | pso.py:83-87 | A run keeps every vector's length and the number of particles. |
| PsoSpec.RunBestMonotone | pso.py:83-87 | Over any number of steps the global best never gets worse. |
| PsoSpec.RunPersonalBestMonotone | pso.py:83-87 | Over any number of steps no personal best gets worse. |
| PsoSpec.RunPreservesDominance | pso.py:83-87 | Over any number of steps the global best keeps dominating every personal best. |
| PsoSpec.RunEventSteps | pso.py:83-87 | The events of `k` steps carry step counters that never decrease and lie in `[steps0, steps0 + k)`. |
| SwarmSpec.RandomVector | swarm_opt.py:43-45 | `_random_vector` has one component per draw. |
| SwarmSpec.RandomVectorRange | swarm_opt.py:43-45 | Draws in [0, 1) give components in [-1, 1). |
| SwarmSpec.NewParticleShaped | swarm_opt.py:36-40 | If each list is given or drawn with `n` components, all three lists have `n` components. |
| SwarmSpec.VelocityPullBounded | swarm_opt.py:50-56 | With draws in [0, 1), each velocity change lies between the negative parts and the positive parts of twice the two distances. |
| SwarmSpec.VelocityAtRest | swarm_opt.py:50-56 | A particle sitting on both bests keeps its velocity. |
| SwarmSpec.ParticleAfter | swarm_opt.py:48-63 | After a step the velocity is the pulled one, and each position component grew by the new velocity. All lists keep their length. |
| SwarmSpec.ParticleAfterBest | swarm_opt.py:61-63 | The personal best never gets worse and is no worse than the new position. It changes only to the new position, and exactly when that is strictly better. |
| SwarmSpec.StepAllBestsMonotone | swarm_opt.py:116-117 | After a swarm step no personal best is worse, and shapes are kept. |
| SwarmSpec.Cmp | swarm_opt.py:67-74 | `__cmp__` returns -1, 0 or 1. |
| SwarmSpec.CmpSign | swarm_opt.py:67-74 | The sign of `__cmp__` is the sign of `f(a) - f(b)`, and swapping the arguments negates it. |
| SwarmSpec.FirstMin | swarm_opt.py:107 | `min` over `__cmp__` picks the first position of least objective value. |
| SwarmSpec.UpdatedBest | swarm_opt.py:106-110 | On a non-empty swarm, there is a best afterwards. |
| SwarmSpec.UpdatedBestDominates | swarm_opt.py:106-110 | The updated best is no worse than any current position. |
| SwarmSpec.UpdatedBestMonotone | swarm_opt.py:106-110 | The swarm best never gets worse. |
| SwarmSpec.UpdatedBestReplaces | swarm_opt.py:106-110 | The best is kept exactly when it exists and beats or ties every position. Otherwise it becomes one of the positions, strictly better than any old best. |
| SwarmSpec.Polynomial | swarm_opt.py:20-24 | `polynomial` is never negative. |
| SwarmSpec.PolynomialMinimum | swarm_opt.py:20-24 | `polynomial` is zero exactly at 0, and 0 is its global minimiser. |
| SwarmOpt.Particle.constructor | swarm_opt.py:36-40 | The three lists are those of `SwarmSpec.NewParticle`, each with `dimensions` components. |
| SwarmOpt.Particle.Step | swarm_opt.py:48-63 | With a swarm best, or with no dimensions, the particle becomes `ParticleAfter` of its old lists. Otherwise reading the missing best raises, reported as `ok == false`, with nothing changed. |
| SwarmOpt.Swarm.constructor | swarm_opt.py:91-98 | A new swarm has no particles, no best and time 0. |
| SwarmOpt.Swarm.Add | swarm_opt.py:101-103 | The particle is appended and the best updated as `_update_best` does. Afterwards the best dominates every position. |
| SwarmOpt.Swarm.UpdateBest | swarm_opt.py:106-110 | On an empty swarm `min` raises (`ok == false`) and nothing changes. Otherwise the best becomes `UpdatedBest`, dominates every position and is no worse than before. |
| SwarmOpt.Swarm.Step | swarm_opt.py:113-119 | Time grows by one. Every particle becomes its `ParticleAfter` against the old best. Then the best is updated, never getting worse. An empty swarm reports the `min` error after the clock moved. |
| SwarmOpt.Swarm.StepParticles | swarm_opt.py:116-117 | The particles step in list order, each against the same best. |

## Left out

- `SchafferF6` (pso.py:28-38) and `schafferF6` (swarm_opt.py:11-18) are not modelled: they need `sin` and `sqrt` over floats. Every property here is proved for an arbitrary objective `f`.
- Floating point: coordinates and objective values are exact reals. Rounding, overflow and NaN are not modelled.
- Random numbers are parameters. `np.random.uniform` and `random.random()` become the draws each operation is given. Only the lemmas that bound velocities require the draws to lie in [0, 1) (or [-1, 1) after scaling).
- Listeners are opaque handles. Each call `listener(**kwargs)` is recorded in a ghost log rather than run, so a listener with side effects (such as the CSV writer of pso.py's `__main__`) is not modelled.
- The `__main__` blocks, the CSV output, `__str__` of both files and pso_vis.py are not modelled. These are I/O and plotting.
- The classes `Function`, `StoppingCondition`, `Optimiser` and `PSOOptimiser` are merged into `WikiPSOOptimiser`. `Config` carries the objective, `n_dims` and the three weights. `EventEmitter` is held as a component instead of a base class. Only `RunNumberTimes` is modelled as a stopping condition.
- pso.py's `Particle` is a value in the optimiser's list. Its back-reference to the optimiser is only used to read `n_dims`, which is passed in.
- Pso.WikiPSOOptimiser.Step: the `x` of an `update_particle` event is its value at emission. In the source it is the particle's own numpy array, which the `+=` of later steps changes in place under a listener that keeps it. The `v` payload is not affected, because `update_vel` binds a fresh array each time.
- PsoObjective.Polynomial.Call: it requires `args` and `minimum` to have the same length. numpy broadcasting of a scalar or shorter `minimum` is not modelled.
- Pso.WikiPSOOptimiser.Run: it requires draws for at least `n` steps. The number of consultations of the condition is stated through the counter's final value: each consultation lowers it by one.
- PsoSpec.StepEventOrder: it states the particle order of events for adjacent pairs, which implies the order for any pair.
- SwarmOpt.Swarm.Add: it requires that the particle belongs to this swarm, is not already in it and has `dimensions` components in each list. The source does not check this. A particle added twice, or one shared between swarms, would be stepped twice or against another swarm's best.
- SwarmOpt.Particle.constructor: it requires given lists and draws of `dimensions` components. Lists are values, so a caller's list passed as `position` is not shared with the particle as it is in Python.
- `f` in swarm_opt.py is a module global chosen by assignment. Here it is the swarm's constant `f`, and `dimensions`, which the source reads with `inspect.getargspec`, is a constructor parameter.
