# Trait evolution on a 100-point ring — a verified model

This project models the deterministic integer core of two small evolutionary
simulations (`onespecies.py` and `twospecies.py`). Trait values and the
environment are points of a ring of integers 1..100, where 100 and 1 are
neighbours.

- **Single species.** A population of `gensize` members and an environment.
  In each generation the environment may move. A change roll decides whether
  it moves at all. If it does, the population's mean signed distance
  (`avgpull`) pulls it. A second roll picks between a directed move (towards
  the pull, or away when `envchangebeneficial` is not positive) and a random
  move. Then parents are resampled: with selection on, by weight
  `50 - distance` from the environment; with it off, uniformly. Every child is a Gaussian draw wrapped back onto the ring.
- **Two species.** Herbivores are resampled with weight `max(1, 50 - avgdist)`,
  where `avgdist` is a member's mean distance to the herbs. Herbs are resampled
  with weight `max(1, avgdist)`, their mean distance to the herbivores. Both
  weight vectors come from the populations before the step. A child mutates
  only if its roll succeeds. Both lists are replaced together at the end.

Randomness is passed in as inputs:
- each rounded Gaussian draw is an arbitrary integer (`draws`, `draw`);
- each `random.random() < p` comparison is a boolean (`rolls`, `changes`, `directed`);
- the result of `random.choices` is a list of drawn indices (`picks`).

The weighted sampler gives one guarantee, stated as `Sampler.Admissible`:
every drawn index is in range and carries a strictly positive weight. A
zero-weight slot has no width in the cumulative-weight search, so it is never
drawn.

Modules:
- `Ring`: normalisation, ring distance and moves (`ring.dfy`).
- `Sampler`: resampling outcomes and their admissibility (`sampler.dfy`).
- `Mutation`: children from parents (`mutation.dfy`).
- `FloorDiv`: floor division by a positive count, which is Python's `//` (`floordiv.dfy`).
- `OneSpecies` and `TwoSpecies`: the two simulations, each with a `Model` class.
  The class holds the state the source updates in place (`members` and
  `environment`, or `herbivores` and `herbs`).

The loops of the source are methods proved against specification functions:
- the fitness loop is `FitnessVector` and `MutualFitness`;
- the pull loop is `AvgPull`;
- the average-distance loop is `AvgDist`;
- the child loop is `Breed`.

The two random-environment formulas are modelled as written. A directed move
normalises with `((r - 1) % 100) + 1` (`Ring.Wrap`). A random move normalises
with `(r % 100) + 1` (`Ring.WrapShifted`), which equals `Wrap(r + 1)`. So a
random move whose draw equals the current environment still advances it by
one place (`Ring.WrapShiftedAdvances`). The random move is therefore centred
one place right of the environment (`Ring.WrapShiftedSkewed`); see
"## Findings". `OneSpecies.EnvironmentAfter` keeps the formula as written, so
that the simulation model follows the code.

## Model

| member | source | states |
|---|---|---|
| `Ring.Wrap` | onespecies.py:42 | The result is on the ring and congruent to the draw modulo 100. A draw already on the ring is returned unchanged. |
| `Ring.WrapUnique` | twospecies.py:59 | No other ring point is congruent to the draw, so the child normalisation is determined by ring closure and congruence alone. |
| `Ring.WrapShifted` | onespecies.py:71 | The random-branch value is on the ring and equals `Wrap(draw + 1)`. |
| `Ring.WrapShiftedAdvances` | onespecies.py:71 | A random-branch draw equal to the old environment moves it one step right, with 100 going to 1. |
| `Ring.WrapShiftedSkewed` | onespecies.py:71 | A random-branch draw `k` places right of the environment lands `k + 1` places right; one `k` places left lands `k - 1` places left. The two are never mirror images. |
| `Ring.WrapShiftedSkewedExample` | onespecies.py:71 | From environment 50, the draw 51 moves it to 52 and the draw 49 leaves it at 50. |
| `Ring.WrapCentred` | onespecies.py:11 | Normalised with `Wrap`, a draw equal to the environment keeps it, and draws `k` places either side land `k` places either side, at the same ring distance. |
| `Ring.WalksBetween` | onespecies.py:115-120 | The leftward and rightward walks sum to 100. The leftward walk is `(center - offset) % 100`. The rightward walk is the wrapped difference `offset - center`, in 1..100. |
| `Ring.Distance` | onespecies.py:111-124 | The magnitude is in [0,50] and is the smaller of the two residues. The direction is rightward exactly when `(offset - center) % 100` is in 1..50. Taking the signed step from the centre lands on the offset. |
| `Ring.DistanceIsShorterArc` | twospecies.py:114-125 | The magnitude is `min(abs(offset - center), 100 - abs(offset - center))`. |
| `Ring.TieBreak` | onespecies.py:121-124 | Equal points give `(0, False)`. Opposite points, and only they, give `(50, True)`: ties resolve rightward. |
| `Ring.DistanceSymmetric` | twospecies.py:114-125 | The distance from `a` to `b` has the same magnitude as the distance from `b` to `a`. |
| `Ring.DirectionAntisymmetric` | twospecies.py:116-125 | For distances strictly between 0 and 50, swapping centre and offset flips the direction. |
| `Ring.Step` | onespecies.py:62-69 | A directed environment move lands on the ring, congruent to the old value plus or minus the step. |
| `Ring.StepToward` | onespecies.py:62-64 | Stepping `d` places in the direction of the pull, with `d` at most the distance, shortens the distance by exactly `d`. |
| `Ring.StepAway` | onespecies.py:66-69 | Stepping `d` places against the pull, while the distance stays within 50, lengthens it by exactly `d`. |
| `Sampler.Uniform` | onespecies.py:39 | The weights of an unweighted `random.choices` call: `n` entries, every one equal to 1. |
| `Sampler.Choices` | onespecies.py:37-39 | There is one parent per pick, and every parent is a member of the population. Picks must index positive weights. |
| `Sampler.UniformAdmissible` | twospecies.py:44 | With no weights, every in-range pick can be drawn, and no other pick can. |
| `Sampler.PositiveWeightsAdmitAnyPick` | twospecies.py:39-42 | When every weight is at least 1, every in-range pick can be drawn. |
| `Sampler.TotalAtLeastLength` | twospecies.py:39-41 | Weights that are all at least 1 sum to at least their count, so a non-empty clamped vector has a positive total. |
| `Sampler.NonPositiveWeightsAdmitNothing` | onespecies.py:33-37 | If no weight is positive, no pick can be drawn. |
| `Sampler.ChoicesStayOnPopulation` | onespecies.py:37 | Any property held by every member is held by every resampled parent. |
| `Mutation.Child` | twospecies.py:58-61 | A child is on the ring. A failed roll copies the parent exactly. A mutated child is congruent to its draw. A draw equal to the parent gives the parent. |
| `Mutation.Always` | onespecies.py:40-43 | The single-species mutation is not gated: `n` rolls, every one succeeding. |
| `Mutation.Breed` | twospecies.py:57-62 | The child loop returns exactly the offspring of the parents, in order, all on the ring. |
| `Mutation.OffspringOnRing` | onespecies.py:40-44 | The offspring have as many members as the parents, and all lie on the ring. |
| `Mutation.UnmutatedOffspring` | twospecies.py:60-61 | If every mutation roll fails, the children equal the parents. |
| `Mutation.ZeroSpreadOffspring` | onespecies.py:42 | With zero spread (every draw equal to its parent), the children equal the parents, with or without mutation. |
| `OneSpecies.MemberFitness` | onespecies.py:35 | The weight is in [0,50]. It is 50 exactly at the environment and 0 exactly at the opposite point. |
| `OneSpecies.NearerIsFitter` | onespecies.py:13 | A member no further from the environment than another never has a lower weight. |
| `OneSpecies.StrictlyNearerIsStrictlyFitter` | onespecies.py:35 | A member strictly nearer the environment than another has a strictly higher weight. |
| `OneSpecies.FitnessVector` | onespecies.py:32-36 | The fitness loop returns `gensize` weights, each `50 - distance` of its member from the environment, and each in [0,50]. |
| `OneSpecies.PullSum` | onespecies.py:51-57 | The signed sum (`+distance` when rightward, `-distance` otherwise) lies within `±50` per member. |
| `OneSpecies.AvgPull` | onespecies.py:51-58 | The pull loop returns the floor of the signed sum over `gensize`, with `q * gensize <= sum < q * gensize + gensize`. The result is in [-50,50]. |
| `OneSpecies.EnvironmentAfter` | onespecies.py:59-71 | The new environment is on the ring. With the directed roll and a non-zero pull, it moves by the absolute draw: towards the pull if the benefit is positive, away from it otherwise. Otherwise it is `(draw % 100) + 1`. |
| `OneSpecies.UniformPull` | onespecies.py:52-57 | A population gathered at one value has a signed sum equal to the count times that value's signed distance. |
| `OneSpecies.UniformAvgPull` | onespecies.py:51-58 | For such a population, `avgpull` is exactly the signed distance. |
| `OneSpecies.DirectedMoveApproaches` | onespecies.py:59-64 | With positive benefit and a population gathered at one value, a directed move with a draw no larger than the distance brings the environment exactly that much closer. |
| `OneSpecies.DirectedMoveRecedes` | onespecies.py:65-69 | With non-positive benefit and a population gathered at one value `m` other than the environment, a directed move takes the environment exactly the draw's size further from `m`, as long as the new distance stays within 50. |
| `OneSpecies.AllOppositeAdmitsNoDraw` | onespecies.py:33-37 | If every member sits opposite the environment, all weights are 0 and no pick can be drawn. |
| `OneSpecies.ZeroSpreadUniformPopulationStays` | onespecies.py:37-44 | A population gathered at one value, resampled and bred with zero spread, is unchanged. |
| `OneSpecies.Model.constructor` | onespecies.py:5-26 | The new model has the given size, configuration, members and environment, and satisfies the invariant. |
| `OneSpecies.Model.Weights` | onespecies.py:32-39 | With selection on, the weights are the fitness list: each in [0,50], and 0 exactly for members opposite the environment. With selection off, they are all 1. |
| `OneSpecies.Model.NextGeneration` | onespecies.py:28-44 | `members` becomes the always-mutated offspring of the parents drawn with the pre-step weights. It keeps exactly `gensize` ring values. The environment does not change. The weights it returns are those of the pre-step population (`Weights()` before the step). |
| `OneSpecies.Model.ShiftEnvironment` | onespecies.py:46-71 | A failed change roll leaves the environment unchanged. Otherwise the environment becomes `EnvironmentAfter` of the floor mean pull. The members do not change. |
| `TwoSpecies.DistSum` | twospecies.py:134-137 | The distance total over a population is in [0, 50 × size]. |
| `TwoSpecies.AvgDist` | twospecies.py:128-138 | The loop returns the total distance floor-divided by `gensize`. The result is in [0,50] when the population has at most `gensize` members. |
| `TwoSpecies.Weight` | twospecies.py:38-40 | The weight is `max(1, raw)` for the raw value `50 - abs(d)` (herbivore) or `abs(d)` (herb): a raw value of at least 1 is kept, a lower one becomes 1. It is at most 50 for a ring distance. |
| `TwoSpecies.PursuerPrefersCloser` | twospecies.py:38-41 | A herbivore that is closer on average never weighs less. |
| `TwoSpecies.PursuedPrefersFarther` | twospecies.py:48-51 | A herb that is further away on average never weighs less. |
| `TwoSpecies.MutualFitness` | twospecies.py:35-52 | The fitness loop returns `gensize` weights from each member's average distance to the other species, each in [1,50], with a total of at least `gensize`. |
| `TwoSpecies.MutualWeightsPositive` | twospecies.py:37-51 | Every clamped weight of a ring population is in [1,50]. |
| `TwoSpecies.Model.constructor` | twospecies.py:5-29 | The new model holds the given size, selection switches and populations, and satisfies the invariant. |
| `TwoSpecies.Model.HerbivoreWeights` | twospecies.py:35-44 | The herbivore weights have `gensize` entries, each in [1,50]. They are the clamped pursuit weights with selection on, and all 1 with it off. |
| `TwoSpecies.Model.HerbWeights` | twospecies.py:45-54 | The herb weights have `gensize` entries, each in [1,50]. They are the clamped flight weights with selection on, and all 1 with it off. |
| `TwoSpecies.Model.NextGeneration` | twospecies.py:31-70 | Any in-range picks can be drawn against both pre-step weight vectors. Each list becomes its gated offspring, and both keep exactly `gensize` ring values. The two weight vectors it returns are `HerbivoreWeights()` and `HerbWeights()` of the pre-step populations, so the herb weights use the old herbivores. |
| `TwoSpecies.UnmutatedGenerationDrawsFromPrevious` | twospecies.py:42-70 | When every mutation roll fails, every new member is a value the species already held. |

## Findings

| source | as written | input that shows it | evidently intended | confidence | as-written member | corrected member |
|---|---|---|---|---|---|---|
| onespecies.py:71 | The random environment move normalises with `(r % 100) + 1`. That centres the move one place right of the old environment, although the `envchangebeneficial` description (onespecies.py:11) promises even odds either way. | Environment 50: the draw 51 gives 52 and the draw 49 gives 50, and a draw of 50 gives 51. | `((r - 1) % 100) + 1`, as in the directed branches, so that the move is centred on the old environment. | medium, not executed | `Ring.WrapShiftedSkewed` | `Ring.WrapCentred` |

## Left out

- Console rendering (`displayverbose`, `displayconcise`, `display`): this is output formatting only.
- The `runmodel` drivers and the named demo presets: these are loops that call the core once per generation and print. The two-species driver passes `herbivoremutationchance` for both mutation chances; this model takes the chances only as per-child rolls, so it does not reproduce that.
- The internals of `random.normalvariate`, `random.random`, `random.choices`, `random.randint` and `random.seed`. Their outcomes are inputs: integer draws, boolean rolls and index picks.
- Float rounding of Gaussian draws, and the float comparisons against `envchangechance`, `abs(envchangebeneficial)` and the mutation chances. Only the sign test `envchangebeneficial > 0` is modelled, on a `real`.
- Mutation sizes (`memmutation`, `herbivoremutationsize`, `herbmutationsize`) and the stdev `avgpull // 2` of the environment draw. They shape only the distribution of the draws, so they are not fields of the models.
- The random initial members and environment, and the `if environment:` test that falls back to a random value. The constructors take the resolved initial values.
- `twospecies.distancefromenv`: dead code that reads a field the two-species model does not have.
- What `random.choices` does with an all-zero weight vector. The source reaches it when selection is on and every member sits exactly opposite the environment. The model does not reproduce the library's reaction: `AllOppositeAdmitsNoDraw` shows that no pick is admissible, so `OneSpecies.Model.NextGeneration` cannot be called in that state.
- The order of the two single-species steps (environment first, then population) belongs to the driver. It is not modelled as a combined step.
- `OneSpecies.EnvironmentAfter` accepts `directed == true` together with `envChangeBeneficial == 0.0`. The source never takes the directed branch then, because `random.random() < abs(0.0)` is never true; the model leaves that exclusion to whoever supplies the `directed` roll.
- `OneSpecies.EnvironmentAfter` lets any draw move the environment. In the source the directed draw has stdev `avgpull // 2`, which is 0 when `avgpull == 1`, so the draw is 0 and the environment stays put; when `avgpull == -1` the stdev is `-1`, so it can move. The model does not tie the draw to that stdev (see the mutation-size line above).
- The corrected random move of "## Findings" is proved about `Ring.Wrap` (`Ring.WrapCentred`). `OneSpecies.EnvironmentAfter` and `OneSpecies.Model.ShiftEnvironment` keep the as-written `(r % 100) + 1`, so that the simulation model follows the code.
