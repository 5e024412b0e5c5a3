/**
 * The single-species simulation: one population of trait values and an
 * environment, a point of the same ring, that the population is selected
 * towards. Each generation the environment may move (pulled by the
 * population, pushed away from it, or at random), then the population is
 * resampled by closeness to the environment and every child mutates.
 */
module OneSpecies {
  import opened Ring
  import opened Sampler
  import opened Mutation
  import opened FloorDiv

  /**
   * Selection weight of one member: 50 minus its distance from the
   * environment, not clamped. It is 50 exactly at the environment and 0
   * exactly at the opposite point of the ring.
   */
  function MemberFitness(environment: int, mem: int): (f: int)
    requires OnRing(environment) && OnRing(mem)
    ensures 0 <= f <= 50
    ensures f == 50 <==> mem == environment
    ensures f == 0 <==> (mem - environment) % 100 == 50
  {
    50 - Distance(environment, mem).magnitude
  }

  /** The fitness list, one weight per member in member order. */
  function Fitness(members: seq<int>, environment: int): seq<int>
    requires AllOnRing(members) && OnRing(environment)
  {
    seq(|members|, i requires 0 <= i < |members| => MemberFitness(environment, members[i]))
  }

  /** A member nearer the environment never weighs less than one further away. */
  lemma NearerIsFitter(environment: int, a: int, b: int)
    requires OnRing(environment) && OnRing(a) && OnRing(b)
    requires Distance(environment, a).magnitude <= Distance(environment, b).magnitude
    ensures MemberFitness(environment, a) >= MemberFitness(environment, b)
  {
  }

  /** A member strictly nearer the environment weighs strictly more. */
  lemma StrictlyNearerIsStrictlyFitter(environment: int, a: int, b: int)
    requires OnRing(environment) && OnRing(a) && OnRing(b)
    requires Distance(environment, a).magnitude < Distance(environment, b).magnitude
    ensures MemberFitness(environment, a) > MemberFitness(environment, b)
  {
  }

  /**
   * The fitness loop of a generation step: `gensize` weights, the i-th being
   * 50 minus the distance of the i-th member from the environment.
   */
  method FitnessVector(members: seq<int>, environment: int, gensize: nat) returns (fitness: seq<int>)
    requires AllOnRing(members) && OnRing(environment)
    requires |members| == gensize
    ensures fitness == Fitness(members, environment)
    ensures |fitness| == gensize
    ensures forall i :: 0 <= i < gensize ==> 0 <= fitness[i] <= 50
  {
    fitness := [];
    var i := 0;
    while i < gensize
      invariant 0 <= i <= gensize
      invariant |fitness| == i
      invariant forall j :: 0 <= j < i ==> fitness[j] == MemberFitness(environment, members[j])
    {
      var ithFitness := 50 - Distance(environment, members[i]).magnitude;
      fitness := fitness + [ithFitness];
      i := i + 1;
    }
  }

  /**
   * Net pull of the population on the environment: each member's distance,
   * counted positive when the member lies rightward of the environment and
   * negative otherwise.
   */
  function PullSum(members: seq<int>, environment: int): (s: int)
    requires AllOnRing(members) && OnRing(environment)
    ensures -50 * |members| <= s <= 50 * |members|
  {
    if members == [] then 0
    else PullSum(members[..|members| - 1], environment) + Signed(Distance(environment, members[|members| - 1]))
  }

  /**
   * The pull loop of the environment step: sums the signed distances and
   * floor-divides by `gensize`. The result is the floor of the mean signed
   * distance and lies within half the ring either way.
   */
  method AvgPull(members: seq<int>, environment: int, gensize: nat) returns (avgpull: int)
    requires AllOnRing(members) && OnRing(environment)
    requires gensize > 0 && |members| == gensize
    ensures avgpull == PullSum(members, environment) / gensize
    ensures avgpull * gensize <= PullSum(members, environment) < avgpull * gensize + gensize
    ensures -50 <= avgpull <= 50
  {
    var total := 0;
    var i := 0;
    while i < |members|
      invariant 0 <= i <= |members|
      invariant total == PullSum(members[..i], environment)
    {
      assert members[..i + 1][..i] == members[..i];
      var p := Distance(environment, members[i]);
      if p.rightward {
        total := total + p.magnitude;
      } else {
        total := total - p.magnitude;
      }
      i := i + 1;
    }
    assert members[..i] == members;
    avgpull := total / gensize;
    QuotientBrackets(total, gensize);
    QuotientWithin(total, gensize, -50, 50);
  }

  /**
   * The new environment once the change roll has succeeded. With the
   * directed roll and a non-zero pull, it moves by the absolute draw:
   * towards the pull when `envChangeBeneficial` is positive, away from it
   * otherwise. Without them it is the random-branch normalisation of the draw.
   */
  function EnvironmentAfter(environment: int, avgpull: int, envChangeBeneficial: real, directed: bool, draw: int): (e: int)
    requires OnRing(environment)
    ensures OnRing(e)
    ensures directed && avgpull != 0 ==>
      e == Step(environment, Abs(draw), (avgpull > 0) == (envChangeBeneficial > 0.0))
    ensures !(directed && avgpull != 0) ==> e == WrapShifted(draw)
  {
    if directed && avgpull != 0 then
      if envChangeBeneficial > 0.0 then
        if avgpull < 0 then Wrap(environment - Abs(draw))
        else Wrap(environment + Abs(draw))
      else
        if avgpull < 0 then Wrap(environment + Abs(draw))
        else Wrap(environment - Abs(draw))
    else
      WrapShifted(draw)
  }

  /** A population all at one trait value pulls with exactly its distance from the environment per member. */
  lemma {:induction false} UniformPull(m: int, environment: int, n: nat)
    requires OnRing(m) && OnRing(environment)
    ensures PullSum(seq(n, _ => m), environment) == n * Signed(Distance(environment, m))
  {
    if n > 0 {
      var s := seq(n, _ => m);
      var step := Signed(Distance(environment, m));
      assert s[..n - 1] == seq(n - 1, _ => m);
      assert s[n - 1] == m;
      UniformPull(m, environment, n - 1);
      assert PullSum(s, environment) == (n - 1) * step + step;
      assert (n - 1) * step + step == n * step;
    }
  }

  /** The mean pull of a population all at one value is that value's signed distance from the environment. */
  lemma UniformAvgPull(m: int, environment: int, n: nat)
    requires OnRing(m) && OnRing(environment) && n > 0
    ensures PullSum(seq(n, _ => m), environment) / n == Signed(Distance(environment, m))
  {
    UniformPull(m, environment, n);
    var s := Signed(Distance(environment, m));
    assert n * s == s * n;
    QuotientUnique(n * s, n, s);
  }

  /**
   * A directed move with positive benefit brings the environment closer to a
   * population gathered at one value: by exactly the draw's size, as long as
   * that does not overshoot.
   */
  lemma DirectedMoveApproaches(m: int, environment: int, n: nat, envChangeBeneficial: real, draw: int)
    requires OnRing(m) && OnRing(environment) && n > 0 && m != environment
    requires envChangeBeneficial > 0.0
    requires Abs(draw) <= Distance(environment, m).magnitude
    ensures Distance(EnvironmentAfter(environment, PullSum(seq(n, _ => m), environment) / n, envChangeBeneficial, true, draw), m).magnitude
            == Distance(environment, m).magnitude - Abs(draw)
  {
    UniformAvgPull(m, environment, n);
    StepToward(environment, m, Abs(draw));
  }

  /**
   * A directed move with non-positive benefit takes the environment further
   * from a population gathered at one value: by exactly the draw's size, as
   * long as the result stays within half the ring.
   */
  lemma DirectedMoveRecedes(m: int, environment: int, n: nat, envChangeBeneficial: real, draw: int)
    requires OnRing(m) && OnRing(environment) && n > 0 && m != environment
    requires envChangeBeneficial <= 0.0
    requires Distance(environment, m).magnitude + Abs(draw) <= 50
    ensures Distance(EnvironmentAfter(environment, PullSum(seq(n, _ => m), environment) / n, envChangeBeneficial, true, draw), m).magnitude
            == Distance(environment, m).magnitude + Abs(draw)
  {
    UniformAvgPull(m, environment, n);
    StepAway(environment, m, Abs(draw));
  }

  /**
   * When every member sits opposite the environment, every weight is zero
   * and no draw is admissible: the weighted resampling cannot proceed.
   */
  lemma AllOppositeAdmitsNoDraw(members: seq<int>, environment: int, picks: seq<int>)
    requires AllOnRing(members) && OnRing(environment)
    requires forall i :: 0 <= i < |members| ==> (members[i] - environment) % 100 == 50
    requires |picks| > 0
    ensures !Admissible(Fitness(members, environment), picks)
  {
    NonPositiveWeightsAdmitNothing(Fitness(members, environment), picks);
  }

  /**
   * A population gathered at one value, resampled and bred with zero spread
   * (every draw equal to its parent), is the same population again.
   */
  lemma ZeroSpreadUniformPopulationStays(v: int, n: nat, weights: seq<int>, picks: seq<int>)
    requires OnRing(v) && |weights| == n && |picks| == n && Admissible(weights, picks)
    ensures Offspring(Choices(seq(n, _ => v), weights, picks), Always(n), Choices(seq(n, _ => v), weights, picks))
            == seq(n, _ => v)
  {
    var parents := Choices(seq(n, _ => v), weights, picks);
    assert parents == seq(n, _ => v);
    ZeroSpreadOffspring(parents, Always(n));
  }

  /** The simulation state: the population and the environment, with the fixed configuration. */
  class Model {
    const gensize: nat
    const envChangeBeneficial: real
    const selection: bool
    var members: seq<int>
    var environment: int

    /** Exactly `gensize` members, all on the ring, and an environment on the ring. */
    ghost predicate Valid()
      reads this
    {
      gensize > 0 && |members| == gensize && AllOnRing(members) && OnRing(environment)
    }

    /**
     * A model over given initial members and environment (the random initial
     * values are drawn by the caller).
     */
    constructor (gensize: nat, envChangeBeneficial: real, selection: bool, members: seq<int>, environment: int)
      requires gensize > 0 && |members| == gensize && AllOnRing(members) && OnRing(environment)
      ensures Valid()
      ensures this.gensize == gensize && this.envChangeBeneficial == envChangeBeneficial && this.selection == selection
      ensures this.members == members && this.environment == environment
    {
      this.gensize := gensize;
      this.envChangeBeneficial := envChangeBeneficial;
      this.selection := selection;
      this.members := members;
      this.environment := environment;
    }

    /** The weights the resampling uses: fitness with selection on, uniform otherwise. */
    function Weights(): (w: seq<int>)
      reads this
      requires Valid()
      ensures |w| == gensize
      ensures forall i :: 0 <= i < gensize ==> 0 <= w[i] <= 50
      ensures selection ==> forall i :: 0 <= i < gensize ==> (w[i] == 0 <==> (members[i] - environment) % 100 == 50)
      ensures !selection ==> forall i :: 0 <= i < gensize ==> w[i] == 1
      ensures selection ==> w == Fitness(members, environment)
    {
      if selection then Fitness(members, environment) else Uniform(gensize)
    }

    /**
     * One generation: resample `gensize` parents by the current weights (the
     * drawn `picks`), then one child per parent from its draw. The new
     * members replace the old; the environment is untouched. Returns the
     * weights the resampling used, those of the population before the step.
     */
    method NextGeneration(picks: seq<int>, draws: seq<int>) returns (weights: seq<int>)
      requires Valid()
      requires |picks| == gensize && Admissible(Weights(), picks)
      requires |draws| == gensize
      modifies this
      ensures Valid()
      ensures environment == old(environment)
      ensures weights == old(Weights())
      ensures members == Offspring(Choices(old(members), old(Weights()), picks), Always(gensize), draws)
    {
      if selection {
        weights := FitnessVector(members, environment, gensize);
      } else {
        weights := Uniform(gensize);
      }
      var parents := Choices(members, weights, picks);
      ChoicesStayOnPopulation(members, weights, picks, OnRing);
      var newgen := Breed(parents, Always(gensize), draws);
      members := newgen;
    }

    /**
     * The environment step. If the change roll fails nothing changes.
     * Otherwise the mean pull is computed and the environment set as
     * EnvironmentAfter says; the members are untouched.
     */
    method ShiftEnvironment(changes: bool, directed: bool, draw: int)
      requires Valid()
      modifies this
      ensures Valid()
      ensures members == old(members)
      ensures environment == if changes then
        EnvironmentAfter(old(environment), PullSum(members, old(environment)) / gensize, envChangeBeneficial, directed, draw)
        else old(environment)
    {
      if changes {
        var avgpull := AvgPull(members, environment, gensize);
        environment := EnvironmentAfter(environment, avgpull, envChangeBeneficial, directed, draw);
      }
    }
  }
}
