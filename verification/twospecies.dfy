/**
 * The two-species simulation: herbivores, which do better the closer they are
 * on average to the herbs, and herbs, which do better the further they are on
 * average from the herbivores. Each generation both species are resampled by
 * weights computed from the current populations, children mutate behind a
 * per-child roll, and the two lists are replaced together at the end.
 */
module TwoSpecies {
  import opened Ring
  import opened Sampler
  import opened Mutation
  import opened FloorDiv

  /** The total ring distance from `x` to every member of `population`. */
  function DistSum(x: int, population: seq<int>): (t: int)
    requires OnRing(x) && AllOnRing(population)
    ensures 0 <= t <= 50 * |population|
  {
    if population == [] then 0
    else DistSum(x, population[..|population| - 1]) + Abs(Distance(x, population[|population| - 1]).magnitude)
  }

  /**
   * The average-distance loop: totals the distances from `x` to every member
   * and floor-divides by `gensize`. With no more members than `gensize` the
   * result lies in [0, 50].
   */
  method AvgDist(x: int, population: seq<int>, gensize: nat) returns (d: int)
    requires OnRing(x) && AllOnRing(population)
    requires gensize > 0
    ensures d == DistSum(x, population) / gensize
    ensures |population| <= gensize ==> 0 <= d <= 50
  {
    var total := 0;
    var i := 0;
    while i < |population|
      invariant 0 <= i <= |population|
      invariant total == DistSum(x, population[..i])
    {
      assert population[..i + 1][..i] == population[..i];
      var mempull := Distance(x, population[i]).magnitude;
      total := total + Abs(mempull);
      i := i + 1;
    }
    assert population[..i] == population;
    d := total / gensize;
    if |population| <= gensize {
      MulMonotone(|population|, gensize, 50);
      QuotientWithin(total, gensize, 0, 50);
    }
  }

  /** Which way a species is selected: herbivores pursue herbs, herbs flee herbivores. */
  datatype Role = Pursuer | Pursued

  /**
   * Selection weight from an average distance: `50 - |d|` for a pursuer,
   * `|d|` for the pursued, raised to 1 when lower. Always at least 1, at most
   * 50 for a distance on the ring.
   */
  function Weight(role: Role, avgdist: int): (w: int)
    ensures w >= 1
    ensures 0 <= avgdist <= 50 ==> w <= 50
    ensures w >= (if role == Pursuer then 50 - Abs(avgdist) else Abs(avgdist))
    ensures w > 1 ==> w == (if role == Pursuer then 50 - Abs(avgdist) else Abs(avgdist))
  {
    var raw := if role == Pursuer then 50 - Abs(avgdist) else Abs(avgdist);
    if raw < 1 then 1 else raw
  }

  /** A pursuer never weighs less for being closer. */
  lemma PursuerPrefersCloser(a: int, b: int)
    requires 0 <= a <= b
    ensures Weight(Pursuer, a) >= Weight(Pursuer, b)
  {
  }

  /** The pursued never weighs less for being further. */
  lemma PursuedPrefersFarther(a: int, b: int)
    requires 0 <= a <= b
    ensures Weight(Pursued, a) <= Weight(Pursued, b)
  {
  }

  /** The weight list of one species against the other, one weight per member in member order. */
  function MutualWeights(role: Role, selves: seq<int>, others: seq<int>, gensize: nat): seq<int>
    requires AllOnRing(selves) && AllOnRing(others) && gensize > 0
  {
    seq(|selves|, i requires 0 <= i < |selves| => Weight(role, DistSum(selves[i], others) / gensize))
  }

  /**
   * The fitness loop of one species: `gensize` weights, the i-th from the
   * average distance of the i-th member to the other species. Every weight
   * lies in [1, 50], so every in-range draw is admissible and the total is
   * positive.
   */
  method MutualFitness(role: Role, selves: seq<int>, others: seq<int>, gensize: nat) returns (fitness: seq<int>)
    requires AllOnRing(selves) && AllOnRing(others)
    requires gensize > 0 && |selves| == gensize && |others| == gensize
    ensures fitness == MutualWeights(role, selves, others, gensize)
    ensures |fitness| == gensize
    ensures forall i :: 0 <= i < gensize ==> 1 <= fitness[i] <= 50
    ensures Total(fitness) >= gensize
  {
    fitness := [];
    var i := 0;
    while i < gensize
      invariant 0 <= i <= gensize
      invariant |fitness| == i
      invariant forall j :: 0 <= j < i ==> fitness[j] == Weight(role, DistSum(selves[j], others) / gensize)
    {
      var d := AvgDist(selves[i], others, gensize);
      var raw := if role == Pursuer then 50 - Abs(d) else Abs(d);
      if raw < 1 {
        raw := 1;
      }
      assert raw == Weight(role, d);
      fitness := fitness + [raw];
      i := i + 1;
    }
    assert fitness == MutualWeights(role, selves, others, gensize);
    MutualWeightsPositive(role, selves, others, gensize);
    TotalAtLeastLength(fitness);
  }

  /** Weights of a species on the ring are all in [1, 50]: the clamp leaves no zero slot. */
  lemma MutualWeightsPositive(role: Role, selves: seq<int>, others: seq<int>, gensize: nat)
    requires AllOnRing(selves) && AllOnRing(others) && gensize > 0 && |others| <= gensize
    ensures forall i :: 0 <= i < |selves| ==> 1 <= MutualWeights(role, selves, others, gensize)[i] <= 50
  {
    forall i | 0 <= i < |selves|
      ensures 0 <= DistSum(selves[i], others) / gensize <= 50
    {
      MulMonotone(|others|, gensize, 50);
      QuotientWithin(DistSum(selves[i], others), gensize, 0, 50);
    }
  }

  /** Both populations, with the fixed configuration. */
  class Model {
    const gensize: nat
    const herbivoreSelection: bool
    const herbSelection: bool
    var herbivores: seq<int>
    var herbs: seq<int>

    /** Both lists hold exactly `gensize` ring values. */
    ghost predicate Valid()
      reads this
    {
      gensize > 0 && |herbivores| == gensize && |herbs| == gensize && AllOnRing(herbivores) && AllOnRing(herbs)
    }

    /** A model over given initial populations (the random initial values are drawn by the caller). */
    constructor (gensize: nat, herbivoreSelection: bool, herbSelection: bool, herbivores: seq<int>, herbs: seq<int>)
      requires gensize > 0 && |herbivores| == gensize && |herbs| == gensize
      requires AllOnRing(herbivores) && AllOnRing(herbs)
      ensures Valid()
      ensures this.gensize == gensize && this.herbivoreSelection == herbivoreSelection && this.herbSelection == herbSelection
      ensures this.herbivores == herbivores && this.herbs == herbs
    {
      this.gensize := gensize;
      this.herbivoreSelection := herbivoreSelection;
      this.herbSelection := herbSelection;
      this.herbivores := herbivores;
      this.herbs := herbs;
    }

    /** Herbivore resampling weights: pursuit of the herbs with selection on, uniform otherwise. */
    function HerbivoreWeights(): (w: seq<int>)
      reads this
      requires Valid()
      ensures |w| == gensize
      ensures forall i :: 0 <= i < gensize ==> 1 <= w[i] <= 50
      ensures herbivoreSelection ==> w == MutualWeights(Pursuer, herbivores, herbs, gensize)
      ensures !herbivoreSelection ==> w == Uniform(gensize)
    {
      MutualWeightsPositive(Pursuer, herbivores, herbs, gensize);
      if herbivoreSelection then MutualWeights(Pursuer, herbivores, herbs, gensize) else Uniform(gensize)
    }

    /** Herb resampling weights: flight from the herbivores with selection on, uniform otherwise. */
    function HerbWeights(): (w: seq<int>)
      reads this
      requires Valid()
      ensures |w| == gensize
      ensures forall i :: 0 <= i < gensize ==> 1 <= w[i] <= 50
      ensures herbSelection ==> w == MutualWeights(Pursued, herbs, herbivores, gensize)
      ensures !herbSelection ==> w == Uniform(gensize)
    {
      MutualWeightsPositive(Pursued, herbs, herbivores, gensize);
      if herbSelection then MutualWeights(Pursued, herbs, herbivores, gensize) else Uniform(gensize)
    }

    /**
     * One generation of both species. Both weight vectors come from the
     * populations before the step; any in-range picks are admissible for
     * them. Children are the wrapped draw where the roll succeeds and the
     * parent otherwise; both lists are replaced at the end. Returns the two
     * weight vectors the resampling used.
     */
    method NextGeneration(herbivorePicks: seq<int>, herbPicks: seq<int>,
                          herbivoreRolls: seq<bool>, herbRolls: seq<bool>,
                          herbivoreDraws: seq<int>, herbDraws: seq<int>)
      returns (herbivoreFitness: seq<int>, herbFitness: seq<int>)
      requires Valid()
      requires |herbivorePicks| == gensize && InRange(herbivorePicks, gensize)
      requires |herbPicks| == gensize && InRange(herbPicks, gensize)
      requires |herbivoreRolls| == gensize && |herbivoreDraws| == gensize
      requires |herbRolls| == gensize && |herbDraws| == gensize
      modifies this
      ensures Valid()
      ensures herbivoreFitness == old(HerbivoreWeights()) && herbFitness == old(HerbWeights())
      ensures Admissible(old(HerbivoreWeights()), herbivorePicks) && Admissible(old(HerbWeights()), herbPicks)
      ensures herbivores == Offspring(Choices(old(herbivores), old(HerbivoreWeights()), herbivorePicks), herbivoreRolls, herbivoreDraws)
      ensures herbs == Offspring(Choices(old(herbs), old(HerbWeights()), herbPicks), herbRolls, herbDraws)
    {
      if herbivoreSelection {
        herbivoreFitness := MutualFitness(Pursuer, herbivores, herbs, gensize);
      } else {
        herbivoreFitness := Uniform(gensize);
      }
      PositiveWeightsAdmitAnyPick(herbivoreFitness, herbivorePicks);
      var herbivoreParents := Choices(herbivores, herbivoreFitness, herbivorePicks);

      if herbSelection {
        herbFitness := MutualFitness(Pursued, herbs, herbivores, gensize);
      } else {
        herbFitness := Uniform(gensize);
      }
      PositiveWeightsAdmitAnyPick(herbFitness, herbPicks);
      var herbParents := Choices(herbs, herbFitness, herbPicks);

      ChoicesStayOnPopulation(herbivores, herbivoreFitness, herbivorePicks, OnRing);
      ChoicesStayOnPopulation(herbs, herbFitness, herbPicks, OnRing);
      var newHerbivores := Breed(herbivoreParents, herbivoreRolls, herbivoreDraws);
      var newHerbs := Breed(herbParents, herbRolls, herbDraws);
      herbivores := newHerbivores;
      herbs := newHerbs;
    }
  }

  /**
   * With every mutation roll failing, each new member of a species is a value
   * that species already held.
   */
  lemma UnmutatedGenerationDrawsFromPrevious(population: seq<int>, weights: seq<int>, picks: seq<int>, draws: seq<int>)
    requires AllOnRing(population) && |weights| == |population| && Admissible(weights, picks)
    requires |draws| == |picks|
    ensures forall x :: x in Offspring(Choices(population, weights, picks), seq(|picks|, _ => false), draws) ==> x in population
  {
    var parents := Choices(population, weights, picks);
    ChoicesStayOnPopulation(population, weights, picks, OnRing);
    UnmutatedOffspring(parents, seq(|picks|, _ => false), draws);
  }
}
