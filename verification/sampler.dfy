/**
 * Weighted resampling with replacement, the role `random.choices` plays in
 * both simulations. The random outcome is given as the list of drawn indices
 * (`picks`); what the library guarantees about it is stated as admissibility
 * against the weight vector.
 */
module Sampler {

  /** The weights `random.choices` behaves as if given when called without any: all equal. */
  function Uniform(n: nat): (w: seq<int>)
    ensures |w| == n
    ensures forall i :: 0 <= i < n ==> w[i] == 1
  {
    seq(n, _ => 1)
  }

  /** Every pick indexes the population. */
  predicate InRange(picks: seq<int>, n: int) {
    forall j :: 0 <= j < |picks| ==> 0 <= picks[j] < n
  }

  /**
   * The picks `random.choices` can return for these weights: each one
   * indexes the weight vector at a strictly positive weight (a slot of weight
   * zero has no width in the cumulative-weight search).
   */
  predicate Admissible(weights: seq<int>, picks: seq<int>) {
    forall j :: 0 <= j < |picks| ==> 0 <= picks[j] < |weights| && weights[picks[j]] > 0
  }

  /** The sum of a weight vector. */
  function Total(weights: seq<int>): int {
    if weights == [] then 0 else Total(weights[..|weights| - 1]) + weights[|weights| - 1]
  }

  /**
   * The parents `random.choices(population, weights, k)` returns for the
   * drawn picks: one population member per pick, in pick order.
   */
  function Choices(population: seq<int>, weights: seq<int>, picks: seq<int>): (parents: seq<int>)
    requires |weights| == |population|
    requires Admissible(weights, picks)
    ensures |parents| == |picks|
    ensures forall j :: 0 <= j < |picks| ==> parents[j] in population
  {
    seq(|picks|, j requires 0 <= j < |picks| => population[picks[j]])
  }

  /** With every weight at least 1, any in-range pick is admissible. */
  lemma PositiveWeightsAdmitAnyPick(weights: seq<int>, picks: seq<int>)
    requires forall i :: 0 <= i < |weights| ==> weights[i] >= 1
    requires InRange(picks, |weights|)
    ensures Admissible(weights, picks)
  {
  }

  /** Uniform weights admit exactly the in-range picks. */
  lemma UniformAdmissible(n: nat, picks: seq<int>)
    ensures Admissible(Uniform(n), picks) <==> InRange(picks, n)
  {
  }

  /** Weights that are all at least 1 add up to at least their count, so a non-empty vector has a positive total. */
  lemma {:induction false} TotalAtLeastLength(weights: seq<int>)
    requires forall i :: 0 <= i < |weights| ==> weights[i] >= 1
    ensures Total(weights) >= |weights|
  {
    if weights != [] {
      TotalAtLeastLength(weights[..|weights| - 1]);
    }
  }

  /** Weights that are all zero or less admit no pick at all: `random.choices` has nothing to draw. */
  lemma NonPositiveWeightsAdmitNothing(weights: seq<int>, picks: seq<int>)
    requires forall i :: 0 <= i < |weights| ==> weights[i] <= 0
    requires |picks| > 0
    ensures !Admissible(weights, picks)
  {
    assert !(0 <= picks[0] < |weights| && weights[picks[0]] > 0);
  }

  /** Resampling keeps every value inside any set of values closed under the population. */
  lemma ChoicesStayOnPopulation(population: seq<int>, weights: seq<int>, picks: seq<int>, p: int -> bool)
    requires |weights| == |population| && Admissible(weights, picks)
    requires forall i :: 0 <= i < |population| ==> p(population[i])
    ensures forall j :: 0 <= j < |picks| ==> p(Choices(population, weights, picks)[j])
  {
  }
}
