/**
 * Producing children from parents. A child is either the parent itself (when
 * the mutation roll fails) or a rounded Gaussian draw normalised onto the
 * ring. The draw and the roll are given as inputs.
 */
module Mutation {
  import opened Ring

  /**
   * One child: the wrapped draw when the mutation roll succeeds, an exact copy
   * of the parent otherwise.
   */
  function Child(parent: int, mutate: bool, draw: int): (c: int)
    requires OnRing(parent)
    ensures OnRing(c)
    ensures !mutate ==> c == parent
    ensures mutate ==> c % 100 == draw % 100
    ensures draw == parent ==> c == parent
  {
    if mutate then Wrap(draw) else parent
  }

  /** The children of a list of parents, one per parent, in order. */
  function Offspring(parents: seq<int>, mutate: seq<bool>, draws: seq<int>): seq<int>
    requires AllOnRing(parents)
    requires |mutate| == |parents| && |draws| == |parents|
  {
    seq(|parents|, k requires 0 <= k < |parents| => Child(parents[k], mutate[k], draws[k]))
  }

  /** Mutation rolls that always succeed: the single-species model has no mutation gate. */
  function Always(n: nat): (rolls: seq<bool>)
    ensures |rolls| == n && forall k :: 0 <= k < n ==> rolls[k]
  {
    seq(n, _ => true)
  }

  /**
   * The child loop: appends one child per parent, in order. The children are
   * the offspring of the parents and all lie on the ring.
   */
  method Breed(parents: seq<int>, mutate: seq<bool>, draws: seq<int>) returns (children: seq<int>)
    requires AllOnRing(parents)
    requires |mutate| == |parents| && |draws| == |parents|
    ensures children == Offspring(parents, mutate, draws)
    ensures AllOnRing(children)
  {
    children := [];
    var k := 0;
    while k < |parents|
      invariant 0 <= k <= |parents|
      invariant |children| == k
      invariant forall j :: 0 <= j < k ==> children[j] == Child(parents[j], mutate[j], draws[j])
    {
      var child := Child(parents[k], mutate[k], draws[k]);
      children := children + [child];
      k := k + 1;
    }
  }

  /** Offspring keep the number of parents and stay on the ring. */
  lemma OffspringOnRing(parents: seq<int>, mutate: seq<bool>, draws: seq<int>)
    requires AllOnRing(parents)
    requires |mutate| == |parents| && |draws| == |parents|
    ensures |Offspring(parents, mutate, draws)| == |parents|
    ensures AllOnRing(Offspring(parents, mutate, draws))
  {
  }

  /** When no mutation roll succeeds, the children are the parents exactly. */
  lemma UnmutatedOffspring(parents: seq<int>, mutate: seq<bool>, draws: seq<int>)
    requires AllOnRing(parents)
    requires |mutate| == |parents| && |draws| == |parents|
    requires forall k :: 0 <= k < |mutate| ==> !mutate[k]
    ensures Offspring(parents, mutate, draws) == parents
  {
  }

  /** With zero spread every draw is its parent, and the children are the parents exactly, mutated or not. */
  lemma ZeroSpreadOffspring(parents: seq<int>, mutate: seq<bool>)
    requires AllOnRing(parents)
    requires |mutate| == |parents|
    ensures Offspring(parents, mutate, parents) == parents
  {
  }
}
