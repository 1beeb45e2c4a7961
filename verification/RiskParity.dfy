/** Hierarchical risk parity from linkage and returns to weights (HierarchicalRiskParity.optimize). */
module RiskParity {
  import opened Bisection
  import opened QuasiDiag
  import opened RiskBalance
  import opened SampleCovariance

  /** A permutation of the items has no repetitions. */
  lemma PermutationIsUnique(order: seq<int>, n: nat)
    requires multiset(order) == multiset(seq(n, i => i))
    ensures Unique(order)
  {
    forall j, k | 0 <= j < k < |order|
      ensures order[j] != order[k]
    {
      CountUpTo(n, order[j]);
      assert order == order[..k] + order[k..];
      assert order[..k][j] == order[j] && order[k..][0] == order[k];
      assert order[j] in multiset(order[..k]) && order[k] in multiset(order[k..]);
    }
  }

  /** The ids in the order that are items. */
  function BelowN(order: seq<int>, n: nat): seq<int> {
    if order == [] then []
    else
      var rest := BelowN(order[..|order| - 1], n);
      if order[|order| - 1] < n then rest + [order[|order| - 1]] else rest
  }

  lemma {:induction false} NothingFiltered(order: seq<int>, n: nat)
    requires forall k :: 0 <= k < |order| ==> order[k] < n
    ensures BelowN(order, n) == order
  {
    if order != [] {
      NothingFiltered(order[..|order| - 1], n);
      assert order[..|order| - 1] + [order[|order| - 1]] == order;
    }
  }

  lemma ItemsOnly(order: seq<int>, n: nat)
    requires multiset(order) == multiset(seq(n, i => i))
    ensures forall k :: 0 <= k < |order| ==> 0 <= order[k] < n
  {
    forall k | 0 <= k < |order|
      ensures 0 <= order[k] < n
    {
      CountUpTo(n, order[k]);
      assert order[k] in multiset(order);
    }
  }

  lemma OrderLength(order: seq<int>, n: nat)
    requires multiset(order) == multiset(seq(n, i => i))
    ensures |order| == n
  {
    assert |multiset(order)| == |multiset(seq(n, i => i))|;
  }

  lemma ItemsPositive(link: Linkage)
    ensures Items(link) > 0
  {
  }

  lemma AllocationTotals(cov: (int, int) -> real, order: seq<int>, weights: seq<real>)
    requires IsAllocation(cov, order, weights) && order != []
    ensures |weights| == |order| && Total(weights) == 1.0
  {
    hide Total, Weight;
  }

  /** From the linkage of at least two assets and their returns: a long-only, fully invested allocation over the leaf
      order of the dendrogram. */
  method Optimize(link: Linkage, r: Returns) returns (weights: array<real>)
    requires QuasiDiag.Valid(link) && r.periods >= 2
    ensures weights.Length == Items(link)
    ensures IsAllocation(Covariance(r), Leaves(link, Root(link)), weights[..])
    ensures Total(weights[..]) == 1.0
    ensures RiskBalanced(Covariance(r), Leaves(link, Root(link)), weights[..])
    ensures forall k :: 0 <= k < weights.Length ==> 0.0 <= weights[k] <= 1.0
  {
    hide *;
    var order := Flatten(link);
    ItemsOnly(order, Items(link));
    NothingFiltered(order, Items(link));
    PermutationIsUnique(order, Items(link));
    OrderLength(order, Items(link));
    ItemsPositive(link);
    weights := Bisect(Covariance(r), BelowN(order, Items(link)));
    AllocationOfReturnsInUnit(r, order, weights[..]);
    AllocationTotals(Covariance(r), order, weights[..]);
    CovarianceIsPsd(r);
    AllocationWhenBalanced(Covariance(r), order, weights[..]);
    assert forall k :: 0 <= k < weights.Length ==> weights[k] == weights[..][k];
  }
}
