/** What the forward and backward variables of a hidden Markov chain mean: sums over state paths. */
module PathPosterior {
  import opened Sums
  import opened PathSums

  /** An n-state chain observed t times: start(i) weighs state i with the first observation, and
      step(k, i, j) a move from i to j with observation k. */
  datatype Chain = Chain(n: nat, t: nat, start: int -> real, step: (int, int, int) -> real)

  function Last(p: seq<int>): int {
    if p == [] then 0 else p[|p| - 1]
  }

  /** The joint density of a state path and the observations it covers. */
  function Prob(m: Chain, p: seq<int>): real {
    if p == [] then 1.0
    else if |p| == 1 then m.start(p[0])
    else
      var q := p[..|p| - 1];
      Prob(m, q) * m.step(|q|, Last(q), Last(p))
  }

  /** The density of the observations: every one of the n^t paths counted once. */
  ghost function Likelihood(m: Chain): real {
    SumPaths(m.n, m.t, [], p => Prob(m, p))
  }

  /** The part of the likelihood that comes from the paths with g(p) = 1, for an indicator g. */
  ghost function Mass(m: Chain, len: nat, g: seq<int> -> real): real {
    SumPaths(m.n, len, [], p => g(p) * Prob(m, p))
  }

  /** Paths in state i at time t. */
  function Visits(t: int, i: int): seq<int> -> real {
    p => if 0 <= t < |p| && p[t] == i then 1.0 else 0.0
  }

  /** Paths in state i at time t and in state j one step later. */
  function VisitsBoth(t: int, i: int, j: int): seq<int> -> real {
    p => if 0 <= t < |p| - 1 && p[t] == i && p[t + 1] == j then 1.0 else 0.0
  }

  /** The forward recurrence, without scaling. */
  ghost function Forward(m: Chain, t: nat, j: int): real {
    if t == 0 then m.start(j)
    else Sum(m.n, i => Forward(m, t - 1, i) * m.step(t, i, j))
  }

  /** The backward recurrence, without scaling. */
  ghost function Backward(m: Chain, t: int, i: int): real
    decreases m.t - t
  {
    if t >= m.t - 1 then 1.0
    else Sum(m.n, j => m.step(t + 1, i, j) * Backward(m, t + 1, j))
  }

  lemma ProbUnfold(m: Chain, p: seq<int>)
    requires |p| > 1
    ensures Prob(m, p) == Prob(m, p[..|p| - 1]) * m.step(|p| - 1, Last(p[..|p| - 1]), Last(p))
  {
  }

  lemma ProbExtend(m: Chain, p: seq<int>, j: int)
    requires p != []
    ensures Prob(m, p + [j]) == Prob(m, p) * m.step(|p|, Last(p), j)
  {
    hide Prob;
    ProbUnfold(m, p + [j]);
    assert (p + [j])[..|p + [j]| - 1] == p;
  }

  /** The forward variable is the sum over the paths that end in state j at time t. */
  lemma {:induction false} ForwardSumsPaths(m: Chain, t: nat, j: int)
    ensures Forward(m, t, j) == SumPaths(m.n, t, [], p => Prob(m, p + [j]))
  {
    if t == 0 {
      assert [] + [j] == [j];
    } else {
      forall i | 0 <= i < m.n
        ensures Forward(m, t - 1, i) == SumPaths(m.n, t - 1, [], p => Prob(m, p + [i]))
      {
        ForwardSumsPaths(m, t - 1, i);
      }
      ForwardStep(m, t, j);
    }
  }

  lemma ForwardUnfold(m: Chain, t: nat, j: int)
    requires t > 0
    ensures Forward(m, t, j) == Sum(m.n, i => Forward(m, t - 1, i) * m.step(t, i, j))
  {
  }

  lemma BackwardUnfold(m: Chain, t: int, i: int)
    requires t < m.t - 1
    ensures Backward(m, t, i) == Sum(m.n, j => m.step(t + 1, i, j) * Backward(m, t + 1, j))
  {
  }

  lemma ForwardStep(m: Chain, t: nat, j: int)
    requires t > 0
    requires forall i :: 0 <= i < m.n ==>
      Forward(m, t - 1, i) == SumPaths(m.n, t - 1, [], p => Prob(m, p + [i]))
    ensures Forward(m, t, j) == SumPaths(m.n, t, [], p => Prob(m, p + [j]))
  {
    hide Prob, SumPaths, Forward, Sum;
    ForwardUnfold(m, t, j);
    var f := p => Prob(m, p + [j]);
    SumPathsByLast(m.n, t - 1, f);
    var byLast := i => SumPaths(m.n, t - 1, [], p => f(p + [i]));
    forall i | 0 <= i < m.n
      ensures byLast(i) == Forward(m, t - 1, i) * m.step(t, i, j)
    {
      LastMove(m, t, i, j);
      SumPathsCong(m.n, t - 1, [], p => f(p + [i]), p => Prob(m, p + [i] + [j]));
    }
    SumCong(m.n, byLast, i => Forward(m, t - 1, i) * m.step(t, i, j));
  }

  lemma LastMove(m: Chain, t: nat, i: int, j: int)
    requires t > 0
    ensures SumPaths(m.n, t - 1, [], p => Prob(m, p + [i] + [j]))
         == SumPaths(m.n, t - 1, [], p => Prob(m, p + [i])) * m.step(t, i, j)
  {
    hide Prob, SumPaths;
    var a := m.step(t, i, j);
    var g := p => Prob(m, p + [i]);
    forall p: seq<int> | |p| == t - 1
      ensures Prob(m, p + [i] + [j]) == a * g(p)
    {
      ProbExtend(m, p + [i], j);
    }
    SumPathsCong(m.n, t - 1, [], p => Prob(m, p + [i] + [j]), p => a * g(p));
    SumPathsScale(m.n, t - 1, [], a, g);
  }

  /** Sum over paths of length len, each weighted by g and by the backward variable of its end. */
  ghost function Weighted(m: Chain, g: seq<int> -> real, len: nat): real {
    SumPaths(m.n, len, [], p => Weight(m, g, p))
  }

  ghost function Weight(m: Chain, g: seq<int> -> real, p: seq<int>): real {
    g(p) * Prob(m, p) * Backward(m, |p| - 1, Last(p))
  }

  /** g looks only at the first k states. */
  ghost predicate LooksAt(g: seq<int> -> real, k: nat) {
    forall p, j {:trigger g(p + [j])} :: |p| >= k ==> g(p + [j]) == g(p)
  }

  /** The summand of Weighted, one state longer, split by that state. */
  lemma WeightByLast(m: Chain, g: seq<int> -> real, p: seq<int>)
    requires 0 < |p| < m.t && LooksAt(g, |p|)
    ensures Sum(m.n, j => Weight(m, g, p + [j])) == Weight(m, g, p)
  {
    hide Prob, Backward, Sum, Weight;
    var c := g(p) * Prob(m, p);
    var b := j => m.step(|p|, Last(p), j) * Backward(m, |p|, j);
    forall j
      ensures Weight(m, g, p + [j]) == c * b(j)
    {
      WeightExtend(m, g, p, j);
    }
    ScaledSum(m.n, c, j => Weight(m, g, p + [j]), b);
    BackwardBefore(m, p, b);
    WeightIs(m, g, p, g(p), Prob(m, p), Backward(m, |p| - 1, Last(p)));
  }

  lemma BackwardBefore(m: Chain, p: seq<int>, b: int -> real)
    requires 0 < |p| < m.t && forall j :: b(j) == m.step(|p|, Last(p), j) * Backward(m, |p|, j)
    ensures Sum(m.n, b) == Backward(m, |p| - 1, Last(p))
  {
    hide Backward, Sum;
    var t := |p| - 1;
    BackwardUnfold(m, t, Last(p));
    SumCong(m.n, b, j => m.step(t + 1, Last(p), j) * Backward(m, t + 1, j));
  }

  lemma WeightExtend(m: Chain, g: seq<int> -> real, p: seq<int>, j: int)
    requires 0 < |p| && LooksAt(g, |p|)
    ensures Weight(m, g, p + [j]) == (g(p) * Prob(m, p)) * (m.step(|p|, Last(p), j) * Backward(m, |p|, j))
  {
    hide Prob, Backward, Weight;
    var pj := p + [j];
    var a, b, c, d, bc := g(p), Prob(m, p), m.step(|p|, Last(p), j), Backward(m, |p|, j), Prob(m, pj);
    ProbExtend(m, p, j);
    WeightIs(m, g, pj, a, bc, d);
    WeightFactors(a, b, c, d, bc);
  }

  lemma WeightIs(m: Chain, g: seq<int> -> real, p: seq<int>, a: real, b: real, c: real)
    requires a == g(p) && b == Prob(m, p) && c == Backward(m, |p| - 1, Last(p))
    ensures Weight(m, g, p) == a * b * c
  {
    hide Prob, Backward;
  }

  lemma WeightFactors(a: real, b: real, c: real, d: real, bc: real)
    requires bc == b * c
    ensures a * bc * d == (a * b) * (c * d)
  {
  }

  lemma PullBack(m: Chain, g: seq<int> -> real, len: nat)
    requires 0 < len < m.t && LooksAt(g, len)
    ensures Weighted(m, g, len + 1) == Weighted(m, g, len)
  {
    var w := p => Weight(m, g, p);
    var h := (p: seq<int>, j: int) => Weight(m, g, p + [j]);
    SumPathsByLast(m.n, len, w);
    forall j | 0 <= j < m.n
      ensures SumPaths(m.n, len, [], p => w(p + [j])) == SumPaths(m.n, len, [], p => h(p, j))
    {
      SumPathsCong(m.n, len, [], p => w(p + [j]), p => h(p, j));
    }
    SumCong(m.n, j => SumPaths(m.n, len, [], p => w(p + [j])), j => SumPaths(m.n, len, [], p => h(p, j)));
    SumPathsSwap(m.n, len, [], m.n, h);
    forall p: seq<int> | |p| == len
      ensures Sum(m.n, j => h(p, j)) == w(p)
    {
      WeightByLast(m, g, p);
      SumCong(m.n, j => h(p, j), j => Weight(m, g, p + [j]));
    }
    SumPathsCong(m.n, len, [], p => Sum(m.n, j => h(p, j)), w);
  }

  lemma {:induction false} PullAllBack(m: Chain, g: seq<int> -> real, len: nat)
    requires 0 < len <= m.t
    requires forall k :: len <= k ==> LooksAt(g, k)
    ensures Mass(m, m.t, g) == Weighted(m, g, len)
    decreases m.t - len
  {
    if len == m.t {
      SumPathsCong(m.n, m.t, [], p => g(p) * Prob(m, p), p => Weight(m, g, p));
    } else {
      PullAllBack(m, g, len + 1);
      PullBack(m, g, len);
    }
  }

  lemma VisitTerm(m: Chain, t: nat, i: nat, p: seq<int>, j: int)
    requires |p| == t
    ensures Visits(t, i)(p + [j]) * Prob(m, p + [j]) == if j == i then Prob(m, p + [i]) else 0.0
  {
    hide Prob;
    assert (p + [j])[t] == j;
  }

  lemma VisitsBothLooksAt(t: nat, i: nat, j: nat)
    ensures forall k :: t + 2 <= k ==> LooksAt(VisitsBoth(t, i, j), k)
  {
  }

  lemma VisitBothTerm(m: Chain, t: nat, i: nat, j: nat, p: seq<int>, k: int)
    requires |p| == t + 1
    ensures Weight(m, VisitsBoth(t, i, j), p + [k])
         == if k == j then (m.step(t + 1, i, j) * Backward(m, t + 1, j)) * (Visits(t, i)(p) * Prob(m, p)) else 0.0
  {
    hide Prob, Backward, Weight;
    var pk, g := p + [k], VisitsBoth(t, i, j);
    assert pk[t] == p[t] && pk[t + 1] == k;
    var a := if k == j then Visits(t, i)(p) else 0.0;
    var b, c, d, bc := Prob(m, p), m.step(t + 1, p[t], k), Backward(m, t + 1, k), Prob(m, pk);
    ProbExtend(m, p, k);
    WeightIs(m, g, pk, a, bc, d);
    WeightFactors(a, b, c, d, bc);
    VisitFactor(a, b, c, d, m.step(t + 1, i, k), k == j && p[t] == i);
  }

  lemma VisitFactor(a: real, b: real, c: real, d: real, e: real, visits: bool)
    requires if visits then a == 1.0 && c == e else a == 0.0
    ensures (a * b) * (c * d) == (e * d) * (a * b)
  {
  }

  lemma MassIs(m: Chain, len: nat, g: seq<int> -> real, f: seq<int> -> real)
    requires forall p :: f(p) == g(p) * Prob(m, p)
    ensures Mass(m, len, g) == SumPaths(m.n, len, [], f)
  {
    hide Prob, SumPaths;
    SumPathsCong(m.n, len, [], p => g(p) * Prob(m, p), f);
  }

  /** Paths of length t + 1 in state i at time t are those that the forward variable counts. */
  lemma EndMass(m: Chain, t: nat, i: nat)
    requires i < m.n
    ensures Mass(m, t + 1, Visits(t, i)) == Forward(m, t, i)
  {
    hide Prob, Forward, SumPaths, Visits;
    var f := p => Visits(t, i)(p) * Prob(m, p);
    var h := p => Prob(m, p + [i]);
    forall p, j | |p| == t
      ensures f(p + [j]) == if j == i then 1.0 * h(p) else 0.0
    {
      VisitTerm(m, t, i, p, j);
    }
    SumPathsPick(m.n, t, i, 1.0, f, h);
    ForwardSumsPaths(m, t, i);
    MassIs(m, t + 1, Visits(t, i), f);
  }

  /** The paths in state i at time t weigh forward times backward variable. */
  lemma ThroughIsProduct(m: Chain, t: nat, i: nat)
    requires t < m.t && i < m.n
    ensures Mass(m, m.t, Visits(t, i)) == Backward(m, t, i) * Forward(m, t, i)
  {
    hide Prob, Forward, Backward, SumPaths;
    var g := Visits(t, i);
    var w := Backward(m, t, i);
    PullAllBack(m, g, t + 1);
    var h := p => g(p) * Prob(m, p);
    SumPathsCong(m.n, t + 1, [], p => Weight(m, g, p), p => w * h(p));
    SumPathsScale(m.n, t + 1, [], w, h);
    EndMass(m, t, i);
  }

  /** The paths in states i and j at times t and t + 1. */
  lemma ThroughBothIsProduct(m: Chain, t: nat, i: nat, j: nat)
    requires t + 1 < m.t && i < m.n && j < m.n
    ensures Mass(m, m.t, VisitsBoth(t, i, j)) == (m.step(t + 1, i, j) * Backward(m, t + 1, j)) * Forward(m, t, i)
  {
    hide Prob, Forward, Backward, SumPaths, Visits, VisitsBoth, Weight;
    var g := VisitsBoth(t, i, j);
    var w := m.step(t + 1, i, j) * Backward(m, t + 1, j);
    VisitsBothLooksAt(t, i, j);
    PullAllBack(m, g, t + 2);
    var f := p => Weight(m, g, p);
    var h := p => Visits(t, i)(p) * Prob(m, p);
    forall p, k | |p| == t + 1
      ensures f(p + [k]) == if k == j then w * h(p) else 0.0
    {
      VisitBothTerm(m, t, i, j, p, k);
    }
    SumPathsPick(m.n, t + 1, j, w, f, h);
    EndMass(m, t, i);
    MassIs(m, t + 1, Visits(t, i), h);
  }

  /** At every time, the forward and backward variables add up to the likelihood. */
  lemma LikelihoodByState(m: Chain, t: nat)
    requires t < m.t
    ensures Likelihood(m) == Sum(m.n, i => Backward(m, t, i) * Forward(m, t, i))
  {
    hide Prob, Forward, Backward, SumPaths, Weight;
    var one := (p: seq<int>) => 1.0;
    SumPathsCong(m.n, m.t, [], p => Prob(m, p), p => one(p) * Prob(m, p));
    PullAllBack(m, one, t + 1);
    var f := p => Weight(m, one, p);
    SumPathsByLast(m.n, t, f);
    forall j | 0 <= j < m.n
      ensures SumPaths(m.n, t, [], p => f(p + [j])) == Backward(m, t, j) * Forward(m, t, j)
    {
      PlainMass(m, one, t, j);
      SumPathsCong(m.n, t, [], p => f(p + [j]), p => Weight(m, one, p + [j]));
    }
    SumCong(m.n, j => SumPaths(m.n, t, [], p => f(p + [j])), i => Backward(m, t, i) * Forward(m, t, i));
  }

  lemma PlainMass(m: Chain, one: seq<int> -> real, t: nat, j: int)
    requires forall p :: one(p) == 1.0
    ensures SumPaths(m.n, t, [], p => Weight(m, one, p + [j])) == Backward(m, t, j) * Forward(m, t, j)
  {
    hide Prob, Forward, Backward, SumPaths;
    var h := p => Prob(m, p + [j]);
    SumPathsCong(m.n, t, [], p => Weight(m, one, p + [j]), p => Backward(m, t, j) * h(p));
    SumPathsScale(m.n, t, [], Backward(m, t, j), h);
    ForwardSumsPaths(m, t, j);
  }
}
