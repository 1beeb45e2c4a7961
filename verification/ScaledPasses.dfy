/** The scaled forward and backward passes of HMM._forward_backward refine the sums over state paths. */
module ScaledPasses {
  import opened PathPosterior
  import opened PathSums
  import opened Reals
  import opened Sums

  /** Start and transition probabilities, and dens(k, i), the density of observation k in state i. */
  datatype Hmm = Hmm(n: nat, t: nat, init: int -> real, trans: (int, int) -> real, dens: (int, int) -> real)

  ghost predicate Valid(m: Hmm) {
    && m.n > 0 && m.t > 0
    && (forall i :: 0 <= i < m.n ==> m.init(i) >= 0.0)
    && (forall i, j :: 0 <= i < m.n && 0 <= j < m.n ==> m.trans(i, j) >= 0.0)
    && (forall k, i :: 0 <= k < m.t && 0 <= i < m.n ==> m.dens(k, i) >= 0.0)
  }

  ghost function Paths(m: Hmm): Chain {
    Chain(m.n, m.t, i => m.init(i) * m.dens(0, i), (k, i, j) => m.trans(i, j) * m.dens(k, j))
  }

  function At(row: seq<real>, i: int): real {
    if 0 <= i < |row| then row[i] else 0.0
  }

  function Total(row: seq<real>): real {
    Sum(|row|, i => At(row, i))
  }

  function Prod(s: seq<real>): real {
    if s == [] then 1.0 else Prod(s[..|s| - 1]) * s[|s| - 1]
  }

  lemma {:induction false} ProdAppend(a: seq<real>, b: seq<real>)
    ensures Prod(a + b) == Prod(a) * Prod(b)
  {
    if b == [] {
      assert a + b == a;
    } else {
      var r := b[..|b| - 1];
      ProdAppend(a, r);
      ProdLast(a + r, b[|b| - 1]);
      ProdLast(r, b[|b| - 1]);
      assert (a + r) + [b[|b| - 1]] == a + b && r + [b[|b| - 1]] == b;
      Associate(Prod(a), Prod(r), b[|b| - 1]);
    }
  }

  lemma ProdLast(a: seq<real>, x: real)
    ensures Prod(a + [x]) == Prod(a) * x
  {
    assert (a + [x])[..|a + [x]| - 1] == a;
  }

  lemma ProdLastIs(a: seq<real>, x: real, y: real)
    requires y == Prod(a) * x
    ensures Prod(a + [x]) == y
  {
    hide Prod;
    ProdLast(a, x);
  }

  lemma {:induction false} ForwardNonneg(m: Hmm, t: nat, j: int)
    requires Valid(m) && t < m.t && 0 <= j < m.n
    ensures Forward(Paths(m), t, j) >= 0.0
  {
    var p := Paths(m);
    if t > 0 {
      var f := i => Forward(p, t - 1, i) * p.step(t, i, j);
      forall i | 0 <= i < m.n
        ensures f(i) >= 0.0
      {
        ForwardNonneg(m, t - 1, i);
        assert m.trans(i, j) * m.dens(t, j) >= 0.0;
        ProductNonneg(Forward(p, t - 1, i), p.step(t, i, j));
      }
      SumNonneg(m.n, f);
      ForwardUnfold(p, t, j);
    }
  }

  /** Some path can produce the observations up to time t. */
  ghost predicate Possible(m: Hmm, t: nat) {
    Sum(m.n, i => Forward(Paths(m), t, i)) > 0.0
  }

  /** What is possible up to time t is possible up to the time before. */
  lemma PossibleBefore(m: Hmm, t: nat)
    requires Valid(m) && 0 < t < m.t
    ensures Possible(m, t) ==> Possible(m, t - 1)
  {
    hide Forward;
    var p := Paths(m);
    var f := i => Forward(p, t - 1, i);
    forall i | 0 <= i < m.n
      ensures f(i) >= 0.0
    {
      ForwardNonneg(m, t - 1, i);
    }
    SumNonneg(m.n, f);
    SumCong(m.n, f, i => Forward(Paths(m), t - 1, i));
    if Sum(m.n, f) == 0.0 {
      forall j | 0 <= j < m.n
        ensures Forward(p, t, j) == 0.0
      {
        ForwardUnfold(p, t, j);
        forall i | 0 <= i < m.n
          ensures Forward(p, t - 1, i) * p.step(t, i, j) == 0.0
        {
          assert f(i) == 0.0;
        }
        SumZero(m.n, i => Forward(p, t - 1, i) * p.step(t, i, j));
      }
      SumZero(m.n, i => Forward(Paths(m), t, i));
    }
  }

  /** If the observations are possible at all, some state is possible at every time. */
  lemma ForwardMassPositive(m: Hmm, t: nat)
    requires Valid(m) && t < m.t
    ensures Likelihood(Paths(m)) != 0.0 ==> Possible(m, t)
  {
    hide Forward, Backward, Likelihood;
    var p := Paths(m);
    var f := i => Forward(p, t, i);
    forall i | 0 <= i < m.n
      ensures f(i) >= 0.0
    {
      ForwardNonneg(m, t, i);
    }
    SumNonneg(m.n, f);
    SumCong(m.n, f, i => Forward(Paths(m), t, i));
    if Sum(m.n, f) == 0.0 {
      LikelihoodByState(p, t);
      forall i | 0 <= i < m.n
        ensures Backward(p, t, i) * Forward(p, t, i) == 0.0
      {
        assert f(i) == 0.0;
      }
      SumZero(m.n, i => Backward(p, t, i) * Forward(p, t, i));
    }
  }

  lemma LikelihoodIsLastMass(m: Hmm)
    requires Valid(m)
    ensures Likelihood(Paths(m)) == Sum(m.n, i => Forward(Paths(m), m.t - 1, i)) >= 0.0
  {
    var p := Paths(m);
    LikelihoodByState(p, m.t - 1);
    SumCong(m.n, i => Backward(p, m.t - 1, i) * Forward(p, m.t - 1, i), i => Forward(Paths(m), m.t - 1, i));
    var f := i => Forward(Paths(m), m.t - 1, i);
    forall i | 0 <= i < m.n
      ensures f(i) >= 0.0
    {
      ForwardNonneg(m, m.t - 1, i);
    }
    SumNonneg(m.n, f);
  }

  ghost predicate Nonneg(row: seq<real>) {
    forall i :: 0 <= i < |row| ==> row[i] >= 0.0
  }

  lemma TotalOfMultiple(row: seq<real>, a: real, f: int -> real)
    requires forall i :: 0 <= i < |row| ==> a * row[i] == f(i)
    ensures a * Total(row) == Sum(|row|, f)
  {
    var g := i => At(row, i);
    SumScale(|row|, a, g);
    SumCong(|row|, i => a * g(i), f);
  }

  /** A row divided by its total, or the uniform row with constant 1 if the total is zero. */
  ghost predicate IsNormalised(raw: seq<real>, row: seq<real>, total: real) {
    && |row| == |raw|
    && (Total(raw) > 0.0 ==> total == Total(raw) && forall j :: 0 <= j < |raw| ==> total * row[j] == raw[j])
    && (Total(raw) == 0.0 ==> total == 1.0 && forall j :: 0 <= j < |raw| ==> row[j] == 1.0 / |raw| as real)
  }

  method Normalise(raw: seq<real>) returns (row: seq<real>, total: real)
    requires |raw| > 0 && Nonneg(raw)
    ensures |row| == |raw| && Nonneg(row) && Total(row) == 1.0 && total > 0.0
    ensures Total(raw) >= 0.0 && IsNormalised(raw, row, total)
  {
    hide Total;
    total := Total(raw);
    TotalNonneg(raw);
    if total > 0.0 {
      row := seq(|raw|, j requires 0 <= j < |raw| => raw[j] / total);
      ShareOfTotal(raw, row);
    } else {
      row := seq(|raw|, j => 1.0 / |raw| as real);
      total := 1.0;
      EqualShares(row);
    }
  }

  lemma TotalNonneg(raw: seq<real>)
    requires Nonneg(raw)
    ensures Total(raw) >= 0.0
  {
    SumNonneg(|raw|, i => At(raw, i));
  }

  lemma ShareOfTotal(raw: seq<real>, row: seq<real>)
    requires |row| == |raw| && Total(raw) > 0.0 && Nonneg(raw)
    requires forall j :: 0 <= j < |raw| ==> row[j] == raw[j] / Total(raw)
    ensures Total(row) == 1.0 && Nonneg(row)
    ensures forall j :: 0 <= j < |raw| ==> Total(raw) * row[j] == raw[j]
  {
    hide Total;
    var t := Total(raw);
    forall j | 0 <= j < |raw|
      ensures t * row[j] == raw[j] && row[j] >= 0.0
    {
      MulDiv(raw[j], t);
    }
    TotalOfMultiple(row, t, i => At(raw, i));
    TotalIs(raw);
    Cancel(t, Total(row), Sum(|raw|, i => At(raw, i)));
  }

  lemma TotalIs(raw: seq<real>)
    ensures Total(raw) == Sum(|raw|, i => At(raw, i))
  {
  }

  lemma EqualShares(row: seq<real>)
    requires |row| > 0 && forall j :: 0 <= j < |row| ==> row[j] == 1.0 / |row| as real
    ensures Total(row) == 1.0
  {
    hide Total;
    var n := |row| as real;
    forall j | 0 <= j < |row|
      ensures n * row[j] == 1.0
    {
      MulDiv(1.0, n);
    }
    TotalOfMultiple(row, n, i => 1.0);
    SumOnes(|row|);
    Cancel(n, Total(row), Sum(|row|, i => 1.0));
  }

  lemma {:induction false} SumOnes(n: nat)
    ensures Sum(n, i => 1.0) == n as real
  {
    if n > 0 {
      SumOnes(n - 1);
    }
  }

  /** A normalised row of forward variables; times `scale` it is the sum over paths, if that is not all zero. */
  ghost predicate IsForwardRow(m: Hmm, t: nat, row: seq<real>, scale: real) {
    && |row| == m.n && Nonneg(row) && Total(row) == 1.0 && scale > 0.0
    && (Possible(m, t) ==> Unscaled(m, t, row, scale))
  }

  ghost predicate Unscaled(m: Hmm, t: nat, row: seq<real>, scale: real)
    requires |row| == m.n
  {
    forall j :: 0 <= j < m.n ==> Times(scale, row[j]) == Forward(Paths(m), t, j)
  }

  /** One application of the forward recurrence, before normalising. */
  function Pushed(m: Hmm, t: nat, prev: seq<real>, j: int): real {
    if t == 0 then m.init(j) * m.dens(0, j) else m.dens(t, j) * Sum(m.n, i => At(prev, i) * m.trans(i, j))
  }

  function RawRow(m: Hmm, t: nat, prev: seq<real>): seq<real> {
    seq(m.n, j => Pushed(m, t, prev, j))
  }

  ghost predicate IsNextRow(m: Hmm, t: nat, prev: seq<real>, raw: seq<real>) {
    |raw| == m.n && forall j :: 0 <= j < m.n ==> raw[j] == Pushed(m, t, prev, j)
  }

  lemma NextRowIsRaw(m: Hmm, t: nat, prev: seq<real>, raw: seq<real>)
    requires IsNextRow(m, t, prev, raw)
    ensures raw == RawRow(m, t, prev)
  {
    hide Pushed;
  }

  lemma PushedUnfold(m: Hmm, t: nat, prev: seq<real>, j: int)
    requires t > 0
    ensures Pushed(m, t, prev, j) == m.dens(t, j) * Sum(m.n, i => At(prev, i) * m.trans(i, j))
  {
  }

  /** The summands of the recurrence, scaled and not. */
  lemma SummandUnscaled(m: Hmm, t: nat, prev: seq<real>, scale: real, i: nat, j: nat)
    requires 0 < t && |prev| == m.n && i < m.n && j < m.n && Unscaled(m, t - 1, prev, scale)
    ensures (scale * m.dens(t, j)) * (At(prev, i) * m.trans(i, j))
         == Forward(Paths(m), t - 1, i) * Paths(m).step(t, i, j)
  {
    hide Forward;
    assert Times(scale, prev[i]) == Forward(Paths(m), t - 1, i);
    assert Paths(m).step(t, i, j) == m.trans(i, j) * m.dens(t, j);
    Regroup4(scale, m.dens(t, j), prev[i], m.trans(i, j));
  }

  lemma EntryUnscaled(m: Hmm, t: nat, prev: seq<real>, scale: real, j: nat)
    requires 0 < t && |prev| == m.n && j < m.n && Unscaled(m, t - 1, prev, scale)
    ensures Times(scale, Pushed(m, t, prev, j)) == Forward(Paths(m), t, j)
  {
    hide Forward, Sum, Unscaled, Pushed, At;
    var p := Paths(m);
    var f := i => At(prev, i) * m.trans(i, j);
    var g := i => Forward(p, t - 1, i) * p.step(t, i, j);
    forall i: nat | i < m.n
      ensures g(i) == (scale * m.dens(t, j)) * f(i)
    {
      SummandUnscaled(m, t, prev, scale, i, j);
    }
    ScaledSum(m.n, scale * m.dens(t, j), g, f);
    ForwardUnfold(p, t, j);
    PushedUnfold(m, t, prev, j);
    Associate(scale, m.dens(t, j), Sum(m.n, f));
  }

  lemma NextRowUnscaled(m: Hmm, t: nat, prev: seq<real>, raw: seq<real>, scale: real)
    requires 0 < t && |prev| == m.n && IsNextRow(m, t, prev, raw) && Unscaled(m, t - 1, prev, scale)
    ensures Unscaled(m, t, raw, scale)
  {
    hide Forward, Pushed, Times;
    forall j: nat | j < m.n
      ensures Times(scale, raw[j]) == Forward(Paths(m), t, j)
    {
      EntryUnscaled(m, t, prev, scale, j);
    }
  }

  lemma Regroup4(s: real, d: real, x: real, y: real)
    ensures (s * d) * (x * y) == (s * x) * (y * d)
  {
  }

  lemma PushedNonneg(m: Hmm, t: nat, prev: seq<real>, j: nat)
    requires Valid(m) && t < m.t && j < m.n && (t > 0 ==> |prev| == m.n && Nonneg(prev))
    ensures Pushed(m, t, prev, j) >= 0.0
  {
    hide Sum;
    if t == 0 {
      ProductNonneg(m.init(j), m.dens(0, j));
    } else {
      var f := i => At(prev, i) * m.trans(i, j);
      forall i | 0 <= i < m.n
        ensures f(i) >= 0.0
      {
        ProductNonneg(prev[i], m.trans(i, j));
      }
      SumNonneg(m.n, f);
      ProductNonneg(m.dens(t, j), Sum(m.n, f));
    }
  }

  lemma NextRowNonneg(m: Hmm, t: nat, prev: seq<real>, raw: seq<real>)
    requires Valid(m) && t < m.t && IsNextRow(m, t, prev, raw) && (t > 0 ==> |prev| == m.n && Nonneg(prev))
    ensures Nonneg(raw)
  {
    hide Pushed;
    forall j: nat | j < m.n
      ensures raw[j] >= 0.0
    {
      PushedNonneg(m, t, prev, j);
    }
  }

  /** Normalising keeps the meaning of a row, with its total moved into the scale. */
  lemma NormalisedRow(m: Hmm, t: nat, raw: seq<real>, scale: real, row: seq<real>, total: real)
    requires Valid(m) && t < m.t && |row| == |raw| == m.n && scale > 0.0 && total > 0.0
    requires Nonneg(row) && Total(row) == 1.0 && IsNormalised(raw, row, total)
    requires Possible(m, t) ==> Unscaled(m, t, raw, scale)
    ensures IsForwardRow(m, t, row, scale * total)
  {
    hide Forward, Total;
    var p := Paths(m);
    if Possible(m, t) {
      TotalOfMultiple(raw, scale, i => Forward(p, t, i));
      assert Total(raw) > 0.0;
      forall j | 0 <= j < m.n
        ensures (scale * total) * row[j] == Forward(p, t, j)
      {
        Associate(scale, total, row[j]);
      }
    }
  }

  /** What the program computes at time t from the row before. */
  ghost predicate IsStep(m: Hmm, t: nat, prev: seq<real>, row: seq<real>, total: real) {
    IsNormalised(RawRow(m, t, prev), row, total)
  }

  method FirstRow(m: Hmm) returns (row: seq<real>, total: real)
    requires Valid(m)
    ensures total > 0.0 && IsForwardRow(m, 0, row, total) && IsStep(m, 0, [], row, total)
  {
    var raw := seq(m.n, j requires 0 <= j < m.n => m.init(j) * m.dens(0, j));
    assert Unscaled(m, 0, raw, 1.0);
    NextRowNonneg(m, 0, [], raw);
    NextRowIsRaw(m, 0, [], raw);
    row, total := Normalise(raw);
    NormalisedRow(m, 0, raw, 1.0, row, total);
  }

  method NextRow(m: Hmm, t: nat, prev: seq<real>, ghost before: real)
      returns (row: seq<real>, total: real, ghost scale: real)
    requires Valid(m) && 0 < t < m.t && IsForwardRow(m, t - 1, prev, before)
    ensures total > 0.0 && scale == before * total && IsForwardRow(m, t, row, scale)
    ensures IsStep(m, t, prev, row, total)
  {
    hide Possible, Sum, Total, IsNormalised, Pushed;
    var raw := [];
    for j := 0 to m.n
      invariant |raw| == j
      invariant forall k :: 0 <= k < j ==> raw[k] == Pushed(m, t, prev, k)
    {
      PushedUnfold(m, t, prev, j);
      raw := raw + [m.dens(t, j) * Sum(m.n, i => At(prev, i) * m.trans(i, j))];
    }
    NextRowIsRaw(m, t, prev, raw);
    NextRowNonneg(m, t, prev, raw);
    PossibleBefore(m, t);
    if Possible(m, t) {
      NextRowUnscaled(m, t, prev, raw, before);
    }
    row, total := Normalise(raw);
    scale := before * total;
    NormalisedRow(m, t, raw, before, row, total);
  }

  function Before(alpha: seq<seq<real>>, t: nat): seq<real>
    requires t <= |alpha|
  {
    if t == 0 then [] else alpha[t - 1]
  }

  /** The first t rows of alpha, each computed from the one before and scaled by the constants up to its own. */
  ghost predicate IsForward(m: Hmm, alpha: seq<seq<real>>, c: seq<real>) {
    && |alpha| == |c|
    && forall t :: 0 <= t < |alpha| ==> ForwardAt(m, alpha, c, t)
  }

  ghost predicate ForwardAt(m: Hmm, alpha: seq<seq<real>>, c: seq<real>, t: nat)
    requires t < |alpha| == |c|
  {
    && c[t] > 0.0 && IsForwardRow(m, t, alpha[t], Prod(c[..t + 1]))
    && IsStep(m, t, Before(alpha, t), alpha[t], c[t])
  }

  lemma OneMoreRow(m: Hmm, alpha: seq<seq<real>>, c: seq<real>, row: seq<real>, total: real, scale: real)
    requires IsForward(m, alpha, c) && total > 0.0
    requires scale == Prod(c + [total]) && IsForwardRow(m, |c|, row, scale)
    requires IsStep(m, |c|, Before(alpha, |c|), row, total)
    ensures IsForward(m, alpha + [row], c + [total])
  {
    hide IsForwardRow, IsStep, Prod;
    var c', alpha' := c + [total], alpha + [row];
    forall t | 0 <= t < |c'|
      ensures ForwardAt(m, alpha', c', t)
    {
      if t < |c| {
        assert c'[..t + 1] == c[..t + 1] && ForwardAt(m, alpha, c, t);
      } else {
        assert c'[..t + 1] == c' && Before(alpha', t) == Before(alpha, t);
      }
    }
  }

  /** The forward pass: rows alpha[t] and their normalising constants c[t]. */
  method ForwardPass(m: Hmm) returns (alpha: array<seq<real>>, c: array<real>)
    requires Valid(m)
    ensures alpha.Length == c.Length == m.t && IsForward(m, alpha[..], c[..])
  {
    hide IsForwardRow, IsForward, Prod, IsStep;
    alpha := new seq<real>[m.t];
    c := new real[m.t];
    var row, total := FirstRow(m);
    alpha[0], c[0] := row, total;
    assert Prod([]) == 1.0 && IsForward(m, [], []) by {
      StartOfForward(m);
    }
    ProdLastIs([], total, total);
    OneMoreRow(m, [], [], row, total, total);
    assert alpha[..1] == [] + [row] && c[..1] == [] + [total];
    for t := 1 to m.t
      invariant IsForward(m, alpha[..t], c[..t])
    {
      ghost var rows, cs := alpha[..t], c[..t];
      LastRow(m, rows, cs);
      ghost var scale;
      row, total, scale := NextRow(m, t, alpha[t - 1], Prod(cs));
      alpha[t], c[t] := row, total;
      ProdLastIs(cs, total, scale);
      OneMoreRow(m, rows, cs, row, total, scale);
      assert alpha[..t + 1] == rows + [row] && c[..t + 1] == cs + [total];
    }
    assert alpha[..] == alpha[..m.t] && c[..] == c[..m.t];
  }

  lemma StartOfForward(m: Hmm)
    ensures Prod([]) == 1.0 && IsForward(m, [], [])
  {
  }

  lemma LastRow(m: Hmm, alpha: seq<seq<real>>, c: seq<real>)
    requires IsForward(m, alpha, c) && alpha != []
    ensures IsForwardRow(m, |c| - 1, alpha[|c| - 1], Prod(c))
  {
    assert c[..|c| - 1 + 1] == c && ForwardAt(m, alpha, c, |c| - 1);
  }

  /** For possible observations every row of alpha, times the constants up to it, is a row of path sums. */
  lemma UnscaledAt(m: Hmm, alpha: seq<seq<real>>, c: seq<real>, t: nat)
    requires Valid(m) && IsForward(m, alpha, c) && t < |c| == m.t && Likelihood(Paths(m)) > 0.0
    ensures |alpha| == m.t && |alpha[t]| == m.n && Unscaled(m, t, alpha[t], Prod(c[..t + 1]))
  {
    ForwardMassPositive(m, t);
    hide Likelihood, Prod, IsStep, Unscaled, Possible, Total, Nonneg;
    assert ForwardAt(m, alpha, c, t);
  }

  /** Up to the first impossible observation, the constants times alpha[t][j] are the summed probability of all
      paths that end in state j at time t. */
  lemma ForwardRefinesPathSum(m: Hmm, alpha: seq<seq<real>>, c: seq<real>, t: nat, j: nat)
    requires IsForward(m, alpha, c) && t < |c| && j < m.n && Possible(m, t)
    ensures |alpha[t]| == m.n
    ensures Prod(c[..t + 1]) * alpha[t][j] == SumPaths(m.n, t, [], p => Prob(Paths(m), p + [j]))
  {
    hide Prod, Forward, SumPaths, Prob, Possible;
    assert ForwardAt(m, alpha, c, t);
    assert Unscaled(m, t, alpha[t], Prod(c[..t + 1]));
    ForwardSumsPaths(Paths(m), t, j);
  }

  /** The constants multiply to the likelihood, unless the observations are impossible. */
  lemma ConstantsMultiplyToLikelihood(m: Hmm, alpha: seq<seq<real>>, c: seq<real>)
    requires Valid(m) && |c| == m.t && IsForward(m, alpha, c)
    ensures Prod(c) == Likelihood(Paths(m)) <==> Likelihood(Paths(m)) > 0.0
  {
    hide Forward, Likelihood, Total, Prod;
    LastRow(m, alpha, c);
    LikelihoodIsLastMass(m);
    if Likelihood(Paths(m)) > 0.0 {
      TotalOfMultiple(alpha[m.t - 1], Prod(c), i => Forward(Paths(m), m.t - 1, i));
    }
  }

  /** A row of backward variables; times `scale` it is the sum over continuations. */
  ghost predicate IsBackwardRow(m: Hmm, t: nat, row: seq<real>, scale: real) {
    |row| == m.n && forall i :: 0 <= i < m.n ==> Times(scale, row[i]) == Backward(Paths(m), t, i)
  }

  /** The rows of beta from time t on. */
  ghost predicate IsBackward(m: Hmm, beta: seq<seq<real>>, c: seq<real>, t: nat) {
    && |beta| == |c| == m.t
    && forall k :: t <= k < m.t ==> BackwardAt(m, beta, c, k)
  }

  ghost predicate BackwardAt(m: Hmm, beta: seq<seq<real>>, c: seq<real>, t: nat)
    requires t < |beta| == |c|
  {
    && IsBackwardRow(m, t, beta[t], Prod(c[t + 1..]))
    && (t == m.t - 1 ==> forall i :: 0 <= i < m.n ==> beta[t][i] == 1.0)
    && (t + 1 < |c| ==> IsStepBack(m, t, beta[t], beta[t + 1], c[t + 1]))
  }

  /** What the program computes at time t from the row after. */
  ghost predicate IsStepBack(m: Hmm, t: nat, row: seq<real>, next: seq<real>, c: real) {
    |row| == m.n && forall i :: 0 <= i < m.n ==> Times(c, row[i]) == Pulled(m, t, next, i)
  }

  function Pulled(m: Hmm, t: nat, next: seq<real>, i: int): real {
    Sum(m.n, j => m.trans(i, j) * m.dens(t + 1, j) * At(next, j))
  }

  method PreviousRow(m: Hmm, t: nat, next: seq<real>, c: real, ghost after: real)
      returns (row: seq<real>, ghost scale: real)
    requires Valid(m) && t + 1 < m.t && c > 0.0 && IsBackwardRow(m, t + 1, next, after)
    ensures scale == c * after && IsBackwardRow(m, t, row, scale) && IsStepBack(m, t, row, next, c)
  {
    hide Backward, Pulled, Times;
    row := [];
    scale := c * after;
    for i := 0 to m.n
      invariant |row| == i
      invariant forall k :: 0 <= k < i ==> Times(scale, row[k]) == Backward(Paths(m), t, k)
      invariant forall k :: 0 <= k < i ==> Times(c, row[k]) == Pulled(m, t, next, k)
    {
      var sum := Pulled(m, t, next, i);
      EntryPulled(m, t, i, next, c, after, sum);
      row := row + [sum / c];
    }
  }

  lemma EntryPulled(m: Hmm, t: nat, i: nat, next: seq<real>, c: real, after: real, sum: real)
    requires t + 1 < m.t && i < m.n && c > 0.0 && IsBackwardRow(m, t + 1, next, after) && sum == Pulled(m, t, next, i)
    ensures Times(c * after, sum / c) == Backward(Paths(m), t, i) && Times(c, sum / c) == sum
  {
    hide Backward, Pulled, IsBackwardRow;
    PulledUnscaled(m, t, i, next, after);
    MulDiv(sum, c);
    Exchange2(c, after, sum / c);
  }

  lemma Exchange2(a: real, b: real, c: real)
    ensures (a * b) * c == b * (a * c)
  {
  }

  lemma PulledUnscaled(m: Hmm, t: nat, i: nat, next: seq<real>, after: real)
    requires t + 1 < m.t && i < m.n && IsBackwardRow(m, t + 1, next, after)
    ensures after * Pulled(m, t, next, i) == Backward(Paths(m), t, i)
  {
    hide Sum, Backward;
    var p := Paths(m);
    var f := j => m.trans(i, j) * m.dens(t + 1, j) * At(next, j);
    var g := j => p.step(t + 1, i, j) * Backward(p, t + 1, j);
    forall j | 0 <= j < m.n
      ensures g(j) == after * f(j)
    {
      assert Times(after, next[j]) == Backward(p, t + 1, j);
      assert p.step(t + 1, i, j) == m.trans(i, j) * m.dens(t + 1, j);
      Reorder(after, m.trans(i, j) * m.dens(t + 1, j), next[j]);
    }
    ScaledSum(m.n, after, g, f);
    SumCong(m.n, g, j => p.step(t + 1, i, j) * Backward(p, t + 1, j));
    BackwardUnfold(p, t, i);
  }

  lemma ProdFirst(x: real, a: seq<real>)
    ensures Prod([x] + a) == x * Prod(a)
  {
    ProdAppend([x], a);
    ProdLast([], x);
    assert [] + [x] == [x];
  }

  lemma LastBackwardRow(m: Hmm, ones: seq<real>, beta: seq<seq<real>>, c: seq<real>)
    requires m.t > 0 && |beta| == |c| == m.t && |ones| == m.n && forall i :: 0 <= i < m.n ==> ones[i] == 1.0
    requires beta[m.t - 1] == ones
    ensures IsBackward(m, beta, c, m.t - 1)
  {
    assert Prod(c[m.t..]) == 1.0;
    assert IsBackwardRow(m, m.t - 1, ones, Prod(c[m.t..]));
  }

  lemma OneMoreBackwardRow(m: Hmm, beta: seq<seq<real>>, c: seq<real>, t: nat, row: seq<real>, scale: real)
    requires t + 1 < m.t && IsBackward(m, beta, c, t + 1)
    requires scale == Prod(c[t + 1..]) && IsBackwardRow(m, t, row, scale)
    requires IsStepBack(m, t, row, beta[t + 1], c[t + 1])
    ensures IsBackward(m, beta[t := row], c, t)
  {
    hide IsStepBack, Prod, IsBackwardRow;
    RowLength(m, t, row, scale);
    var rows := beta[t := row];
    forall k | t <= k < m.t
      ensures BackwardAt(m, rows, c, k)
    {
      assert k > t ==> BackwardAt(m, beta, c, k);
    }
  }

  lemma RowLength(m: Hmm, t: nat, row: seq<real>, scale: real)
    requires IsBackwardRow(m, t, row, scale)
    ensures |row| == m.n
  {
  }

  lemma ProdFrom(c: seq<real>, t: nat, y: real)
    requires t < |c| && y == c[t] * Prod(c[t + 1..])
    ensures Prod(c[t..]) == y
  {
    ProdFirst(c[t], c[t + 1..]);
    assert c[t..] == [c[t]] + c[t + 1..];
  }

  lemma BackwardRowAt(m: Hmm, beta: seq<seq<real>>, c: seq<real>, from: nat, t: nat)
    requires from <= t < m.t && IsBackward(m, beta, c, from)
    ensures IsBackwardRow(m, t, beta[t], Prod(c[t + 1..]))
  {
    assert BackwardAt(m, beta, c, t);
  }

  /** The backward pass. */
  method BackwardPass(m: Hmm, c: array<real>) returns (beta: array<seq<real>>)
    requires Valid(m) && c.Length == m.t && forall t :: 0 <= t < m.t ==> c[t] > 0.0
    ensures beta.Length == m.t && IsBackward(m, beta[..], c[..], 0)
  {
    hide IsBackward, IsBackwardRow, IsStepBack, Prod;
    var ones := seq(m.n, _ => 1.0);
    ghost var cs := c[..];
    beta := new seq<real>[m.t](_ => ones);
    LastBackwardRow(m, ones, beta[..], cs);
    for t := m.t - 1 downto 0
      invariant IsBackward(m, beta[..], cs, t)
    {
      ghost var rows, scale := beta[..], 0.0;
      var row;
      BackwardRowAt(m, rows, cs, t + 1, t + 1);
      row, scale := PreviousRow(m, t, beta[t + 1], c[t + 1], Prod(cs[t + 2..]));
      beta[t] := row;
      ProdFrom(cs, t + 1, scale);
      OneMoreBackwardRow(m, rows, cs, t, row, scale);
      assert beta[..] == rows[t := row];
    }
  }
}
