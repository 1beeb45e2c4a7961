/** What the bisection's weights mean: at every split the halves carry capital in inverse proportion to their variances,
    and no other weights do. */
module RiskBalance {
  import opened Bisection
  import opened Reals
  import opened Sums

  const GUARD := 0.0000000001

  /** No asset of a cluster has a negative variance. */
  ghost predicate NonnegativeVariances(cov: (int, int) -> real, c: seq<int>) {
    forall k :: 0 <= k < |c| ==> cov(c[k], c[k]) >= 0.0
  }

  /** Shares that sum to one, in inverse proportion to the guarded variances of the assets. */
  ghost predicate AreShares(cov: (int, int) -> real, c: seq<int>, w: int -> real) {
    && Sum(|c|, w) == 1.0
    && forall j, k :: 0 <= j < |c| && 0 <= k < |c| ==> SameRisk(cov, c, w, j, k)
  }

  ghost predicate SameRisk(cov: (int, int) -> real, c: seq<int>, w: int -> real, j: nat, k: nat)
    requires j < |c| && k < |c|
  {
    GuardedRisk(cov, c, w, j) == GuardedRisk(cov, c, w, k)
  }

  /** The share of an asset times its guarded variance. */
  ghost function GuardedRisk(cov: (int, int) -> real, c: seq<int>, w: int -> real, k: nat): real
    requires k < |c|
  {
    w(k) * (cov(c[k], c[k]) + GUARD)
  }

  lemma InverseIs(cov: (int, int) -> real, i: int)
    requires cov(i, i) >= 0.0
    ensures InverseVariance(cov, i) > 0.0 && InverseVariance(cov, i) * (cov(i, i) + GUARD) == 1.0
  {
    MulDiv(1.0, cov(i, i) + GUARD);
  }

  lemma InverseTotalPositive(cov: (int, int) -> real, c: seq<int>)
    requires c != [] && NonnegativeVariances(cov, c)
    ensures Sum(|c|, k => InverseVariance(cov, Asset(c, k))) > 0.0
  {
    hide InverseVariance;
    var f := k => InverseVariance(cov, Asset(c, k));
    forall k | 0 <= k < |c|
      ensures f(k) > 0.0
    {
      InverseIs(cov, c[k]);
    }
    SumNonneg(|c|, f);
    assert f(0) <= Sum(|c|, f);
  }

  lemma ShareIs(cov: (int, int) -> real, c: seq<int>, k: nat, total: real)
    requires k < |c| && total == Sum(|c|, k => InverseVariance(cov, Asset(c, k))) && total > 0.0
    ensures Share(cov, c)(k) == (1.0 / total) * InverseVariance(cov, Asset(c, k))
  {
    var v := InverseVariance(cov, c[k]);
    MulDiv(v, total);
    MulDiv(1.0, total);
    Associate(total, 1.0 / total, v);
    SameFactor(total, v / total, (1.0 / total) * v);
  }

  lemma RiskOfShare(cov: (int, int) -> real, c: seq<int>, k: nat, total: real)
    requires k < |c| && NonnegativeVariances(cov, c)
    requires total == Sum(|c|, k => InverseVariance(cov, Asset(c, k))) && total > 0.0
    ensures GuardedRisk(cov, c, Share(cov, c), k) == 1.0 / total
  {
    ShareIs(cov, c, k, total);
    InverseIs(cov, c[k]);
    hide InverseVariance, Share, Sum;
    Associate(1.0 / total, InverseVariance(cov, c[k]), cov(c[k], c[k]) + GUARD);
  }

  lemma SharesSumToOne(cov: (int, int) -> real, c: seq<int>)
    requires c != [] && NonnegativeVariances(cov, c)
    ensures Sum(|c|, Share(cov, c)) == 1.0
  {
    InverseTotalPositive(cov, c);
    hide InverseVariance, Share, Sum;
    var inverse := k => InverseVariance(cov, Asset(c, k));
    var total := Sum(|c|, inverse);
    forall k: nat | k < |c|
      ensures Share(cov, c)(k) == (1.0 / total) * inverse(k)
    {
      ShareIs(cov, c, k, total);
    }
    ScaledSum(|c|, 1.0 / total, Share(cov, c), inverse);
    MulDiv(1.0, total);
  }

  /** The program's shares inside a cluster are such shares. */
  lemma SharesInverseToVariance(cov: (int, int) -> real, c: seq<int>)
    requires c != [] && NonnegativeVariances(cov, c)
    ensures AreShares(cov, c, Share(cov, c))
  {
    SharesSumToOne(cov, c);
    InverseTotalPositive(cov, c);
    hide InverseVariance, Share, Sum, GuardedRisk;
    var total := Sum(|c|, k => InverseVariance(cov, Asset(c, k)));
    forall k: nat | k < |c|
      ensures GuardedRisk(cov, c, Share(cov, c), k) == 1.0 / total
    {
      RiskOfShare(cov, c, k, total);
    }
  }

  lemma FromRisk(w: real, g: real, inverse: real, risk: real)
    requires w * g == risk && inverse * g == 1.0 && g > 0.0
    ensures w == risk * inverse
  {
    Associate(risk, inverse, g);
    SameFactor(g, w, risk * inverse);
  }

  /** Such shares are the inverse variances times one number. */
  lemma SharesAreMultiples(cov: (int, int) -> real, c: seq<int>, w: int -> real) returns (risk: real)
    requires c != [] && NonnegativeVariances(cov, c) && AreShares(cov, c, w)
    ensures forall k :: 0 <= k < |c| ==> w(k) == risk * InverseVariance(cov, Asset(c, k))
    ensures Sum(|c|, k => InverseVariance(cov, Asset(c, k))) * risk == 1.0
  {
    hide InverseVariance, Sum;
    var inverse := k => InverseVariance(cov, Asset(c, k));
    risk := w(0) * (cov(c[0], c[0]) + GUARD);
    forall k: nat | k < |c|
      ensures w(k) == risk * inverse(k)
    {
      InverseIs(cov, c[k]);
      assert SameRisk(cov, c, w, k, 0);
      FromRisk(w(k), cov(c[k], c[k]) + GUARD, inverse(k), risk);
    }
    ScaledSum(|c|, risk, w, inverse);
  }

  lemma QuadraticCong(cov: (int, int) -> real, c: seq<int>, w: int -> real, w': int -> real)
    requires forall k :: 0 <= k < |c| ==> w(k) == w'(k)
    ensures Quadratic(cov, c, w) == Quadratic(cov, c, w')
  {
    hide Sum;
    var q, q' := Pair(cov, c, w), Pair(cov, c, w');
    var row, row' := a => Sum(|c|, b => q(a, b)), a => Sum(|c|, b => q'(a, b));
    forall a | 0 <= a < |c|
      ensures row(a) == row'(a)
    {
      SumCong(|c|, b => q(a, b), b => q'(a, b));
    }
    SumCong(|c|, row, row');
  }

  /** So a cluster has one variance under such shares, the one the program computes. */
  lemma VarianceIs(cov: (int, int) -> real, c: seq<int>, w: int -> real)
    requires c != [] && NonnegativeVariances(cov, c) && AreShares(cov, c, w)
    ensures Quadratic(cov, c, w) == ClusterVariance(cov, c)
  {
    hide Sum, InverseVariance, Share, Quadratic;
    InverseTotalPositive(cov, c);
    SharesInverseToVariance(cov, c);
    var risk := SharesAreMultiples(cov, c, w);
    var risk' := SharesAreMultiples(cov, c, Share(cov, c));
    SameFactor(Sum(|c|, k => InverseVariance(cov, Asset(c, k))), risk, risk');
    QuadraticCong(cov, c, w, Share(cov, c));
  }

  /** Two clusters carry capital in inverse proportion to their variances, or the same if neither varies. */
  ghost predicate Balanced(cov: (int, int) -> real, left: seq<int>, right: seq<int>, capitalLeft: real,
                           capitalRight: real)
  {
    exists l, r :: BalancedAt(cov, left, right, capitalLeft, capitalRight, l, r)
  }

  ghost predicate BalancedAt(cov: (int, int) -> real, left: seq<int>, right: seq<int>, capitalLeft: real,
                             capitalRight: real, l: int -> real, r: int -> real)
  {
    && AreShares(cov, left, l) && AreShares(cov, right, r)
    && var vl, vr := Quadratic(cov, left, l), Quadratic(cov, right, r);
       if vl + vr > 0.0 then capitalLeft * vl == capitalRight * vr else capitalLeft == capitalRight
  }

  lemma BalanceIs(cov: (int, int) -> real, left: seq<int>, right: seq<int>, x: real, y: real)
    requires left != [] && NonnegativeVariances(cov, left) && right != [] && NonnegativeVariances(cov, right)
    ensures var vl, vr := ClusterVariance(cov, left), ClusterVariance(cov, right);
            Balanced(cov, left, right, x, y) <==> if vl + vr > 0.0 then x * vl == y * vr else x == y
  {
    hide AreShares, Quadratic;
    if l, r :| BalancedAt(cov, left, right, x, y, l, r) {
      VarianceIs(cov, left, l);
      VarianceIs(cov, right, r);
    }
    SharesInverseToVariance(cov, left);
    SharesInverseToVariance(cov, right);
    assert Share(cov, left) == Share(cov, left);
    var vl, vr := ClusterVariance(cov, left), ClusterVariance(cov, right);
    if if vl + vr > 0.0 then x * vl == y * vr else x == y {
      assert BalancedAt(cov, left, right, x, y, Share(cov, left), Share(cov, right));
    }
  }

  /** Capital x and y of two halves is the program's split of their total exactly when it balances them. */
  lemma SplitBalances(x: real, y: real, vl: real, vr: real, a: real)
    requires a == if vl + vr > 0.0 then 1.0 - vl / (vl + vr) else 0.5
    ensures (if vl + vr > 0.0 then x * vl == y * vr else x == y) <==> x == (x + y) * a
  {
    if vl + vr > 0.0 {
      var q := vl / (vl + vr);
      MulDiv(vl, vl + vr);
      assert (x + y) * a == (x + y) - (x + y) * q;
      assert (vl + vr) * ((x + y) * q) == (x + y) * vl by {
        Reorder(vl + vr, x + y, q);
      }
      assert (vl + vr) * x == x * vl + x * vr && (x + y) * vl == x * vl + y * vl;
      assert (vl + vr) * y == y * vl + y * vr;
      if x == (x + y) * a {
        assert y == (x + y) * q;
      }
      if x * vl == y * vr {
        SameFactor(vl + vr, y, (x + y) * q);
      }
    }
  }

  /** The less risky half of a cluster gets at least half of its capital. */
  lemma LessRiskGetsMore(cov: (int, int) -> real, left: seq<int>, right: seq<int>)
    requires Psd(cov)
    ensures var vl, vr := ClusterVariance(cov, left), ClusterVariance(cov, right);
            LeftFraction(cov, left, right) >= 0.5 <==> vl <= vr
  {
    hide Quadratic, Share;
    var vl, vr := ClusterVariance(cov, left), ClusterVariance(cov, right);
    assert vl >= 0.0 && vr >= 0.0 by {
      VarianceNonneg(cov, left);
      VarianceNonneg(cov, right);
    }
    if vl + vr > 0.0 {
      HalfOf(vl, vl + vr);
    }
  }

  lemma VarianceNonneg(cov: (int, int) -> real, c: seq<int>)
    requires Psd(cov)
    ensures ClusterVariance(cov, c) >= 0.0
  {
  }

  lemma HalfOf(a: real, b: real)
    requires b > 0.0
    ensures a / b <= 0.5 <==> a <= 0.5 * b
  {
    MulDiv(a, b);
  }

  /** At every split on the way down, the two halves are balanced. */
  ghost predicate RiskBalanced(cov: (int, int) -> real, c: seq<int>, w: seq<real>)
    requires |w| == |c|
    decreases |c|
  {
    |c| <= 1 ||
    var mid := |c| / 2;
    && Balanced(cov, c[..mid], c[mid..], Total(w[..mid]), Total(w[mid..]))
    && RiskBalanced(cov, c[..mid], w[..mid]) && RiskBalanced(cov, c[mid..], w[mid..])
  }

  /** Every asset of the cluster has its weight in it, times the cluster's capital. */
  ghost predicate Carries(f: Split, c: seq<int>, w: seq<real>, capital: real)
    requires |w| == |c|
  {
    forall k :: 0 <= k < |c| ==> CarriesOne(f, c, c[k], w[k], capital)
  }

  ghost predicate CarriesOne(f: Split, c: seq<int>, i: int, x: real, capital: real) {
    x == capital * Weight(f, c, i)
  }

  lemma TotalSplits(w: seq<real>, mid: nat)
    requires mid <= |w|
    ensures Total(w) == Total(w[..mid]) + Total(w[mid..])
  {
    var g := k => if 0 <= k < |w| then w[k] else 0.0;
    SumSplit(mid, |w| - mid, g);
    var l, r := w[..mid], w[mid..];
    SumCong(mid, g, k => if 0 <= k < |l| then l[k] else 0.0);
    SumCong(|w| - mid, k => g(mid + k), k => if 0 <= k < |r| then r[k] else 0.0);
  }

  /** The halves of a cluster carry its weights if they carry their fractions of its capital. */
  lemma CarriesHalves(f: Split, c: seq<int>, w: seq<real>, capital: real, forLeft: real, forRight: real)
    requires |w| == |c| > 1 && Unique(c)
    requires var a := f(c[..|c| / 2], c[|c| / 2..]); forLeft == capital * a && forRight == capital * (1.0 - a)
    ensures var mid := |c| / 2;
            Carries(f, c, w, capital)
            <==> Carries(f, c[..mid], w[..mid], forLeft) && Carries(f, c[mid..], w[mid..], forRight)
  {
    hide CarriesOne, Unique;
    var mid := |c| / 2;
    var left, right, wl, wr := c[..mid], c[mid..], w[..mid], w[mid..];
    forall k: nat | k < mid
      ensures CarriesOne(f, c, c[k], w[k], capital) <==> CarriesOne(f, left, left[k], wl[k], forLeft)
    {
      OneInLeft(f, c, k, w[k], capital, forLeft);
    }
    forall k: nat | mid <= k < |c|
      ensures CarriesOne(f, c, c[k], w[k], capital) <==> CarriesOne(f, right, right[k - mid], wr[k - mid], forRight)
    {
      OneInRight(f, c, k, w[k], capital, forRight);
    }
    if Carries(f, left, wl, forLeft) && Carries(f, right, wr, forRight) {
      forall k | 0 <= k < |c|
        ensures CarriesOne(f, c, c[k], w[k], capital)
      {
        assert k < mid ==> CarriesOne(f, left, left[k], wl[k], forLeft);
        assert k >= mid ==> CarriesOne(f, right, right[k - mid], wr[k - mid], forRight);
      }
    }
    if Carries(f, c, w, capital) {
      forall k | 0 <= k < |right|
        ensures CarriesOne(f, right, right[k], wr[k], forRight)
      {
        assert CarriesOne(f, c, c[k + mid], w[k + mid], capital);
      }
    }
  }

  lemma OneInLeft(f: Split, c: seq<int>, k: nat, x: real, capital: real, forLeft: real)
    requires |c| > 1 && Unique(c) && k < |c| / 2 && forLeft == capital * f(c[..|c| / 2], c[|c| / 2..])
    ensures CarriesOne(f, c, c[k], x, capital) <==> CarriesOne(f, c[..|c| / 2], c[k], x, forLeft)
  {
    hide Weight, Unique;
    var left, right := c[..|c| / 2], c[|c| / 2..];
    assert left[k] == c[k];
    WeightInHalf(f, c, c[k]);
    Associate(capital, f(left, right), Weight(f, left, c[k]));
  }

  lemma OneInRight(f: Split, c: seq<int>, k: nat, x: real, capital: real, forRight: real)
    requires |c| > 1 && Unique(c) && |c| / 2 <= k < |c| && forRight == capital * (1.0 - f(c[..|c| / 2], c[|c| / 2..]))
    ensures CarriesOne(f, c, c[k], x, capital) <==> CarriesOne(f, c[|c| / 2..], c[k], x, forRight)
  {
    hide Weight, Unique;
    var left, right := c[..|c| / 2], c[|c| / 2..];
    assert right[k - |c| / 2] == c[k];
    WeightInHalf(f, c, c[k]);
    Associate(capital, 1.0 - f(left, right), Weight(f, right, c[k]));
  }

  /** Carrying the bisection's weights is being balanced at every split, with the capital given. */
  lemma {:induction false} CarriesWhenBalanced(cov: (int, int) -> real, c: seq<int>, w: seq<real>, capital: real)
    requires |w| == |c| > 0 && Unique(c) && NonnegativeVariances(cov, c)
    ensures Carries(ByVariance(cov), c, w, capital) <==> Total(w) == capital && RiskBalanced(cov, c, w)
    decreases |c|
  {
    hide Weight, Total, Carries, Balanced, ByVariance, Unique;
    var f := ByVariance(cov);
    if |c| == 1 {
      SingleCarries(f, c, w, capital);
    } else {
      var mid := |c| / 2;
      var left, right := c[..mid], c[mid..];
      var a := f(left, right);
      UniqueHalves(c);
      TotalSplits(w, mid);
      var forLeft, forRight := capital * a, capital * (1.0 - a);
      CarriesHalves(f, c, w, capital, forLeft, forRight);
      CarriesWhenBalanced(cov, left, w[..mid], forLeft);
      CarriesWhenBalanced(cov, right, w[mid..], forRight);
      SplitOfTotal(cov, left, right, Total(w[..mid]), Total(w[mid..]), capital, forLeft, forRight);
    }
  }

  lemma UniqueHalves(c: seq<int>)
    requires Unique(c)
    ensures Unique(c[..|c| / 2]) && Unique(c[|c| / 2..])
  {
    assert c[..|c| / 2] + c[|c| / 2..] == c;
    UniqueConcat(c[..|c| / 2], c[|c| / 2..]);
  }

  lemma SplitOfTotal(cov: (int, int) -> real, left: seq<int>, right: seq<int>, x: real, y: real, capital: real,
                     forLeft: real, forRight: real)
    requires left != [] && NonnegativeVariances(cov, left) && right != [] && NonnegativeVariances(cov, right)
    requires var a := ByVariance(cov)(left, right); forLeft == capital * a && forRight == capital * (1.0 - a)
    ensures x == forLeft && y == forRight <==> x + y == capital && Balanced(cov, left, right, x, y)
  {
    hide ClusterVariance, Balanced;
    BalanceIs(cov, left, right, x, y);
    SplitBalances(x, y, ClusterVariance(cov, left), ClusterVariance(cov, right), ByVariance(cov)(left, right));
  }

  lemma SingleCarries(f: Split, c: seq<int>, w: seq<real>, capital: real)
    requires |w| == |c| == 1
    ensures Carries(f, c, w, capital) <==> Total(w) == capital
  {
    SingleWeight(f, c, c[0]);
    var g := k => if 0 <= k < |w| then w[k] else 0.0;
    assert Sum(1, g) == Sum(0, g) + g(0);
  }

  /** For a positive semidefinite covariance, weights are the bisection's exactly when they sum to one and at every
      split the halves carry capital in inverse proportion to their variances. */
  lemma AllocationWhenBalanced(cov: (int, int) -> real, order: seq<int>, weights: seq<real>)
    requires Psd(cov) && Unique(order) && order != [] && |weights| == |order|
    ensures IsAllocation(cov, order, weights) <==> Total(weights) == 1.0 && RiskBalanced(cov, order, weights)
  {
    hide Weight, Total, RiskBalanced, Psd, Unique;
    PsdVariances(cov, order);
    CarriesWhenBalanced(cov, order, weights, 1.0);
  }

  lemma PsdVariances(cov: (int, int) -> real, c: seq<int>)
    requires Psd(cov)
    ensures NonnegativeVariances(cov, c)
  {
    forall k | 0 <= k < |c|
      ensures cov(c[k], c[k]) >= 0.0
    {
      var w := (_: int) => 1.0;
      assert Quadratic(cov, [c[k]], w) >= 0.0;
      SingleQuadratic(cov, c[k], w);
    }
  }

  lemma SingleQuadratic(cov: (int, int) -> real, i: int, w: int -> real)
    requires w(0) == 1.0
    ensures Quadratic(cov, [i], w) == cov(i, i)
  {
    hide Sum;
    var c := [i];
    var q := Pair(cov, c, w);
    var row := a => Sum(|c|, b => q(a, b));
    var cell := b => q(0, b);
    SingleSum(row);
    SingleSum(cell);
    assert Asset(c, 0) == i;
    OneTimes(w(0), cov(Asset(c, 0), Asset(c, 0)));
    assert q(0, 0) == w(0) * cov(Asset(c, 0), Asset(c, 0)) * w(0);
    assert row(0) == Sum(|c|, cell);
    assert Quadratic(cov, c, w) == Sum(|c|, row);
  }

  lemma OneTimes(a: real, b: real)
    requires a == 1.0
    ensures a * b * a == b
  {
  }

  lemma SingleSum(f: int -> real)
    ensures Sum(1, f) == f(0)
  {
    assert Sum(1, f) == Sum(0, f) + f(0);
  }
}
