/** The sample covariance of returns is positive semidefinite, so the bisection over it holds no short position. */
module SampleCovariance {
  import opened Bisection
  import opened Reals
  import opened Sums

  /** Returns of assets over a number of periods, x(t, i) being that of asset i in period t. */
  datatype Returns = Returns(periods: nat, x: (int, int) -> real)

  function Mean(r: Returns, i: int): real
    requires r.periods > 0
  {
    Sum(r.periods, t => r.x(t, i)) / r.periods as real
  }

  function Centred(r: Returns): (int, int) -> real
    requires r.periods > 0
  {
    (t, i) => r.x(t, i) - Mean(r, i)
  }

  /** numpy.cov over the columns: the mean product of the centred returns, with one degree of freedom less. */
  function Covariance(r: Returns): (int, int) -> real
    requires r.periods >= 2
  {
    var y := Centred(r);
    (i, j) => Sum(r.periods, t => y(t, i) * y(t, j)) / (r.periods - 1) as real
  }

  /** What the a-th asset of a combination earns in period t. */
  function Part(y: (int, int) -> real, c: seq<int>, w: int -> real): (int, int) -> real {
    (t, a) => w(a) * y(t, Asset(c, a))
  }

  /** The return in one period of a combination of assets. */
  function Combined(y: (int, int) -> real, c: seq<int>, w: int -> real, t: int): real {
    var z := Part(y, c, w);
    Sum(|c|, a => z(t, a))
  }

  lemma Outside(wa: real, wb: real, k: real, s: real)
    ensures wa * (k * s) * wb == k * ((wa * wb) * s)
  {
  }

  /** One entry of the quadratic form, period by period. */
  lemma Entry(y: (int, int) -> real, n: nat, k: real, ia: int, ib: int, wa: real, wb: real)
    ensures wa * (k * Sum(n, t => y(t, ia) * y(t, ib))) * wb == k * Sum(n, t => (wa * y(t, ia)) * (wb * y(t, ib)))
  {
    hide Sum;
    var product := t => y(t, ia) * y(t, ib);
    var term := t => (wa * y(t, ia)) * (wb * y(t, ib));
    forall t
      ensures term(t) == (wa * wb) * product(t)
    {
      Exchange(wa, y(t, ia), wb, y(t, ib));
    }
    ScaledSum(n, wa * wb, term, product);
    Outside(wa, wb, k, Sum(n, product));
  }

  /** A sum of sums over the periods, each a multiple of z(t, b), is a sum of multiples of their total. */
  lemma Gather(n: nat, m: nat, k: real, u: int -> real, z: (int, int) -> real)
    ensures Sum(m, b => k * Sum(n, t => u(t) * z(t, b))) == k * Sum(n, t => u(t) * Sum(m, b => z(t, b)))
  {
    hide Sum;
    var inner := b => Sum(n, t => u(t) * z(t, b));
    SumScale(m, k, inner);
    SumCong(m, b => k * Sum(n, t => u(t) * z(t, b)), b => k * inner(b));
    var cell := (t, b) => u(t) * z(t, b);
    SumSwap(n, m, cell);
    forall t
      ensures Sum(m, b => cell(t, b)) == u(t) * Sum(m, b => z(t, b))
    {
      ScaledSum(m, u(t), b => cell(t, b), b => z(t, b));
    }
    SumCong(n, t => Sum(m, b => cell(t, b)), t => u(t) * Sum(m, b => z(t, b)));
    forall b
      ensures Sum(n, t => cell(t, b)) == inner(b)
    {
      SumCong(n, t => cell(t, b), t => u(t) * z(t, b));
    }
    SumCong(m, b => Sum(n, t => cell(t, b)), inner);
  }

  /** The matrix of products over n periods, times k. */
  ghost predicate IsProducts(cov: (int, int) -> real, y: (int, int) -> real, n: nat, k: real) {
    forall i, j {:trigger cov(i, j)} :: cov(i, j) == k * Sum(n, t => y(t, i) * y(t, j))
  }

  lemma RowOfProducts(n: nat, m: nat, k: real, z: (int, int) -> real, a: int, q: int -> real)
    requires forall b :: q(b) == k * Sum(n, t => z(t, a) * z(t, b))
    ensures Sum(m, q) == k * Sum(n, t => Sum(m, b => z(t, b)) * z(t, a))
  {
    hide Sum;
    var u := t => z(t, a);
    forall b
      ensures q(b) == k * Sum(n, t => u(t) * z(t, b))
    {
      SumCong(n, t => z(t, a) * z(t, b), t => u(t) * z(t, b));
    }
    SumCong(m, q, b => k * Sum(n, t => u(t) * z(t, b)));
    Gather(n, m, k, u, z);
    SumCong(n, t => u(t) * Sum(m, b => z(t, b)), t => Sum(m, b => z(t, b)) * z(t, a));
  }

  /** Products summed over all pairs are the squared sums. */
  lemma SquareOfSum(n: nat, m: nat, k: real, z: (int, int) -> real, q: (int, int) -> real)
    requires forall a, b :: q(a, b) == k * Sum(n, t => z(t, a) * z(t, b))
    ensures Sum(m, a => Sum(m, b => q(a, b))) == k * Sum(n, t => Square(Sum(m, a => z(t, a))))
  {
    hide Sum;
    var u := t => Sum(m, b => z(t, b));
    var row := a => Sum(m, b => q(a, b));
    forall a
      ensures row(a) == k * Sum(n, t => u(t) * z(t, a))
    {
      RowOfProducts(n, m, k, z, a, b => q(a, b));
      SumCong(n, t => Sum(m, b => z(t, b)) * z(t, a), t => u(t) * z(t, a));
    }
    SumCong(m, row, a => k * Sum(n, t => u(t) * z(t, a)));
    Gather(n, m, k, u, z);
    SumCong(n, t => u(t) * Sum(m, a => z(t, a)), t => Square(Sum(m, a => z(t, a))));
  }

  lemma PairOfProducts(cov: (int, int) -> real, y: (int, int) -> real, n: nat, k: real, c: seq<int>, w: int -> real,
                       z: (int, int) -> real, a: int, b: int)
    requires IsProducts(cov, y, n, k) && z == Part(y, c, w)
    ensures Pair(cov, c, w)(a, b) == k * Sum(n, t => z(t, a) * z(t, b))
  {
    hide Sum;
    Entry(y, n, k, Asset(c, a), Asset(c, b), w(a), w(b));
    SumCong(n, t => (w(a) * y(t, Asset(c, a))) * (w(b) * y(t, Asset(c, b))), t => z(t, a) * z(t, b));
  }

  /** The variance of a combination of assets is that of its combined returns. */
  lemma QuadraticIsVariance(cov: (int, int) -> real, y: (int, int) -> real, n: nat, k: real,
                            c: seq<int>, w: int -> real)
    requires IsProducts(cov, y, n, k)
    ensures Quadratic(cov, c, w) == k * Sum(n, t => Square(Combined(y, c, w, t)))
  {
    hide Sum, Square, Part, Pair, IsProducts;
    var z, q := Part(y, c, w), Pair(cov, c, w);
    forall a, b
      ensures q(a, b) == k * Sum(n, t => z(t, a) * z(t, b))
    {
      PairOfProducts(cov, y, n, k, c, w, z, a, b);
    }
    SquareOfSum(n, |c|, k, z, q);
    SumCong(n, t => Square(Sum(|c|, a => z(t, a))), t => Square(Combined(y, c, w, t)));
  }

  lemma SquareNonneg(a: real)
    ensures Square(a) >= 0.0
  {
  }

  lemma ProductsArePsd(cov: (int, int) -> real, y: (int, int) -> real, n: nat, k: real)
    requires IsProducts(cov, y, n, k) && k >= 0.0
    ensures Psd(cov)
  {
    hide Sum, Quadratic, Square, IsProducts;
    forall c, w {:trigger Quadratic(cov, c, w)}
      ensures Quadratic(cov, c, w) >= 0.0
    {
      QuadraticIsVariance(cov, y, n, k, c, w);
      var f := t => Square(Combined(y, c, w, t));
      forall t
        ensures f(t) >= 0.0
      {
        SquareNonneg(Combined(y, c, w, t));
      }
      SumNonneg(n, f);
      SumCong(n, f, t => Square(Combined(y, c, w, t)));
      ProductNonneg(k, Sum(n, f));
    }
  }

  lemma OverIsTimes(a: real, b: real)
    requires b > 0.0
    ensures a / b == (1.0 / b) * a && 1.0 / b > 0.0
  {
    MulDiv(a, b);
    MulDiv(1.0, b);
    assert b * ((1.0 / b) * a) == a;
    SameFactor(b, a / b, (1.0 / b) * a);
  }

  /** Whatever the returns, their sample covariance is positive semidefinite. */
  lemma CovarianceIsPsd(r: Returns)
    requires r.periods >= 2
    ensures Psd(Covariance(r))
  {
    hide Sum, Psd;
    var y, k := Centred(r), 1.0 / (r.periods - 1) as real;
    forall i, j {:trigger Covariance(r)(i, j)}
      ensures Covariance(r)(i, j) == k * Sum(r.periods, t => y(t, i) * y(t, j))
    {
      OverIsTimes(Sum(r.periods, t => y(t, i) * y(t, j)), (r.periods - 1) as real);
    }
    OverIsTimes(1.0, (r.periods - 1) as real);
    ProductsArePsd(Covariance(r), y, r.periods, k);
  }

  // The covariance by pairs of periods.

  lemma OneMoreShift(k: real, n: real, sum: real, x: real, p: real)
    ensures (k * sum + n * p) + (k * x + p) == k * (sum + x) + (n + 1.0) * p
  {
    assert k * (sum + x) == k * sum + k * x;
    assert (n + 1.0) * p == n * p + p;
  }

  lemma {:induction false} SumShifted(n: nat, k: real, f: int -> real, p: real, g: int -> real)
    requires forall s :: g(s) == k * f(s) + p
    ensures Sum(n, g) == k * Sum(n, f) + n as real * p
  {
    if n > 0 {
      SumShifted(n - 1, k, f, p, g);
      OneMoreShift(k, (n - 1) as real, Sum(n - 1, f), f(n - 1), p);
    }
  }

  lemma Differences(a: real, b: real, x: real, y: real)
    ensures (a - x) * (b - y) == ((-a) * y + a * b) + (-b) * x + x * y
  {
    assert (a - x) * (b - y) == a * (b - y) - x * (b - y);
    assert a * (b - y) == a * b + (-a) * y;
    assert x * (b - y) == -((-b) * x) - x * y;
  }

  lemma SumDifferences(n: nat, y: int -> real, z: int -> real, a: real, b: real, g: int -> real, w: int -> real)
    requires forall t :: g(t) == Times(a - y(t), b - z(t)) && w(t) == Times(y(t), z(t))
    requires Sum(n, y) == 0.0 && Sum(n, z) == 0.0
    ensures Sum(n, g) == n as real * Times(a, b) + Sum(n, w)
  {
    hide Sum;
    var u, v := t => (-a) * z(t) + a * b, t => (-b) * y(t);
    var uv := t => u(t) + v(t);
    SumShifted(n, -a, z, a * b, u);
    ScaledSum(n, -b, v, y);
    NothingTimes(-a, Sum(n, z));
    NothingTimes(-b, Sum(n, y));
    SumAdd(n, u, v);
    SumCong(n, uv, t => u(t) + v(t));
    SumAdd(n, uv, w);
    forall t
      ensures g(t) == uv(t) + w(t)
    {
      Differences(a, b, y(t), z(t));
    }
    SumCong(n, g, t => uv(t) + w(t));
  }

  lemma TimesIs(a: real, b: real)
    ensures Times(a, b) == a * b
  {
  }

  lemma NothingTimes(a: real, b: real)
    requires b == 0.0
    ensures a * b == 0.0
  {
  }

  lemma CentredSum(r: Returns, i: int, y: int -> real)
    requires r.periods > 0 && forall t :: y(t) == Centred(r)(t, i)
    ensures Sum(r.periods, y) == 0.0
  {
    hide Sum;
    var f, n := t => r.x(t, i), r.periods;
    assert Mean(r, i) == Sum(n, f) / n as real;
    hide Mean;
    SumShifted(n, 1.0, f, -Mean(r, i), y);
    MulDiv(Sum(n, f), n as real);
  }

  /** Two columns that sum to zero: their products by pairs of rows are 2 n times those row by row. */
  lemma PairsOfCentred(n: nat, y: int -> real, z: int -> real, d: (int, int) -> real, w: int -> real)
    requires Sum(n, y) == 0.0 && Sum(n, z) == 0.0
    requires forall s, t :: d(s, t) == Times(y(s) - y(t), z(s) - z(t))
    requires forall t :: w(t) == Times(y(t), z(t))
    ensures Sum(n, s => Sum(n, t => d(s, t))) == 2.0 * Times(n as real, Sum(n, w))
  {
    hide Sum, Times;
    var row := s => Sum(n, t => d(s, t));
    var p := Sum(n, w);
    forall s
      ensures row(s) == n as real * w(s) + p
    {
      SumDifferences(n, y, z, y(s), z(s), t => d(s, t), w);
    }
    SumShifted(n, n as real, w, p, row);
    TimesIs(n as real, p);
  }

  lemma CovarianceIs(r: Returns, i: int, j: int, y: int -> real, z: int -> real, w: int -> real)
    requires r.periods >= 2 && forall t :: y(t) == Centred(r)(t, i) && z(t) == Centred(r)(t, j)
    requires forall t :: w(t) == Times(y(t), z(t))
    ensures Times((r.periods - 1) as real, Covariance(r)(i, j)) == Sum(r.periods, w)
  {
    hide Sum, Mean;
    var n, c := r.periods, Centred(r);
    SumCong(n, w, t => c(t, i) * c(t, j));
    MulDiv(Sum(n, t => c(t, i) * c(t, j)), (n - 1) as real);
  }

  /** How the returns of two assets differ together between two periods. */
  function DifferTogether(r: Returns, i: int, j: int): (int, int) -> real {
    (s, t) => Times(r.x(s, i) - r.x(t, i), r.x(s, j) - r.x(t, j))
  }

  lemma DifferencesCentred(r: Returns, i: int, j: int, y: int -> real, z: int -> real)
    requires r.periods > 0 && forall t :: y(t) == Centred(r)(t, i) && z(t) == Centred(r)(t, j)
    ensures forall s, t :: DifferTogether(r, i, j)(s, t) == Times(y(s) - y(t), z(s) - z(t))
  {
    hide Mean, Times;
    forall s, t
      ensures DifferTogether(r, i, j)(s, t) == Times(y(s) - y(t), z(s) - z(t))
    {
      assert y(s) - y(t) == r.x(s, i) - r.x(t, i) && z(s) - z(t) == r.x(s, j) - r.x(t, j);
    }
  }

  /** Without reference to means: the covariance of two assets is half the mean product of their differences over all
      pairs of different periods. */
  lemma CovarianceByPairs(r: Returns, i: int, j: int)
    requires r.periods >= 2
    ensures Sum(r.periods, s => Sum(r.periods, t => DifferTogether(r, i, j)(s, t)))
         == 2.0 * Times(r.periods as real, Times((r.periods - 1) as real, Covariance(r)(i, j)))
  {
    var y, z := t => Centred(r)(t, i), t => Centred(r)(t, j);
    var w := t => Times(y(t), z(t));
    CentredSum(r, i, y);
    CentredSum(r, j, z);
    CovarianceIs(r, i, j, y, z, w);
    DifferencesCentred(r, i, j, y, z);
    hide *;
    PairsOfCentred(r.periods, y, z, DifferTogether(r, i, j), w);
  }

  /** For every returns matrix the allocation has no short positions and no leverage. */
  lemma AllocationOfReturnsInUnit(r: Returns, order: seq<int>, weights: seq<real>)
    requires r.periods >= 2 && IsAllocation(Covariance(r), order, weights)
    ensures forall k :: 0 <= k < |weights| ==> 0.0 <= weights[k] <= 1.0
  {
    hide Covariance, Psd, IsAllocation;
    CovarianceIsPsd(r);
    AllocationInUnit(Covariance(r), order, weights);
  }
}
