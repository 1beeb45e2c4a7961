/** Lloyd's algorithm: every assign-and-recentre round, and so every restart, only lowers the inertia. */
module KMeans {
  import opened Reals
  import opened Sums

  /** n points with d coordinates, x(i, e) being coordinate e of point i. */
  datatype Data = Data(n: nat, d: nat, x: (int, int) -> real)

  function Coordinate(cs: seq<seq<real>>, j: int, e: int): real {
    if 0 <= j < |cs| && 0 <= e < |cs[j]| then cs[j][e] else 0.0
  }

  function Label(labels: seq<int>, i: int): (j: int)
    ensures 0 <= i < |labels| ==> j == labels[i]
  {
    if 0 <= i < |labels| then labels[i] else 0
  }

  function Distance(m: Data, cs: seq<seq<real>>, i: int, j: int): real {
    Sum(m.d, e => Square(m.x(i, e) - Coordinate(cs, j, e)))
  }

  /** The total squared distance of the points to their clusters' centroids. */
  function Inertia(m: Data, labels: seq<int>, cs: seq<seq<real>>): real {
    Sum(m.n, i => Distance(m, cs, i, Label(labels, i)))
  }

  // Assigning.

  /** The first of the nearest of the first k centroids. */
  function Nearest(m: Data, cs: seq<seq<real>>, i: int, k: nat): (j: nat)
    requires k > 0
    ensures j < k
    ensures forall l :: 0 <= l < k ==> Distance(m, cs, i, j) <= Distance(m, cs, i, l)
    ensures forall l :: 0 <= l < j ==> Distance(m, cs, i, j) < Distance(m, cs, i, l)
  {
    if k == 1 then 0
    else
      var j := Nearest(m, cs, i, k - 1);
      if Distance(m, cs, i, k - 1) < Distance(m, cs, i, j) then k - 1 else j
  }

  function Assign(m: Data, cs: seq<seq<real>>): (labels: seq<int>)
    requires cs != []
    ensures |labels| == m.n
  {
    seq(m.n, i => Nearest(m, cs, i, |cs|))
  }

  ghost predicate AreLabels(m: Data, labels: seq<int>, k: nat) {
    |labels| == m.n && forall i :: 0 <= i < m.n ==> 0 <= labels[i] < k
  }

  /** No labelling is better for the given centroids than the nearest one. */
  lemma AssignIsBest(m: Data, cs: seq<seq<real>>, labels: seq<int>)
    requires cs != [] && AreLabels(m, labels, |cs|)
    ensures Inertia(m, Assign(m, cs), cs) <= Inertia(m, labels, cs)
  {
    hide Distance, Sum;
    SumMono(m.n, i => Distance(m, cs, i, Label(Assign(m, cs), i)), i => Distance(m, cs, i, Label(labels, i)));
    assert Inertia(m, labels, cs) == Sum(m.n, i => Distance(m, cs, i, Label(labels, i)));
    assert Inertia(m, Assign(m, cs), cs) == Sum(m.n, i => Distance(m, cs, i, Label(Assign(m, cs), i)));
  }

  // Recentring.

  function Count(m: Data, labels: seq<int>, j: int): real {
    Sum(m.n, i => if Label(labels, i) == j then 1.0 else 0.0)
  }

  function Total(m: Data, labels: seq<int>, j: int, e: int): real {
    Sum(m.n, i => if Label(labels, i) == j then m.x(i, e) else 0.0)
  }

  /** The means of the clusters; an empty cluster keeps its centroid. */
  function Recentre(m: Data, labels: seq<int>, cs: seq<seq<real>>): (cs': seq<seq<real>>)
    ensures |cs'| == |cs|
  {
    seq(|cs|, j => seq(m.d, e =>
      if Count(m, labels, j) == 0.0 then Coordinate(cs, j, e) else Total(m, labels, j, e) / Count(m, labels, j)))
  }

  /** What one coordinate of one cluster costs if its centroid is at v. */
  function Spread(m: Data, labels: seq<int>, j: int, e: int, v: real): real {
    Sum(m.n, i => if Label(labels, i) == j then Square(m.x(i, e) - v) else 0.0)
  }

  /** The sum of (x - v)^2 over a cluster, from the sums of x^2, of x and of 1. */
  function Expanded(squares: real, total: real, count: real, v: real): real {
    squares - 2.0 * (v * total) + Square(v) * count
  }

  lemma NoMembers(v: real)
    ensures Expanded(0.0, 0.0, 0.0, v) == 0.0
  {}

  lemma MemberExpands(squares: real, total: real, count: real, x: real, v: real)
    ensures Expanded(squares, total, count, v) + Square(x - v)
         == Expanded(squares + Square(x), total + x, count + 1.0, v)
  {
    assert v * (total + x) == v * total + v * x;
    assert Square(v) * (count + 1.0) == Square(v) * count + Square(v);
    assert Square(x - v) == Square(x) - 2.0 * (v * x) + Square(v);
  }

  lemma {:induction false} SquaresExpand(n: nat, p: int -> bool, x: int -> real, v: real)
    ensures Sum(n, i => if p(i) then Square(x(i) - v) else 0.0)
         == Expanded(Sum(n, i => if p(i) then Square(x(i)) else 0.0), Sum(n, i => if p(i) then x(i) else 0.0),
                     Sum(n, i => if p(i) then 1.0 else 0.0), v)
  {
    hide Square, Expanded;
    if n == 0 {
      NoMembers(v);
    } else {
      SquaresExpand(n - 1, p, x, v);
      MemberExpands(Sum(n - 1, i => if p(i) then Square(x(i)) else 0.0), Sum(n - 1, i => if p(i) then x(i) else 0.0),
                    Sum(n - 1, i => if p(i) then 1.0 else 0.0), x(n - 1), v);
    }
  }

  lemma ShiftCosts(count: real, shift: real)
    requires count >= 0.0
    ensures count * Square(shift) >= 0.0
  {
    assert Square(shift) >= 0.0;
  }

  /** Completing the square: a centroid off the mean costs the squared shift times the number of members. */
  lemma SquareCompletes(squares: real, total: real, count: real, v: real)
    requires count > 0.0
    ensures Expanded(squares, total, count, v)
         == Expanded(squares, total, count, total / count) + count * Square(v - total / count)
    ensures Expanded(squares, total, count, total / count) <= Expanded(squares, total, count, v)
  {
    var mean := total / count;
    assert total == mean * count;
    assert v * total == v * mean * count;
    assert mean * total == mean * mean * count;
    assert count * Square(v - mean) == v * v * count - 2.0 * (v * mean * count) + mean * mean * count;
    ShiftCosts(count, v - mean);
  }

  // The inertia, cluster by cluster.

  function ClusterCost(m: Data, labels: seq<int>, cs: seq<seq<real>>, j: int): real {
    Sum(m.n, i => if Label(labels, i) == j then Distance(m, cs, i, j) else 0.0)
  }

  /** The inertia as it is computed, one cluster after the other. */
  function ClusterInertia(m: Data, labels: seq<int>, cs: seq<seq<real>>): real {
    Sum(|cs|, j => ClusterCost(m, labels, cs, j))
  }

  lemma MembersCounted(m: Data, labels: seq<int>, j: int)
    ensures Count(m, labels, j) >= 0.0
    ensures Count(m, labels, j) == 0.0 <==> forall i :: 0 <= i < m.n ==> Label(labels, i) != j
  {
    var f := i => if Label(labels, i) == j then 1.0 else 0.0;
    SumNonneg(m.n, f);
    if forall i :: 0 <= i < m.n ==> Label(labels, i) != j {
      SumZero(m.n, f);
    } else {
      var i :| 0 <= i < m.n && Label(labels, i) == j;
      assert f(i) <= Sum(m.n, f);
    }
  }

  lemma SpreadOfNone(m: Data, labels: seq<int>, j: int, e: int, v: real)
    requires forall i :: 0 <= i < m.n ==> Label(labels, i) != j
    ensures Spread(m, labels, j, e, v) == 0.0
  {
    SumZero(m.n, i => if Label(labels, i) == j then Square(m.x(i, e) - v) else 0.0);
  }

  function SquareTotal(m: Data, labels: seq<int>, j: int, e: int): real {
    Sum(m.n, i => if Label(labels, i) == j then Square(m.x(i, e)) else 0.0)
  }

  lemma SpreadExpands(m: Data, labels: seq<int>, j: int, e: int, v: real)
    ensures Spread(m, labels, j, e, v)
         == Expanded(SquareTotal(m, labels, j, e), Total(m, labels, j, e), Count(m, labels, j), v)
  {
    hide Square, Expanded, Sum;
    var p, x := i => Label(labels, i) == j, i => m.x(i, e);
    SquaresExpand(m.n, p, x, v);
    SumCong(m.n, i => if Label(labels, i) == j then Square(m.x(i, e) - v) else 0.0,
            i => if p(i) then Square(x(i) - v) else 0.0);
    SumCong(m.n, i => if Label(labels, i) == j then Square(m.x(i, e)) else 0.0,
            i => if p(i) then Square(x(i)) else 0.0);
    SumCong(m.n, i => if Label(labels, i) == j then m.x(i, e) else 0.0, i => if p(i) then x(i) else 0.0);
    SumCong(m.n, i => if Label(labels, i) == j then 1.0 else 0.0, i => if p(i) then 1.0 else 0.0);
  }

  lemma SumByLabel(n: nat, k: nat, of: int -> int, f: (int, int) -> real)
    requires forall i :: 0 <= i < n ==> 0 <= of(i) < k
    ensures Sum(n, i => f(i, of(i))) == Sum(k, j => Sum(n, i => if of(i) == j then f(i, j) else 0.0))
  {
    hide Sum;
    var g := (i, j) => if of(i) == j then f(i, j) else 0.0;
    forall i | 0 <= i < n ensures f(i, of(i)) == Sum(k, j => g(i, j)) {
      SumPick(k, of(i), j => g(i, j));
    }
    SumCong(n, i => f(i, of(i)), i => Sum(k, j => g(i, j)));
    SumSwap(n, k, g);
    var column := j => Sum(n, i => if of(i) == j then f(i, j) else 0.0);
    forall j | 0 <= j < k ensures column(j) == Sum(n, i => g(i, j)) {
      SumCong(n, i => g(i, j), i => if of(i) == j then f(i, j) else 0.0);
    }
    SumCong(k, j => Sum(n, i => g(i, j)), column);
  }

  /** Every point belongs to one cluster: what the clusters cost is what the points cost. */
  lemma InertiaByCluster(m: Data, labels: seq<int>, cs: seq<seq<real>>)
    requires AreLabels(m, labels, |cs|)
    ensures ClusterInertia(m, labels, cs) == Inertia(m, labels, cs)
  {
    hide Distance, Sum;
    var of := i => Label(labels, i);
    var f := (i, j) => Distance(m, cs, i, j);
    SumByLabel(m.n, |cs|, of, f);
    SumCong(m.n, i => Distance(m, cs, i, Label(labels, i)), i => f(i, of(i)));
    forall j | 0 <= j < |cs|
      ensures ClusterCost(m, labels, cs, j) == Sum(m.n, i => if of(i) == j then f(i, j) else 0.0)
    {
      SumCong(m.n, i => if Label(labels, i) == j then Distance(m, cs, i, j) else 0.0,
              i => if of(i) == j then f(i, j) else 0.0);
    }
    SumCong(|cs|, j => ClusterCost(m, labels, cs, j), j => Sum(m.n, i => if of(i) == j then f(i, j) else 0.0));
  }

  lemma CostByCoordinate(m: Data, labels: seq<int>, cs: seq<seq<real>>, j: int)
    ensures ClusterCost(m, labels, cs, j) == Sum(m.d, e => Spread(m, labels, j, e, Coordinate(cs, j, e)))
  {
    hide Sum, Square;
    var g := (i, e) => if Label(labels, i) == j then Square(m.x(i, e) - Coordinate(cs, j, e)) else 0.0;
    forall i | 0 <= i < m.n
      ensures (if Label(labels, i) == j then Distance(m, cs, i, j) else 0.0) == Sum(m.d, e => g(i, e))
    {
      if Label(labels, i) == j {
        SumCong(m.d, e => Square(m.x(i, e) - Coordinate(cs, j, e)), e => g(i, e));
      } else {
        SumZero(m.d, e => g(i, e));
      }
    }
    SumCong(m.n, i => if Label(labels, i) == j then Distance(m, cs, i, j) else 0.0, i => Sum(m.d, e => g(i, e)));
    SumSwap(m.n, m.d, g);
    forall e | 0 <= e < m.d ensures Sum(m.n, i => g(i, e)) == Spread(m, labels, j, e, Coordinate(cs, j, e)) {
      SumCong(m.n, i => g(i, e),
              i => if Label(labels, i) == j then Square(m.x(i, e) - Coordinate(cs, j, e)) else 0.0);
    }
    SumCong(m.d, e => Sum(m.n, i => g(i, e)), e => Spread(m, labels, j, e, Coordinate(cs, j, e)));
  }

  /** No place is better for a cluster's coordinate than the recentred one. */
  lemma SpreadIsLeast(m: Data, labels: seq<int>, cs: seq<seq<real>>, j: nat, e: nat, v: real)
    requires j < |cs| && e < m.d
    ensures Spread(m, labels, j, e, Coordinate(Recentre(m, labels, cs), j, e)) <= Spread(m, labels, j, e, v)
  {
    var mean := Coordinate(Recentre(m, labels, cs), j, e);
    MembersCounted(m, labels, j);
    if Count(m, labels, j) == 0.0 {
      SpreadOfNone(m, labels, j, e, v);
      SpreadOfNone(m, labels, j, e, mean);
    } else {
      SpreadExpands(m, labels, j, e, v);
      SpreadExpands(m, labels, j, e, mean);
      SquareCompletes(SquareTotal(m, labels, j, e), Total(m, labels, j, e), Count(m, labels, j), v);
    }
  }

  /** For a given labelling, no centroids are better than the recentred ones. */
  lemma RecentreIsBest(m: Data, labels: seq<int>, cs: seq<seq<real>>, other: seq<seq<real>>)
    requires |other| == |cs| && AreLabels(m, labels, |cs|)
    ensures Inertia(m, labels, Recentre(m, labels, cs)) <= Inertia(m, labels, other)
  {
    hide Sum, Recentre, Inertia, Coordinate, Spread;
    var best := Recentre(m, labels, cs);
    InertiaByCluster(m, labels, best);
    InertiaByCluster(m, labels, other);
    forall j: nat | j < |cs| ensures ClusterCost(m, labels, best, j) <= ClusterCost(m, labels, other, j) {
      CostByCoordinate(m, labels, best, j);
      CostByCoordinate(m, labels, other, j);
      forall e: nat | e < m.d
        ensures Spread(m, labels, j, e, Coordinate(best, j, e)) <= Spread(m, labels, j, e, Coordinate(other, j, e))
      {
        SpreadIsLeast(m, labels, cs, j, e, Coordinate(other, j, e));
      }
      SumMono(m.d, e => Spread(m, labels, j, e, Coordinate(best, j, e)),
              e => Spread(m, labels, j, e, Coordinate(other, j, e)));
    }
    SumMono(|cs|, j => ClusterCost(m, labels, best, j), j => ClusterCost(m, labels, other, j));
  }

  // The rounds of one restart.

  datatype Fit = Fit(labels: seq<int>, centroids: seq<seq<real>>)

  function Abs(a: real): real {
    if a < 0.0 then -a else a
  }

  /** numpy.allclose with its default tolerances. */
  predicate AllClose(m: Data, a: seq<seq<real>>, b: seq<seq<real>>) {
    forall j, e | 0 <= j < |a| && 0 <= e < m.d ::
      Abs(Coordinate(a, j, e) - Coordinate(b, j, e)) <= 0.00000001 + 0.00001 * Abs(Coordinate(b, j, e))
  }

  /**
   * What a restart ends with: it stops without moving the centroids once a move would be too small,
   * and after the last round with the moved centroids but the labels of the round before.
   */
  function Lloyd(m: Data, cs: seq<seq<real>>, rounds: nat): (r: Fit)
    requires cs != [] && rounds >= 1
    decreases rounds
  {
    var labels := Assign(m, cs);
    var moved := Recentre(m, labels, cs);
    if AllClose(m, cs, moved) then Fit(labels, cs)
    else if rounds == 1 then Fit(labels, moved)
    else Lloyd(m, moved, rounds - 1)
  }

  lemma AssignLabels(m: Data, cs: seq<seq<real>>)
    requires cs != []
    ensures AreLabels(m, Assign(m, cs), |cs|)
  {}

  /** One round: recentring does not raise the inertia, and neither does assigning the points anew. */
  lemma RoundDescends(m: Data, cs: seq<seq<real>>)
    requires cs != []
    ensures var labels := Assign(m, cs);
            var moved := Recentre(m, labels, cs);
            && Inertia(m, labels, moved) <= Inertia(m, labels, cs)
            && Inertia(m, Assign(m, moved), moved) <= Inertia(m, labels, moved)
  {
    hide Inertia, Recentre, Assign;
    AssignLabels(m, cs);
    RecentreIsBest(m, Assign(m, cs), cs, cs);
    AssignIsBest(m, Recentre(m, Assign(m, cs), cs), Assign(m, cs));
  }

  /** A restart ends no worse than its first assignment. */
  lemma {:induction false} LloydDescends(m: Data, cs: seq<seq<real>>, rounds: nat)
    requires cs != [] && rounds >= 1
    ensures var r := Lloyd(m, cs, rounds);
            && |r.centroids| == |cs| && AreLabels(m, r.labels, |cs|)
            && Inertia(m, r.labels, r.centroids) <= Inertia(m, Assign(m, cs), cs)
    decreases rounds
  {
    hide Inertia, AllClose, Assign, Recentre, AreLabels;
    var moved := Recentre(m, Assign(m, cs), cs);
    AssignLabels(m, cs);
    RoundDescends(m, cs);
    if !AllClose(m, cs, moved) && rounds > 1 {
      LloydDescends(m, moved, rounds - 1);
    }
  }

  // What the rounds of a restart are, and when it ends.

  /** Centroid j is the first of the nearest ones to point i. */
  ghost predicate IsNearest(m: Data, cs: seq<seq<real>>, i: int, j: int) {
    && (forall l :: 0 <= l < |cs| ==> Distance(m, cs, i, j) <= Distance(m, cs, i, l))
    && forall l :: 0 <= l < j ==> Distance(m, cs, i, j) < Distance(m, cs, i, l)
  }

  ghost predicate AreNearest(m: Data, cs: seq<seq<real>>, labels: seq<int>) {
    AreLabels(m, labels, |cs|) && forall i :: 0 <= i < m.n ==> IsNearest(m, cs, i, labels[i])
  }

  /** Coordinate e of the mean of cluster j; an empty cluster counts as lying at its centroid. */
  ghost function MeanOf(m: Data, labels: seq<int>, cs: seq<seq<real>>, j: int, e: int): real {
    var count := Sum(m.n, i => if Label(labels, i) == j then 1.0 else 0.0);
    if count > 0.0 then Sum(m.n, i => if Label(labels, i) == j then m.x(i, e) else 0.0) / count
    else Coordinate(cs, j, e)
  }

  /** numpy's default tolerances, absolute and relative to the mean. */
  ghost predicate IsNear(v: real, mean: real) {
    var relative := if mean >= 0.0 then mean / 100000.0 else -mean / 100000.0;
    mean - 0.00000001 - relative <= v <= mean + 0.00000001 + relative
  }

  /** Every coordinate of every centroid is near the mean of its cluster. */
  ghost predicate Settles(m: Data, cs: seq<seq<real>>, labels: seq<int>) {
    forall j, e {:trigger MeanOf(m, labels, cs, j, e)} ::
      0 <= j < |cs| && 0 <= e < m.d ==> IsNear(Coordinate(cs, j, e), MeanOf(m, labels, cs, j, e))
  }

  /** The centroids become the means of their clusters. */
  ghost predicate IsRound(m: Data, cs: seq<seq<real>>, labels: seq<int>, cs': seq<seq<real>>) {
    && |cs'| == |cs| && AreNearest(m, cs, labels) && !Settles(m, cs, labels)
    && forall j, e :: 0 <= j < |cs| && 0 <= e < m.d ==> Coordinate(cs', j, e) == MeanOf(m, labels, cs, j, e)
  }

  /** A restart of r unsettled rounds, the k-th from the centroids at[k] with labels[k] to at[k + 1]: either the
      centroids are settled then, before the rounds are used up, and returned with their own labels, or all rounds are
      used up. */
  ghost predicate IsRestart(m: Data, cs: seq<seq<real>>, maxIter: nat, fit: Fit, at: seq<seq<seq<real>>>,
                            labels: seq<seq<int>>, r: nat) {
    && |at| == |labels| + 1 == r + 1 && r <= maxIter && at[0] == cs && at[r] == fit.centroids
    && (forall k :: 0 <= k < r ==> IsRound(m, at[k], labels[k], at[k + 1]))
    && if r < maxIter then AreNearest(m, fit.centroids, fit.labels) && Settles(m, fit.centroids, fit.labels)
       else r > 0 && fit.labels == labels[r - 1]
  }

  ghost predicate EndsRestart(m: Data, cs: seq<seq<real>>, maxIter: nat, fit: Fit) {
    exists at, labels, r :: IsRestart(m, cs, maxIter, fit, at, labels, r)
  }

  lemma AssignIsNearest(m: Data, cs: seq<seq<real>>)
    requires cs != []
    ensures AreNearest(m, cs, Assign(m, cs))
  {
    hide Distance;
  }

  lemma RecentredIs(m: Data, labels: seq<int>, cs: seq<seq<real>>, j: nat, e: nat)
    requires j < |cs| && e < m.d
    ensures Coordinate(Recentre(m, labels, cs), j, e) == MeanOf(m, labels, cs, j, e)
  {
    MembersCounted(m, labels, j);
    hide Sum;
  }

  lemma CloseIsNear(v: real, mean: real)
    ensures Abs(v - mean) <= 0.00000001 + 0.00001 * Abs(mean) <==> IsNear(v, mean)
  {
  }

  lemma SettledIsAllClose(m: Data, labels: seq<int>, cs: seq<seq<real>>)
    ensures AllClose(m, cs, Recentre(m, labels, cs)) <==> Settles(m, cs, labels)
  {
    hide MeanOf, Recentre, Coordinate, IsNear, Abs;
    var moved := Recentre(m, labels, cs);
    forall j: nat, e: nat | j < |cs| && e < m.d
      ensures Coordinate(moved, j, e) == MeanOf(m, labels, cs, j, e)
      ensures Abs(Coordinate(cs, j, e) - Coordinate(moved, j, e))
                <= 0.00000001 + 0.00001 * Abs(Coordinate(moved, j, e))
              <==> IsNear(Coordinate(cs, j, e), MeanOf(m, labels, cs, j, e))
    {
      RecentredIs(m, labels, cs, j, e);
      CloseIsNear(Coordinate(cs, j, e), Coordinate(moved, j, e));
    }
  }

  lemma RoundIs(m: Data, cs: seq<seq<real>>)
    requires cs != []
    ensures var labels := Assign(m, cs);
            var moved := Recentre(m, labels, cs);
            !AllClose(m, cs, moved) ==> IsRound(m, cs, labels, moved)
  {
    hide AreNearest, MeanOf, Recentre, Coordinate, AllClose, Settles, Assign;
    var labels := Assign(m, cs);
    AssignIsNearest(m, cs);
    SettledIsAllClose(m, labels, cs);
    forall j: nat, e: nat | j < |cs| && e < m.d
      ensures Coordinate(Recentre(m, labels, cs), j, e) == MeanOf(m, labels, cs, j, e)
    {
      RecentredIs(m, labels, cs, j, e);
    }
  }

  lemma RestartGrows(m: Data, cs: seq<seq<real>>, labels: seq<int>, moved: seq<seq<real>>, maxIter: nat, fit: Fit,
                     at: seq<seq<seq<real>>>, lists: seq<seq<int>>, r: nat)
    requires IsRound(m, cs, labels, moved) && IsRestart(m, moved, maxIter, fit, at, lists, r)
    ensures IsRestart(m, cs, maxIter + 1, fit, [cs] + at, [labels] + lists, r + 1)
  {
    hide IsRound, Settles, AreNearest;
    var at', lists' := [cs] + at, [labels] + lists;
    forall k | 0 <= k < r + 1
      ensures IsRound(m, at'[k], lists'[k], at'[k + 1])
    {
      assert k > 0 ==> IsRound(m, at[k - 1], lists[k - 1], at[k]);
    }
  }

  /** A restart ends as numpy's test says: settled near the means of its clusters, or after all its rounds, each of
      which moved some coordinate by more than the tolerance. */
  lemma {:induction false} LloydEnds(m: Data, cs: seq<seq<real>>, rounds: nat)
      returns (at: seq<seq<seq<real>>>, labels: seq<seq<int>>, r: nat)
    requires cs != [] && rounds >= 1
    ensures IsRestart(m, cs, rounds, Lloyd(m, cs, rounds), at, labels, r)
    decreases rounds
  {
    hide AllClose, Assign, Recentre, IsRound, AreNearest, Settles;
    var moved := Recentre(m, Assign(m, cs), cs);
    AssignIsNearest(m, cs);
    SettledIsAllClose(m, Assign(m, cs), cs);
    RoundIs(m, cs);
    if AllClose(m, cs, moved) {
      at, labels, r := [cs], [], 0;
    } else if rounds == 1 {
      at, labels, r := [cs, moved], [Assign(m, cs)], 1;
    } else {
      hide IsRestart;
      at, labels, r := LloydEnds(m, moved, rounds - 1);
      RestartGrows(m, cs, Assign(m, cs), moved, rounds - 1, Lloyd(m, moved, rounds - 1), at, labels, r);
      at, labels, r := [cs] + at, [Assign(m, cs)] + labels, r + 1;
    }
  }

  method Restart(m: Data, start: seq<seq<real>>, maxIter: nat) returns (labels: seq<int>, centroids: seq<seq<real>>)
    requires start != [] && maxIter >= 1
    ensures Fit(labels, centroids) == Lloyd(m, start, maxIter)
    ensures EndsRestart(m, start, maxIter, Fit(labels, centroids))
  {
    hide AllClose, Assign, Recentre, IsRestart;
    ghost var at, lists, rounds := LloydEnds(m, start, maxIter);
    centroids := start;
    labels := [];
    var round := 0;
    while round < maxIter
      invariant 0 <= round <= maxIter && |centroids| == |start|
      invariant round < maxIter ==> Lloyd(m, centroids, maxIter - round) == Lloyd(m, start, maxIter)
      invariant round == maxIter ==> Fit(labels, centroids) == Lloyd(m, start, maxIter)
    {
      labels := Assign(m, centroids);
      var moved := Recentre(m, labels, centroids);
      if AllClose(m, centroids, moved) {
        return;
      }
      centroids := moved;
      round := round + 1;
    }
  }

  // All restarts.

  /** The points drawn as the first centroids. */
  function Drawn(m: Data, draw: seq<nat>): (cs: seq<seq<real>>)
    ensures |cs| == |draw|
  {
    seq(|draw|, j requires 0 <= j < |draw| => seq(m.d, e => m.x(draw[j], e)))
  }

  lemma NoSquare(a: real)
    requires a == 0.0
    ensures Square(a) == 0.0
  {
  }

  /** Every first centroid is the point drawn for it. */
  lemma DrawnLieOnPoints(m: Data, draw: seq<nat>, j: nat)
    requires j < |draw|
    ensures Distance(m, Drawn(m, draw), draw[j], j) == 0.0
  {
    hide Square, Sum;
    var cs := Drawn(m, draw);
    var f := e => Square(m.x(draw[j], e) - Coordinate(cs, j, e));
    forall e | 0 <= e < m.d
      ensures f(e) == 0.0
    {
      assert Coordinate(cs, j, e) == m.x(draw[j], e);
      NoSquare(m.x(draw[j], e) - Coordinate(cs, j, e));
    }
    SumZero(m.d, f);
  }

  function RestartInertia(m: Data, draw: seq<nat>, maxIter: nat): real
    requires draw != [] && maxIter >= 1
  {
    var r := Lloyd(m, Drawn(m, draw), maxIter);
    Inertia(m, r.labels, r.centroids)
  }

  /** The first of the restarts with the least inertia. */
  ghost predicate FirstBest(m: Data, draws: seq<seq<nat>>, maxIter: nat, b: nat)
    requires maxIter >= 1 && b < |draws| && forall r :: 0 <= r < |draws| ==> draws[r] != []
  {
    && (forall r :: 0 <= r < |draws| ==> RestartInertia(m, draws[b], maxIter) <= RestartInertia(m, draws[r], maxIter))
    && (forall r :: 0 <= r < b ==> RestartInertia(m, draws[b], maxIter) < RestartInertia(m, draws[r], maxIter))
  }

  datatype Best = Nothing | Best(fit: Fit, inertia: real)

  method FitAll(m: Data, draws: seq<seq<nat>>, maxIter: nat) returns (best: Best, ghost b: nat)
    requires maxIter >= 1 && forall r :: 0 <= r < |draws| ==> draws[r] != []
    ensures best.Nothing? <==> draws == []
    ensures best.Best? ==> b < |draws| && FirstBest(m, draws, maxIter, b)
    ensures best.Best? ==> best.fit == Lloyd(m, Drawn(m, draws[b]), maxIter)
    ensures best.Best? ==> EndsRestart(m, Drawn(m, draws[b]), maxIter, best.fit)
    ensures best.Best? ==> best.inertia == Inertia(m, best.fit.labels, best.fit.centroids)
    ensures best.Best? ==> forall r :: 0 <= r < |draws| ==>
      best.inertia <= Inertia(m, Assign(m, Drawn(m, draws[r])), Drawn(m, draws[r]))
  {
    hide Inertia, Lloyd, ClusterInertia, EndsRestart;
    best := Nothing;
    b := 0;
    for r := 0 to |draws|
      invariant best.Nothing? <==> r == 0
      invariant best.Best? ==> b < r && best.fit == Lloyd(m, Drawn(m, draws[b]), maxIter)
      invariant best.Best? ==> EndsRestart(m, Drawn(m, draws[b]), maxIter, best.fit)
      invariant best.Best? ==> best.inertia == RestartInertia(m, draws[b], maxIter)
      invariant best.Best? ==> forall q :: 0 <= q < r ==> best.inertia <= RestartInertia(m, draws[q], maxIter)
      invariant best.Best? ==> forall q :: 0 <= q < b ==> best.inertia < RestartInertia(m, draws[q], maxIter)
    {
      var labels, centroids := Restart(m, Drawn(m, draws[r]), maxIter);
      LloydDescends(m, Drawn(m, draws[r]), maxIter);
      var inertia := ClusterInertia(m, labels, centroids);
      InertiaByCluster(m, labels, centroids);
      if best.Nothing? || inertia < best.inertia {
        best := Best(Fit(labels, centroids), inertia);
        b := r;
      }
    }
    forall r | 0 <= r < |draws|
      ensures RestartInertia(m, draws[r], maxIter) <= Inertia(m, Assign(m, Drawn(m, draws[r])), Drawn(m, draws[r]))
    {
      LloydDescends(m, Drawn(m, draws[r]), maxIter);
    }
  }
}
