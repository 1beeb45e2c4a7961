/** Top-down capital allocation over the leaf order (HierarchicalRiskParity._recursive_bisection). */
module Bisection {
  import opened Reals
  import opened Sums

  function Asset(c: seq<int>, k: int): int {
    if 0 <= k < |c| then c[k] else 0
  }

  /** One summand of the quadratic form below. */
  function Pair(cov: (int, int) -> real, c: seq<int>, w: int -> real): (int, int) -> real {
    (a, b) => w(a) * cov(Asset(c, a), Asset(c, b)) * w(b)
  }

  /** The quadratic form of a covariance over a list of assets. */
  function Quadratic(cov: (int, int) -> real, c: seq<int>, w: int -> real): real {
    var q := Pair(cov, c, w);
    Sum(|c|, a => Sum(|c|, b => q(a, b)))
  }

  function InverseVariance(cov: (int, int) -> real, i: int): real {
    if cov(i, i) + 0.0000000001 == 0.0 then 0.0 else 1.0 / (cov(i, i) + 0.0000000001)
  }

  /** The inverse-variance weights inside a cluster. */
  function Share(cov: (int, int) -> real, c: seq<int>): int -> real {
    var total := Sum(|c|, k => InverseVariance(cov, Asset(c, k)));
    k => if total == 0.0 then 0.0 else InverseVariance(cov, Asset(c, k)) / total
  }

  function ClusterVariance(cov: (int, int) -> real, c: seq<int>): real {
    Quadratic(cov, c, Share(cov, c))
  }

  /** The part of a cluster's capital that goes to its left half. */
  function LeftFraction(cov: (int, int) -> real, left: seq<int>, right: seq<int>): real {
    var vl, vr := ClusterVariance(cov, left), ClusterVariance(cov, right);
    if vl + vr > 0.0 then 1.0 - vl / (vl + vr) else 0.5
  }

  /** How a cluster's capital is split: the fraction for its left half, given both halves. */
  type Split = (seq<int>, seq<int>) -> real

  function ByVariance(cov: (int, int) -> real): Split {
    (left, right) => LeftFraction(cov, left, right)
  }

  /** The capital of asset i within a cluster: the product of the fractions on the way down to it. */
  ghost function Weight(f: Split, c: seq<int>, i: int): real {
    if |c| <= 1 then 1.0
    else
      var left, right := c[..|c| / 2], c[|c| / 2..];
      Portion(f(left, right), i in left, Weight(f, if i in left then left else right, i))
  }

  /** The fraction a goes left and the rest right. */
  function Portion(a: real, onLeft: bool, w: real): real {
    if onLeft then a * w else (1.0 - a) * w
  }

  ghost predicate Unique(s: seq<int>) {
    forall j, k :: 0 <= j < k < |s| ==> s[j] != s[k]
  }

  ghost predicate Disjoint(a: seq<int>, b: seq<int>) {
    forall j, k :: 0 <= j < |a| && 0 <= k < |b| ==> a[j] != b[k]
  }

  lemma UniqueConcat(a: seq<int>, b: seq<int>)
    ensures Unique(a + b) <==> Unique(a) && Unique(b) && Disjoint(a, b)
  {
    var c := a + b;
    if Unique(c) {
      assert forall j :: 0 <= j < |a| ==> c[j] == a[j];
      assert forall k :: 0 <= k < |b| ==> c[|a| + k] == b[k];
    }
  }

  lemma {:induction false} SumSplit(n: nat, m: nat, f: int -> real)
    ensures Sum(n + m, f) == Sum(n, f) + Sum(m, k => f(n + k))
  {
    if m > 0 {
      SumSplit(n, m - 1, f);
    }
  }

  /** The weight of an asset, by the half of the cluster it lies in. */
  lemma WeightInHalf(f: Split, c: seq<int>, i: int)
    requires |c| > 1 && Unique(c)
    ensures var left, right := c[..|c| / 2], c[|c| / 2..];
            && (i in left ==> i !in right && Weight(f, c, i) == f(left, right) * Weight(f, left, i))
            && (i in right ==> i !in left && Weight(f, c, i) == (1.0 - f(left, right)) * Weight(f, right, i))
  {
    hide Weight;
    var left, right := c[..|c| / 2], c[|c| / 2..];
    assert left + right == c;
    UniqueConcat(left, right);
    DisjointMember(left, right, i);
    DisjointMember(right, left, i);
    WeightUnfold(f, c, i);
  }

  lemma WeightUnfold(f: Split, c: seq<int>, i: int)
    requires |c| > 1
    ensures var left, right := c[..|c| / 2], c[|c| / 2..];
            Weight(f, c, i) == Portion(f(left, right), i in left, Weight(f, if i in left then left else right, i))
  {
  }

  lemma DisjointMember(a: seq<int>, b: seq<int>, i: int)
    requires Disjoint(a, b) || Disjoint(b, a)
    ensures i in a ==> i !in b
  {
  }

  ghost function CapitalOf(f: Split, c: seq<int>): real {
    Sum(|c|, k => Weight(f, c, Asset(c, k)))
  }

  /** Splitting conserves capital: whatever the fractions, a cluster's weights sum to one. */
  lemma {:induction false} WeightsSumToOne(f: Split, c: seq<int>)
    requires Unique(c) && c != []
    ensures CapitalOf(f, c) == 1.0
  {
    if |c| == 1 {
      var g := k => Weight(f, c, Asset(c, k));
      assert Sum(1, g) == Sum(0, g) + g(0);
    } else {
      var left, right := c[..|c| / 2], c[|c| / 2..];
      assert left + right == c;
      UniqueConcat(left, right);
      WeightsSumToOne(f, left);
      WeightsSumToOne(f, right);
      CapitalSplits(f, c);
    }
  }

  lemma CapitalIs(f: Split, c: seq<int>)
    ensures CapitalOf(f, c) == Sum(|c|, k => Weight(f, c, Asset(c, k)))
  {
  }

  lemma LeftCapital(f: Split, c: seq<int>)
    requires Unique(c) && |c| > 1
    ensures var left, right := c[..|c| / 2], c[|c| / 2..];
            Sum(|left|, k => Weight(f, c, Asset(c, k))) == f(left, right) * CapitalOf(f, left)
  {
    hide Weight, Sum, CapitalOf;
    var left, right := c[..|c| / 2], c[|c| / 2..];
    var h := k => Weight(f, left, Asset(left, k));
    forall k | 0 <= k < |left|
      ensures Weight(f, c, Asset(c, k)) == f(left, right) * h(k)
    {
      assert left[k] == c[k];
      WeightInHalf(f, c, c[k]);
    }
    ScaledSum(|left|, f(left, right), k => Weight(f, c, Asset(c, k)), h);
    CapitalIs(f, left);
  }

  lemma RightCapital(f: Split, c: seq<int>, g: int -> real)
    requires Unique(c) && |c| > 1 && forall k :: g(k) == Weight(f, c, Asset(c, k))
    ensures var left, right := c[..|c| / 2], c[|c| / 2..];
            Sum(|right|, k => g(|left| + k)) == (1.0 - f(left, right)) * CapitalOf(f, right)
  {
    hide Weight, Sum, CapitalOf;
    var left, right := c[..|c| / 2], c[|c| / 2..];
    var h := k => Weight(f, right, Asset(right, k));
    forall k | 0 <= k < |right|
      ensures g(|left| + k) == (1.0 - f(left, right)) * h(k)
    {
      assert right[k] == c[|left| + k];
      WeightInHalf(f, c, c[|left| + k]);
    }
    ScaledSum(|right|, 1.0 - f(left, right), k => g(|left| + k), h);
    CapitalIs(f, right);
  }

  lemma CapitalSplits(f: Split, c: seq<int>)
    requires Unique(c) && |c| > 1
    ensures var left, right := c[..|c| / 2], c[|c| / 2..];
            CapitalOf(f, c) == f(left, right) * CapitalOf(f, left) + (1.0 - f(left, right)) * CapitalOf(f, right)
  {
    hide Weight, Sum, CapitalOf;
    var mid := |c| / 2;
    var g := k => Weight(f, c, Asset(c, k));
    CapitalIs(f, c);
    SumSplit(mid, |c| - mid, g);
    LeftCapital(f, c);
    RightCapital(f, c, g);
  }

  /** Positive semidefinite: no combination of assets has negative variance. */
  ghost predicate Psd(cov: (int, int) -> real) {
    forall c, w {:trigger Quadratic(cov, c, w)} :: Quadratic(cov, c, w) >= 0.0
  }

  lemma FractionInUnit(cov: (int, int) -> real, left: seq<int>, right: seq<int>)
    requires Psd(cov)
    ensures 0.0 <= LeftFraction(cov, left, right) <= 1.0
  {
    var vl, vr := ClusterVariance(cov, left), ClusterVariance(cov, right);
    assert vl >= 0.0 && vr >= 0.0;
    if vl + vr > 0.0 {
      ShareInUnit(vl, vl + vr);
    }
  }

  lemma ShareInUnit(a: real, b: real)
    requires 0.0 <= a <= b && b > 0.0
    ensures 0.0 <= a / b <= 1.0
  {
  }

  /** With fractions between 0 and 1 every weight lies between 0 and 1. */
  lemma {:induction false} WeightInUnit(f: Split, c: seq<int>, i: int)
    requires forall l, r :: 0.0 <= f(l, r) <= 1.0
    ensures 0.0 <= Weight(f, c, i) <= 1.0
  {
    hide Weight, Portion;
    if |c| > 1 {
      WeightUnfold(f, c, i);
      var left, right := c[..|c| / 2], c[|c| / 2..];
      var half := if i in left then left else right;
      WeightInUnit(f, half, i);
      PortionInUnit(f(left, right), i in left, Weight(f, half, i));
    } else {
      SingleWeight(f, c, i);
    }
  }

  lemma SingleWeight(f: Split, c: seq<int>, i: int)
    requires |c| <= 1
    ensures Weight(f, c, i) == 1.0
  {
  }

  lemma PortionInUnit(a: real, onLeft: bool, w: real)
    requires 0.0 <= a <= 1.0 && 0.0 <= w <= 1.0
    ensures 0.0 <= Portion(a, onLeft, w) <= 1.0
  {
    ProductInUnit(a, w);
    ProductInUnit(1.0 - a, w);
  }

  lemma ProductInUnit(a: real, b: real)
    requires 0.0 <= a <= 1.0 && 0.0 <= b <= 1.0
    ensures 0.0 <= a * b <= 1.0
  {
    ProductNonneg(a, b);
    ProductNonneg(1.0 - a, b);
    assert (1.0 - a) * b == b - a * b;
  }

  // The worklist.

  function Flat(pending: seq<seq<int>>): seq<int> {
    if pending == [] then [] else Flat(pending[..|pending| - 1]) + pending[|pending| - 1]
  }

  lemma FlatAppend(pending: seq<seq<int>>, c: seq<int>)
    ensures Flat(pending + [c]) == Flat(pending) + c
  {
    assert (pending + [c])[..|pending + [c]| - 1] == pending;
  }

  lemma {:induction false} FlatFirst(c: seq<int>, pending: seq<seq<int>>)
    ensures Flat([c] + pending) == c + Flat(pending)
  {
    if pending == [] {
      assert [c] + pending == [] + [c];
      FlatAppend([], c);
    } else {
      var rest, last := pending[..|pending| - 1], pending[|pending| - 1];
      FlatFirst(c, rest);
      assert [c] + pending == ([c] + rest) + [last];
      FlatAppend([c] + rest, last);
      assert c + (Flat(rest) + last) == (c + Flat(rest)) + last;
    }
  }

  /** What asset i still has to be multiplied by: its weight in the pending cluster that holds it. */
  ghost function Factor(f: Split, pending: seq<seq<int>>, i: int): real {
    if pending == [] then 1.0
    else if i in pending[|pending| - 1] then Weight(f, pending[|pending| - 1], i)
    else Factor(f, pending[..|pending| - 1], i)
  }

  lemma FactorAppend(f: Split, pending: seq<seq<int>>, c: seq<int>, i: int)
    ensures Factor(f, pending + [c], i) == if i in c then Weight(f, c, i) else Factor(f, pending, i)
  {
    hide Weight;
    assert (pending + [c])[..|pending + [c]| - 1] == pending;
  }

  lemma {:induction false} FactorNone(f: Split, pending: seq<seq<int>>, i: int)
    requires i !in Flat(pending)
    ensures Factor(f, pending, i) == 1.0
  {
    if pending != [] {
      FactorNone(f, pending[..|pending| - 1], i);
    }
  }

  lemma {:induction false} FactorFirst(f: Split, c: seq<int>, pending: seq<seq<int>>, i: int)
    requires i in c ==> i !in Flat(pending)
    ensures Factor(f, [c] + pending, i) == if i in c then Weight(f, c, i) else Factor(f, pending, i)
  {
    if pending == [] {
      assert [c] + pending == [] + [c];
      FactorAppend(f, [], c, i);
    } else {
      var rest, last := pending[..|pending| - 1], pending[|pending| - 1];
      FactorFirst(f, c, rest, i);
      assert [c] + pending == ([c] + rest) + [last];
      FactorAppend(f, [c] + rest, last, i);
    }
  }

  /** Every position holds its asset's capital divided by what is still to be multiplied in. */
  ghost predicate Allocated(f: Split, order: seq<int>, weights: seq<real>, pending: seq<seq<int>>) {
    && |weights| == |order| && Unique(order) && Unique(Flat(pending))
    && (forall k :: 0 <= k < |Flat(pending)| ==> Flat(pending)[k] in order)
    && forall k :: 0 <= k < |order| ==> Pays(f, order, order[k], weights[k], pending)
  }

  ghost predicate Pays(f: Split, order: seq<int>, i: int, w: real, pending: seq<seq<int>>) {
    w * Factor(f, pending, i) == Weight(f, order, i)
  }

  /** The clusters that a cluster leaves on the list: its halves, unless they are single assets. */
  function Halves(c: seq<int>): seq<seq<int>> {
    if |c| <= 1 then []
    else (if |c[..|c| / 2]| > 1 then [c[..|c| / 2]] else []) + if |c[|c| / 2..]| > 1 then [c[|c| / 2..]] else []
  }

  /** The multiplier of asset i when cluster c is split. */
  ghost function Multiplier(f: Split, c: seq<int>, i: int): real {
    if |c| <= 1 || i !in c then 1.0
    else if i in c[..|c| / 2] then f(c[..|c| / 2], c[|c| / 2..])
    else 1.0 - f(c[..|c| / 2], c[|c| / 2..])
  }

  /** Splitting a cluster moves one factor from what is pending to what is paid. */
  lemma FactorSplits(f: Split, c: seq<int>, tail: seq<seq<int>>, i: int)
    requires Unique(c) && (i in c ==> i !in Flat(tail))
    ensures Factor(f, [c] + tail, i) == Multiplier(f, c, i) * Factor(f, tail + Halves(c), i)
  {
    hide Weight, Factor;
    FactorFirst(f, c, tail, i);
    if i in c {
      FactorNone(f, tail, i);
    }
    if |c| <= 1 {
      assert tail + Halves(c) == tail;
      SingleWeight(f, c, i);
    } else {
      var left, right := c[..|c| / 2], c[|c| / 2..];
      assert left + right == c;
      FactorHalves(f, c, tail, i);
      if i in c {
        WeightInHalf(f, c, i);
      }
    }
  }

  lemma FactorHalves(f: Split, c: seq<int>, tail: seq<seq<int>>, i: int)
    requires |c| > 1 && Unique(c) && (i in c ==> Factor(f, tail, i) == 1.0)
    ensures var left, right := c[..|c| / 2], c[|c| / 2..];
            Factor(f, tail + Halves(c), i)
            == if i in left then Weight(f, left, i) else if i in right then Weight(f, right, i) else Factor(f, tail, i)
  {
    hide Weight, Factor;
    var left, right := c[..|c| / 2], c[|c| / 2..];
    assert left + right == c;
    UniqueConcat(left, right);
    DisjointMember(left, right, i);
    SingleOrNot(f, left, i);
    SingleOrNot(f, right, i);
    var l := if |left| > 1 then [left] else [];
    var r := if |right| > 1 then [right] else [];
    FactorAppend(f, tail, left, i);
    FactorAppend(f, tail + l, right, i);
    assert tail + Halves(c) == tail + l + r;
    assert tail + l == if |left| > 1 then tail + [left] else tail;
    assert tail + l + r == if |right| > 1 then tail + l + [right] else tail + l;
  }

  lemma SingleOrNot(f: Split, c: seq<int>, i: int)
    ensures |c| <= 1 ==> Weight(f, c, i) == 1.0
  {
  }

  lemma DisjointParts(l: seq<int>, r: seq<int>, a: seq<int>)
    ensures Disjoint(l + r, a) ==> Disjoint(a, l) && Disjoint(a, r)
    ensures Disjoint(a, r) && Disjoint(l, r) ==> Disjoint(a + l, r)
  {
    assert forall j :: 0 <= j < |l| ==> (l + r)[j] == l[j];
    assert forall j :: 0 <= j < |r| ==> (l + r)[|l| + j] == r[j];
  }

  lemma UniqueDrops(l: seq<int>, r: seq<int>, a: seq<int>)
    requires Unique((l + r) + a)
    ensures Unique(a) && Unique(a + l) && Unique(a + r) && Unique((a + l) + r)
  {
    hide Unique, Disjoint;
    UniqueConcat(l + r, a);
    UniqueConcat(l, r);
    DisjointParts(l, r, a);
    UniqueConcat(a, l);
    UniqueConcat(a, r);
    UniqueConcat(a + l, r);
  }

  lemma FlatHalves(c: seq<int>, tail: seq<seq<int>>)
    requires Unique(c + Flat(tail))
    ensures Unique(Flat(tail + Halves(c)))
    ensures forall i :: i in Flat(tail + Halves(c)) ==> i in c || i in Flat(tail)
  {
    hide Unique, Flat;
    var left, right := c[..|c| / 2], c[|c| / 2..];
    assert c == left + right;
    UniqueDrops(left, right, Flat(tail));
    if |c| <= 1 {
      assert tail + Halves(c) == tail;
    } else {
      var l := if |left| > 1 then [left] else [];
      var r := if |right| > 1 then [right] else [];
      assert tail + Halves(c) == tail + l + r;
      FlatPart(tail, left, l);
      FlatPart(tail + l, right, r);
    }
  }

  lemma FlatPart(tail: seq<seq<int>>, part: seq<int>, kept: seq<seq<int>>)
    requires kept == [part] || kept == []
    ensures Flat(tail + kept) == if kept == [] then Flat(tail) else Flat(tail) + part
  {
    if kept == [] {
      assert tail + kept == tail;
    } else {
      FlatAppend(tail, part);
    }
  }

  lemma SplitOne(f: Split, order: seq<int>, weights: seq<real>, c: seq<int>, tail: seq<seq<int>>, weights': seq<real>)
    requires Allocated(f, order, weights, [c] + tail) && |weights'| == |weights|
    requires forall k :: 0 <= k < |order| ==> weights'[k] == weights[k] * Multiplier(f, c, order[k])
    ensures Allocated(f, order, weights', tail + Halves(c))
  {
    hide Weight, Factor, Multiplier, Halves;
    FlatFirst(c, tail);
    FlatHalves(c, tail);
    UniqueConcat(c, Flat(tail));
    forall k | 0 <= k < |order|
      ensures Pays(f, order, order[k], weights'[k], tail + Halves(c))
    {
      var i := order[k];
      DisjointMember(c, Flat(tail), i);
      FactorSplits(f, c, tail, i);
      assert Pays(f, order, i, weights[k], [c] + tail);
      FactorsAgree(weights[k], Multiplier(f, c, i), Factor(f, tail + Halves(c), i), weights'[k],
                   Factor(f, [c] + tail, i));
    }
    forall k | 0 <= k < |Flat(tail + Halves(c))|
      ensures Flat(tail + Halves(c))[k] in order
    {
      InOrder(order, c + Flat(tail), Flat(tail + Halves(c))[k]);
    }
  }

  lemma InOrder(order: seq<int>, s: seq<int>, i: int)
    requires i in s && forall k :: 0 <= k < |s| ==> s[k] in order
    ensures i in order
  {
  }

  /** The position of an asset in the order. */
  function IndexOf(order: seq<int>, i: int): (k: nat)
    requires i in order
    ensures k < |order| && order[k] == i
  {
    if order[0] == i then 0 else 1 + IndexOf(order[1..], i)
  }

  /** Multiply the weights of some assets. */
  method Scale(order: seq<int>, weights: array<real>, part: seq<int>, a: real)
    requires weights.Length == |order| && Unique(order) && Unique(part)
    requires forall k :: 0 <= k < |part| ==> part[k] in order
    modifies weights
    ensures forall k :: 0 <= k < |order| ==>
      weights[k] == if order[k] in part then old(weights[k]) * a else old(weights[k])
  {
    for j := 0 to |part|
      invariant forall k :: 0 <= k < |order| ==>
        weights[k] == if order[k] in part[..j] then old(weights[k]) * a else old(weights[k])
    {
      var p := IndexOf(order, part[j]);
      assert part[j] !in part[..j];
      weights[p] := weights[p] * a;
      assert part[..j + 1] == part[..j] + [part[j]];
    }
    assert part[..|part|] == part;
  }

  method ScaleHalves(order: seq<int>, weights: array<real>, left: seq<int>, right: seq<int>, a: real)
    requires weights.Length == |order| && Unique(order) && Unique(left) && Unique(right)
    requires forall k :: 0 <= k < |left| ==> left[k] in order
    requires forall k :: 0 <= k < |right| ==> right[k] in order
    modifies weights
    ensures HalvesScaled(order, old(weights[..]), weights[..], left, right, a)
  {
    hide Unique;
    Scale(order, weights, left, a);
    Scale(order, weights, right, 1.0 - a);
  }

  /** Split one cluster's capital between its halves. */
  method SplitCluster(cov: (int, int) -> real, order: seq<int>, weights: array<real>, c: seq<int>,
                      ghost tail: seq<seq<int>>)
    requires |c| > 1 && Allocated(ByVariance(cov), order, weights[..], [c] + tail)
    modifies weights
    ensures Allocated(ByVariance(cov), order, weights[..], tail + Halves(c))
  {
    hide Allocated, LeftFraction, ByVariance, Multiplier, Unique, HalvesScaled;
    ghost var before := weights[..];
    ClusterIsClean(ByVariance(cov), order, before, c, tail);
    var left, right := c[..|c| / 2], c[|c| / 2..];
    var a := LeftFraction(cov, left, right);
    ScaleHalves(order, weights, left, right, a);
    FractionIs(cov, left, right);
    HalvesMultiply(ByVariance(cov), order, before, weights[..], c, a);
    SplitOne(ByVariance(cov), order, before, c, tail, weights[..]);
  }

  lemma ClusterIsClean(f: Split, order: seq<int>, weights: seq<real>, c: seq<int>, tail: seq<seq<int>>)
    requires Allocated(f, order, weights, [c] + tail)
    ensures |weights| == |order| && Unique(order) && Unique(c)
    ensures Unique(c[..|c| / 2]) && Unique(c[|c| / 2..])
    ensures forall k :: 0 <= k < |c| / 2 ==> c[..|c| / 2][k] in order
    ensures forall k :: 0 <= k < |c[|c| / 2..]| ==> c[|c| / 2..][k] in order
  {
    AllocatedIsClean(f, order, weights, [c] + tail);
    FlatFirst(c, tail);
    hide Allocated, Unique, Flat;
    UniqueConcat(c, Flat(tail));
    assert forall k :: 0 <= k < |c| ==> c[k] == (c + Flat(tail))[k];
    assert c == c[..|c| / 2] + c[|c| / 2..];
    UniqueConcat(c[..|c| / 2], c[|c| / 2..]);
  }

  lemma AllocatedIsClean(f: Split, order: seq<int>, weights: seq<real>, pending: seq<seq<int>>)
    requires Allocated(f, order, weights, pending)
    ensures |weights| == |order| && Unique(order) && Unique(Flat(pending))
    ensures forall k :: 0 <= k < |Flat(pending)| ==> Flat(pending)[k] in order
  {
  }

  function InTurn(w: real, a: real, inLeft: bool, inRight: bool): real {
    var v := if inLeft then w * a else w;
    if inRight then v * (1.0 - a) else v
  }

  ghost predicate HalvesScaled(order: seq<int>, before: seq<real>, after: seq<real>, left: seq<int>, right: seq<int>,
                               a: real)
    requires |before| == |after| == |order|
  {
    forall k :: 0 <= k < |order| ==>
      after[k] == InTurn(before[k], a, order[k] in left, order[k] in right)
  }

  lemma HalvesMultiply(f: Split, order: seq<int>, before: seq<real>, after: seq<real>, c: seq<int>, a: real)
    requires |c| > 1 && Unique(c) && |before| == |after| == |order|
    requires a == f(c[..|c| / 2], c[|c| / 2..])
    requires HalvesScaled(order, before, after, c[..|c| / 2], c[|c| / 2..], a)
    ensures forall k :: 0 <= k < |order| ==> after[k] == before[k] * Multiplier(f, c, order[k])
  {
    var left, right := c[..|c| / 2], c[|c| / 2..];
    assert c == left + right;
    UniqueConcat(left, right);
    forall k | 0 <= k < |order|
      ensures after[k] == before[k] * Multiplier(f, c, order[k])
    {
      DisjointMember(left, right, order[k]);
    }
  }

  lemma FractionIs(cov: (int, int) -> real, left: seq<int>, right: seq<int>)
    ensures ByVariance(cov)(left, right) == LeftFraction(cov, left, right)
  {
  }

  function Total(s: seq<real>): real {
    Sum(|s|, k => if 0 <= k < |s| then s[k] else 0.0)
  }

  /** Every position holds the capital of the asset at that place in the order, and all capital is allocated. */
  ghost predicate IsAllocation(cov: (int, int) -> real, order: seq<int>, weights: seq<real>) {
    && |weights| == |order|
    && (forall k :: 0 <= k < |order| ==> weights[k] == Weight(ByVariance(cov), order, order[k]))
    && (order != [] ==> Total(weights) == 1.0)
  }

  lemma AllPaid(cov: (int, int) -> real, order: seq<int>, weights: seq<real>)
    requires Allocated(ByVariance(cov), order, weights, [])
    ensures IsAllocation(cov, order, weights)
  {
    var f := ByVariance(cov);
    forall k | 0 <= k < |order|
      ensures weights[k] == Weight(f, order, order[k])
    {
      hide Weight;
      assert Pays(f, order, order[k], weights[k], []);
    }
    if order != [] {
      hide Weight;
      WeightsSumToOne(f, order);
      SumCong(|order|, k => if 0 <= k < |weights| then weights[k] else 0.0, k => Weight(f, order, Asset(order, k)));
    }
  }

  lemma NothingPaid(f: Split, order: seq<int>, weights: seq<real>)
    requires Unique(order) && |weights| == |order| && forall k :: 0 <= k < |order| ==> weights[k] == 1.0
    ensures Allocated(f, order, weights, [order])
  {
    hide Weight;
    assert [order] == [] + [order];
    FlatAppend([], order);
    forall k | 0 <= k < |order|
      ensures Pays(f, order, order[k], weights[k], [order])
    {
      FactorAppend(f, [], order, order[k]);
    }
  }

  /** One cluster off the list. */
  method Step(cov: (int, int) -> real, order: seq<int>, weights: array<real>, c: seq<int>,
              ghost rest: seq<seq<int>>, newClusters: seq<seq<int>>) returns (result: seq<seq<int>>)
    requires Allocated(ByVariance(cov), order, weights[..], [c] + rest + newClusters)
    modifies weights
    ensures result == newClusters + Halves(c)
    ensures Allocated(ByVariance(cov), order, weights[..], rest + result)
  {
    hide Allocated;
    ghost var tail := rest + newClusters;
    assert [c] + rest + newClusters == [c] + tail;
    if |c| <= 1 {
      assert rest + newClusters == tail + Halves(c);
      Dropped(ByVariance(cov), order, weights[..], c, tail);
      return newClusters;
    }
    SplitCluster(cov, order, weights, c, tail);
    var left, right := c[..|c| / 2], c[|c| / 2..];
    result := newClusters;
    if |left| > 1 {
      result := result + [left];
    }
    if |right| > 1 {
      result := result + [right];
    }
    assert tail + Halves(c) == rest + result;
  }

  lemma Dropped(f: Split, order: seq<int>, weights: seq<real>, c: seq<int>, tail: seq<seq<int>>)
    requires |c| <= 1 && Allocated(f, order, weights, [c] + tail)
    ensures Allocated(f, order, weights, tail + Halves(c))
  {
    SplitOne(f, order, weights, c, tail, weights);
  }

  ghost predicate NoLonger(clusters: seq<seq<int>>, bound: int) {
    forall k :: 0 <= k < |clusters| ==> |clusters[k]| <= bound
  }

  method Bisect(cov: (int, int) -> real, order: seq<int>) returns (weights: array<real>)
    requires Unique(order)
    ensures IsAllocation(cov, order, weights[..])
  {
    hide Allocated, IsAllocation;
    weights := new real[|order|](_ => 1.0);
    var clusters := [order];
    ghost var bound := |order|;
    NothingPaid(ByVariance(cov), order, weights[..]);
    while clusters != []
      invariant Allocated(ByVariance(cov), order, weights[..], clusters)
      invariant bound >= 0 && NoLonger(clusters, bound)
      decreases bound
    {
      var newClusters := [];
      assert clusters[0..] + newClusters == clusters;
      for k := 0 to |clusters|
        invariant Allocated(ByVariance(cov), order, weights[..], clusters[k..] + newClusters)
        invariant NoLonger(newClusters, bound - 1) && (newClusters != [] ==> bound > 1)
      {
        assert clusters[k..] == [clusters[k]] + clusters[k + 1..];
        newClusters := Step(cov, order, weights, clusters[k], clusters[k + 1..], newClusters);
      }
      assert clusters[|clusters|..] + newClusters == newClusters;
      clusters := newClusters;
      bound := if newClusters == [] then bound else bound - 1;
      if newClusters == [] {
        break;
      }
    }
    AllPaid(cov, order, weights[..]);
  }

  /** With a positive semidefinite covariance the allocation has no short positions and no leverage. */
  lemma AllocationInUnit(cov: (int, int) -> real, order: seq<int>, weights: seq<real>)
    requires Psd(cov) && IsAllocation(cov, order, weights)
    ensures forall k :: 0 <= k < |weights| ==> 0.0 <= weights[k] <= 1.0
  {
    hide Weight, LeftFraction;
    forall l, r
      ensures 0.0 <= ByVariance(cov)(l, r) <= 1.0
    {
      FractionInUnit(cov, l, r);
      FractionIs(cov, l, r);
    }
    forall k | 0 <= k < |weights|
      ensures 0.0 <= weights[k] <= 1.0
    {
      WeightInUnit(ByVariance(cov), order, order[k]);
    }
  }
}
