/** Sums over all n^len state paths of a given length, as nested sums over their states. */
module PathSums {
  import opened Sums

  predicate InRange(n: nat, p: seq<int>) {
    forall k :: 0 <= k < |p| ==> 0 <= p[k] < n
  }

  /** The sum of f(p + tail) over all paths p of length len. */
  ghost function SumPaths(n: nat, len: nat, tail: seq<int>, f: seq<int> -> real): real {
    if len == 0 then f(tail) else Sum(n, j => SumPaths(n, len - 1, [j] + tail, f))
  }

  lemma {:induction false} SumPathsCong(n: nat, len: nat, tail: seq<int>, f: seq<int> -> real, g: seq<int> -> real)
    requires InRange(n, tail)
    requires forall p :: |p| == len + |tail| && InRange(n, p) ==> f(p) == g(p)
    ensures SumPaths(n, len, tail, f) == SumPaths(n, len, tail, g)
  {
    if len > 0 {
      forall j | 0 <= j < n
        ensures SumPaths(n, len - 1, [j] + tail, f) == SumPaths(n, len - 1, [j] + tail, g)
      {
        SumPathsCong(n, len - 1, [j] + tail, f, g);
      }
      SumCong(n, j => SumPaths(n, len - 1, [j] + tail, f), j => SumPaths(n, len - 1, [j] + tail, g));
    }
  }

  lemma {:induction false} SumPathsScale(n: nat, len: nat, tail: seq<int>, a: real, f: seq<int> -> real)
    ensures SumPaths(n, len, tail, p => a * f(p)) == a * SumPaths(n, len, tail, f)
  {
    if len > 0 {
      var af := p => a * f(p);
      var inner := j => SumPaths(n, len - 1, [j] + tail, f);
      forall j | 0 <= j < n
        ensures SumPaths(n, len - 1, [j] + tail, af) == a * inner(j)
      {
        SumPathsScale(n, len - 1, [j] + tail, a, f);
      }
      SumCong(n, j => SumPaths(n, len - 1, [j] + tail, af), j => a * inner(j));
      SumScale(n, a, inner);
    }
  }

  lemma {:induction false} SumPathsZero(n: nat, len: nat, tail: seq<int>, f: seq<int> -> real)
    requires forall p :: |p| == len + |tail| && p[len..] == tail ==> f(p) == 0.0
    ensures SumPaths(n, len, tail, f) == 0.0
  {
    if len > 0 {
      forall j | 0 <= j < n
        ensures SumPaths(n, len - 1, [j] + tail, f) == 0.0
      {
        forall p | |p| == len + |tail| && p[len - 1..] == [j] + tail
          ensures f(p) == 0.0
        {
          assert p[len..] == p[len - 1..][1..] == tail;
        }
        SumPathsZero(n, len - 1, [j] + tail, f);
      }
      SumZero(n, j => SumPaths(n, len - 1, [j] + tail, f));
    }
  }

  lemma {:induction false} SumPathsSwap(n: nat, len: nat, tail: seq<int>, m: nat, f: (seq<int>, int) -> real)
    ensures SumPaths(n, len, tail, p => Sum(m, k => f(p, k))) == Sum(m, k => SumPaths(n, len, tail, p => f(p, k)))
  {
    if len == 0 {
      SumCong(m, k => f(tail, k), k => SumPaths(n, len, tail, p => f(p, k)));
    } else {
      var total := p => Sum(m, k => f(p, k));
      var cell := (j: int, k: int) => SumPaths(n, len - 1, [j] + tail, p => f(p, k));
      forall j | 0 <= j < n
        ensures SumPaths(n, len - 1, [j] + tail, total) == Sum(m, k => cell(j, k))
      {
        SumPathsSwap(n, len - 1, [j] + tail, m, f);
        SumCong(m, k => SumPaths(n, len - 1, [j] + tail, p => f(p, k)), k => cell(j, k));
      }
      SumCong(n, j => SumPaths(n, len - 1, [j] + tail, total), j => Sum(m, k => cell(j, k)));
      SumSwap(n, m, cell);
      var column := k => SumPaths(n, len, tail, p => f(p, k));
      forall k | 0 <= k < m
        ensures Sum(n, j => cell(j, k)) == column(k)
      {
        var fk := p => f(p, k);
        SumCong(n, j => cell(j, k), j => SumPaths(n, len - 1, [j] + tail, fk));
      }
      SumCong(m, k => Sum(n, j => cell(j, k)), column);
    }
  }

  /** A tail can be moved from the sum into the summand. */
  lemma {:induction false} SumPathsShift(n: nat, len: nat, front: seq<int>, back: seq<int>, f: seq<int> -> real)
    ensures SumPaths(n, len, front + back, f) == SumPaths(n, len, front, p => f(p + back))
  {
    if len > 0 {
      var g := p => f(p + back);
      forall j | 0 <= j < n
        ensures SumPaths(n, len - 1, [j] + (front + back), f) == SumPaths(n, len - 1, [j] + front, g)
      {
        SumPathsShift(n, len - 1, [j] + front, back, f);
        assert [j] + (front + back) == ([j] + front) + back;
      }
      SumCong(n, j => SumPaths(n, len - 1, [j] + (front + back), f), j => SumPaths(n, len - 1, [j] + front, g));
    }
  }

  /** A sum over paths of length len + 1, by their last state. */
  lemma SumPathsByLast(n: nat, len: nat, f: seq<int> -> real)
    ensures SumPaths(n, len + 1, [], f) == Sum(n, j => SumPaths(n, len, [], p => f(p + [j])))
  {
    forall j | 0 <= j < n
      ensures SumPaths(n, len, [j] + [], f) == SumPaths(n, len, [], p => f(p + [j]))
    {
      SumPathsShift(n, len, [], [j], f);
      assert [] + [j] == [j] + [];
    }
    SumCong(n, j => SumPaths(n, len, [j] + [], f), j => SumPaths(n, len, [], p => f(p + [j])));
  }

  /** A sum over paths of length len + 1 in which only the last state j counts. */
  lemma SumPathsPick(n: nat, len: nat, j: nat, w: real, f: seq<int> -> real, h: seq<int> -> real)
    requires j < n
    requires forall p {:trigger f(p + [j])} :: |p| == len ==> f(p + [j]) == w * h(p)
    requires forall p, k {:trigger f(p + [k])} :: |p| == len && k != j ==> f(p + [k]) == 0.0
    ensures SumPaths(n, len + 1, [], f) == w * SumPaths(n, len, [], h)
  {
    hide SumPaths;
    SumPathsByLast(n, len, f);
    var byLast := k => SumPaths(n, len, [], p => f(p + [k]));
    forall k | 0 <= k < n && k != j
      ensures byLast(k) == 0.0
    {
      SumPathsZero(n, len, [], p => f(p + [k]));
    }
    SumPick(n, j, byLast);
    SumPathsCong(n, len, [], p => f(p + [j]), p => w * h(p));
    SumPathsScale(n, len, [], w, h);
  }
}
