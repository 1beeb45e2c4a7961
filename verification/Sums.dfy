/** Finite sums of reals over an index range, and the few laws the models need. */
module Sums {

  function Sum(n: nat, f: int -> real): real {
    if n == 0 then 0.0 else Sum(n - 1, f) + f(n - 1)
  }

  lemma {:induction false} SumCong(n: nat, f: int -> real, g: int -> real)
    requires forall i :: 0 <= i < n ==> f(i) == g(i)
    ensures Sum(n, f) == Sum(n, g)
  {
    if n > 0 {
      SumCong(n - 1, f, g);
    }
  }

  lemma {:induction false} SumScale(n: nat, a: real, f: int -> real)
    ensures Sum(n, i => a * f(i)) == a * Sum(n, f)
  {
    if n > 0 {
      SumScale(n - 1, a, f);
      assert a * (Sum(n - 1, f) + f(n - 1)) == a * Sum(n - 1, f) + a * f(n - 1);
    }
  }

  lemma ScaledSum(n: nat, a: real, f: int -> real, h: int -> real)
    requires forall k :: 0 <= k < n ==> f(k) == a * h(k)
    ensures Sum(n, f) == a * Sum(n, h)
  {
    SumScale(n, a, h);
    SumCong(n, f, k => a * h(k));
  }

  lemma {:induction false} SumAdd(n: nat, f: int -> real, g: int -> real)
    ensures Sum(n, i => f(i) + g(i)) == Sum(n, f) + Sum(n, g)
  {
    if n > 0 {
      SumAdd(n - 1, f, g);
    }
  }

  lemma {:induction false} SumZero(n: nat, f: int -> real)
    requires forall i :: 0 <= i < n ==> f(i) == 0.0
    ensures Sum(n, f) == 0.0
  {
    if n > 0 {
      SumZero(n - 1, f);
    }
  }

  lemma {:induction false} SumSwap(n: nat, m: nat, f: (int, int) -> real)
    ensures Sum(n, i => Sum(m, j => f(i, j))) == Sum(m, j => Sum(n, i => f(i, j)))
  {
    if n == 0 {
      SumZero(m, j => Sum(n, i => f(i, j)));
    } else {
      var row := j => f(n - 1, j);
      var rest := j => Sum(n - 1, i => f(i, j));
      SumSwap(n - 1, m, f);
      SumAdd(m, rest, row);
      SumCong(m, j => Sum(n, i => f(i, j)), j => rest(j) + row(j));
      SumCong(m, j => f(n - 1, j), row);
      SumCong(m, rest, j => Sum(n - 1, i => f(i, j)));
      SumCong(n - 1, i => Sum(m, j => f(i, j)), i => Sum(m, j => f(i, j)));
      assert Sum(n, i => Sum(m, j => f(i, j))) == Sum(n - 1, i => Sum(m, j => f(i, j))) + Sum(m, j => f(n - 1, j));
    }
  }

  lemma {:induction false} SumMono(n: nat, f: int -> real, g: int -> real)
    requires forall i :: 0 <= i < n ==> f(i) <= g(i)
    ensures Sum(n, f) <= Sum(n, g)
  {
    if n > 0 {
      SumMono(n - 1, f, g);
    }
  }

  lemma {:induction false} SumNonneg(n: nat, f: int -> real)
    requires forall i :: 0 <= i < n ==> f(i) >= 0.0
    ensures Sum(n, f) >= 0.0
    ensures forall i :: 0 <= i < n ==> f(i) <= Sum(n, f)
  {
    if n > 0 {
      SumNonneg(n - 1, f);
    }
  }

  lemma {:induction false} SumPick(n: nat, k: nat, f: int -> real)
    requires forall i :: 0 <= i < n && i != k ==> f(i) == 0.0
    ensures Sum(n, f) == if k < n then f(k) else 0.0
  {
    if n > 0 {
      SumPick(n - 1, k, f);
    }
  }
}
