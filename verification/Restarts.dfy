/** What the scaled passes give for observations that no path can produce: the row of alpha that would be all zeros
    is replaced by a uniform one, and everything before the last such restart gets no posterior weight. */
module Restarts {
  import opened Reals
  import opened ScaledPasses
  import opened Sums

  function Dot(n: nat, a: seq<real>, b: seq<real>): real {
    Sum(n, i => At(a, i) * At(b, i))
  }

  /** At time t the row of alpha was all zeros and has been replaced. */
  ghost predicate Restart(m: Hmm, alpha: seq<seq<real>>, t: nat)
    requires t < |alpha|
  {
    Total(RawRow(m, t, Before(alpha, t))) == 0.0
  }

  /** No restart comes after time t. */
  ghost predicate Settled(m: Hmm, alpha: seq<seq<real>>, t: nat)
    decreases |alpha| - t
  {
    t + 1 >= |alpha| || (!Restart(m, alpha, t + 1) && Settled(m, alpha, t + 1))
  }

  lemma CellOf(a: real, k: real, b: real)
    ensures a * (k * b) == (a * k) * b && b * (a * k) == (a * k) * b
  {
  }

  lemma Bilinear(n: nat, a: int -> real, k: (int, int) -> real, b: int -> real,
                 pulled: int -> real, pushed: int -> real)
    requires forall i :: 0 <= i < n ==> pulled(i) == Sum(n, j => k(i, j) * b(j))
    requires forall j :: 0 <= j < n ==> pushed(j) == Sum(n, i => a(i) * k(i, j))
    ensures Sum(n, i => a(i) * pulled(i)) == Sum(n, j => pushed(j) * b(j))
  {
    hide Sum;
    var cell := (i, j) => (a(i) * k(i, j)) * b(j);
    forall i | 0 <= i < n
      ensures a(i) * pulled(i) == Sum(n, j => cell(i, j))
    {
      forall j
        ensures cell(i, j) == a(i) * (k(i, j) * b(j))
      {
        CellOf(a(i), k(i, j), b(j));
      }
      ScaledSum(n, a(i), j => cell(i, j), j => k(i, j) * b(j));
    }
    SumCong(n, i => a(i) * pulled(i), i => Sum(n, j => cell(i, j)));
    SumSwap(n, n, cell);
    forall j | 0 <= j < n
      ensures pushed(j) * b(j) == Sum(n, i => cell(i, j))
    {
      forall i
        ensures cell(i, j) == b(j) * (a(i) * k(i, j))
      {
        CellOf(a(i), k(i, j), b(j));
      }
      ScaledSum(n, b(j), i => cell(i, j), i => a(i) * k(i, j));
    }
    SumCong(n, j => pushed(j) * b(j), j => Sum(n, i => cell(i, j)));
  }

  lemma PushedIs(m: Hmm, t: nat, a: seq<real>, j: int)
    requires t > 0
    ensures Pushed(m, t, a, j) == Sum(m.n, i => At(a, i) * (m.trans(i, j) * m.dens(t, j)))
  {
    hide Sum, At;
    var d := m.dens(t, j);
    forall i
      ensures At(a, i) * (m.trans(i, j) * d) == d * (At(a, i) * m.trans(i, j))
    {
      CellOf(At(a, i), m.trans(i, j), d);
    }
    ScaledSum(m.n, d, i => At(a, i) * (m.trans(i, j) * m.dens(t, j)), i => At(a, i) * m.trans(i, j));
  }

  /** Weighing what is pulled back by alpha is weighing what is pushed forward by beta. */
  lemma PullsArePushes(m: Hmm, t: nat, a: seq<real>, next: seq<real>)
    ensures Sum(m.n, i => At(a, i) * Pulled(m, t, next, i)) == Sum(m.n, j => Pushed(m, t + 1, a, j) * At(next, j))
  {
    hide Sum, At, Pushed;
    var w, k, b := i => At(a, i), (i, j) => m.trans(i, j) * m.dens(t + 1, j), j => At(next, j);
    var pulled, pushed := i => Pulled(m, t, next, i), j => Pushed(m, t + 1, a, j);
    forall i | 0 <= i < m.n
      ensures pulled(i) == Sum(m.n, j => k(i, j) * b(j))
    {
      SumCong(m.n, j => m.trans(i, j) * m.dens(t + 1, j) * At(next, j), j => k(i, j) * b(j));
    }
    forall j | 0 <= j < m.n
      ensures pushed(j) == Sum(m.n, i => w(i) * k(i, j))
    {
      PushedIs(m, t + 1, a, j);
      SumCong(m.n, i => At(a, i) * (m.trans(i, j) * m.dens(t + 1, j)), i => w(i) * k(i, j));
    }
    Bilinear(m.n, w, k, b, pulled, pushed);
    SumCong(m.n, i => At(a, i) * Pulled(m, t, next, i), i => w(i) * pulled(i));
    SumCong(m.n, j => Pushed(m, t + 1, a, j) * At(next, j), j => pushed(j) * b(j));
  }

  /** The tables of a whole run of the two passes. */
  ghost predicate ArePasses(m: Hmm, alpha: seq<seq<real>>, beta: seq<seq<real>>, c: seq<real>) {
    Valid(m) && |c| == m.t && IsForward(m, alpha, c) && IsBackward(m, beta, c, 0)
  }

  lemma RowOfPasses(m: Hmm, alpha: seq<seq<real>>, beta: seq<seq<real>>, c: seq<real>, t: nat)
    requires ArePasses(m, alpha, beta, c) && t < m.t
    ensures |alpha| == |beta| == m.t && |alpha[t]| == |beta[t]| == m.n && c[t] > 0.0
    ensures Nonneg(alpha[t]) && Total(alpha[t]) == 1.0
    ensures t == m.t - 1 ==> forall i :: 0 <= i < m.n ==> beta[t][i] == 1.0
  {
    hide Unscaled, Total, Prod, IsStep, IsStepBack;
    assert ForwardAt(m, alpha, c, t);
    assert BackwardAt(m, beta, c, t);
  }

  /** A restart forgets everything: all states are alike after it, and it leaves the constants' product as it was. */
  lemma RestartForgets(m: Hmm, alpha: seq<seq<real>>, beta: seq<seq<real>>, c: seq<real>, t: nat)
    requires ArePasses(m, alpha, beta, c) && t < m.t && |alpha| == m.t && Restart(m, alpha, t)
    ensures |alpha[t]| == m.n && c[t] == 1.0
    ensures forall i, j :: 0 <= i < m.n && 0 <= j < m.n ==> alpha[t][i] == alpha[t][j]
  {
    hide Total, Prod, IsForwardRow, RawRow;
    assert ForwardAt(m, alpha, c, t);
    RowOfPasses(m, alpha, beta, c, t);
    assert |RawRow(m, t, Before(alpha, t))| == |alpha[t]|;
  }

  /** One step of both passes: alpha[t + 1] from alpha[t], and beta[t] from beta[t + 1]. */
  lemma StepOfPasses(m: Hmm, alpha: seq<seq<real>>, beta: seq<seq<real>>, c: seq<real>, t: nat)
    requires ArePasses(m, alpha, beta, c) && t + 1 < m.t
    ensures |alpha| == |beta| == m.t && Before(alpha, t + 1) == alpha[t]
    ensures IsNormalised(RawRow(m, t + 1, alpha[t]), alpha[t + 1], c[t + 1])
    ensures IsStepBack(m, t, beta[t], beta[t + 1], c[t + 1])
  {
    hide IsForwardRow, IsBackwardRow, Prod, IsNormalised, IsStepBack;
    assert ForwardAt(m, alpha, c, t + 1);
    assert BackwardAt(m, beta, c, t);
  }

  lemma PushedTotal(m: Hmm, t: nat, prev: seq<real>)
    requires Valid(m) && 0 < t < m.t && |prev| == m.n && Nonneg(prev)
    ensures Total(RawRow(m, t, prev)) >= 0.0
    ensures Total(RawRow(m, t, prev)) == 0.0 ==> forall j :: 0 <= j < m.n ==> Pushed(m, t, prev, j) == 0.0
  {
    hide Pushed;
    var raw := RawRow(m, t, prev);
    NextRowNonneg(m, t, prev, raw);
    var f := i => At(raw, i);
    SumNonneg(m.n, f);
    assert Total(raw) == Sum(m.n, f);
    forall j | 0 <= j < m.n
      ensures Total(raw) == 0.0 ==> Pushed(m, t, prev, j) == 0.0
    {
      assert raw[j] == Pushed(m, t, prev, j) && raw[j] >= 0.0;
      assert f(j) <= Sum(m.n, f);
    }
  }

  lemma ScaledDot(n: nat, c: real, a: seq<real>, b: seq<real>, p: int -> real)
    requires |b| == n && forall i :: 0 <= i < n ==> Times(c, b[i]) == p(i)
    ensures c * Dot(n, a, b) == Sum(n, i => At(a, i) * p(i))
    ensures c * Dot(n, a, b) == Sum(n, i => p(i) * At(a, i))
  {
    hide Sum;
    var f := i => At(a, i) * At(b, i);
    forall i | 0 <= i < n
      ensures At(a, i) * p(i) == c * f(i)
    {
      assert p(i) == c * b[i];
      Reorder(At(a, i), b[i], c);
    }
    ScaledSum(n, c, i => At(a, i) * p(i), f);
    SumCong(n, f, i => At(a, i) * At(b, i));
    SumCong(n, i => At(a, i) * p(i), i => p(i) * At(a, i));
  }

  lemma PulledDot(m: Hmm, t: nat, a: seq<real>, b: seq<real>, next: seq<real>, c: real)
    requires IsStepBack(m, t, b, next, c)
    ensures Times(c, Dot(m.n, a, b)) == Sum(m.n, j => Pushed(m, t + 1, a, j) * At(next, j))
  {
    hide Sum, Dot, Pushed, Pulled;
    var p := i => Pulled(m, t, next, i);
    ScaledDot(m.n, c, a, b, p);
    SumCong(m.n, i => At(a, i) * p(i), i => At(a, i) * Pulled(m, t, next, i));
    PullsArePushes(m, t, a, next);
  }

  lemma NothingPushed(m: Hmm, t: nat, a: seq<real>, next: seq<real>)
    requires forall j :: 0 <= j < m.n ==> Pushed(m, t, a, j) == 0.0
    ensures Sum(m.n, j => Pushed(m, t, a, j) * At(next, j)) == 0.0
  {
    hide Pushed, At;
    SumZero(m.n, j => Pushed(m, t, a, j) * At(next, j));
  }

  lemma SharesPushed(m: Hmm, t: nat, a: seq<real>, row: seq<real>, next: seq<real>, c: real)
    requires |row| == m.n && forall j :: 0 <= j < m.n ==> Times(c, row[j]) == Pushed(m, t, a, j)
    ensures Sum(m.n, j => Pushed(m, t, a, j) * At(next, j)) == Times(c, Dot(m.n, row, next))
  {
    hide Sum, Pushed, Dot, At;
    var p := j => Pushed(m, t, a, j);
    ScaledDot(m.n, c, next, row, p);
    SumCong(m.n, j => p(j) * At(next, j), j => Pushed(m, t, a, j) * At(next, j));
    DotCommutes(m.n, row, next);
  }

  lemma NormalisedShares(m: Hmm, t: nat, a: seq<real>, row: seq<real>, c: real)
    requires IsNormalised(RawRow(m, t, a), row, c) && Total(RawRow(m, t, a)) > 0.0
    ensures |row| == m.n && forall j :: 0 <= j < m.n ==> Times(c, row[j]) == Pushed(m, t, a, j)
  {
    hide Total, Pushed;
    forall j | 0 <= j < m.n
      ensures |row| == m.n && Times(c, row[j]) == Pushed(m, t, a, j)
    {
      assert RawRow(m, t, a)[j] == Pushed(m, t, a, j);
    }
  }

  lemma PushedDot(m: Hmm, t: nat, a: seq<real>, row: seq<real>, next: seq<real>, c: real)
    requires Valid(m) && t + 1 < m.t && |a| == m.n && Nonneg(a) && IsNormalised(RawRow(m, t + 1, a), row, c)
    ensures Sum(m.n, j => Pushed(m, t + 1, a, j) * At(next, j))
         == if Total(RawRow(m, t + 1, a)) == 0.0 then 0.0 else Times(c, Dot(m.n, row, next))
  {
    hide Sum, Pushed, Times, Dot, At, Total, RawRow, IsNormalised;
    PushedTotal(m, t + 1, a);
    if Total(RawRow(m, t + 1, a)) == 0.0 {
      NothingPushed(m, t + 1, a, next);
    } else {
      NormalisedShares(m, t + 1, a, row, c);
      SharesPushed(m, t + 1, a, row, next, c);
    }
  }

  lemma DotCommutes(n: nat, a: seq<real>, b: seq<real>)
    ensures Dot(n, a, b) == Dot(n, b, a)
  {
    SumCong(n, i => At(a, i) * At(b, i), i => At(b, i) * At(a, i));
  }

  lemma CancelUnless(c: real, x: real, y: real, zero: bool)
    requires c > 0.0 && Times(c, x) == if zero then 0.0 else Times(c, y)
    ensures x == if zero then 0.0 else y
  {
    SameFactor(c, x, if zero then 0.0 else y);
  }

  lemma PassesAreValid(m: Hmm, alpha: seq<seq<real>>, beta: seq<seq<real>>, c: seq<real>)
    requires ArePasses(m, alpha, beta, c)
    ensures Valid(m)
  {
    hide IsForward, IsBackward;
  }

  /** Step by step backwards, alpha and beta keep their product, except that it vanishes before a restart. */
  lemma Carry(m: Hmm, alpha: seq<seq<real>>, beta: seq<seq<real>>, c: seq<real>, t: nat)
    requires ArePasses(m, alpha, beta, c) && t + 1 < m.t
    ensures |alpha| == |beta| == m.t
    ensures Dot(m.n, alpha[t], beta[t])
         == if Restart(m, alpha, t + 1) then 0.0 else Dot(m.n, alpha[t + 1], beta[t + 1])
  {
    RowOfPasses(m, alpha, beta, c, t);
    RowOfPasses(m, alpha, beta, c, t + 1);
    StepOfPasses(m, alpha, beta, c, t);
    hide ArePasses, Dot, Pushed, Total, Nonneg, RawRow, Sum, At, Times, IsNormalised, IsStepBack, Valid;
    assert Valid(m) by {
      PassesAreValid(m, alpha, beta, c);
    }
    PulledDot(m, t, alpha[t], beta[t], beta[t + 1], c[t + 1]);
    PushedDot(m, t, alpha[t], alpha[t + 1], beta[t + 1], c[t + 1]);
    CancelUnless(c[t + 1], Dot(m.n, alpha[t], beta[t]), Dot(m.n, alpha[t + 1], beta[t + 1]), Restart(m, alpha, t + 1));
  }

  /** At every time, whatever the observations, alpha and beta multiply to 1, or to 0 before the last restart. */
  lemma {:induction false} DotOfPasses(m: Hmm, alpha: seq<seq<real>>, beta: seq<seq<real>>, c: seq<real>, t: nat)
    requires ArePasses(m, alpha, beta, c) && t < m.t
    ensures |alpha| == |beta| == m.t
    ensures Dot(m.n, alpha[t], beta[t]) == if Settled(m, alpha, t) then 1.0 else 0.0
    decreases m.t - t
  {
    RowOfPasses(m, alpha, beta, c, t);
    hide ArePasses, Restart;
    if t + 1 < m.t {
      Carry(m, alpha, beta, c, t);
      DotOfPasses(m, alpha, beta, c, t + 1);
    } else {
      SumCong(m.n, i => At(alpha[t], i) * At(beta[t], i), i => At(alpha[t], i));
    }
  }

  lemma PulledNonneg(m: Hmm, t: nat, next: seq<real>, i: nat)
    requires Valid(m) && t + 1 < m.t && i < m.n && Nonneg(next)
    ensures Pulled(m, t, next, i) >= 0.0
  {
    forall j | 0 <= j < m.n
      ensures m.trans(i, j) * m.dens(t + 1, j) * At(next, j) >= 0.0
    {
      ProductNonneg(m.trans(i, j), m.dens(t + 1, j));
      ProductNonneg(m.trans(i, j) * m.dens(t + 1, j), At(next, j));
    }
    SumNonneg(m.n, j => m.trans(i, j) * m.dens(t + 1, j) * At(next, j));
  }

  lemma {:induction false} BetaNonneg(m: Hmm, alpha: seq<seq<real>>, beta: seq<seq<real>>, c: seq<real>, t: nat)
    requires ArePasses(m, alpha, beta, c) && t < m.t
    ensures |beta| == m.t && Nonneg(beta[t])
    decreases m.t - t
  {
    RowOfPasses(m, alpha, beta, c, t);
    if t + 1 < m.t {
      BetaNonneg(m, alpha, beta, c, t + 1);
      StepOfPasses(m, alpha, beta, c, t);
      RowOfPasses(m, alpha, beta, c, t + 1);
      PassesAreValid(m, alpha, beta, c);
      hide ArePasses, Pulled, IsNormalised;
      forall i: nat | i < m.n
        ensures beta[t][i] >= 0.0
      {
        PulledNonneg(m, t, beta[t + 1], i);
        assert Times(c[t + 1], beta[t][i]) == Pulled(m, t, beta[t + 1], i);
        FactorNonneg(c[t + 1], beta[t][i]);
      }
    }
  }

  // gamma.

  function Products(a: seq<real>, b: seq<real>): seq<real> {
    seq(|a|, i => At(a, i) * At(b, i))
  }

  /** A row over its total; all zeros stay so. */
  ghost predicate IsShare(raw: seq<real>, row: seq<real>) {
    && |row| == |raw|
    && (Total(raw) == 0.0 ==> row == raw)
    && (Total(raw) != 0.0 ==> forall i :: 0 <= i < |raw| ==> Times(Total(raw), row[i]) == raw[i])
  }

  lemma ProductsTotal(n: nat, a: seq<real>, b: seq<real>)
    requires |a| == n
    ensures Total(Products(a, b)) == Dot(n, a, b)
  {
    SumCong(n, i => At(Products(a, b), i), i => At(a, i) * At(b, i));
  }

  lemma ProductsNonneg(a: seq<real>, b: seq<real>)
    requires Nonneg(a) && Nonneg(b)
    ensures Nonneg(Products(a, b))
  {
    forall i | 0 <= i < |a|
      ensures Products(a, b)[i] >= 0.0
    {
      ProductNonneg(At(a, i), At(b, i));
    }
  }

  /** For all observations: gamma is alpha times beta, and sums to 1, or to 0 before the last restart. */
  lemma GammaOfPasses(m: Hmm, alpha: seq<seq<real>>, beta: seq<seq<real>>, c: seq<real>, t: nat, row: seq<real>)
    requires ArePasses(m, alpha, beta, c) && t < m.t && |alpha| == |beta| == m.t
    requires IsShare(Products(alpha[t], beta[t]), row)
    ensures row == Products(alpha[t], beta[t]) && Nonneg(row)
    ensures Total(row) == if Settled(m, alpha, t) then 1.0 else 0.0
  {
    RowOfPasses(m, alpha, beta, c, t);
    BetaNonneg(m, alpha, beta, c, t);
    DotOfPasses(m, alpha, beta, c, t);
    hide ArePasses, Settled, Total, Dot, Products;
    var raw := Products(alpha[t], beta[t]);
    ProductsTotal(m.n, alpha[t], beta[t]);
    ProductsNonneg(alpha[t], beta[t]);
    if Total(raw) != 0.0 {
      forall i | 0 <= i < |raw|
        ensures row[i] == raw[i]
      {
        assert Times(1.0, row[i]) == raw[i];
      }
      assert row == raw;
    }
  }

  // xi.

  function Move(m: Hmm, t: nat, a: seq<real>, b: seq<real>, i: int, j: int): real {
    At(a, i) * m.trans(i, j) * m.dens(t + 1, j) * At(b, j)
  }

  function MovesFrom(m: Hmm, t: nat, a: seq<real>, b: seq<real>, i: int): real {
    Sum(m.n, j => Move(m, t, a, b, i, j))
  }

  function AllMoves(m: Hmm, t: nat, a: seq<real>, b: seq<real>): real {
    Sum(m.n, i => MovesFrom(m, t, a, b, i))
  }

  /** The table of moves over its total; all zeros stay so. */
  ghost predicate IsMoveShare(m: Hmm, t: nat, a: seq<real>, b: seq<real>, table: seq<seq<real>>) {
    |table| == m.n && forall i :: 0 <= i < m.n ==> IsShareOfMoves(m, t, a, b, i, table[i])
  }

  ghost predicate IsShareOfMoves(m: Hmm, t: nat, a: seq<real>, b: seq<real>, i: int, row: seq<real>) {
    && |row| == m.n
    && forall j :: 0 <= j < m.n ==>
         Move(m, t, a, b, i, j) == if AllMoves(m, t, a, b) == 0.0 then row[j] else Times(AllMoves(m, t, a, b), row[j])
  }

  lemma MovesFromIs(m: Hmm, t: nat, a: seq<real>, b: seq<real>, i: int)
    ensures MovesFrom(m, t, a, b, i) == Times(At(a, i), Pulled(m, t, b, i))
  {
    hide Sum, At;
    var x := At(a, i);
    forall j
      ensures Move(m, t, a, b, i, j) == x * (m.trans(i, j) * m.dens(t + 1, j) * At(b, j))
    {
      MoveFactors(x, m.trans(i, j), m.dens(t + 1, j), At(b, j));
    }
    ScaledSum(m.n, x, j => Move(m, t, a, b, i, j), j => m.trans(i, j) * m.dens(t + 1, j) * At(b, j));
  }

  lemma MoveFactors(a: real, x: real, d: real, b: real)
    ensures a * x * d * b == a * (x * d * b)
  {
  }

  lemma AllMovesIs(m: Hmm, t: nat, a: seq<real>, row: seq<real>, b: seq<real>, c: real)
    requires IsStepBack(m, t, row, b, c)
    ensures AllMoves(m, t, a, b) == Times(c, Dot(m.n, a, row))
  {
    hide Sum, Dot, Pulled, MovesFrom, At;
    var p := i => Pulled(m, t, b, i);
    ScaledDot(m.n, c, a, row, p);
    forall i
      ensures MovesFrom(m, t, a, b, i) == At(a, i) * p(i)
    {
      MovesFromIs(m, t, a, b, i);
    }
    SumCong(m.n, i => MovesFrom(m, t, a, b, i), i => At(a, i) * p(i));
  }

  lemma MoveNonneg(m: Hmm, t: nat, a: seq<real>, b: seq<real>, i: nat, j: nat)
    requires Valid(m) && t + 1 < m.t && i < m.n && j < m.n && Nonneg(a) && Nonneg(b)
    ensures Move(m, t, a, b, i, j) >= 0.0
  {
    ProductNonneg(At(a, i), m.trans(i, j));
    ProductNonneg(At(a, i) * m.trans(i, j), m.dens(t + 1, j));
    ProductNonneg(At(a, i) * m.trans(i, j) * m.dens(t + 1, j), At(b, j));
  }

  lemma MovesFromNonneg(m: Hmm, t: nat, a: seq<real>, b: seq<real>, i: nat)
    requires Valid(m) && t + 1 < m.t && i < m.n && Nonneg(a) && Nonneg(b)
    ensures MovesFrom(m, t, a, b, i) >= 0.0
    ensures MovesFrom(m, t, a, b, i) == 0.0 ==> forall j :: 0 <= j < m.n ==> Move(m, t, a, b, i, j) == 0.0
  {
    hide Move, Sum;
    var f := j => Move(m, t, a, b, i, j);
    forall j: nat | j < m.n
      ensures f(j) >= 0.0
    {
      MoveNonneg(m, t, a, b, i, j);
    }
    SumNonneg(m.n, f);
    forall j: nat | j < m.n
      ensures MovesFrom(m, t, a, b, i) == 0.0 ==> Move(m, t, a, b, i, j) == 0.0
    {
      assert 0.0 <= f(j) <= Sum(m.n, f);
    }
  }

  /** If all moves together are zero, each is. */
  lemma NoMoves(m: Hmm, t: nat, a: seq<real>, b: seq<real>, i: nat)
    requires Valid(m) && t + 1 < m.t && i < m.n && Nonneg(a) && Nonneg(b) && AllMoves(m, t, a, b) == 0.0
    ensures MovesFrom(m, t, a, b, i) == 0.0
    ensures forall j :: 0 <= j < m.n ==> Move(m, t, a, b, i, j) == 0.0
  {
    hide MovesFrom, Move, Sum;
    var f := i => MovesFrom(m, t, a, b, i);
    forall i: nat | i < m.n
      ensures f(i) >= 0.0
    {
      MovesFromNonneg(m, t, a, b, i);
    }
    SumNonneg(m.n, f);
    assert 0.0 <= f(i) <= Sum(m.n, f);
    MovesFromNonneg(m, t, a, b, i);
  }

  /** A row of xi, c being what the moves add up to where they do not vanish. */
  lemma XiRowOfPasses(m: Hmm, t: nat, a: seq<real>, b: seq<real>, i: nat, row: seq<real>, c: real)
    requires Valid(m) && t + 1 < m.t && i < m.n && Nonneg(a) && Nonneg(b) && c > 0.0
    requires IsShareOfMoves(m, t, a, b, i, row) && (AllMoves(m, t, a, b) == c || AllMoves(m, t, a, b) == 0.0)
    ensures forall j :: 0 <= j < m.n ==> Times(c, row[j]) == Move(m, t, a, b, i, j)
    ensures Times(c, Total(row)) == MovesFrom(m, t, a, b, i)
  {
    hide AllMoves, Move, Sum, Total;
    if AllMoves(m, t, a, b) == 0.0 {
      NoMoves(m, t, a, b, i);
    }
    TotalOfMultiple(row, c, j => Move(m, t, a, b, i, j));
  }

  lemma AllMovesOfPasses(m: Hmm, alpha: seq<seq<real>>, beta: seq<seq<real>>, c: seq<real>, t: nat)
    requires ArePasses(m, alpha, beta, c) && t + 1 < m.t
    ensures |alpha| == |beta| == m.t
    ensures AllMoves(m, t, alpha[t], beta[t + 1]) == if Settled(m, alpha, t) then c[t + 1] else 0.0
  {
    StepOfPasses(m, alpha, beta, c, t);
    DotOfPasses(m, alpha, beta, c, t);
    hide ArePasses, Settled, IsNormalised, IsStepBack, Dot, AllMoves;
    AllMovesIs(m, t, alpha[t], beta[t], beta[t + 1], c[t + 1]);
  }

  /** What the passes give for the moves from time t to the next. */
  lemma MovesOfPasses(m: Hmm, alpha: seq<seq<real>>, beta: seq<seq<real>>, c: seq<real>, t: nat)
    requires ArePasses(m, alpha, beta, c) && t + 1 < m.t
    ensures Valid(m) && |alpha| == |beta| == |c| == m.t && |alpha[t]| == |beta[t]| == m.n && c[t + 1] > 0.0
    ensures Nonneg(alpha[t]) && Nonneg(beta[t + 1]) && IsStepBack(m, t, beta[t], beta[t + 1], c[t + 1])
    ensures AllMoves(m, t, alpha[t], beta[t + 1]) == c[t + 1] || AllMoves(m, t, alpha[t], beta[t + 1]) == 0.0
  {
    RowOfPasses(m, alpha, beta, c, t);
    RowOfPasses(m, alpha, beta, c, t + 1);
    StepOfPasses(m, alpha, beta, c, t);
    BetaNonneg(m, alpha, beta, c, t + 1);
    PassesAreValid(m, alpha, beta, c);
    hide ArePasses, Settled, IsNormalised, IsStepBack, Valid, Nonneg, AllMoves, Total;
    AllMovesOfPasses(m, alpha, beta, c, t);
  }

  /** For all observations: c[t + 1] times xi[t][i][j] is the move from i to j, and the rows of xi add up to gamma. */
  lemma XiOfPasses(m: Hmm, alpha: seq<seq<real>>, beta: seq<seq<real>>, c: seq<real>, t: nat, table: seq<seq<real>>,
                   i: nat)
    requires ArePasses(m, alpha, beta, c) && t + 1 < m.t && |alpha| == |beta| == m.t && i < m.n
    requires IsMoveShare(m, t, alpha[t], beta[t + 1], table)
    ensures |table[i]| == m.n
    ensures forall j :: 0 <= j < m.n ==> Times(c[t + 1], table[i][j]) == Move(m, t, alpha[t], beta[t + 1], i, j)
    ensures Total(table[i]) == At(alpha[t], i) * At(beta[t], i)
  {
    hide ArePasses, Move, MovesFrom, AllMoves, Valid, Total, Nonneg, IsShareOfMoves, Pulled, At, Times;
    MovesOfPasses(m, alpha, beta, c, t);
    XiRowOfPasses(m, t, alpha[t], beta[t + 1], i, table[i], c[t + 1]);
    RowOfShare(m, t, alpha[t], beta[t + 1], i, table[i]);
    MovesFromIs(m, t, alpha[t], beta[t + 1], i);
    AtIs(beta[t], i);
    MovesOver(c[t + 1], Total(table[i]), At(alpha[t], i), At(beta[t], i), Pulled(m, t, beta[t + 1], i));
  }

  lemma AtIs(row: seq<real>, i: nat)
    requires i < |row|
    ensures At(row, i) == row[i]
  {
  }

  lemma MovesOver(c: real, total: real, a: real, b: real, p: real)
    requires c > 0.0 && Times(c, total) == Times(a, p) && Times(c, b) == p
    ensures total == a * b
  {
    Reorder(a, b, c);
    SameFactor(c, total, a * b);
  }

  lemma RowOfShare(m: Hmm, t: nat, a: seq<real>, b: seq<real>, i: int, row: seq<real>)
    requires IsShareOfMoves(m, t, a, b, i, row)
    ensures |row| == m.n
  {
  }
}
