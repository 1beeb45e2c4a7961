/** Posterior state and move probabilities (HMM._forward_backward), from the scaled passes. */
module ForwardBackward {
  import opened PathPosterior
  import opened Reals
  import opened Restarts
  import opened ScaledPasses
  import opened Sums

  /** A row over its total; all zeros stay so. */
  method Share(raw: seq<real>) returns (row: seq<real>)
    ensures IsShare(raw, row)
  {
    hide Total;
    var total := Total(raw);
    if total == 0.0 {
      row := raw;
    } else {
      row := seq(|raw|, i requires 0 <= i < |raw| => raw[i] / total);
      forall i | 0 <= i < |raw|
        ensures Times(total, row[i]) == raw[i]
      {
        MulDiv(raw[i], total);
      }
    }
  }

  /** One time step: a scaled forward and a scaled backward row whose scales multiply to the likelihood. */
  ghost predicate IsCut(m: Hmm, t: nat, a: seq<real>, b: seq<real>, before: real, after: real) {
    && Valid(m) && t < m.t && Likelihood(Paths(m)) > 0.0 && before * after == Likelihood(Paths(m))
    && |a| == m.n && Unscaled(m, t, a, before) && IsBackwardRow(m, t, b, after)
  }

  /** The unnormalised gamma row already sums to one, and its entries are the posterior probabilities. */
  lemma GammaRow(m: Hmm, t: nat, a: seq<real>, b: seq<real>, before: real, after: real, raw: seq<real>)
    requires IsCut(m, t, a, b, before, after)
    requires |raw| == m.n && forall i :: 0 <= i < m.n ==> raw[i] == a[i] * b[i]
    ensures forall i :: 0 <= i < m.n ==>
      Likelihood(Paths(m)) * raw[i] == Backward(Paths(m), t, i) * Forward(Paths(m), t, i)
    ensures Total(raw) == 1.0
  {
    hide Likelihood, Forward, Backward, Total, Sum;
    var p := Paths(m);
    forall i | 0 <= i < m.n
      ensures Likelihood(p) * raw[i] == Backward(p, t, i) * Forward(p, t, i)
    {
      Exchange(before, after, a[i], b[i]);
    }
    var product := i => Backward(p, t, i) * Forward(p, t, i);
    TotalOfMultiple(raw, Likelihood(p), product);
    LikelihoodByState(p, t);
    SumCong(m.n, product, i => Backward(p, t, i) * Forward(p, t, i));
    Cancel(Likelihood(p), Total(raw), Sum(m.n, product));
  }

  lemma CutIs(m: Hmm, t: nat, a: seq<real>, b: seq<real>, before: real, after: real)
    requires Valid(m) && t < m.t && Likelihood(Paths(m)) > 0.0 && before * after == Likelihood(Paths(m))
    requires |a| == m.n && Unscaled(m, t, a, before) && IsBackwardRow(m, t, b, after)
    ensures IsCut(m, t, a, b, before, after)
  {
  }

  lemma ScalesMultiply(m: Hmm, t: nat, alpha: seq<seq<real>>, beta: seq<seq<real>>, c: seq<real>)
    requires Valid(m) && t < m.t == |c| && IsForward(m, alpha, c) && IsBackward(m, beta, c, 0)
    requires Likelihood(Paths(m)) > 0.0
    ensures |alpha| == |beta| == m.t && IsCut(m, t, alpha[t], beta[t], Prod(c[..t + 1]), Prod(c[t + 1..]))
  {
    RowLengths(m, alpha, beta, c);
    hide *;
    UnscaledAt(m, alpha, c, t);
    ConstantsMultiplyToLikelihood(m, alpha, c);
    ProdSplit(c, t + 1);
    BackwardRowAt(m, beta, c, 0, t);
    CutIs(m, t, alpha[t], beta[t], Prod(c[..t + 1]), Prod(c[t + 1..]));
  }

  lemma ProdSplit(c: seq<real>, k: nat)
    requires k <= |c|
    ensures Prod(c[..k]) * Prod(c[k..]) == Prod(c)
  {
    hide Prod;
    ProdAppend(c[..k], c[k..]);
    assert c[..k] + c[k..] == c;
  }

  /** gamma holds posterior state probabilities: the share of the likelihood that visits each state. */
  ghost predicate IsGammaRow(m: Hmm, t: nat, row: seq<real>) {
    |row| == m.n && Total(row) == 1.0 && forall i :: 0 <= i < m.n ==>
      Likelihood(Paths(m)) * row[i] == Mass(Paths(m), m.t, Visits(t, i))
  }

  method Gamma(m: Hmm, ghost t: nat, a: seq<real>, b: seq<real>, ghost before: real, ghost after: real)
      returns (row: seq<real>)
    requires |a| == |b| == m.n
    requires Likelihood(Paths(m)) > 0.0 ==> IsCut(m, t, a, b, before, after)
    ensures IsShare(Products(a, b), row)
    ensures Likelihood(Paths(m)) > 0.0 ==> IsGammaRow(m, t, row)
  {
    hide *;
    var raw := seq(m.n, i requires 0 <= i < m.n => a[i] * b[i]);
    ProductsAre(a, b, raw);
    row := Share(raw);
    if Likelihood(Paths(m)) > 0.0 {
      GammaIsPosterior(m, t, a, b, before, after, raw, row);
    }
  }

  lemma ProductsAre(a: seq<real>, b: seq<real>, raw: seq<real>)
    requires |a| == |b| == |raw| && forall i :: 0 <= i < |raw| ==> raw[i] == a[i] * b[i]
    ensures raw == Products(a, b)
  {
    forall i | 0 <= i < |raw|
      ensures raw[i] == Products(a, b)[i]
    {
      assert At(a, i) == a[i] && At(b, i) == b[i];
    }
  }

  lemma GammaIsPosterior(m: Hmm, t: nat, a: seq<real>, b: seq<real>, before: real, after: real,
                         raw: seq<real>, row: seq<real>)
    requires IsCut(m, t, a, b, before, after) && IsShare(raw, row)
    requires |raw| == m.n && forall i :: 0 <= i < m.n ==> raw[i] == a[i] * b[i]
    ensures IsGammaRow(m, t, row) && row == raw
  {
    hide Likelihood, Mass, Total, Forward, Backward;
    GammaRow(m, t, a, b, before, after, raw);
    forall i | 0 <= i < m.n
      ensures row[i] == raw[i]
    {
      assert Times(1.0, row[i]) == raw[i];
    }
    assert row == raw;
    forall i | 0 <= i < m.n
      ensures Likelihood(Paths(m)) * row[i] == Mass(Paths(m), m.t, Visits(t, i))
    {
      ThroughIsProduct(Paths(m), t, i);
    }
  }

  /** Two neighbouring time steps, with the scale of what lies before and after the move between them. */
  ghost predicate IsMove(m: Hmm, t: nat, a: seq<real>, b: seq<real>, before: real, after: real) {
    && Valid(m) && t + 1 < m.t && Likelihood(Paths(m)) > 0.0
    && |a| == m.n && Unscaled(m, t, a, before) && IsBackwardRow(m, t + 1, b, after)
  }

  ghost predicate IsMoveTable(m: Hmm, t: nat, a: seq<real>, b: seq<real>, raw: seq<seq<real>>)
    requires |a| == |b| == m.n
  {
    |raw| == m.n && forall i :: 0 <= i < m.n ==> IsMoveRow(m, t, i, a[i], b, raw[i])
  }

  ghost predicate IsMoveRow(m: Hmm, t: nat, i: nat, a: real, b: seq<real>, raw: seq<real>)
    requires |b| == m.n
  {
    |raw| == m.n && forall j :: 0 <= j < m.n ==> raw[j] == a * m.trans(i, j) * m.dens(t + 1, j) * b[j]
  }

  lemma Regroup5(s: real, r: real, a: real, x: real, d: real, b: real)
    ensures (s * r) * (a * x * d * b) == ((x * d) * (r * b)) * (s * a)
  {
    Associate(a, x, d);
    Associate(a, x * d, b);
    Exchange(s, r, a, (x * d) * b);
    Reorder(r, x * d, b);
  }

  /** A move, scaled, is the sum over the paths that make it. */
  lemma MoveEntry(m: Hmm, t: nat, i: nat, j: nat, a: seq<real>, b: seq<real>, before: real, after: real, raw: real)
    requires IsMove(m, t, a, b, before, after) && i < m.n && j < m.n
    requires raw == a[i] * m.trans(i, j) * m.dens(t + 1, j) * b[j]
    ensures (before * after) * raw
         == (Paths(m).step(t + 1, i, j) * Backward(Paths(m), t + 1, j)) * Forward(Paths(m), t, i)
  {
    hide Likelihood, Forward, Backward, Total, Sum;
    assert Paths(m).step(t + 1, i, j) == m.trans(i, j) * m.dens(t + 1, j);
    Regroup5(before, after, a[i], m.trans(i, j), m.dens(t + 1, j), b[j]);
  }

  lemma TotalOfMultiples(row: seq<real>, a: real, g: int -> real, f: real)
    requires forall j :: 0 <= j < |row| ==> a * row[j] == g(j) * f
    ensures a * Total(row) == Sum(|row|, g) * f
  {
    hide Total, Sum;
    TotalOfMultiple(row, a, j => f * g(j));
    SumScale(|row|, f, g);
  }

  /** A row of the move table adds up to the paths through its state. */
  lemma MoveRow(m: Hmm, t: nat, i: nat, a: seq<real>, b: seq<real>, before: real, after: real, raw: seq<real>)
    requires IsMove(m, t, a, b, before, after) && i < m.n && IsMoveRow(m, t, i, a[i], b, raw)
    ensures (before * after) * Total(raw) == Backward(Paths(m), t, i) * Forward(Paths(m), t, i)
  {
    hide Likelihood, Forward, Backward, Total, Sum, IsMove;
    MoveSizes(m, t, a, b, before, after);
    var p := Paths(m);
    var g := j => p.step(t + 1, i, j) * Backward(p, t + 1, j);
    forall j: nat | j < m.n
      ensures (before * after) * raw[j] == g(j) * Forward(p, t, i)
    {
      MoveEntry(m, t, i, j, a, b, before, after, raw[j]);
    }
    TotalOfMultiples(raw, before * after, g, Forward(p, t, i));
    BackwardUnfold(p, t, i);
    SumCong(m.n, g, j => p.step(t + 1, i, j) * Backward(p, t + 1, j));
  }

  lemma MoveSizes(m: Hmm, t: nat, a: seq<real>, b: seq<real>, before: real, after: real)
    requires IsMove(m, t, a, b, before, after)
    ensures m.n == |a| == |b| && t + 1 < m.t
  {
  }

  lemma MoveTableTotal(m: Hmm, t: nat, a: seq<real>, b: seq<real>, before: real, after: real,
                       raw: seq<seq<real>>, totals: seq<real>)
    requires IsMove(m, t, a, b, before, after) && IsMoveTable(m, t, a, b, raw)
    requires |totals| == m.n && forall i :: 0 <= i < m.n ==> totals[i] == Total(raw[i])
    ensures (before * after) * Total(totals) == Likelihood(Paths(m))
  {
    hide Likelihood, Forward, Backward, Total, Sum;
    var p := Paths(m);
    forall i | 0 <= i < m.n
      ensures (before * after) * totals[i] == Backward(p, t, i) * Forward(p, t, i)
    {
      MoveRow(m, t, i, a, b, before, after, raw[i]);
    }
    var product := i => Backward(p, t, i) * Forward(p, t, i);
    TotalOfMultiple(totals, before * after, product);
    LikelihoodByState(p, t);
    SumCong(m.n, product, i => Backward(p, t, i) * Forward(p, t, i));
  }

  /** xi holds the posterior probabilities of the moves, and its rows add up to gamma. */
  ghost predicate IsXiTable(m: Hmm, t: nat, table: seq<seq<real>>) {
    |table| == m.n && forall i :: 0 <= i < m.n ==> IsXiRow(m, t, i, table[i])
  }

  ghost predicate IsXiRow(m: Hmm, t: nat, i: nat, row: seq<real>) {
    && |row| == m.n
    && Likelihood(Paths(m)) * Total(row) == Mass(Paths(m), m.t, Visits(t, i))
    && forall j :: 0 <= j < m.n ==> Likelihood(Paths(m)) * row[j] == Mass(Paths(m), m.t, VisitsBoth(t, i, j))
  }

  /** A normalised row of moves, once its scaled entries are known to be those of the paths. */
  lemma SharesOfMass(m: Hmm, t: nat, i: nat, scale: real, raw: seq<real>, total: real, row: seq<real>)
    requires |raw| == |row| == m.n && Times(scale, total) == Likelihood(Paths(m))
    requires forall j :: 0 <= j < m.n ==> Times(total, row[j]) == raw[j]
    requires forall j :: 0 <= j < m.n ==> Times(scale, raw[j]) == Mass(Paths(m), m.t, VisitsBoth(t, i, j))
    requires Times(scale, Total(raw)) == Mass(Paths(m), m.t, Visits(t, i))
    ensures IsXiRow(m, t, i, row)
  {
    hide Likelihood, Total, Mass, Visits, VisitsBoth;
    forall j | 0 <= j < m.n
      ensures Likelihood(Paths(m)) * row[j] == scale * raw[j]
    {
      FactorsAgree(scale, total, row[j], Likelihood(Paths(m)), raw[j]);
    }
    TotalsAgree(row, Likelihood(Paths(m)), raw, scale);
  }

  lemma MoveEntryMass(m: Hmm, t: nat, i: nat, j: nat, a: seq<real>, b: seq<real>, before: real, after: real,
                      raw: real, scale: real)
    requires IsMove(m, t, a, b, before, after) && i < m.n && j < m.n && scale == before * after
    requires raw == a[i] * m.trans(i, j) * m.dens(t + 1, j) * b[j]
    ensures Times(scale, raw) == Mass(Paths(m), m.t, VisitsBoth(t, i, j))
  {
    MoveSizes(m, t, a, b, before, after);
    hide Forward, Backward, Mass, IsMove, VisitsBoth;
    MoveEntry(m, t, i, j, a, b, before, after, raw);
    ThroughBothIsProduct(Paths(m), t, i, j);
  }

  lemma MoveRowMass(m: Hmm, t: nat, i: nat, a: seq<real>, b: seq<real>, before: real, after: real, raw: seq<real>,
                    scale: real)
    requires IsMove(m, t, a, b, before, after) && i < m.n && IsMoveRow(m, t, i, a[i], b, raw) && scale == before * after
    ensures Times(scale, Total(raw)) == Mass(Paths(m), m.t, Visits(t, i))
  {
    MoveSizes(m, t, a, b, before, after);
    hide Forward, Backward, Mass, IsMove, Visits, Total;
    MoveRow(m, t, i, a, b, before, after, raw);
    ThroughIsProduct(Paths(m), t, i);
  }

  lemma XiRow(m: Hmm, t: nat, i: nat, a: seq<real>, b: seq<real>, before: real, after: real,
              raw: seq<real>, total: real, row: seq<real>)
    requires IsMove(m, t, a, b, before, after) && i < m.n && IsMoveRow(m, t, i, a[i], b, raw)
    requires Times(before * after, total) == Likelihood(Paths(m))
    requires |row| == m.n && forall j :: 0 <= j < m.n ==> Times(total, row[j]) == raw[j]
    ensures IsXiRow(m, t, i, row)
  {
    MoveSizes(m, t, a, b, before, after);
    assert |raw| == m.n && forall j :: 0 <= j < m.n ==> raw[j] == a[i] * m.trans(i, j) * m.dens(t + 1, j) * b[j];
    hide *;
    var scale := before * after;
    forall j: nat | j < m.n
      ensures Times(scale, raw[j]) == Mass(Paths(m), m.t, VisitsBoth(t, i, j))
    {
      MoveEntryMass(m, t, i, j, a, b, before, after, raw[j], scale);
    }
    MoveRowMass(m, t, i, a, b, before, after, raw, scale);
    SharesOfMass(m, t, i, scale, raw, total, row);
  }

  lemma TotalsAgree(r: seq<real>, a: real, s: seq<real>, b: real)
    requires |r| == |s| && forall j :: 0 <= j < |r| ==> a * r[j] == b * s[j]
    ensures a * Total(r) == b * Total(s)
  {
    hide Total;
    var f := j => b * At(s, j);
    TotalOfMultiple(r, a, f);
    TotalOfMultiple(s, b, f);
  }

  /** xi[t]: the move table over its total, all zeros staying so. */
  method Xi(m: Hmm, t: nat, a: seq<real>, b: seq<real>, ghost before: real, ghost after: real)
      returns (table: seq<seq<real>>)
    requires t + 1 < m.t && |a| == |b| == m.n
    requires Likelihood(Paths(m)) > 0.0 ==> IsMove(m, t, a, b, before, after)
    ensures IsMoveShare(m, t, a, b, table)
    ensures Likelihood(Paths(m)) > 0.0 ==> IsXiTable(m, t, table)
  {
    hide Likelihood, Mass, Total, IsMove, IsMoveShare;
    var raw, totals := [], [];
    for i := 0 to m.n
      invariant |raw| == |totals| == i
      invariant forall k :: 0 <= k < i ==> totals[k] == Total(raw[k]) && IsMoveRow(m, t, k, a[k], b, raw[k])
    {
      var row := seq(m.n, j requires 0 <= j < m.n => a[i] * m.trans(i, j) * m.dens(t + 1, j) * b[j]);
      raw, totals := raw + [row], totals + [Total(row)];
    }
    var total := Total(totals);
    table := if total == 0.0 then raw else Divide(raw, total);
    TableIsShare(m, t, a, b, raw, totals, table);
    if Likelihood(Paths(m)) > 0.0 {
      MoveTableTotal(m, t, a, b, before, after, raw, totals);
      DividedIsXi(m, t, a, b, before, after, raw, total);
    }
  }

  function Divide(raw: seq<seq<real>>, total: real): (table: seq<seq<real>>)
    requires total != 0.0
    ensures |table| == |raw|
    ensures forall i :: 0 <= i < |raw| ==>
      |table[i]| == |raw[i]| && forall j :: 0 <= j < |raw[i]| ==> total * table[i][j] == raw[i][j]
  {
    seq(|raw|, i requires 0 <= i < |raw| => seq(|raw[i]|, j requires 0 <= j < |raw[i]| => raw[i][j] / total))
  }

  lemma DividedIsXi(m: Hmm, t: nat, a: seq<real>, b: seq<real>, before: real, after: real,
                    raw: seq<seq<real>>, total: real)
    requires IsMove(m, t, a, b, before, after) && IsMoveTable(m, t, a, b, raw)
    requires (before * after) * total == Likelihood(Paths(m))
    ensures total != 0.0 && IsXiTable(m, t, Divide(raw, total))
  {
    hide Likelihood, IsXiRow, Divide;
    assert total != 0.0;
    var table := Divide(raw, total);
    forall i | 0 <= i < m.n
      ensures IsXiRow(m, t, i, table[i])
    {
      XiRow(m, t, i, a, b, before, after, raw[i], total, table[i]);
    }
  }

  lemma RowIsMoves(m: Hmm, t: nat, a: seq<real>, b: seq<real>, i: nat, raw: seq<real>)
    requires |a| == |b| == m.n && i < m.n && IsMoveRow(m, t, i, a[i], b, raw)
    ensures forall j :: 0 <= j < m.n ==> raw[j] == Move(m, t, a, b, i, j)
    ensures Total(raw) == MovesFrom(m, t, a, b, i)
  {
    SumCong(m.n, j => At(raw, j), j => Move(m, t, a, b, i, j));
  }

  lemma TableTotal(m: Hmm, t: nat, a: seq<real>, b: seq<real>, raw: seq<seq<real>>, totals: seq<real>)
    requires |a| == |b| == m.n && IsMoveTable(m, t, a, b, raw)
    requires |totals| == m.n && forall i :: 0 <= i < m.n ==> totals[i] == Total(raw[i])
    ensures Total(totals) == AllMoves(m, t, a, b)
  {
    hide MovesFrom, Sum, IsMoveRow;
    forall i: nat | i < m.n
      ensures At(totals, i) == MovesFrom(m, t, a, b, i)
    {
      RowIsMoves(m, t, a, b, i, raw[i]);
    }
    SumCong(m.n, i => At(totals, i), i => MovesFrom(m, t, a, b, i));
  }

  lemma RowIsShare(m: Hmm, t: nat, a: seq<real>, b: seq<real>, i: nat, raw: seq<real>, row: seq<real>)
    requires |a| == |b| == m.n && i < m.n && IsMoveRow(m, t, i, a[i], b, raw) && |row| == |raw|
    requires if AllMoves(m, t, a, b) == 0.0 then row == raw
             else forall j :: 0 <= j < |raw| ==> AllMoves(m, t, a, b) * row[j] == raw[j]
    ensures IsShareOfMoves(m, t, a, b, i, row)
  {
    RowIsMoves(m, t, a, b, i, raw);
    hide AllMoves, Move, Total, MovesFrom;
  }

  lemma TableIsShare(m: Hmm, t: nat, a: seq<real>, b: seq<real>, raw: seq<seq<real>>, totals: seq<real>,
                     table: seq<seq<real>>)
    requires |a| == |b| == m.n && IsMoveTable(m, t, a, b, raw)
    requires |totals| == m.n && forall i :: 0 <= i < m.n ==> totals[i] == Total(raw[i])
    requires table == if Total(totals) == 0.0 then raw else Divide(raw, Total(totals))
    ensures IsMoveShare(m, t, a, b, table)
  {
    hide *;
    TableTotal(m, t, a, b, raw, totals);
    TableLength(m, t, a, b, raw);
    forall i: nat | i < m.n
      ensures |table| == m.n && IsShareOfMoves(m, t, a, b, i, table[i])
    {
      RowOfTable(m, t, a, b, raw, i);
      RowIsShare(m, t, a, b, i, raw[i], table[i]);
    }
    RowsAreShare(m, t, a, b, table);
  }

  lemma TableLength(m: Hmm, t: nat, a: seq<real>, b: seq<real>, raw: seq<seq<real>>)
    requires |a| == |b| == m.n && IsMoveTable(m, t, a, b, raw)
    ensures |raw| == m.n
  {
  }

  lemma RowOfTable(m: Hmm, t: nat, a: seq<real>, b: seq<real>, raw: seq<seq<real>>, i: nat)
    requires |a| == |b| == m.n && IsMoveTable(m, t, a, b, raw) && i < m.n
    ensures |raw| == m.n && IsMoveRow(m, t, i, a[i], b, raw[i])
  {
  }

  lemma RowsAreShare(m: Hmm, t: nat, a: seq<real>, b: seq<real>, table: seq<seq<real>>)
    requires |table| == m.n && forall i :: 0 <= i < m.n ==> IsShareOfMoves(m, t, a, b, i, table[i])
    ensures IsMoveShare(m, t, a, b, table)
  {
  }

  /** gamma[t] for any observations: alpha times beta, which sums to 1, or to 0 before the last restart. */
  ghost predicate IsWeights(m: Hmm, alpha: seq<seq<real>>, beta: seq<seq<real>>, t: nat, row: seq<real>)
    requires t < |alpha| == |beta|
  {
    && |row| == m.n && row == Products(alpha[t], beta[t]) && Nonneg(row)
    && Total(row) == if Settled(m, alpha, t) then 1.0 else 0.0
  }

  /** xi[t] for any observations: the moves over the next constant, with rows that sum to alpha times beta. */
  ghost predicate AreMoveWeights(m: Hmm, alpha: seq<seq<real>>, beta: seq<seq<real>>, c: seq<real>, t: nat,
                                 table: seq<seq<real>>)
    requires t + 1 < |alpha| == |beta| == |c|
  {
    |table| == m.n && forall i :: 0 <= i < m.n ==> IsMoveWeightsRow(m, alpha, beta, c, t, i, table[i])
  }

  ghost predicate IsMoveWeightsRow(m: Hmm, alpha: seq<seq<real>>, beta: seq<seq<real>>, c: seq<real>, t: nat, i: int,
                                   row: seq<real>)
    requires t + 1 < |alpha| == |beta| == |c|
  {
    && |row| == m.n && Total(row) == At(alpha[t], i) * At(beta[t], i)
    && forall j :: 0 <= j < m.n ==> Times(c[t + 1], row[j]) == Move(m, t, alpha[t], beta[t + 1], i, j)
  }

  /** The rows of xi add up to gamma, for any observations. */
  lemma XiSumsToGamma(m: Hmm, alpha: seq<seq<real>>, beta: seq<seq<real>>, c: seq<real>, t: nat, i: nat,
                      gamma: seq<real>, xi: seq<seq<real>>)
    requires t + 1 < |alpha| == |beta| == |c| && i < m.n
    requires IsWeights(m, alpha, beta, t, gamma) && AreMoveWeights(m, alpha, beta, c, t, xi)
    ensures Total(xi[i]) == gamma[i]
  {
    hide Total, Settled;
    assert IsMoveWeightsRow(m, alpha, beta, c, t, i, xi[i]);
  }

  lemma MoveIs(m: Hmm, t: nat, a: seq<real>, b: seq<real>, before: real, after: real)
    requires Valid(m) && t + 1 < m.t && Likelihood(Paths(m)) > 0.0
    requires |a| == m.n && Unscaled(m, t, a, before) && IsBackwardRow(m, t + 1, b, after)
    ensures IsMove(m, t, a, b, before, after)
  {
  }

  lemma MoveAt(m: Hmm, t: nat, alpha: seq<seq<real>>, beta: seq<seq<real>>, c: seq<real>)
    requires Valid(m) && t + 1 < m.t == |c| && IsForward(m, alpha, c) && IsBackward(m, beta, c, 0)
    requires Likelihood(Paths(m)) > 0.0
    ensures |alpha| == |beta| == m.t && IsMove(m, t, alpha[t], beta[t + 1], Prod(c[..t + 1]), Prod(c[t + 2..]))
  {
    RowLengths(m, alpha, beta, c);
    hide *;
    UnscaledAt(m, alpha, c, t);
    BackwardRowAt(m, beta, c, 0, t + 1);
    MoveIs(m, t, alpha[t], beta[t + 1], Prod(c[..t + 1]), Prod(c[t + 2..]));
  }

  lemma RowLengths(m: Hmm, alpha: seq<seq<real>>, beta: seq<seq<real>>, c: seq<real>)
    requires |c| == m.t && IsForward(m, alpha, c) && IsBackward(m, beta, c, 0)
    ensures |alpha| == |beta| == m.t
    ensures forall t :: 0 <= t < m.t ==> |alpha[t]| == |beta[t]| == m.n && c[t] > 0.0
  {
    forall t | 0 <= t < m.t
      ensures |alpha[t]| == |beta[t]| == m.n && c[t] > 0.0
    {
      assert ForwardAt(m, alpha, c, t);
      assert BackwardAt(m, beta, c, t);
    }
  }

  lemma WeightsOfShare(m: Hmm, alpha: seq<seq<real>>, beta: seq<seq<real>>, c: seq<real>, t: nat, row: seq<real>)
    requires ArePasses(m, alpha, beta, c) && t < m.t && |alpha| == |beta| == m.t
    requires IsShare(Products(alpha[t], beta[t]), row)
    ensures IsWeights(m, alpha, beta, t, row)
  {
    RowOfPasses(m, alpha, beta, c, t);
    hide ArePasses, IsShare, Settled, Total, Nonneg;
    GammaOfPasses(m, alpha, beta, c, t, row);
  }

  lemma WeightsOfMoveShare(m: Hmm, alpha: seq<seq<real>>, beta: seq<seq<real>>, c: seq<real>, t: nat,
                           table: seq<seq<real>>)
    requires ArePasses(m, alpha, beta, c) && t + 1 < m.t && |alpha| == |beta| == |c| == m.t
    requires IsMoveShare(m, t, alpha[t], beta[t + 1], table)
    ensures AreMoveWeights(m, alpha, beta, c, t, table)
  {
    hide ArePasses, IsShareOfMoves, Total, Move, Times, At;
    forall i: nat | i < m.n
      ensures IsMoveWeightsRow(m, alpha, beta, c, t, i, table[i])
    {
      XiOfPasses(m, alpha, beta, c, t, table, i);
    }
  }

  lemma PassesAre(m: Hmm, alpha: seq<seq<real>>, beta: seq<seq<real>>, c: seq<real>)
    requires Valid(m) && |c| == m.t && IsForward(m, alpha, c) && IsBackward(m, beta, c, 0)
    ensures ArePasses(m, alpha, beta, c)
  {
  }

  /** gamma[t]: weights for any observations, posterior state probabilities for possible ones. */
  ghost predicate IsGammaAt(m: Hmm, alpha: seq<seq<real>>, beta: seq<seq<real>>, t: nat, row: seq<real>)
    requires t < |alpha| == |beta|
  {
    IsWeights(m, alpha, beta, t, row) && (Likelihood(Paths(m)) > 0.0 ==> IsGammaRow(m, t, row))
  }

  /** xi[t]: move weights for any observations, posterior move probabilities for possible ones. */
  ghost predicate IsXiAt(m: Hmm, alpha: seq<seq<real>>, beta: seq<seq<real>>, c: seq<real>, t: nat,
                         table: seq<seq<real>>)
    requires t + 1 < |alpha| == |beta| == |c|
  {
    AreMoveWeights(m, alpha, beta, c, t, table) && (Likelihood(Paths(m)) > 0.0 ==> IsXiTable(m, t, table))
  }

  method GammaAt(m: Hmm, alpha: seq<seq<real>>, beta: seq<seq<real>>, ghost c: seq<real>, t: nat)
      returns (row: seq<real>)
    requires ArePasses(m, alpha, beta, c) && t < m.t && |alpha| == |beta| == |c| == m.t
    requires |alpha[t]| == |beta[t]| == m.n
    ensures IsGammaAt(m, alpha, beta, t, row)
  {
    hide Likelihood, Prod, IsForward, IsBackward, IsGammaRow, IsCut, IsWeights, IsShare, Valid, Products;
    if Likelihood(Paths(m)) > 0.0 {
      ScalesMultiply(m, t, alpha, beta, c);
    }
    row := Gamma(m, t, alpha[t], beta[t], Prod(c[..t + 1]), Prod(c[t + 1..]));
    WeightsOfShare(m, alpha, beta, c, t, row);
  }

  method XiAt(m: Hmm, alpha: seq<seq<real>>, beta: seq<seq<real>>, ghost c: seq<real>, t: nat)
      returns (table: seq<seq<real>>)
    requires ArePasses(m, alpha, beta, c) && t + 1 < m.t && |alpha| == |beta| == |c| == m.t
    requires |alpha[t]| == |beta[t + 1]| == m.n
    ensures IsXiAt(m, alpha, beta, c, t, table)
  {
    hide Likelihood, Prod, IsForward, IsBackward, IsXiTable, IsMove, AreMoveWeights, IsMoveShare, Valid;
    if Likelihood(Paths(m)) > 0.0 {
      MoveAt(m, t, alpha, beta, c);
    }
    table := Xi(m, t, alpha[t], beta[t + 1], Prod(c[..t + 1]), Prod(c[t + 2..]));
    WeightsOfMoveShare(m, alpha, beta, c, t, table);
  }

  /** The gamma rows. */
  method Gammas(m: Hmm, alpha: seq<seq<real>>, beta: seq<seq<real>>, ghost c: seq<real>)
      returns (gamma: array<seq<real>>)
    requires Valid(m) && |c| == m.t && IsForward(m, alpha, c) && IsBackward(m, beta, c, 0)
    ensures gamma.Length == |alpha| == |beta| == m.t
    ensures forall t {:trigger gamma[t]} :: 0 <= t < m.t ==> IsGammaAt(m, alpha, beta, t, gamma[t])
  {
    PassesAre(m, alpha, beta, c);
    RowLengths(m, alpha, beta, c);
    hide *;
    gamma := new seq<real>[m.t];
    for t := 0 to m.t
      invariant forall k {:trigger gamma[k]} :: 0 <= k < t ==> IsGammaAt(m, alpha, beta, k, gamma[k])
    {
      var row := GammaAt(m, alpha, beta, c, t);
      gamma[t] := row;
    }
  }

  /** The xi tables. */
  method Xis(m: Hmm, alpha: seq<seq<real>>, beta: seq<seq<real>>, ghost c: seq<real>)
      returns (xi: array<seq<seq<real>>>)
    requires Valid(m) && |c| == m.t && IsForward(m, alpha, c) && IsBackward(m, beta, c, 0)
    ensures xi.Length == m.t - 1 && |alpha| == |beta| == m.t
    ensures forall t {:trigger xi[t]} :: 0 <= t < m.t - 1 ==> IsXiAt(m, alpha, beta, c, t, xi[t])
  {
    PassesAre(m, alpha, beta, c);
    RowLengths(m, alpha, beta, c);
    assert m.t > 0;
    hide *;
    xi := new seq<seq<real>>[m.t - 1];
    for t := 0 to m.t - 1
      invariant forall k {:trigger xi[k]} :: 0 <= k < t ==> IsXiAt(m, alpha, beta, c, k, xi[k])
    {
      var table := XiAt(m, alpha, beta, c, t);
      xi[t] := table;
    }
  }

  /** HMM._forward_backward; the log-likelihood it returns is the sum of log c[t]. */
  method Infer(m: Hmm)
      returns (alpha: array<seq<real>>, beta: array<seq<real>>, gamma: array<seq<real>>,
               xi: array<seq<seq<real>>>, c: array<real>)
    requires Valid(m)
    ensures c.Length == alpha.Length == beta.Length == gamma.Length == m.t && xi.Length == m.t - 1
    ensures forall t :: 0 <= t < m.t ==> c[t] > 0.0
    ensures IsForward(m, alpha[..], c[..]) && IsBackward(m, beta[..], c[..], 0)
    ensures Prod(c[..]) == Likelihood(Paths(m)) <==> Likelihood(Paths(m)) > 0.0
    ensures forall t {:trigger gamma[t]} :: 0 <= t < m.t ==> IsGammaAt(m, alpha[..], beta[..], t, gamma[t])
    ensures forall t {:trigger xi[t]} :: 0 <= t < m.t - 1 ==> IsXiAt(m, alpha[..], beta[..], c[..], t, xi[t])
  {
    hide Likelihood, Prod, IsForward, IsBackward, IsGammaAt, IsXiAt;
    alpha, c := ForwardPass(m);
    assert forall t :: 0 <= t < m.t ==> c[t] == c[..][t];
    ForwardLengths(m, alpha[..], c[..]);
    beta := BackwardPass(m, c);
    RowLengths(m, alpha[..], beta[..], c[..]);
    ConstantsMultiplyToLikelihood(m, alpha[..], c[..]);
    gamma := Gammas(m, alpha[..], beta[..], c[..]);
    xi := Xis(m, alpha[..], beta[..], c[..]);
  }

  lemma ForwardLengths(m: Hmm, alpha: seq<seq<real>>, c: seq<real>)
    requires IsForward(m, alpha, c)
    ensures forall t :: 0 <= t < |c| ==> c[t] > 0.0
  {
    forall t | 0 <= t < |c|
      ensures c[t] > 0.0
    {
      assert ForwardAt(m, alpha, c, t);
    }
  }
}
