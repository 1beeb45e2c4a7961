/** Viterbi decoding and the forward-backward pass speak of the same chain: what is decoded from the logarithms of its
    probabilities is a path of the greatest probability. */
module MostProbable {
  import PathPosterior
  import opened Reals
  import ScaledPasses
  import Viterbi

  /** All that is needed of a logarithm: products become sums, and larger arguments larger values. */
  ghost predicate IsLog(ln: real -> real) {
    (forall a, b :: MakesSum(ln, a, b)) && (forall a, b :: 0.0 < a < b ==> ln(a) < ln(b))
  }

  ghost predicate MakesSum(ln: real -> real, a: real, b: real) {
    a > 0.0 && b > 0.0 ==> ln(a * b) == ln(a) + ln(b)
  }

  /** The chain with a positive guard added to every probability, as the decoder adds it under the logarithm. */
  function Guarded(m: ScaledPasses.Hmm, guard: real): PathPosterior.Chain {
    PathPosterior.Chain(m.n, m.t, i => Times(m.init(i) + guard, m.dens(0, i) + guard),
                        (k, i, j) => Times(m.trans(i, j) + guard, m.dens(k, j) + guard))
  }

  /** The decoder's tables. */
  function LogScores(m: ScaledPasses.Hmm, guard: real, ln: real -> real): Viterbi.Scores {
    Viterbi.Scores(m.n, m.t, i => ln(m.init(i) + guard), (i, j) => ln(m.trans(i, j) + guard),
                   (k, i) => ln(m.dens(k, i) + guard))
  }

  lemma LogOfProduct(ln: real -> real, a: real, b: real, ab: real)
    requires IsLog(ln) && a > 0.0 && b > 0.0 && ab == a * b
    ensures ab > 0.0 && ln(ab) == ln(a) + ln(b)
  {
    assert MakesSum(ln, a, b);
  }

  lemma FirstState(m: ScaledPasses.Hmm, guard: real, ln: real -> real, p: seq<int>)
    requires |p| == 1
    ensures PathPosterior.Prob(Guarded(m, guard), p) == Times(m.init(p[0]) + guard, m.dens(0, p[0]) + guard)
    ensures Viterbi.PathScore(LogScores(m, guard, ln), p) == ln(m.init(p[0]) + guard) + ln(m.dens(0, p[0]) + guard)
  {
    hide Times;
  }

  lemma NextState(m: ScaledPasses.Hmm, guard: real, ln: real -> real, p: seq<int>, t: nat, move: real, dens: real)
    requires |p| == t + 1 > 1
    requires move == m.trans(p[t - 1], p[t]) + guard && dens == m.dens(t, p[t]) + guard
    ensures PathPosterior.Prob(Guarded(m, guard), p)
         == PathPosterior.Prob(Guarded(m, guard), p[..t]) * Times(move, dens)
    ensures Viterbi.PathScore(LogScores(m, guard, ln), p)
         == Viterbi.PathScore(LogScores(m, guard, ln), p[..t]) + ln(move) + ln(dens)
  {
    hide Times;
    PathPosterior.ProbUnfold(Guarded(m, guard), p);
  }

  /** The score of a path is the logarithm of its probability. */
  lemma {:induction false} ScoreIsLog(m: ScaledPasses.Hmm, guard: real, ln: real -> real, p: seq<int>)
    requires ScaledPasses.Valid(m) && guard > 0.0 && IsLog(ln)
    requires 0 < |p| <= m.t && Viterbi.IsPath(LogScores(m, guard, ln), p)
    ensures PathPosterior.Prob(Guarded(m, guard), p) > 0.0
    ensures Viterbi.PathScore(LogScores(m, guard, ln), p) == ln(PathPosterior.Prob(Guarded(m, guard), p))
  {
    hide PathPosterior.Prob, Viterbi.PathScore, IsLog;
    var t := |p| - 1;
    var dens := m.dens(t, p[t]) + guard;
    if t == 0 {
      FirstState(m, guard, ln, p);
      LogOfProduct(ln, m.init(p[0]) + guard, dens, Times(m.init(p[0]) + guard, dens));
    } else {
      ScoreIsLog(m, guard, ln, p[..t]);
      hide Guarded, LogScores;
      var move := m.trans(p[t - 1], p[t]) + guard;
      assert move > 0.0 && dens > 0.0;
      hide ScaledPasses.Valid, Viterbi.IsPath;
      NextState(m, guard, ln, p, t, move, dens);
      LogOfProduct(ln, move, dens, Times(move, dens));
      LogOfProduct(ln, PathPosterior.Prob(Guarded(m, guard), p[..t]), Times(move, dens),
                   PathPosterior.Prob(Guarded(m, guard), p));
    }
  }

  /** The decoded path is as probable as any, and precedes those it ties with in the decoder's order. */
  lemma DecodingIsMostProbable(m: ScaledPasses.Hmm, guard: real, ln: real -> real, p: seq<int>, q: seq<int>)
    requires ScaledPasses.Valid(m) && guard > 0.0 && IsLog(ln)
    requires Viterbi.IsDecoding(LogScores(m, guard, ln), p)
    requires |q| == m.t && Viterbi.IsPath(LogScores(m, guard, ln), q)
    ensures PathPosterior.Prob(Guarded(m, guard), q) <= PathPosterior.Prob(Guarded(m, guard), p)
    ensures PathPosterior.Prob(Guarded(m, guard), q) == PathPosterior.Prob(Guarded(m, guard), p) ==>
      Viterbi.LastDifferenceAbove(p, q, 0)
  {
    ScoreIsLog(m, guard, ln, p);
    ScoreIsLog(m, guard, ln, q);
    assert Viterbi.PathScore(LogScores(m, guard, ln), q) <= Viterbi.PathScore(LogScores(m, guard, ln), p);
  }
}
