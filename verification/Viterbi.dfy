/** Most likely state path: the dynamic program of HMM.viterbi against all N^T paths. */
module Viterbi {

  /** Log scores of an n-state chain observed t times; each table is read in range only. */
  datatype Scores = Scores(n: nat, t: nat, init: int -> real, trans: (int, int) -> real, emit: (int, int) -> real)

  predicate IsPath(m: Scores, p: seq<int>) {
    forall k :: 0 <= k < |p| ==> 0 <= p[k] < m.n
  }

  /** The joint log score of a state path and the observations it covers. */
  function PathScore(m: Scores, p: seq<int>): real
    requires p != []
  {
    var t := |p| - 1;
    if t == 0 then m.init(p[0]) + m.emit(0, p[0])
    else PathScore(m, p[..t]) + m.trans(p[t - 1], p[t]) + m.emit(t, p[t])
  }

  /** From `from` on, q equals p or exceeds it at the last position where they differ. */
  ghost predicate LastDifferenceAbove(p: seq<int>, q: seq<int>, from: nat)
    requires from <= |p| == |q|
  {
    p[from..] == q[from..] || exists k :: from <= k < |p| && p[k] < q[k] && p[k + 1..] == q[k + 1..]
  }

  /** No path scores higher than p, and one that ties with p is larger where the two last differ. */
  ghost predicate IsDecoding(m: Scores, p: seq<int>) {
    && |p| == m.t > 0 && IsPath(m, p)
    && forall q {:trigger PathScore(m, q)} :: |q| == m.t && IsPath(m, q) ==>
         && PathScore(m, q) <= PathScore(m, p)
         && (PathScore(m, q) == PathScore(m, p) ==> LastDifferenceAbove(p, q, 0))
  }

  lemma DecodingIsUnique(m: Scores, p: seq<int>, q: seq<int>)
    requires IsDecoding(m, p) && IsDecoding(m, q)
    ensures p == q
  {
    assert PathScore(m, p) == PathScore(m, q);
    OneIsAbove(p, q);
  }

  lemma OneIsAbove(p: seq<int>, q: seq<int>)
    requires |p| == |q|
    ensures LastDifferenceAbove(p, q, 0) && LastDifferenceAbove(q, p, 0) ==> p == q
  {
  }

  /** numpy's argmax: the first index that holds the maximum. */
  method Argmax(prob: seq<real>) returns (best: nat)
    requires |prob| > 0
    ensures best < |prob|
    ensures forall i :: 0 <= i < |prob| ==> prob[i] <= prob[best]
    ensures forall i :: 0 <= i < best ==> prob[i] < prob[best]
  {
    best := 0;
    for i := 1 to |prob|
      invariant best < i
      invariant forall k :: 0 <= k < i ==> prob[k] <= prob[best]
      invariant forall k :: 0 <= k < best ==> prob[k] < prob[best]
    {
      if prob[i] > prob[best] {
        best := i;
      }
    }
  }

  /** b is the best predecessor of state j, the first one if several are, and v the score of j. */
  ghost predicate IsCell(m: Scores, t: nat, j: nat, prev: seq<real>, b: int, v: real) {
    && |prev| == m.n && 0 <= b < m.n
    && (forall i :: 0 <= i < m.n ==> prev[i] + m.trans(i, j) <= prev[b] + m.trans(b, j))
    && (forall i :: 0 <= i < b ==> prev[i] + m.trans(i, j) < prev[b] + m.trans(b, j))
    && v == prev[b] + m.trans(b, j) + m.emit(t, j)
  }

  ghost predicate IsFirstRow(m: Scores, row: seq<real>) {
    |row| == m.n && forall j :: 0 <= j < m.n ==> row[j] == m.init(j) + m.emit(0, j)
  }

  /** A row of the tables follows from the row before. */
  ghost predicate IsRow(m: Scores, t: nat, prev: seq<real>, back: seq<int>, row: seq<real>) {
    |row| == |back| == m.n && forall j :: 0 <= j < m.n ==> IsCell(m, t, j, prev, back[j], row[j])
  }

  /** The first rows of the two tables, V and backpointer. */
  ghost predicate Filled(m: Scores, v: seq<seq<real>>, back: seq<seq<int>>) {
    && |v| == |back|
    && (v != [] ==> IsFirstRow(m, v[0]))
    && forall t {:trigger back[t]} :: 0 < t < |v| ==> IsRow(m, t, v[t - 1], back[t], v[t])
  }

  lemma FilledAt(m: Scores, v: seq<seq<real>>, back: seq<seq<int>>, t: nat)
    requires Filled(m, v, back) && t < |v|
    ensures |v[t]| == m.n
    ensures t > 0 ==> |back[t]| == m.n && IsRow(m, t, v[t - 1], back[t], v[t])
  {
    if t > 0 {
      assert IsRow(m, t, v[t - 1], back[t], v[t]);
    }
  }

  /** Every path is bounded by the entry of V for its last state. */
  lemma {:induction false} TableBoundsPaths(m: Scores, v: seq<seq<real>>, back: seq<seq<int>>, p: seq<int>)
    requires Filled(m, v, back) && 0 < |p| <= |v| && IsPath(m, p)
    ensures |v[|p| - 1]| == m.n && PathScore(m, p) <= v[|p| - 1][p[|p| - 1]]
  {
    var t := |p| - 1;
    FilledAt(m, v, back, t);
    if t > 0 {
      TableBoundsPaths(m, v, back, p[..t]);
      assert IsCell(m, t, p[t], v[t - 1], back[t][p[t]], v[t][p[t]]);
    }
  }

  /** b is the first state with the best score. */
  ghost predicate EndsBest(row: seq<real>, b: int) {
    && 0 <= b < |row|
    && (forall j :: 0 <= j < |row| ==> row[j] <= row[b])
    && (forall j :: 0 <= j < b ==> row[j] < row[b])
  }

  /** Complete tables, and a path that follows the backpointers from position `from` to the end,
      where it starts at the best state. */
  ghost predicate Follows(m: Scores, v: seq<seq<real>>, back: seq<seq<int>>, p: seq<int>, from: nat) {
    && |p| == m.t == |v| && from < m.t && IsPath(m, p) && Filled(m, v, back)
    && EndsBest(v[m.t - 1], p[m.t - 1])
    && forall k {:trigger back[k]} :: from < k < m.t ==> StepsBack(back[k], p[k - 1], p[k])
  }

  ghost predicate StepsBack(back: seq<int>, i: int, j: int) {
    0 <= j < |back| && i == back[j]
  }

  /** The path step at `from`: where it comes from, and that nothing comes from anywhere better. */
  lemma FollowedStep(m: Scores, v: seq<seq<real>>, back: seq<seq<int>>, p: seq<int>, from: nat)
    requires Follows(m, v, back, p, from) && from + 1 < m.t
    ensures |v[from]| == |v[from + 1]| == m.n
    ensures IsCell(m, from + 1, p[from + 1], v[from], p[from], v[from + 1][p[from + 1]])
    ensures Follows(m, v, back, p, from + 1)
  {
    FilledAt(m, v, back, from);
    FilledAt(m, v, back, from + 1);
    assert StepsBack(back[from + 1], p[from], p[from + 1]);
  }

  /** Paths that agree with p from `from` on gain from there what p gains. */
  lemma {:induction false} CommonTail(m: Scores, v: seq<seq<real>>, back: seq<seq<int>>,
                                      p: seq<int>, q: seq<int>, from: nat)
    requires Follows(m, v, back, p, from) && |q| == m.t && p[from..] == q[from..]
    ensures |v[m.t - 1]| == |v[from]| == m.n
    ensures PathScore(m, q) - PathScore(m, q[..from + 1]) == v[m.t - 1][p[m.t - 1]] - v[from][p[from]]
    decreases m.t - from
  {
    FilledAt(m, v, back, from);
    if from == m.t - 1 {
      assert q[..from + 1] == q;
    } else {
      assert p[from + 1..] == p[from..][1..] == q[from..][1..] == q[from + 1..];
      FollowedStep(m, v, back, p, from);
      CommonTail(m, v, back, p, q, from + 1);
      StepBack(m, p, q, from);
    }
  }

  lemma StepBack(m: Scores, p: seq<int>, q: seq<int>, from: nat)
    requires from + 1 < |p| == |q| && p[from + 1..] == q[from + 1..]
    ensures PathScore(m, q[..from + 2])
         == PathScore(m, q[..from + 1]) + m.trans(q[from], p[from + 1]) + m.emit(from + 1, p[from + 1])
    ensures p[from..] == q[from..] ==> p[from] == q[from]
  {
    assert q[..from + 2][..from + 1] == q[..from + 1];
    assert p[from + 1..][0] == q[from + 1..][0];
    assert p[from..] == q[from..] ==> p[from..][0] == q[from..][0];
  }

  /** Where a path as good as the best entry first leaves p, going back, it leaves upwards. */
  lemma TieLeavesUpwards(m: Scores, v: seq<seq<real>>, back: seq<seq<int>>, p: seq<int>, q: seq<int>, from: nat)
    requires Follows(m, v, back, p, from) && |q| == m.t && IsPath(m, q) && from + 1 < m.t
    requires |v[m.t - 1]| == m.n && PathScore(m, q) == v[m.t - 1][p[m.t - 1]]
    requires p[from + 1..] == q[from + 1..]
    ensures p[from] <= q[from]
  {
    hide PathScore, Follows, Filled;
    FollowedStep(m, v, back, p, from);
    CommonTail(m, v, back, p, q, from + 1);
    StepBack(m, p, q, from);
    assert Filled(m, v, back) by {
      FollowsFilled(m, v, back, p, from);
    }
    TableBoundsPaths(m, v, back, q[..from + 1]);
  }

  lemma FollowsFilled(m: Scores, v: seq<seq<real>>, back: seq<seq<int>>, p: seq<int>, from: nat)
    requires Follows(m, v, back, p, from)
    ensures Filled(m, v, back)
  {
  }

  /** A path as good as the best entry differs from p, if at all, upwards at their last difference. */
  lemma {:induction false} TiesAreAbove(m: Scores, v: seq<seq<real>>, back: seq<seq<int>>,
                                        p: seq<int>, q: seq<int>, from: nat)
    requires Follows(m, v, back, p, from) && |q| == m.t && IsPath(m, q)
    requires |v[m.t - 1]| == m.n && PathScore(m, q) == v[m.t - 1][p[m.t - 1]]
    ensures LastDifferenceAbove(p, q, from)
    decreases m.t - from
  {
    if from == m.t - 1 {
      TableBoundsPaths(m, v, back, q);
    } else {
      FollowedStep(m, v, back, p, from);
      TiesAreAbove(m, v, back, p, q, from + 1);
      if p[from + 1..] == q[from + 1..] {
        TieLeavesUpwards(m, v, back, p, q, from);
      }
    }
    SameTail(p, q, from);
  }

  lemma SameTail(p: seq<int>, q: seq<int>, from: nat)
    requires from < |p| == |q|
    ensures p[from + 1..] == q[from + 1..] && p[from] == q[from] ==> p[from..] == q[from..]
  {
    assert p[from..] == [p[from]] + p[from + 1..];
    assert q[from..] == [q[from]] + q[from + 1..];
  }

  lemma FollowingIsDecoding(m: Scores, v: seq<seq<real>>, back: seq<seq<int>>, p: seq<int>)
    requires Follows(m, v, back, p, 0)
    ensures IsDecoding(m, p)
    ensures |v[m.t - 1]| == m.n && PathScore(m, p) == v[m.t - 1][p[m.t - 1]]
  {
    CommonTail(m, v, back, p, p, 0);
    assert p[..1] == [p[0]];
    forall q {:trigger PathScore(m, q)} | |q| == m.t && IsPath(m, q)
      ensures PathScore(m, q) <= PathScore(m, p)
      ensures PathScore(m, q) == PathScore(m, p) ==> LastDifferenceAbove(p, q, 0)
    {
      TableBoundsPaths(m, v, back, q);
      if PathScore(m, q) == PathScore(m, p) {
        TiesAreAbove(m, v, back, p, q, 0);
      }
    }
  }

  lemma OneRow(m: Scores, row: seq<real>, b: seq<int>)
    requires |row| == m.n && forall j :: 0 <= j < m.n ==> row[j] == m.init(j) + m.emit(0, j)
    ensures Filled(m, [row], [b])
  {
  }

  /** One row of the two tables. */
  method FillRow(m: Scores, t: nat, prev: seq<real>) returns (back: seq<int>, row: seq<real>)
    requires |prev| == m.n > 0
    ensures IsRow(m, t, prev, back, row)
  {
    back, row := [], [];
    for j := 0 to m.n
      invariant |back| == |row| == j
      invariant forall k :: 0 <= k < j ==> IsCell(m, t, k, prev, back[k], row[k])
    {
      var prob := seq(m.n, i requires 0 <= i < m.n => prev[i] + m.trans(i, j));
      var b := Argmax(prob);
      assert forall i :: 0 <= i < m.n ==> prob[i] == prev[i] + m.trans(i, j);
      assert IsCell(m, t, j, prev, b, prob[b] + m.emit(t, j));
      back, row := back + [b], row + [prob[b] + m.emit(t, j)];
    }
  }

  /** The two tables of HMM.viterbi, filled row by row. */
  method FillTables(m: Scores) returns (v: array<seq<real>>, back: array<seq<int>>)
    requires m.n > 0 && m.t > 0
    ensures v.Length == back.Length == m.t && Filled(m, v[..], back[..])
  {
    hide IsRow, IsFirstRow, Filled;
    v := new seq<real>[m.t];
    back := new seq<int>[m.t];
    var first := seq(m.n, j requires 0 <= j < m.n => m.init(j) + m.emit(0, j));
    v[0] := first;
    OneRow(m, first, back[0]);
    assert v[..1] == [first] && back[..1] == [back[0]];
    for t := 1 to m.t
      invariant Filled(m, v[..t], back[..t])
    {
      ghost var vs, bs := v[..t], back[..t];
      FilledAt(m, vs, bs, t - 1);
      var bRow, row := FillRow(m, t, v[t - 1]);
      back[t], v[t] := bRow, row;
      OneMoreRow(m, vs, bs, row, bRow);
      assert v[..t + 1] == vs + [row] && back[..t + 1] == bs + [bRow];
    }
    assert v[..] == v[..m.t] && back[..] == back[..m.t];
  }

  lemma OneMoreRow(m: Scores, v: seq<seq<real>>, back: seq<seq<int>>, row: seq<real>, b: seq<int>)
    requires v != [] && Filled(m, v, back) && IsRow(m, |v|, v[|v| - 1], b, row)
    ensures Filled(m, v + [row], back + [b])
  {
    var v', back' := v + [row], back + [b];
    forall t {:trigger back'[t]} | 0 < t < |v'|
      ensures IsRow(m, t, v'[t - 1], back'[t], v'[t])
    {
      if t < |v| {
        assert back[t] == back'[t];
      }
    }
  }

  lemma FollowOneBack(m: Scores, v: seq<seq<real>>, back: seq<seq<int>>, p: seq<int>, from: nat)
    requires from + 1 < m.t && Follows(m, v, back, p, from + 1)
    ensures 0 <= p[from + 1] < |back[from + 1]|
    ensures Follows(m, v, back, p[from := back[from + 1][p[from + 1]]], from)
  {
    FilledAt(m, v, back, from + 1);
    assert IsCell(m, from + 1, p[from + 1], v[from], back[from + 1][p[from + 1]], v[from + 1][p[from + 1]]);
  }

  lemma FollowStart(m: Scores, v: seq<seq<real>>, back: seq<seq<int>>, p: seq<int>)
    requires Filled(m, v, back) && |p| == m.t == |v| > 0 && EndsBest(v[m.t - 1], p[m.t - 1])
    requires forall t :: 0 <= t < m.t ==> p[t] == p[m.t - 1]
    ensures Follows(m, v, back, p, m.t - 1)
  {
    FilledAt(m, v, back, m.t - 1);
  }

  /** HMM.viterbi on a table of log scores. */
  method Decode(m: Scores) returns (states: array<int>)
    requires m.n > 0 && m.t > 0
    ensures IsDecoding(m, states[..])
  {
    hide Filled, Follows, IsDecoding;
    var v, back := FillTables(m);
    ghost var vs, bs := v[..], back[..];
    FilledAt(m, vs, bs, m.t - 1);
    var best := Argmax(v[m.t - 1]);
    states := new int[m.t](_ => best);
    FollowStart(m, vs, bs, states[..]);
    for t := m.t - 1 downto 0
      invariant states.Length == m.t && back[..] == bs && |bs| == m.t
      invariant Follows(m, vs, bs, states[..], t)
      modifies states
    {
      ghost var p := states[..];
      FollowOneBack(m, vs, bs, p, t);
      states[t] := back[t + 1][states[t + 1]];
      assert states[..] == p[t := bs[t + 1][p[t + 1]]];
    }
    FollowingIsDecoding(m, vs, bs, states[..]);
  }
}
