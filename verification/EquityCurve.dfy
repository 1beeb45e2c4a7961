/** The recorded equity curve and its maximum drawdown. */
module EquityCurve {
  import opened Reals

  function Peak(h: seq<real>): real
    requires h != []
  {
    var last := h[|h| - 1];
    if |h| == 1 then last
    else
      var before := Peak(h[..|h| - 1]);
      if last > before then last else before
  }

  /** The drop of the last entry from the highest entry up to it. */
  function Drawdown(h: seq<real>): real
    requires h != []
  {
    if Peak(h) == 0.0 then 0.0 else (Peak(h) - h[|h| - 1]) / Peak(h)
  }

  function WorstDrawdown(h: seq<real>): real
    requires h != []
  {
    if |h| == 1 then Drawdown(h)
    else
      var before := WorstDrawdown(h[..|h| - 1]);
      if Drawdown(h) > before then Drawdown(h) else before
  }

  function MaxDrawdown(h: seq<real>): real {
    if |h| < 2 then 0.0 else WorstDrawdown(h)
  }

  ghost predicate Positive(h: seq<real>) {
    forall i :: 0 <= i < |h| ==> h[i] > 0.0
  }

  lemma {:induction false} PeakIsHighest(h: seq<real>)
    requires h != []
    ensures forall i :: 0 <= i < |h| ==> h[i] <= Peak(h)
    ensures exists i :: 0 <= i < |h| && h[i] == Peak(h)
  {
    if |h| == 1 {
      assert h[0] == Peak(h);
    } else {
      var before := h[..|h| - 1];
      PeakIsHighest(before);
      var i :| 0 <= i < |before| && before[i] == Peak(before);
      assert h[i] == Peak(before);
      assert h[|h| - 1] == Peak(h) || h[i] == Peak(h);
      assert forall j :: 0 <= j < |before| ==> h[j] == before[j];
    }
  }

  /** The relative drop from entry i to entry j. */
  function Drop(h: seq<real>, i: nat, j: nat): real
    requires i <= j < |h| && h[i] != 0.0
  {
    (h[i] - h[j]) / h[i]
  }

  lemma DropGrowsWithPeak(p: real, q: real, e: real)
    requires 0.0 < p <= q && e > 0.0
    ensures (p - e) / p <= (q - e) / q
  {
    var x, y := (p - e) / p, (q - e) / q;
    MulDiv(p - e, p);
    MulDiv(q - e, q);
    SmallerFactor(p, 1.0 - x, q, 1.0 - y, e);
  }

  lemma SmallerFactor(p: real, a: real, q: real, b: real, e: real)
    requires 0.0 < p <= q && e > 0.0 && p * a == e && q * b == e
    ensures a >= b
  {
    PositiveFactor(q, b);
    assert (q - p) * b >= 0.0;
    assert p * (a - b) >= 0.0;
    FactorNonneg(p, a - b);
  }

  lemma PositiveFactor(p: real, x: real)
    requires p > 0.0 && p * x > 0.0
    ensures x > 0.0
  {
  }

  /** The drawdown of the last entry is its worst drop from any entry before. */
  lemma DrawdownIsWorstDrop(h: seq<real>)
    requires h != [] && Positive(h)
    ensures forall i, j :: 0 <= i <= j == |h| - 1 ==> Drop(h, i, j) <= Drawdown(h)
    ensures exists i, j :: 0 <= i <= j == |h| - 1 && Drop(h, i, j) == Drawdown(h)
  {
    PeakIsHighest(h);
    forall i, j | 0 <= i <= j == |h| - 1
      ensures Drop(h, i, j) <= Drawdown(h)
    {
      DropGrowsWithPeak(h[i], Peak(h), h[j]);
    }
    var i :| 0 <= i < |h| && h[i] == Peak(h);
    assert Drop(h, i, |h| - 1) == Drawdown(h);
  }

  /** get_max_drawdown is the worst relative drop between any two entries. */
  lemma {:induction false} MaxDrawdownIsWorstDrop(h: seq<real>)
    requires h != [] && Positive(h)
    ensures forall i, j :: 0 <= i <= j < |h| ==> Drop(h, i, j) <= MaxDrawdown(h)
    ensures exists i, j :: 0 <= i <= j < |h| && Drop(h, i, j) == MaxDrawdown(h)
  {
    DrawdownIsWorstDrop(h);
    if |h| == 1 {
      assert Drop(h, 0, 0) == 0.0;
    } else {
      var before := h[..|h| - 1];
      MaxDrawdownIsWorstDrop(before);
      OneEntryIsFlat(before);
      forall i, j | 0 <= i <= j < |h|
        ensures Drop(h, i, j) <= MaxDrawdown(h)
      {
        if j < |before| {
          assert Drop(before, i, j) == Drop(h, i, j);
        }
      }
      var i, j :| 0 <= i <= j < |before| && Drop(before, i, j) == MaxDrawdown(before);
      assert Drop(h, i, j) == MaxDrawdown(before);
    }
  }

  lemma OneEntryIsFlat(h: seq<real>)
    requires h != [] && Positive(h)
    ensures MaxDrawdown(h) == WorstDrawdown(h)
  {
  }

  /** More history never lowers the maximum drawdown. */
  lemma MaxDrawdownGrows(h: seq<real>, e: real)
    requires Positive(h) && e > 0.0
    ensures MaxDrawdown(h + [e]) >= MaxDrawdown(h) >= 0.0
  {
    if h != [] {
      MaxDrawdownIsWorstDrop(h);
      assert Drop(h, 0, 0) == 0.0;
      OneEntryIsFlat(h);
      assert (h + [e])[..|h + [e]| - 1] == h;
    }
  }

  lemma PeakAppend(h: seq<real>, e: real)
    requires h != [] ==> e >= Peak(h)
    ensures Peak(h + [e]) == e
  {
    assert (h + [e])[..|h + [e]| - 1] == h;
  }

  /** At its peak a curve has no drawdown. */
  lemma NewPeak(h: seq<real>, e: real)
    requires e > 0.0 && (h != [] ==> e >= Peak(h))
    ensures Drawdown(h + [e]) == 0.0
  {
    hide Peak;
    PeakAppend(h, e);
  }

  lemma WorstAppend(h: seq<real>, e: real)
    requires h != []
    ensures MaxDrawdown(h + [e])
         == if Drawdown(h + [e]) > WorstDrawdown(h) then Drawdown(h + [e]) else WorstDrawdown(h)
  {
    assert (h + [e])[..|h + [e]| - 1] == h;
  }

  /** An entry at or above the peak leaves the maximum drawdown as it was. */
  lemma NewPeakKeepsMaxDrawdown(h: seq<real>, e: real)
    requires Positive(h) && e > 0.0 && (h != [] ==> e >= Peak(h))
    ensures MaxDrawdown(h + [e]) == MaxDrawdown(h)
  {
    if h != [] {
      OneEntryIsFlat(h);
      WorstAppend(h, e);
      NewPeak(h, e);
      MaxDrawdownGrows(h, e);
    }
  }

  /** One record of the equity curve. */
  datatype Snapshot = Snapshot(timestamp: string, equity: real, pnl: real, pnlPct: real)

  function EquityArray(entries: seq<Snapshot>): seq<real> {
    seq(|entries|, i requires 0 <= i < |entries| => entries[i].equity)
  }

  class EquityCurveTracker {
    const initialCapital: real
    var entries: seq<Snapshot>
    var currentEquity: real

    function History(): seq<real>
      reads this
    {
      EquityArray(entries)
    }

    constructor (initialCapital: real)
      ensures this.initialCapital == initialCapital && entries == [] && currentEquity == initialCapital
    {
      this.initialCapital := initialCapital;
      entries, currentEquity := [], initialCapital;
    }

    method Update(equity: real, timestamp: string)
      requires initialCapital != 0.0
      modifies this
      ensures entries == old(entries)
        + [Snapshot(timestamp, equity, equity - initialCapital, (equity - initialCapital) / initialCapital)]
      ensures History() == old(History()) + [equity] && currentEquity == equity
    {
      currentEquity := equity;
      var pnl := equity - initialCapital;
      entries := entries + [Snapshot(timestamp, equity, pnl, pnl / initialCapital)];
    }

    function CurrentPnlPct(): real
      reads this
    {
      if initialCapital <= 0.0 then 0.0 else (currentEquity - initialCapital) / initialCapital
    }
  }
}
