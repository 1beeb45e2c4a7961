/** Candle resampling between timeframes, and when resampling twice is resampling once. */
module Resampler {
  import opened Sums

  datatype Candle = Candle(openTime: int, closeTime: int, open: real, high: real, low: real, close: real,
                           volume: real, quoteVolume: real, trades: int)

  function Max(a: real, b: real): real {
    if a > b then a else b
  }

  function Min(a: real, b: real): real {
    if a < b then a else b
  }

  function MaxHigh(cs: seq<Candle>): real
    requires cs != []
  {
    if |cs| == 1 then cs[0].high else Max(MaxHigh(cs[..|cs| - 1]), cs[|cs| - 1].high)
  }

  function MinLow(cs: seq<Candle>): real
    requires cs != []
  {
    if |cs| == 1 then cs[0].low else Min(MinLow(cs[..|cs| - 1]), cs[|cs| - 1].low)
  }

  function SumVolume(cs: seq<Candle>): real {
    if cs == [] then 0.0 else SumVolume(cs[..|cs| - 1]) + cs[|cs| - 1].volume
  }

  function SumQuoteVolume(cs: seq<Candle>): real {
    if cs == [] then 0.0 else SumQuoteVolume(cs[..|cs| - 1]) + cs[|cs| - 1].quoteVolume
  }

  function SumTrades(cs: seq<Candle>): int {
    if cs == [] then 0 else SumTrades(cs[..|cs| - 1]) + cs[|cs| - 1].trades
  }

  /** The one candle that stands for a batch. */
  function Merge(cs: seq<Candle>): Candle
    requires cs != []
  {
    Candle(cs[0].openTime, cs[|cs| - 1].closeTime, cs[0].open, MaxHigh(cs), MinLow(cs), cs[|cs| - 1].close,
           SumVolume(cs), SumQuoteVolume(cs), SumTrades(cs))
  }

  /** It reaches exactly as high and as low as the batch. */
  lemma {:induction false} MergeSpans(cs: seq<Candle>)
    requires cs != []
    ensures forall k :: 0 <= k < |cs| ==> Merge(cs).low <= cs[k].low && cs[k].high <= Merge(cs).high
    ensures exists k :: 0 <= k < |cs| && cs[k].high == Merge(cs).high
    ensures exists k :: 0 <= k < |cs| && cs[k].low == Merge(cs).low
  {
    if |cs| == 1 {
      assert cs[0].high == Merge(cs).high && cs[0].low == Merge(cs).low;
    } else {
      var rest := cs[..|cs| - 1];
      MergeSpans(rest);
      var h :| 0 <= h < |rest| && rest[h].high == Merge(rest).high;
      var l :| 0 <= l < |rest| && rest[l].low == Merge(rest).low;
      assert cs[h].high == Merge(cs).high || cs[|cs| - 1].high == Merge(cs).high;
      assert cs[l].low == Merge(cs).low || cs[|cs| - 1].low == Merge(cs).low;
      assert forall k :: 0 <= k < |rest| ==> cs[k] == rest[k];
    }
  }

  /** It opens with the first candle, closes with the last, and adds up what was traded in all. */
  lemma {:induction false} MergeAddsUp(cs: seq<Candle>)
    requires cs != []
    ensures var m, first, last := Merge(cs), cs[0], cs[|cs| - 1];
            && m.openTime == first.openTime && m.open == first.open
            && m.closeTime == last.closeTime && m.close == last.close
    ensures Merge(cs).volume == Sum(|cs|, k => if 0 <= k < |cs| then cs[k].volume else 0.0)
    ensures Merge(cs).quoteVolume == Sum(|cs|, k => if 0 <= k < |cs| then cs[k].quoteVolume else 0.0)
    ensures Merge(cs).trades as real == Sum(|cs|, k => if 0 <= k < |cs| then cs[k].trades as real else 0.0)
  {
    VolumesAddUp(cs, k => if 0 <= k < |cs| then cs[k].volume else 0.0);
    QuoteVolumesAddUp(cs, k => if 0 <= k < |cs| then cs[k].quoteVolume else 0.0);
    TradesAddUp(cs, k => if 0 <= k < |cs| then cs[k].trades as real else 0.0);
  }

  lemma {:induction false} VolumesAddUp(cs: seq<Candle>, f: int -> real)
    requires forall k :: 0 <= k < |cs| ==> f(k) == cs[k].volume
    ensures SumVolume(cs) == Sum(|cs|, f)
  {
    if cs != [] {
      VolumesAddUp(cs[..|cs| - 1], f);
    }
  }

  lemma {:induction false} QuoteVolumesAddUp(cs: seq<Candle>, f: int -> real)
    requires forall k :: 0 <= k < |cs| ==> f(k) == cs[k].quoteVolume
    ensures SumQuoteVolume(cs) == Sum(|cs|, f)
  {
    if cs != [] {
      QuoteVolumesAddUp(cs[..|cs| - 1], f);
    }
  }

  lemma {:induction false} TradesAddUp(cs: seq<Candle>, f: int -> real)
    requires forall k :: 0 <= k < |cs| ==> f(k) == cs[k].trades as real
    ensures SumTrades(cs) as real == Sum(|cs|, f)
  {
    if cs != [] {
      TradesAddUp(cs[..|cs| - 1], f);
    }
  }

  function Join(a: Candle, b: Candle): Candle {
    Candle(a.openTime, b.closeTime, a.open, Max(a.high, b.high), Min(a.low, b.low), b.close,
           a.volume + b.volume, a.quoteVolume + b.quoteVolume, a.trades + b.trades)
  }

  lemma {:induction false} MergeConcat(a: seq<Candle>, b: seq<Candle>)
    requires a != [] && b != []
    ensures Merge(a + b) == Join(Merge(a), Merge(b))
  {
    var n := |b| - 1;
    assert (a + b)[..|a + b| - 1] == a + b[..n];
    if n == 0 {
      assert a + b[..0] == a && b[..0] == [];
      assert SumVolume(b) == b[0].volume && SumQuoteVolume(b) == b[0].quoteVolume && SumTrades(b) == b[0].trades;
    } else {
      MergeConcat(a, b[..n]);
    }
  }

  /** The candle list in batches of `ratio`, the last one possibly short. */
  function Batches(cs: seq<Candle>, ratio: nat): seq<Candle>
    requires ratio > 0
    decreases |cs|
  {
    if cs == [] then []
    else
      var n := if ratio < |cs| then ratio else |cs|;
      [Merge(cs[..n])] + Batches(cs[n..], ratio)
  }

  lemma BatchesUnfold(cs: seq<Candle>, ratio: nat, n: nat)
    requires ratio > 0 && cs != [] && n == if ratio < |cs| then ratio else |cs|
    ensures Batches(cs, ratio) == [Merge(cs[..n])] + Batches(cs[n..], ratio)
  {
  }

  lemma NoBatches(ratio: nat)
    requires ratio > 0
    ensures Batches([], ratio) == []
  {
  }

  /** Batching keeps the candle that stands for everything. */
  lemma {:induction false} BatchesKeepTotals(cs: seq<Candle>, ratio: nat)
    requires ratio > 0 && cs != []
    ensures Batches(cs, ratio) != [] && Merge(Batches(cs, ratio)) == Merge(cs)
    decreases |cs|
  {
    var n := if ratio < |cs| then ratio else |cs|;
    var first, rest := cs[..n], cs[n..];
    assert first + rest == cs;
    SingleMerge(Merge(first));
    BatchesUnfold(cs, ratio, n);
    NoBatches(ratio);
    hide Batches, Merge, Join;
    if rest == [] {
      assert Batches(cs, ratio) == [Merge(first)] && first == cs;
    } else {
      BatchesKeepTotals(rest, ratio);
      MergeConcat([Merge(first)], Batches(rest, ratio));
      MergeConcat(first, rest);
    }
  }

  lemma SingleMerge(c: Candle)
    ensures Merge([c]) == c
  {
    var s := [c];
    assert s[..|s| - 1] == [] && s[|s| - 1] == c;
    assert SumVolume(s) == SumVolume([]) + c.volume;
    assert SumQuoteVolume(s) == SumQuoteVolume([]) + c.quoteVolume;
    assert SumTrades(s) == SumTrades([]) + c.trades;
  }

  lemma {:induction false} BatchesOfOne(cs: seq<Candle>)
    ensures Batches(cs, 1) == cs
    decreases |cs|
  {
    if cs != [] {
      BatchesOfOne(cs[1..]);
      SingleMerge(cs[0]);
      assert cs[..1] == [cs[0]];
    }
  }

  /** A whole number of batches can be cut off the front. */
  lemma {:induction false} BatchesSplit(cs: seq<Candle>, ratio: nat, q: nat)
    requires ratio > 0 && q * ratio <= |cs|
    ensures |Batches(cs[..q * ratio], ratio)| == q
    ensures Batches(cs, ratio) == Batches(cs[..q * ratio], ratio) + Batches(cs[q * ratio..], ratio)
  {
    hide Batches, Merge;
    NoBatches(ratio);
    var m := q * ratio;
    if q == 0 {
      assert m == 0 && cs[0..] == cs && cs[..0] == [];
    } else {
      OneLess(q, ratio);
      BatchesUnfold(cs, ratio, ratio);
      BatchesUnfold(cs[..m], ratio, ratio);
      var rest := cs[ratio..];
      BatchesSplit(rest, ratio, q - 1);
      assert cs[..m][..ratio] == cs[..ratio];
      assert cs[..m][ratio..] == rest[..m - ratio];
      assert rest[m - ratio..] == cs[m..];
    }
  }

  lemma Quotient(a: int, x: int, d: int, rem: int)
    requires a > 0 && a * x == a * d + rem && 0 <= rem < a
    ensures x == d
  {
    MultipleOfDifference(a, x, d);
    assert a * (x - d) == rem;
    if x - d >= 1 {
      AtLeast(a, x - d);
    } else if d - x >= 1 {
      AtLeast(a, d - x);
      MultipleOfDifference(a, d, x);
    }
  }

  lemma MultipleOfDifference(a: int, x: int, d: int)
    ensures a * (x - d) == a * x - a * d
  {
  }

  lemma AtLeast(a: int, k: int)
    requires a > 0 && k >= 1
    ensures a * k >= a
  {
  }

  lemma OneLess(q: nat, ratio: nat)
    requires q > 0
    ensures (q - 1) * ratio == q * ratio - ratio >= 0
  {
  }

  /** A list no longer than q batches makes at most q. */
  lemma {:induction false} BatchesAtMost(cs: seq<Candle>, ratio: nat, q: nat)
    requires ratio > 0 && |cs| <= q * ratio
    ensures |Batches(cs, ratio)| <= q
    decreases |cs|
  {
    if cs != [] {
      OneLess(q, ratio);
      var n := if ratio < |cs| then ratio else |cs|;
      BatchesAtMost(cs[n..], ratio, q - 1);
    }
  }

  /** Batching by r and then by q is batching by their product, short last batches included. */
  lemma {:induction false} BatchesCompose(cs: seq<Candle>, r: nat, q: nat)
    requires r > 0 && q > 0
    ensures q * r > 0 && Batches(Batches(cs, r), q) == Batches(cs, q * r)
    decreases |cs|
  {
    var n := q * r;
    assert n > 0;
    if cs != [] {
      BatchesKeepTotals(cs, r);
      if |cs| <= n {
        BatchesAtMost(cs, r, q);
        assert cs[..|cs|] == cs;
        var b := Batches(cs, r);
        assert b[..|b|] == b;
      } else {
        BatchesSplit(cs, r, q);
        var head, tail := Batches(cs[..n], r), Batches(cs[n..], r);
        BatchesKeepTotals(cs[..n], r);
        BatchesKeepTotals(cs[n..], r);
        assert (head + tail)[..q] == head && (head + tail)[q..] == tail;
        BatchesCompose(cs[n..], r, q);
      }
    }
  }

  /** How many source candles make a target candle; 1 where the list comes back as it is. */
  function Ratio(source: int, target: int): nat {
    if source <= 0 || target <= 0 || target <= source then 1
    else if target / source < 2 then 1
    else target / source
  }

  /** A full batch spans at most the target timeframe, and one candle more would exceed it. */
  lemma BatchFillsTarget(source: int, target: int)
    requires 0 < source <= target
    ensures Ratio(source, target) * source <= target < (Ratio(source, target) + 1) * source
  {
    if target / source >= 2 {
      var q := target / source;
      assert target == source * q + target % source;
      assert (q + 1) * source == source * q + source;
    } else {
      QuotientBelowTwo(source, target);
    }
  }

  lemma QuotientBelowTwo(source: int, target: int)
    requires 0 < source <= target && target / source < 2
    ensures target < 2 * source
  {
    assert target == source * (target / source) + target % source;
    assert target / source <= 1;
    assert source * (target / source) <= source * 1;
  }

  function Resampled(cs: seq<Candle>, source: int, target: int): seq<Candle> {
    if Ratio(source, target) == 1 then cs else Batches(cs, Ratio(source, target))
  }

  lemma ResampledIsBatches(cs: seq<Candle>, source: int, target: int)
    ensures Resampled(cs, source, target) == Batches(cs, Ratio(source, target))
  {
    BatchesOfOne(cs);
  }

  /** Resampling in two steps and in one agree on every candle list. */
  ghost predicate Composes(a: int, b: int, c: int) {
    forall cs {:trigger Resampled(cs, a, b)} :: Resampled(Resampled(cs, a, b), b, c) == Resampled(cs, a, c)
  }

  lemma BatchCount(cs: seq<Candle>, ratio: nat)
    requires ratio > 0 && cs != []
    ensures |Batches(cs, ratio)| == 1 <==> |cs| <= ratio
  {
    if |cs| > ratio {
      BatchesKeepTotals(cs[ratio..], ratio);
    } else {
      assert Batches(cs[|cs|..], ratio) == [];
    }
  }

  lemma TwoSteps(cs: seq<Candle>, a: int, b: int, c: int, n: nat)
    requires n == Ratio(b, c) * Ratio(a, b)
    ensures n > 0 && Resampled(Resampled(cs, a, b), b, c) == Batches(cs, n)
  {
    hide Batches, Resampled, Ratio;
    RatioPositive(a, b);
    RatioPositive(b, c);
    ResampledIsBatches(cs, a, b);
    ResampledIsBatches(Batches(cs, Ratio(a, b)), b, c);
    BatchesCompose(cs, Ratio(a, b), Ratio(b, c));
  }

  lemma RatioPositive(a: int, b: int)
    ensures Ratio(a, b) > 0
  {
  }

  /** Different batch sizes differ on a list of the larger size. */
  lemma SizesDiffer(n: nat, m: nat) returns (cs: seq<Candle>)
    requires n > 0 && m > 0 && n != m
    ensures Batches(cs, n) != Batches(cs, m)
  {
    cs := seq(if n > m then n else m, _ => Candle(0, 0, 0.0, 0.0, 0.0, 0.0, 0.0, 0.0, 0));
    BatchCount(cs, n);
    BatchCount(cs, m);
  }

  /** Two steps are one step exactly when the ratios multiply: for all lists or, with enough candles, not. */
  lemma ComposesWhenRatiosMultiply(a: int, b: int, c: int)
    ensures Composes(a, b, c) <==> Ratio(b, c) * Ratio(a, b) == Ratio(a, c)
  {
    var n := Ratio(b, c) * Ratio(a, b);
    RatioPositive(a, c);
    if n == Ratio(a, c) {
      forall cs {:trigger Resampled(cs, a, b)}
        ensures Resampled(Resampled(cs, a, b), b, c) == Resampled(cs, a, c)
      {
        TwoSteps(cs, a, b, c, n);
        ResampledIsBatches(cs, a, c);
      }
    } else {
      TwoSteps([], a, b, c, n);
      var cs := SizesDiffer(n, Ratio(a, c));
      TwoSteps(cs, a, b, c, n);
      ResampledIsBatches(cs, a, c);
      assert Resampled(Resampled(cs, a, b), b, c) != Resampled(cs, a, c);
    }
  }

  lemma FloorOfMultiple(a: int, x: int)
    requires a > 0
    ensures (a * x) / a == x
  {
    Quotient(a, x, (a * x) / a, (a * x) % a);
  }

  lemma LargerProduct(a: int, x: int)
    requires a > 0 && x >= 2
    ensures a * x > a
  {
  }

  /** In particular when each timeframe is a multiple of the one before. */
  lemma MultiplesCompose(a: int, x: int, y: int, b: int, c: int)
    requires a > 0 && x >= 2 && y >= 2 && b == a * x && c == b * y
    ensures Composes(a, b, c)
  {
    hide Ratio, Composes;
    LargerProduct(a, x);
    LargerProduct(x, y);
    RatioOfMultiple(a, x, b);
    RatioOfMultiple(b, y, c);
    RatiosMultiply(a, x, y, b, c);
    RatioOfMultiple(a, x * y, c);
    ComposesWhenRatiosMultiply(a, b, c);
  }

  lemma RatiosMultiply(a: int, x: int, y: int, b: int, c: int)
    requires b == a * x && c == b * y
    ensures c == a * (x * y) && y * x == x * y
  {
  }

  lemma RatioOfMultiple(a: int, x: int, ax: int)
    requires a > 0 && x >= 2 && ax == a * x
    ensures Ratio(a, ax) == x
  {
    LargerProduct(a, x);
    FloorOfMultiple(a, x);
  }

  /** Resampling keeps the overall candle: total volumes and trades, extreme prices, first open, last close. */
  lemma TotalsKept(cs: seq<Candle>, source: int, target: int)
    requires cs != []
    ensures Resampled(cs, source, target) != [] && Merge(Resampled(cs, source, target)) == Merge(cs)
  {
    BatchesKeepTotals(cs, Ratio(source, target));
  }

  /** DataResampler.resample_candles on timeframes in minutes; 0 or less stands for one that cannot be parsed. */
  method ResampleCandles(cs: seq<Candle>, source: int, target: int) returns (resampled: seq<Candle>)
    ensures resampled == Resampled(cs, source, target)
  {
    if cs == [] {
      return [];
    }
    if source <= 0 || target <= 0 {
      return cs;
    }
    if target <= source {
      return cs;
    }
    var ratio := target / source;
    if ratio < 2 {
      return cs;
    }
    resampled := InBatches(cs, ratio);
  }

  method InBatches(cs: seq<Candle>, ratio: nat) returns (resampled: seq<Candle>)
    requires ratio > 0
    ensures resampled == Batches(cs, ratio)
  {
    hide Batches;
    resampled := [];
    NoBatches(ratio);
    var i := 0;
    assert cs[0..] == cs;
    while i < |cs|
      invariant 0 <= i
      invariant Batches(cs, ratio) == resampled + Batches(From(cs, i), ratio)
    {
      var end := if i + ratio < |cs| then i + ratio else |cs|;
      var batch := cs[i..end];
      BatchesUnfold(cs[i..], ratio, end - i);
      assert cs[i..][..end - i] == batch && cs[i..][end - i..] == cs[end..];
      resampled := resampled + [Merge(batch)];
      i := i + ratio;
      assert From(cs, i) == cs[end..];
    }
  }

  function From(cs: seq<Candle>, i: nat): seq<Candle> {
    if i < |cs| then cs[i..] else []
  }
}
