/** The volume profile: every traded unit lands in one price bin, and the value area grows greedily around the peak. */
module VolumeProfile {
  import opened Sums

  // The bins.

  function Least(s: seq<real>): (r: real)
    requires s != []
    ensures r in s && forall i :: 0 <= i < |s| ==> r <= s[i]
  {
    if |s| == 1 then s[0]
    else
      var r := Least(s[..|s| - 1]);
      if s[|s| - 1] < r then s[|s| - 1] else r
  }

  function Greatest(s: seq<real>): (r: real)
    requires s != []
    ensures r in s && forall i :: 0 <= i < |s| ==> s[i] <= r
  {
    if |s| == 1 then s[0]
    else
      var r := Greatest(s[..|s| - 1]);
      if s[|s| - 1] > r then s[|s| - 1] else r
  }

  /** Python's int(): truncation towards zero. */
  function Truncated(q: real): int {
    if q < 0.0 then -((-q).Floor) else q.Floor
  }

  /** The bin of a price between low and high, counted in bins. */
  function BinAt(q: real, bins: nat): (b: nat)
    requires bins >= 1
    ensures b < bins
    ensures 0.0 <= q < bins as real ==> b as real <= q < b as real + 1.0
    ensures q >= bins as real ==> b == bins - 1
    ensures q < 0.0 ==> b == 0
  {
    var idx := if Truncated(q) < bins - 1 then Truncated(q) else bins - 1;
    if idx < 0 then 0 else idx
  }

  function Bin(low: real, high: real, bins: nat, price: real): (b: nat)
    requires low != high && bins >= 1
    ensures b < bins
  {
    BinAt((price - low) / (high - low) * bins as real, bins)
  }

  /** The k-th of the bins + 1 evenly spaced edges. */
  function Edge(low: real, high: real, bins: nat, k: nat): real
    requires bins >= 1
  {
    low + (high - low) / bins as real * k as real
  }

  lemma EdgesInBins(width: real, bins: real, offset: real, k: real)
    requires width > 0.0 && bins > 0.0
    ensures k <= offset / width * bins <==> width / bins * k <= offset
    ensures offset / width * bins < k <==> offset < width / bins * k
  {
    var q, s := offset / width, width / bins;
    assert q * width == offset;
    assert s * bins == width && s > 0.0;
    assert q * bins * s == q * width;
    if k <= q * bins {
      assert k * s <= q * bins * s;
    } else {
      assert k * s > q * bins * s;
    }
  }

  /** A price in the range lies between the edges of its bin; only the highest sits on the last one's upper edge. */
  lemma BinHoldsPrice(low: real, high: real, bins: nat, price: real)
    requires low <= price <= high && low < high && bins >= 1
    ensures var b := Bin(low, high, bins, price);
            && Edge(low, high, bins, b) <= price
            && (price < Edge(low, high, bins, b + 1) || price == high == Edge(low, high, bins, b + 1))
  {
    var q := (price - low) / (high - low) * bins as real;
    var b := Bin(low, high, bins, price);
    EdgesInBins(high - low, bins as real, price - low, 0.0);
    EdgesInBins(high - low, bins as real, price - low, b as real);
    EdgesInBins(high - low, bins as real, price - low, (b + 1) as real);
    EdgesInBins(high - low, bins as real, price - low, bins as real);
    assert (high - low) / bins as real * bins as real == high - low;
  }

  /** The edges run from the low to the high in equal steps. */
  lemma EdgesAreEven(low: real, high: real, bins: nat, k: nat)
    requires bins >= 1
    ensures Edge(low, high, bins, 0) == low && Edge(low, high, bins, bins) == high
    ensures (Edge(low, high, bins, k + 1) - Edge(low, high, bins, k)) * bins as real == high - low
  {
    var step := (high - low) / bins as real;
    assert step * bins as real == high - low;
    assert step * (k + 1) as real == step * k as real + step;
  }

  // Filling them.

  datatype Candles = Candles(highs: seq<real>, lows: seq<real>, closes: seq<real>, volumes: seq<real>) {
    predicate Aligned() {
      |highs| == |lows| == |closes| == |volumes|
    }

    function Typical(i: nat): real
      requires Aligned() && i < |closes|
    {
      (highs[i] + lows[i] + closes[i]) / 3.0
    }

    function Low(): real
      requires lows != []
    {
      Least(lows)
    }

    function High(): real
      requires highs != []
    {
      Greatest(highs)
    }

    function BinOf(bins: nat, i: nat): (b: nat)
      requires Aligned() && i < |closes| && bins >= 1 && Low() != High()
      ensures b < bins
    {
      Bin(Low(), High(), bins, Typical(i))
    }
  }

  /** A candle that closes between its low and its high is counted in the bin its typical price lies in. */
  lemma CandleInItsBin(c: Candles, bins: nat, i: nat)
    requires c.Aligned() && i < |c.closes| && bins >= 1 && c.Low() != c.High()
    requires forall k :: 0 <= k < |c.closes| ==> c.lows[k] <= c.closes[k] <= c.highs[k]
    ensures var b := c.BinOf(bins, i);
            && Edge(c.Low(), c.High(), bins, b) <= c.Typical(i)
            && (c.Typical(i) < Edge(c.Low(), c.High(), bins, b + 1)
                || c.Typical(i) == c.High() == Edge(c.Low(), c.High(), bins, b + 1))
  {
    assert c.Low() <= c.lows[i] && c.highs[i] <= c.High();
    assert c.Low() <= c.Typical(i) <= c.High();
    BinHoldsPrice(c.Low(), c.High(), bins, c.Typical(i));
  }

  /** The bin of a price is the one whose edges it lies between; the last one takes the high too. */
  lemma OnlyBin(low: real, high: real, bins: nat, price: real, j: nat)
    requires low <= price <= high && low < high && j < bins
    ensures Bin(low, high, bins, price) == j <==>
      Edge(low, high, bins, j) <= price && (price < Edge(low, high, bins, j + 1) || (j == bins - 1 && price == high))
  {
    var q := (price - low) / (high - low) * bins as real;
    EdgesInBins(high - low, bins as real, price - low, j as real);
    EdgesInBins(high - low, bins as real, price - low, (j + 1) as real);
    InRangeOfBins(low, high, bins, price, q);
    hide BinAt;
    BinAtIs(q, bins, j);
  }

  lemma InRangeOfBins(low: real, high: real, bins: nat, price: real, q: real)
    requires low <= price <= high && low < high && bins >= 1
    requires q == (price - low) / (high - low) * bins as real
    ensures 0.0 <= q <= bins as real && (q == bins as real <==> price == high)
  {
    ShareOfWidth(price - low, high - low, bins as real, q);
  }

  lemma ShareOfWidth(offset: real, width: real, bins: real, q: real)
    requires 0.0 <= offset <= width && width > 0.0 && bins > 0.0 && q == offset / width * bins
    ensures 0.0 <= q <= bins && (q == bins <==> offset == width)
  {
    var share := offset / width;
    assert share * width == offset;
    assert 0.0 <= share;
    assert share <= 1.0;
    assert share == 1.0 <==> offset == width;
    if share < 1.0 {
      assert (1.0 - share) * bins > 0.0;
    }
  }

  lemma BinAtIs(q: real, bins: nat, j: nat)
    requires 0.0 <= q <= bins as real && j < bins
    ensures BinAt(q, bins) == j <==> j as real <= q && (q < (j + 1) as real || (j == bins - 1 && q == bins as real))
  {
  }

  /** A candle is counted in a bin exactly if its typical price lies between the bin's edges. */
  lemma WhenInBin(c: Candles, bins: nat, i: nat, j: nat)
    requires c.Aligned() && i < |c.closes| && j < bins && c.Low() != c.High()
    requires forall k :: 0 <= k < |c.closes| ==> c.lows[k] <= c.closes[k] <= c.highs[k]
    ensures c.BinOf(bins, i) == j <==> InBin(c, bins, i, j)
  {
    assert c.Low() <= c.lows[i] && c.highs[i] <= c.High();
    assert c.Low() <= c.Typical(i) <= c.High();
    hide Edge, Bin;
    OnlyBin(c.Low(), c.High(), bins, c.Typical(i), j);
  }

  predicate InBin(c: Candles, bins: nat, i: nat, j: nat)
    requires c.Aligned() && i < |c.closes| && j < bins
  {
    && Edge(c.Low(), c.High(), bins, j) <= c.Typical(i)
    && (c.Typical(i) < Edge(c.Low(), c.High(), bins, j + 1) || (j == bins - 1 && c.Typical(i) == c.High()))
  }

  /** So each bin holds the volume of just the candles whose typical price lies in it. */
  lemma {:induction false} VolumeBetweenEdges(c: Candles, bins: nat, n: nat, j: nat, f: int -> real)
    requires c.Aligned() && n <= |c.closes| && j < bins && c.closes != [] && c.Low() != c.High()
    requires forall k :: 0 <= k < |c.closes| ==> c.lows[k] <= c.closes[k] <= c.highs[k]
    requires forall i :: 0 <= i < n ==> f(i) == if InBin(c, bins, i, j) then c.volumes[i] else 0.0
    ensures VolumeIn(c, bins, n, j) == Sum(n, f)
  {
    hide InBin;
    if n > 0 {
      VolumeBetweenEdges(c, bins, n - 1, j, f);
      WhenInBin(c, bins, n - 1, j);
    }
  }

  /** The volume of those of the first n candles that fall into bin j. */
  function VolumeIn(c: Candles, bins: nat, n: nat, j: int): real
    requires c.Aligned() && n <= |c.closes| && bins >= 1 && (n == 0 || c.Low() != c.High())
  {
    if n == 0 then 0.0
    else VolumeIn(c, bins, n - 1, j) + if c.BinOf(bins, n - 1) == j then c.volumes[n - 1] else 0.0
  }

  function BinVolumes(c: Candles, bins: nat): (v: seq<real>)
    requires c.Aligned() && c.closes != [] && bins >= 1 && c.Low() != c.High()
    ensures |v| == bins
  {
    seq(bins, j => VolumeIn(c, bins, |c.closes|, j))
  }

  function Volume(v: seq<real>, a: nat, b: nat): real
    requires a <= b <= |v|
  {
    if a == b then 0.0 else Volume(v, a, b - 1) + v[b - 1]
  }

  lemma {:induction false} VolumeIsSum(v: seq<real>, b: nat, f: int -> real)
    requires b <= |v| && forall j :: 0 <= j < b ==> f(j) == v[j]
    ensures Volume(v, 0, b) == Sum(b, f)
  {
    if b > 0 {
      VolumeIsSum(v, b - 1, f);
    }
  }

  lemma {:induction false} VolumeCounted(c: Candles, bins: nat, n: nat)
    requires c.Aligned() && n <= |c.closes| && bins >= 1 && (n == 0 || c.Low() != c.High())
    ensures Sum(bins, j => VolumeIn(c, bins, n, j)) == Volume(c.volumes, 0, n)
  {
    if n == 0 {
      SumZero(bins, j => VolumeIn(c, bins, n, j));
    } else {
      VolumeCounted(c, bins, n - 1);
      var before := j => VolumeIn(c, bins, n - 1, j);
      var added := j => if c.BinOf(bins, n - 1) == j then c.volumes[n - 1] else 0.0;
      SumAdd(bins, before, added);
      SumPick(bins, c.BinOf(bins, n - 1), added);
      SumCong(bins, j => VolumeIn(c, bins, n, j), j => before(j) + added(j));
      SumCong(bins, before, j => VolumeIn(c, bins, n - 1, j));
    }
  }

  /** No volume is lost or counted twice: the bins add up to the input. */
  lemma BinsHoldAllVolume(c: Candles, bins: nat)
    requires c.Aligned() && c.closes != [] && bins >= 1 && c.Low() != c.High()
    ensures Volume(BinVolumes(c, bins), 0, bins) == Volume(c.volumes, 0, |c.volumes|)
  {
    VolumeCounted(c, bins, |c.closes|);
    VolumeIsSum(BinVolumes(c, bins), bins, j => VolumeIn(c, bins, |c.closes|, j));
  }

  // The value area.

  /** The bin below is taken if there is one and the bin above, if any, holds no more. */
  predicate GoesDown(v: seq<real>, lo: nat, hi: nat)
    requires lo <= hi < |v|
  {
    lo > 0 && (hi == |v| - 1 || v[lo - 1] >= v[hi + 1])
  }

  /** The first range, growing from lo..hi by the larger neighbour, to reach the target, or all bins. */
  function ValueArea(v: seq<real>, lo: nat, hi: nat, target: real): (r: (nat, nat))
    requires lo <= hi < |v|
    ensures r.0 <= lo && hi <= r.1 < |v|
    decreases |v| - (hi - lo)
  {
    if Volume(v, lo, hi + 1) >= target || (lo == 0 && hi == |v| - 1) then (lo, hi)
    else if GoesDown(v, lo, hi) then ValueArea(v, lo - 1, hi, target)
    else ValueArea(v, lo, hi + 1, target)
  }

  lemma {:induction false} VolumeFromLeft(v: seq<real>, a: nat, b: nat)
    requires a < b <= |v|
    ensures Volume(v, a, b) == v[a] + Volume(v, a + 1, b)
  {
    if a + 1 < b {
      VolumeFromLeft(v, a, b - 1);
    }
  }

  lemma {:induction false} VolumeNonneg(v: seq<real>, a: nat, b: nat)
    requires a <= b <= |v| && forall j :: 0 <= j < |v| ==> v[j] >= 0.0
    ensures Volume(v, a, b) >= 0.0
  {
    if a < b {
      VolumeNonneg(v, a, b - 1);
    }
  }

  /** Unless all bins are taken the target is reached, and without the bin added last it was not; that bin held no less
      than its rival above, or more than its rival below. */
  lemma {:induction false} AreaIsTight(v: seq<real>, lo: nat, hi: nat, target: real)
    requires lo <= hi < |v|
    ensures var (a, b) := ValueArea(v, lo, hi, target);
            && (Volume(v, a, b + 1) >= target || (a == 0 && b == |v| - 1))
            && ((a == lo && b == hi)
                || (a < lo && (b == |v| - 1 || v[a] >= v[b + 1]) && Volume(v, a + 1, b + 1) < target)
                || (b > hi && (a == 0 || v[b] > v[a - 1]) && Volume(v, a, b) < target))
    decreases |v| - (hi - lo)
  {
    if Volume(v, lo, hi + 1) < target && (lo > 0 || hi < |v| - 1) {
      if GoesDown(v, lo, hi) {
        AreaIsTight(v, lo - 1, hi, target);
      } else {
        AreaIsTight(v, lo, hi + 1, target);
      }
    }
  }

  function Target(v: seq<real>): real {
    Volume(v, 0, |v|) * 0.70
  }

  /** With no negative volume the value area around any bin holds at least 70% of the total, and did not without the bin
      added last. */
  lemma AreaHoldsItsShare(v: seq<real>, poc: nat)
    requires poc < |v| && forall j :: 0 <= j < |v| ==> v[j] >= 0.0
    ensures var (a, b) := ValueArea(v, poc, poc, Target(v));
            var total := Volume(v, 0, |v|);
            && 100.0 * Volume(v, a, b + 1) >= 70.0 * total
            && ((a == b == poc)
                || (a < poc && 100.0 * Volume(v, a + 1, b + 1) < 70.0 * total)
                || (b > poc && 100.0 * Volume(v, a, b) < 70.0 * total))
  {
    VolumeNonneg(v, 0, |v|);
    AreaIsTight(v, poc, poc, Target(v));
  }

  // On a profile with one peak the greedy value area is the narrowest there is.

  ghost predicate Peaked(v: seq<real>, poc: nat)
    requires poc < |v|
  {
    && (forall i, j :: 0 <= i <= j <= poc ==> v[i] <= v[j])
    && (forall i, j :: poc <= i <= j < |v| ==> v[i] >= v[j])
  }

  ghost predicate Dominates(v: seq<real>, lo: nat, hi: nat)
    requires lo <= hi < |v|
  {
    forall i, o :: lo <= i <= hi && 0 <= o < |v| && (o < lo || o > hi) ==> v[o] <= v[i]
  }

  /** The last range short of the target, all of whose bins are still larger than all others. */
  lemma {:induction false} LastShortRange(v: seq<real>, poc: nat, lo: nat, hi: nat, target: real)
      returns (a: nat, b: nat)
    requires lo <= poc <= hi < |v| && Peaked(v, poc) && Dominates(v, lo, hi)
    requires ValueArea(v, lo, hi, target) != (lo, hi)
    ensures a <= b < |v| && Dominates(v, a, b) && Volume(v, a, b + 1) < target
    ensures var r := ValueArea(v, lo, hi, target); r.1 - r.0 == b - a + 1
    decreases |v| - (hi - lo)
  {
    var lo', hi' := if GoesDown(v, lo, hi) then lo - 1 else lo, if GoesDown(v, lo, hi) then hi else hi + 1;
    a, b := lo, hi;
    if ValueArea(v, lo', hi', target) != (lo', hi') {
      assert Dominates(v, lo', hi') by {
        forall i, o | lo' <= i <= hi' && 0 <= o < |v| && (o < lo' || o > hi') ensures v[o] <= v[i] {
          if lo <= i <= hi {
          } else if o < lo' {
            assert lo > 0 ==> v[o] <= v[lo - 1];
          } else {
            assert hi + 1 < |v| ==> v[o] <= v[hi + 1];
          }
        }
      }
      a, b := LastShortRange(v, poc, lo', hi', target);
    }
  }

  lemma {:induction false} VolumeSplits(v: seq<real>, a: nat, k: nat, b: nat)
    requires a <= k <= b <= |v|
    ensures Volume(v, a, b) == Volume(v, a, k) + Volume(v, k, b)
  {
    if k < b {
      VolumeSplits(v, a, k, b - 1);
    }
  }

  /** Equally many bins, each at most any of the others. */
  lemma {:induction false} VolumeCompares(v: seq<real>, a: nat, c: nat, n: nat)
    requires a + n <= |v| && c + n <= |v|
    requires forall i, o :: c <= i < c + n && a <= o < a + n ==> v[o] <= v[i]
    ensures Volume(v, a, a + n) <= Volume(v, c, c + n)
  {
    if n > 0 {
      VolumeCompares(v, a, c, n - 1);
    }
  }

  lemma DominantOverLower(v: seq<real>, lo: nat, hi: nat, a: nat)
    requires a <= lo <= hi < |v| && Dominates(v, lo, hi)
    ensures Volume(v, a, a + (hi + 1 - lo)) <= Volume(v, lo, hi + 1)
  {
    var w := hi + 1 - lo;
    var d := if lo - a <= w then lo - a else w;
    VolumeSplits(v, a, a + d, a + w);
    VolumeSplits(v, lo, hi + 1 - d, hi + 1);
    VolumeCompares(v, a, hi + 1 - d, d);
    hide Volume, Dominates;
    assert d == lo - a || (a + d == a + w && lo == hi + 1 - d);
  }

  lemma DominantOverHigher(v: seq<real>, lo: nat, hi: nat, a: nat)
    requires lo <= hi < |v| && Dominates(v, lo, hi) && lo <= a && a + (hi + 1 - lo) <= |v|
    ensures Volume(v, a, a + (hi + 1 - lo)) <= Volume(v, lo, hi + 1)
  {
    var w := hi + 1 - lo;
    var d := if a - lo <= w then a - lo else w;
    VolumeSplits(v, a, a + w - d, a + w);
    VolumeSplits(v, lo, lo + d, hi + 1);
    VolumeCompares(v, a + w - d, lo, d);
    hide Volume, Dominates;
    assert d == a - lo || (a == a + w - d && lo + d == hi + 1);
  }

  /** A range whose bins are larger than all others holds the most of all ranges of its width. */
  lemma DominantHoldsMost(v: seq<real>, lo: nat, hi: nat, a: nat)
    requires lo <= hi < |v| && Dominates(v, lo, hi) && a + (hi + 1 - lo) <= |v|
    ensures Volume(v, a, a + (hi + 1 - lo)) <= Volume(v, lo, hi + 1)
  {
    hide Volume, Dominates;
    if a <= lo {
      DominantOverLower(v, lo, hi, a);
    } else {
      DominantOverHigher(v, lo, hi, a);
    }
  }

  lemma WiderHoldsMore(v: seq<real>, a: nat, b: nat, a': nat, b': nat)
    requires a' <= a <= b <= b' <= |v| && forall j :: 0 <= j < |v| ==> v[j] >= 0.0
    ensures Volume(v, a, b) <= Volume(v, a', b')
  {
    VolumeSplits(v, a', a, b');
    VolumeSplits(v, a, b, b');
    VolumeNonneg(v, a', a);
    VolumeNonneg(v, b, b');
  }

  /** On a profile with one peak no range with fewer bins than the value area reaches the target. */
  lemma NarrowestOnOnePeak(v: seq<real>, poc: nat, target: real, a: nat, b: nat)
    requires poc < |v| && Peaked(v, poc) && forall j :: 0 <= j < |v| ==> v[j] >= 0.0
    requires a < b <= |v| && Volume(v, a, b) >= target
    ensures var r := ValueArea(v, poc, poc, target); r.1 + 1 - r.0 <= b - a
  {
    var r := ValueArea(v, poc, poc, target);
    if r != (poc, poc) && b - a < r.1 + 1 - r.0 {
      var lo, hi := LastShortRange(v, poc, poc, poc, target);
      var w := hi + 1 - lo;
      var a' := if a + w <= |v| then a else |v| - w;
      WiderHoldsMore(v, a, b, a', a' + w);
      DominantHoldsMost(v, lo, hi, a');
      assert false;
    }
  }

  // The computation.

  /** The first of the largest bins. */
  function ArgMax(v: seq<real>): (k: nat)
    requires v != []
    ensures k < |v|
    ensures forall j :: 0 <= j < |v| ==> v[j] <= v[k]
    ensures forall j :: 0 <= j < k ==> v[j] < v[k]
  {
    if |v| == 1 then 0
    else
      var k := ArgMax(v[..|v| - 1]);
      if v[|v| - 1] > v[k] then |v| - 1 else k
  }

  datatype Profile = NoProfile | Profile(prices: seq<real>, volumes: seq<real>, poc: real, high: real, low: real)

  function Middle(low: real, high: real, bins: nat, k: nat): real
    requires bins >= 1
  {
    (Edge(low, high, bins, k) + Edge(low, high, bins, k + 1)) / 2.0
  }

  /** The price given for a bin lies halfway between its edges, and in it. */
  lemma PriceOfBin(low: real, high: real, bins: nat, k: nat)
    requires low < high && k < bins
    ensures Middle(low, high, bins, k) - Edge(low, high, bins, k)
         == Edge(low, high, bins, k + 1) - Middle(low, high, bins, k) > 0.0
    ensures Bin(low, high, bins, Middle(low, high, bins, k)) == k
  {
    var price := Middle(low, high, bins, k);
    EdgesInRange(low, high, bins, k);
    assert Edge(low, high, bins, k) < price < Edge(low, high, bins, k + 1);
    hide Edge, Bin;
    OnlyBin(low, high, bins, price, k);
  }

  lemma EdgesInRange(low: real, high: real, bins: nat, k: nat)
    requires low < high && k < bins
    ensures low <= Edge(low, high, bins, k) < Edge(low, high, bins, k + 1) <= high
  {
    var step := (high - low) / bins as real;
    assert step > 0.0 && step * bins as real == high - low;
    assert step * k as real >= 0.0;
    assert step * (k + 1) as real == step * k as real + step;
    assert step * (bins - k - 1) as real >= 0.0;
    assert step * bins as real == step * (k + 1) as real + step * (bins - k - 1) as real;
  }

  /** A candle's high, low and close balance around its typical price. */
  lemma TypicalBalances(c: Candles, i: nat)
    requires c.Aligned() && i < |c.closes|
    ensures (c.highs[i] - c.Typical(i)) + (c.lows[i] - c.Typical(i)) + (c.closes[i] - c.Typical(i)) == 0.0
  {
  }

  method FillBins(c: Candles, bins: nat) returns (binVolumes: array<real>)
    requires c.Aligned() && c.closes != [] && bins >= 1 && c.Low() != c.High()
    ensures fresh(binVolumes) && binVolumes[..] == BinVolumes(c, bins)
  {
    binVolumes := new real[bins](_ => 0.0);
    for i := 0 to |c.closes|
      invariant forall j :: 0 <= j < bins ==> binVolumes[j] == VolumeIn(c, bins, i, j)
    {
      var idx := c.BinOf(bins, i);
      binVolumes[idx] := binVolumes[idx] + c.volumes[i];
    }
  }

  method GrowValueArea(v: array<real>, poc: nat) returns (low: nat, high: nat)
    requires poc < v.Length
    ensures (low, high) == ValueArea(v[..], poc, poc, Target(v[..]))
  {
    ghost var bins := v[..];
    var total := 0.0;
    for i := 0 to v.Length
      invariant total == Volume(bins, 0, i)
    {
      total := total + v[i];
    }
    var target := total * 0.70;
    low, high := poc, poc;
    var volume := v[poc];
    while volume < target && (low > 0 || high < v.Length - 1)
      invariant low <= high < v.Length && volume == Volume(bins, low, high + 1)
      invariant ValueArea(bins, low, high, target) == ValueArea(bins, poc, poc, target)
      decreases v.Length - (high - low)
    {
      var addLow := if low > 0 then v[low - 1] else 0.0;
      var addHigh := if high < v.Length - 1 then v[high + 1] else 0.0;
      if addLow >= addHigh && low > 0 {
        low := low - 1;
        volume := volume + v[low];
        VolumeFromLeft(bins, low, high + 1);
      } else if high < v.Length - 1 {
        high := high + 1;
        volume := volume + v[high];
      } else if low > 0 {
        low := low - 1;
        volume := volume + v[low];
        VolumeFromLeft(bins, low, high + 1);
      } else {
        break;
      }
    }
  }

  method Compute(c: Candles, bins: nat) returns (p: Profile)
    requires c.Aligned() && bins >= 1
    ensures |c.closes| < bins ==> p == NoProfile
    ensures |c.closes| >= bins && c.Low() == c.High() ==>
      p == Profile([c.Low()], [Volume(c.volumes, 0, |c.volumes|)], c.Low(), c.Low(), c.Low())
    ensures |c.closes| >= bins && c.Low() != c.High() ==>
      var v := BinVolumes(c, bins);
      var poc := ArgMax(v);
      var (a, b) := ValueArea(v, poc, poc, Target(v));
      && p.Profile? && p.volumes == v
      && p.poc == Middle(c.Low(), c.High(), bins, poc)
      && p.low == Edge(c.Low(), c.High(), bins, a) && p.high == Edge(c.Low(), c.High(), bins, b + 1)
      && |p.prices| == bins && forall k :: 0 <= k < bins ==> p.prices[k] == Middle(c.Low(), c.High(), bins, k)
  {
    if |c.closes| < bins {
      return NoProfile;
    }
    var low, high := c.Low(), c.High();
    if high == low {
      var total := 0.0;
      for i := 0 to |c.volumes|
        invariant total == Volume(c.volumes, 0, i)
      {
        total := total + c.volumes[i];
      }
      return Profile([low], [total], low, low, low);
    }
    var binVolumes := FillBins(c, bins);
    var poc := ArgMax(binVolumes[..]);
    var a, b := GrowValueArea(binVolumes, poc);
    p := Profile(seq(bins, k requires 0 <= k => Middle(low, high, bins, k)), binVolumes[..],
                 Middle(low, high, bins, poc), Edge(low, high, bins, b + 1), Edge(low, high, bins, a));
  }
}
