/** The Haar wavelet decomposition loses nothing: energy is kept and the padded signal can be rebuilt. */
module Haar {
  import opened Reals

  ghost predicate IsRoot2(r: real) {
    r > 0.0 && r * r == 2.0
  }

  function Approx(r: real, c: seq<real>): seq<real>
    requires r != 0.0
  {
    seq(|c| / 2, i requires 0 <= i < |c| / 2 => (c[2 * i] + c[2 * i + 1]) / r)
  }

  function Detail(r: real, c: seq<real>): seq<real>
    requires r != 0.0
  {
    seq(|c| / 2, i requires 0 <= i < |c| / 2 => (c[2 * i] - c[2 * i + 1]) / r)
  }

  /** The inverse of one level. */
  function Merge(r: real, a: seq<real>, d: seq<real>): seq<real>
    requires r != 0.0 && |a| == |d|
  {
    seq(2 * |a|, k requires 0 <= k < 2 * |a| =>
      if k % 2 == 0 then (a[k / 2] + d[k / 2]) / r else (a[k / 2] - d[k / 2]) / r)
  }

  function Energy(c: seq<real>): real {
    if c == [] then 0.0 else Energy(c[..|c| - 1]) + Square(c[|c| - 1])
  }

  lemma Distribute(a: real, b: real, c: real)
    ensures (a + b) * c == a * c + b * c && (a - b) * c == a * c - b * c
  {
  }

  lemma Halve(r: real, p: real, x: real)
    requires IsRoot2(r) && p * r == 2.0 * x
    ensures p / r == x
  {
    MulDiv(p, r);
    Associate(x, r, r);
    SameFactor(r, p, x * r);
    SameFactor(r, p / r, x);
  }

  /** One pair, there and back. */
  lemma PairRebuilt(r: real, x: real, y: real)
    requires IsRoot2(r)
    ensures var p, q := (x + y) / r, (x - y) / r; (p + q) / r == x && (p - q) / r == y
  {
    var p, q := (x + y) / r, (x - y) / r;
    MulDiv(x + y, r);
    MulDiv(x - y, r);
    Distribute(p, q, r);
    Halve(r, p + q, x);
    Halve(r, p - q, y);
  }

  lemma SquareOver(r: real, a: real)
    requires IsRoot2(r)
    ensures 2.0 * ((a / r) * (a / r)) == a * a
  {
    var p := a / r;
    MulDiv(a, r);
    Associate(p, r, p * r);
    Associate(r, p, r);
    Squares(p, r, a);
  }

  lemma Squares(p: real, r: real, a: real)
    requires p * r == a && r * r == 2.0
    ensures 2.0 * (p * p) == a * a
  {
    assert (p * r) * (p * r) == (p * p) * (r * r);
  }

  lemma PairEnergy(r: real, x: real, y: real)
    requires IsRoot2(r)
    ensures Square((x + y) / r) + Square((x - y) / r) == Square(x) + Square(y)
  {
    SquareOver(r, x + y);
    SquareOver(r, x - y);
    assert (x + y) * (x + y) + (x - y) * (x - y) == 2.0 * (x * x + y * y);
  }

  lemma MergeUndoes(r: real, c: seq<real>)
    requires IsRoot2(r) && |c| % 2 == 0
    ensures Merge(r, Approx(r, c), Detail(r, c)) == c
  {
    var a, d := Approx(r, c), Detail(r, c);
    forall k | 0 <= k < |c|
      ensures Merge(r, a, d)[k] == c[k]
    {
      PairRebuilt(r, c[2 * (k / 2)], c[2 * (k / 2) + 1]);
    }
  }

  /** Where neighbours are equal there is no detail, and all of their energy is in the approximation. */
  lemma EqualPairsHaveNoDetail(r: real, c: seq<real>, i: nat)
    requires IsRoot2(r) && i < |c| / 2 && c[2 * i] == c[2 * i + 1]
    ensures Detail(r, c)[i] == 0.0 && Square(Approx(r, c)[i]) == 2.0 * Square(c[2 * i])
  {
    PairEnergy(r, c[2 * i], c[2 * i + 1]);
  }

  lemma NoEnergy(r: real)
    requires r != 0.0
    ensures Energy(Approx(r, [])) == Energy(Detail(r, [])) == Energy([]) == 0.0
  {
  }

  lemma {:induction false} EnergySplits(r: real, c: seq<real>)
    requires IsRoot2(r) && |c| % 2 == 0
    ensures Energy(Approx(r, c)) + Energy(Detail(r, c)) == Energy(c)
  {
    hide Approx, Detail, Energy;
    if c == [] {
      NoEnergy(r);
    } else {
      var n := |c|;
      var rest, x, y := c[..n - 2], c[n - 2], c[n - 1];
      EnergySplits(r, rest);
      LastPair(r, c);
      EnergyOfPair(r, Approx(r, rest), Detail(r, rest), rest, x, y);
      assert c == (rest + [x]) + [y];
    }
  }

  lemma EnergyOfPair(r: real, a: seq<real>, d: seq<real>, c: seq<real>, x: real, y: real)
    requires IsRoot2(r) && Energy(a) + Energy(d) == Energy(c)
    ensures Energy(a + [(x + y) / r]) + Energy(d + [(x - y) / r]) == Energy(c + [x] + [y])
  {
    hide Energy, Square;
    PairEnergy(r, x, y);
    EnergyAppend(a, (x + y) / r);
    EnergyAppend(d, (x - y) / r);
    EnergyAppend(c, x);
    EnergyAppend(c + [x], y);
  }

  lemma LastPair(r: real, c: seq<real>)
    requires r != 0.0 && |c| >= 2 && |c| % 2 == 0
    ensures var n := |c|;
            && Approx(r, c) == Approx(r, c[..n - 2]) + [(c[n - 2] + c[n - 1]) / r]
            && Detail(r, c) == Detail(r, c[..n - 2]) + [(c[n - 2] - c[n - 1]) / r]
  {
  }

  lemma EnergyAppend(c: seq<real>, x: real)
    ensures Energy(c + [x]) == Energy(c) + Square(x)
  {
    assert (c + [x])[..|c + [x]| - 1] == c;
  }

  // All levels.

  function TotalEnergy(details: seq<seq<real>>): real {
    if details == [] then 0.0 else TotalEnergy(details[..|details| - 1]) + Energy(details[|details| - 1])
  }

  /** Each level of detail has as many entries as the approximation it is merged with. */
  predicate Fits(size: nat, details: seq<seq<real>>)
    decreases |details|
  {
    details == [] || (|details[|details| - 1]| == size && Fits(2 * size, details[..|details| - 1]))
  }

  /** The inverse of the whole decomposition: merge in the details from the last level to the first. */
  function Rebuild(r: real, approx: seq<real>, details: seq<seq<real>>): seq<real>
    requires r != 0.0 && Fits(|approx|, details)
    decreases |details|
  {
    if details == [] then approx
    else Rebuild(r, Merge(r, approx, details[|details| - 1]), details[..|details| - 1])
  }

  predicate IsPow2(n: nat) {
    n == 1 || (n > 0 && n % 2 == 0 && IsPow2(n / 2))
  }

  /** The smallest power of two that is at least n. */
  function NextPow2(n: nat): (p: nat)
    requires n > 0
    ensures IsPow2(p) && n <= p < 2 * n
  {
    if n == 1 then 1 else 2 * NextPow2((n + 1) / 2)
  }

  lemma {:induction false} NextPow2IsLeast(n: nat, p: nat)
    requires n > 0 && IsPow2(p) && n <= p
    ensures NextPow2(n) <= p
  {
    if n > 1 {
      NextPow2IsLeast((n + 1) / 2, p / 2);
    }
  }

  function Padded(data: seq<real>, size: nat): seq<real>
    requires |data| <= size
  {
    data + seq(size - |data|, _ => 0.0)
  }

  lemma {:induction false} PaddingHasNoEnergy(data: seq<real>, size: nat)
    requires |data| <= size
    ensures Energy(Padded(data, size)) == Energy(data)
  {
    if size == |data| {
      assert Padded(data, size) == data;
    } else {
      PaddingHasNoEnergy(data, size - 1);
      assert Padded(data, size) == Padded(data, size - 1) + [0.0];
      EnergyAppend(Padded(data, size - 1), 0.0);
    }
  }

  /** A decomposition from which the padded input can be rebuilt, energy included. */
  ghost predicate Lossless(r: real, data: seq<real>, approx: seq<real>, details: seq<seq<real>>) {
    && data != [] && r != 0.0 && Fits(|approx|, details)
    && Rebuild(r, approx, details) == Padded(data, NextPow2(|data|))
    && TotalEnergy(details) + Energy(approx) == Energy(data)
  }

  /** The signal is the front of what is rebuilt, and silence follows it. */
  lemma RebuildsSignal(r: real, data: seq<real>, approx: seq<real>, details: seq<seq<real>>)
    requires Lossless(r, data, approx, details)
    ensures data <= Rebuild(r, approx, details)
    ensures forall k :: |data| <= k < |Rebuild(r, approx, details)| ==> Rebuild(r, approx, details)[k] == 0.0
    ensures |Rebuild(r, approx, details)| < 2 * |data| && IsPow2(|Rebuild(r, approx, details)|)
  {
  }

  lemma LevelIsLossless(r: real, data: seq<real>, current: seq<real>, details: seq<seq<real>>)
    requires IsRoot2(r) && Lossless(r, data, current, details) && |current| % 2 == 0
    ensures Lossless(r, data, Approx(r, current), details + [Detail(r, current)])
  {
    var details' := details + [Detail(r, current)];
    assert details'[..|details'| - 1] == details;
    MergeUndoes(r, current);
    EnergySplits(r, current);
  }

  /** Every level is computed from the one before, the first from the padded signal. */
  ghost predicate Cascade(r: real, signal: seq<real>, approximations: seq<seq<real>>, details: seq<seq<real>>) {
    && r != 0.0 && |approximations| == |details|
    && forall k :: 0 <= k < |details| ==> IsLevel(r, signal, approximations, details, k)
  }

  ghost predicate IsLevel(r: real, signal: seq<real>, approximations: seq<seq<real>>, details: seq<seq<real>>, k: nat)
    requires r != 0.0 && k < |details| == |approximations|
  {
    var before := if k == 0 then signal else approximations[k - 1];
    approximations[k] == Approx(r, before) && details[k] == Detail(r, before)
  }

  lemma CascadeAppend(r: real, signal: seq<real>, approximations: seq<seq<real>>, details: seq<seq<real>>,
                      a: seq<real>, d: seq<real>)
    requires Cascade(r, signal, approximations, details)
    requires var before := if approximations == [] then signal else approximations[|approximations| - 1];
             a == Approx(r, before) && d == Detail(r, before)
    ensures Cascade(r, signal, approximations + [a], details + [d])
  {
    forall k | 0 <= k < |details| + 1
      ensures IsLevel(r, signal, approximations + [a], details + [d], k)
    {
      assert k < |details| ==> IsLevel(r, signal, approximations, details, k);
    }
  }

  method Split(r: real, current: seq<real>) returns (approx: array<real>, detail: array<real>)
    requires r != 0.0
    ensures approx[..] == Approx(r, current) && detail[..] == Detail(r, current)
  {
    var half := |current| / 2;
    approx := new real[half];
    detail := new real[half];
    for i := 0 to half
      invariant forall k :: 0 <= k < i ==> approx[k] == Approx(r, current)[k] && detail[k] == Detail(r, current)[k]
    {
      approx[i] := (current[2 * i] + current[2 * i + 1]) / r;
      detail[i] := (current[2 * i] - current[2 * i + 1]) / r;
    }
  }

  function Prefix(c: seq<real>, n: nat): seq<real> {
    if n < |c| then c[..n] else c
  }

  /** haar_transform, with the square root of two given. Short signals come back as they are; for others no
      slice cuts anything, and the details with the last approximation hold the whole signal. */
  method Transform(r: real, data: seq<real>)
      returns (approximations: seq<seq<real>>, details: seq<seq<real>>, levels: nat)
    requires IsRoot2(r)
    ensures |data| < 4 ==> approximations == [data] && details == [[]] && levels == 0
    ensures |data| >= 4 ==>
      && levels == |approximations| == |details| > 0
      && |approximations[levels - 1]| == 2
      && Lossless(r, data, approximations[levels - 1], details)
      && Cascade(r, Padded(data, NextPow2(|data|)), approximations, details)
  {
    var n := |data|;
    if n < 4 {
      return [data], [[]], 0;
    }
    var size := NextPow2(n);
    var current := Padded(data, size);
    PaddingHasNoEnergy(data, size);
    approximations, details, levels := [], [], 0;
    while |current| >= 4
      invariant IsPow2(|current|) && 2 <= |current| < 2 * n
      invariant levels == |approximations| == |details|
      invariant levels > 0 ==> approximations[levels - 1] == current
      invariant levels == 0 ==> |current| >= 4
      invariant Lossless(r, data, current, details)
      invariant levels == 0 ==> current == Padded(data, size)
      invariant Cascade(r, Padded(data, size), approximations, details)
      decreases |current|
    {
      var half := |current| / 2;
      var approx, detail := Split(r, current);
      LevelIsLossless(r, data, current, details);
      CascadeAppend(r, Padded(data, size), approximations, details, approx[..], detail[..]);
      approximations := approximations + [Prefix(approx[..], n)];
      details := details + [Prefix(detail[..], n)];
      current := approx[..];
      levels := levels + 1;
    }
  }
}
