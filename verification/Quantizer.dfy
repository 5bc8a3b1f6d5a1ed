/** Thresholding and quantising the transformed wave, and undoing the quantisation. */
module Quantizer {
  import opened Haar
  import opened Rounding
  import opened Sequences

  const DWT_LEVELS: nat := 5

  /** The number of averages in front of the details. */
  function Averages(n: nat): (m: nat)
    ensures m <= n
  {
    n / Pow2(DWT_LEVELS)
  }

  /** The entry the quantiser divides: details below the threshold count as zero. */
  function Kept(x: int, detail: bool, threshold: int): int {
    if detail && Abs(x) < threshold then 0 else x
  }

  function QuantizedAt(c: seq<int>, n: nat, threshold: int, step: int, k: nat): int
    requires n <= |c| && step > 0 && k < |c|
  {
    if k < n then RoundDiv(Kept(c[k], k >= Averages(n), threshold), step) else c[k]
  }

  function Quantized(c: seq<int>, n: nat, threshold: int, step: int): (r: seq<int>)
    requires n <= |c| && step > 0
    ensures |r| == |c|
  {
    Tabulate(|c|, (k: nat) requires k < |c| => QuantizedAt(c, n, threshold, step, k))
  }

  lemma QuantizedEntries(c: seq<int>, n: nat, threshold: int, step: int)
    requires n <= |c| && step > 0
    ensures forall k :: 0 <= k < |c| ==> Quantized(c, n, threshold, step)[k] == QuantizedAt(c, n, threshold, step, k)
  {
    TabulateEntries(|c|, (k: nat) requires k < |c| => QuantizedAt(c, n, threshold, step, k));
  }

  /** What the threshold and the quantiser may do to a detail: lose it when it is small, else move it by at
      most half a step. */
  predicate NearDetail(x: int, y: int, threshold: int, step: int) {
    (Abs(x) < threshold && y == 0) || NearAverage(x, y, step)
  }

  predicate NearAverage(x: int, y: int, step: int) {
    2 * Abs(y - x) <= step
  }

  method QuantizeAndThreshold(coeffs: array<int>, n: nat, threshold: int, step: int)
    requires n <= coeffs.Length && step > 0
    modifies coeffs
    ensures coeffs[..] == Quantized(old(coeffs[..]), n, threshold, step)
  {
    ghost var c := coeffs[..];
    var i := Averages(n);
    while i < n
      invariant Averages(n) <= i <= n
      invariant forall k :: 0 <= k < |c| ==> coeffs[k] == if k < i then Kept(c[k], k >= Averages(n), threshold) else c[k]
    {
      if Abs(coeffs[i]) < threshold {
        coeffs[i] := 0;
      }
      i := i + 1;
    }
    i := 0;
    while i < n
      invariant 0 <= i <= n
      invariant forall k :: 0 <= k < i ==> coeffs[k] == QuantizedAt(c, n, threshold, step, k)
      invariant forall k :: i <= k < n ==> coeffs[k] == Kept(c[k], k >= Averages(n), threshold)
      invariant forall k :: n <= k < |c| ==> coeffs[k] == c[k]
    {
      coeffs[i] := RoundDiv(coeffs[i], step);
      i := i + 1;
    }
    QuantizedEntries(c, n, threshold, step);
  }

  function Dequantized(c: seq<int>, n: nat, step: int): (r: seq<int>)
    requires n <= |c|
    ensures |r| == |c|
  {
    Tabulate(|c|, (k: nat) requires k < |c| => if k < n then c[k] * step else c[k])
  }

  lemma DequantizedEntries(c: seq<int>, n: nat, step: int)
    requires n <= |c|
    ensures forall k :: 0 <= k < n ==> Dequantized(c, n, step)[k] == c[k] * step
    ensures forall k :: n <= k < |c| ==> Dequantized(c, n, step)[k] == c[k]
  {
    TabulateEntries(|c|, (k: nat) requires k < |c| => if k < n then c[k] * step else c[k]);
  }

  method InverseQuantize(coeffs: array<int>, n: nat, step: int)
    requires n <= coeffs.Length
    modifies coeffs
    ensures coeffs[..] == Dequantized(old(coeffs[..]), n, step)
  {
    ghost var c := coeffs[..];
    var i := 0;
    while i < n
      invariant 0 <= i <= n
      invariant forall k :: 0 <= k < |c| ==> coeffs[k] == if k < i then c[k] * step else c[k]
    {
      coeffs[i] := coeffs[i] * step;
      i := i + 1;
    }
    DequantizedEntries(c, n, step);
  }

  /** A symbol is the number of steps nearest to its entry, of two equally near the one further from zero. The first
      thirty-second of the wave counts in full, of the rest what is below the threshold counts as zero. */
  lemma SymbolIsNearest(c: seq<int>, n: nat, threshold: int, step: int, k: nat)
    requires n <= |c| && step > 0 && k < |c|
    ensures var y := Quantized(c, n, threshold, step)[k];
      if k >= n then y == c[k]
      else
        var x := if k >= n / 32 && -threshold < c[k] < threshold then 0 else c[k];
        && 2 * Abs(x - step * y) <= step
        && (2 * Abs(x - step * y) == step ==> Abs(step * y) >= Abs(x))
  {
    QuantizedEntries(c, n, threshold, step);
    assert Pow2(DWT_LEVELS) == 32;
  }

  /** Quantising and undoing it keeps every average within half a step, and every detail too unless it was
      below the threshold, when it is lost. */
  lemma QuantizationError(c: seq<int>, n: nat, threshold: int, step: int, k: nat)
    requires n <= |c| && step > 0 && k < n
    ensures var y := Dequantized(Quantized(c, n, threshold, step), n, step)[k];
      if k < Averages(n) then NearAverage(c[k], y, step)
      else if Abs(c[k]) < threshold then y == 0
      else NearAverage(c[k], y, step)
  {
    var r := Quantized(c, n, threshold, step);
    QuantizedEntries(c, n, threshold, step);
    DequantizedEntries(r, n, step);
    var x := Kept(c[k], k >= Averages(n), threshold);
    assert r[k] == RoundDiv(x, step);
    assert r[k] * step == step * r[k];
    if x == 0 {
      RoundDivUnique(0, step, 0);
    }
  }
}
