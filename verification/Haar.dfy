/** The multi-level Haar transform with rounding, and its inverse. */
module Haar {
  import opened Memory
  import opened Rounding
  import opened Sequences

  function Approx(a: int, b: int): int {
    RoundHalf(a + b)
  }

  function Detail(a: int, b: int): int {
    RoundHalf(a - b)
  }

  function Pow2(k: nat): (p: nat)
    ensures p > 0
  {
    if k == 0 then 1 else 2 * Pow2(k - 1)
  }

  // ---------------------------------------------------------------- layout

  /** Entry `k` after one forward level on the first `m` entries: averages first, then differences; an odd
      last entry and all entries past `m` stay. */
  function LevelAt(s: seq<int>, m: nat, k: nat): int
    requires m <= |s| && k < |s|
  {
    var h := m / 2;
    if k < h then Approx(s[2 * k], s[2 * k + 1])
    else if k < 2 * h then Detail(s[2 * (k - h)], s[2 * (k - h) + 1])
    else s[k]
  }

  /** Entry `k` after one inverse level on the first `m` entries. */
  function UnlevelAt(c: seq<int>, m: nat, k: nat): int
    requires m <= |c| && k < |c|
  {
    var h := m / 2;
    if k >= 2 * h then c[k]
    else if k % 2 == 0 then c[k / 2] + c[h + k / 2]
    else c[k / 2] - c[h + k / 2]
  }

  function Level(s: seq<int>, m: nat): (r: seq<int>)
    requires m <= |s|
    ensures |r| == |s|
  {
    Tabulate(|s|, (k: nat) requires k < |s| => LevelAt(s, m, k))
  }

  function Unlevel(c: seq<int>, m: nat): (r: seq<int>)
    requires m <= |c|
    ensures |r| == |c|
  {
    Tabulate(|c|, (k: nat) requires k < |c| => UnlevelAt(c, m, k))
  }

  lemma LevelEntries(s: seq<int>, m: nat)
    requires m <= |s|
    ensures forall k :: 0 <= k < |s| ==> Level(s, m)[k] == LevelAt(s, m, k)
  {
    TabulateEntries(|s|, (k: nat) requires k < |s| => LevelAt(s, m, k));
  }

  lemma UnlevelEntries(c: seq<int>, m: nat)
    requires m <= |c|
    ensures forall k :: 0 <= k < |c| ==> Unlevel(c, m)[k] == UnlevelAt(c, m, k)
  {
    TabulateEntries(|c|, (k: nat) requires k < |c| => UnlevelAt(c, m, k));
  }

  /** What one level is for: of each pair among the first `m` entries the halves of its sum and of its difference, rounded
      away from zero, the sums in front and the differences behind them; an odd last entry and all past `m` stay. */
  ghost predicate HalvesPairs(s: seq<int>, m: nat, r: seq<int>)
    requires m <= |s|
  {
    var h := m / 2;
    && |r| == |s|
    && (forall k :: 0 <= k < h ==>
          var x := s[2 * k] + s[2 * k + 1];
          2 * r[k] == if x % 2 == 0 then x else if x > 0 then x + 1 else x - 1)
    && (forall k :: h <= k < 2 * h ==>
          var x := s[2 * (k - h)] - s[2 * (k - h) + 1];
          2 * r[k] == if x % 2 == 0 then x else if x > 0 then x + 1 else x - 1)
    && (forall k :: 2 * h <= k < |s| ==> r[k] == s[k])
  }

  lemma LevelLayout(s: seq<int>, m: nat)
    requires m <= |s|
    ensures HalvesPairs(s, m, Level(s, m))
  {
    LevelEntries(s, m);
  }

  /** What one inverse level is for: sum and difference of each average and its difference, side by side. */
  ghost predicate MergesPairs(c: seq<int>, m: nat, r: seq<int>)
    requires m <= |c|
  {
    var h := m / 2;
    && |r| == |c|
    && (forall k :: 0 <= k < 2 * h ==> r[k] == if k % 2 == 0 then c[k / 2] + c[h + k / 2] else c[k / 2] - c[h + k / 2])
    && (forall k :: 2 * h <= k < |c| ==> r[k] == c[k])
  }

  lemma UnlevelLayout(c: seq<int>, m: nat)
    requires m <= |c|
    ensures MergesPairs(c, m, Unlevel(c, m))
  {
    UnlevelEntries(c, m);
  }

  /** All forward levels: each works on the averages of the one before, and none on fewer than two entries. */
  function Forward(s: seq<int>, m: nat, levels: nat): (r: seq<int>)
    requires m <= |s|
    ensures |r| == |s|
    decreases levels
  {
    if levels == 0 || m < 2 then s else Forward(Level(s, m), m / 2, levels - 1)
  }

  /** All inverse levels, deepest first. */
  function Unwind(c: seq<int>, m: nat, levels: nat): (r: seq<int>)
    requires m <= |c|
    ensures |r| == |c|
    decreases levels
  {
    if levels == 0 then c else Unlevel(Unwind(c, m / 2, levels - 1), m)
  }

  /** What the inverse transform computes: it gives up at once when its deepest level has fewer than two
      entries. */
  function Inverse(c: seq<int>, n: nat, levels: nat): (r: seq<int>)
    requires n <= |c|
    ensures |r| == |c|
  {
    if levels > 0 && n < Pow2(levels) then c else Unwind(c, n, levels)
  }

  // ---------------------------------------------------------------- in place

  /** `n` halved `l` times, rounding down each time: the length level `l` works on. */
  function Halved(n: nat, l: nat): (m: nat)
    ensures m <= n
  {
    if l == 0 then n else Halved(n / 2, l - 1)
  }

  lemma {:induction false} HalvedNext(n: nat, l: nat)
    ensures Halved(n, l + 1) == Halved(n, l) / 2
  {
    if l > 0 {
      HalvedNext(n / 2, l - 1);
    }
  }

  /** A level has at least two entries exactly when `n` reaches the next power of two. */
  lemma {:induction false} AtLeastTwo(n: nat, l: nat)
    ensures Halved(n, l) < 2 <==> n < Pow2(l + 1)
  {
    if l > 0 {
      AtLeastTwo(n / 2, l - 1);
    }
  }

  lemma DivUnique(n: int, d: int, q: int, r: int)
    requires d > 0 && 0 <= r < d && n == q * d + r
    ensures n / d == q
  {
    var q', r' := n / d, n % d;
    assert q' * d + r' == n;
    assert (q' - q) * d == r - r' && (q - q') * d == r' - r;
    if q' > q {
      MulAtLeast(q' - q, d);
    } else if q' < q {
      MulAtLeast(q - q', d);
    }
  }

  lemma DivDouble(n: nat, p: nat)
    requires p > 0
    ensures n / (2 * p) == (n / 2) / p
  {
    var q, r := (n / 2) / p, (n / 2) % p;
    assert n / 2 == q * p + r;
    assert q * (2 * p) == 2 * (q * p);
    DivUnique(n, 2 * p, q, 2 * r + n % 2);
  }

  /** Dividing by the step `1 << l` is halving `l` times. */
  lemma {:induction false} ShiftIsHalving(n: nat, l: nat)
    ensures n / Pow2(l) == Halved(n, l)
  {
    if l > 0 {
      ShiftIsHalving(n / 2, l - 1);
      DivDouble(n, Pow2(l - 1));
    }
  }

  method LevelLength(n: nat, l: nat) returns (m: nat)
    ensures m == Halved(n, l)
  {
    var step := Pow2(l);
    ShiftIsHalving(n, l);
    m := n / step;
  }

  /** Transforming one more pair after the first `j`. */
  lemma LevelNext(before: seq<int>, after: seq<int>, s: seq<int>, j: nat)
    requires |after| == |s| && 2 * j + 1 < |s|
    requires before == Level(s, 2 * j)
    requires after[j] == Approx(s[2 * j], s[2 * j + 1])
    requires after[2 * j + 1] == Detail(s[2 * j], s[2 * j + 1])
    requires forall k :: j < k < 2 * j + 1 ==> after[k] == before[k - 1]
    requires forall k :: 0 <= k < j || 2 * j + 1 < k < |s| ==> after[k] == before[k]
    ensures after == Level(s, 2 * (j + 1))
  {
    LevelEntries(s, 2 * j);
    LevelEntries(s, 2 * (j + 1));
    forall k | 0 <= k < |s|
      ensures after[k] == LevelAt(s, 2 * (j + 1), k)
    {
    }
  }

  lemma NextPair(s: seq<int>, j: nat)
    requires 2 * j + 1 < |s|
    ensures Level(s, 2 * j)[2 * j] == s[2 * j] && Level(s, 2 * j)[2 * j + 1] == s[2 * j + 1]
  {
    LevelEntries(s, 2 * j);
  }

  /** One turn of the loop: the differences found so far move up by one to make room for the new average. */
  method TransformPair(data: array<int>, i: nat, ghost s: seq<int>, ghost j: nat)
    requires i == 2 * j && i + 1 < data.Length == |s|
    requires data[..] == Level(s, 2 * j)
    modifies data
    ensures data[..] == Level(s, 2 * (j + 1))
  {
    ghost var before := data[..];
    NextPair(s, j);
    var a := Approx(data[i], data[i + 1]);
    var d := Detail(data[i], data[i + 1]);
    assert i / 2 == j && a == Approx(s[2 * j], s[2 * j + 1]) && d == Detail(s[2 * j], s[2 * j + 1]);
    Memmove(data, i / 2 + 1, i / 2, i / 2);
    ghost var moved := data[..];
    assert forall k :: j < k < 2 * j + 1 ==> moved[k] == before[k - 1];
    assert forall k :: 0 <= k < j || 2 * j < k < |s| ==> moved[k] == before[k];
    data[i / 2] := a;
    data[i + 1] := d;
    assert data[..] == moved[j := a][2 * j + 1 := d];
    LevelNext(before, moved[j := a][2 * j + 1 := d], s, j);
  }

  /** One level in place; both loops of the source stop before an odd last entry. */
  method TransformLevel(data: array<int>, m: nat)
    requires m <= data.Length
    modifies data
    ensures data[..] == Level(old(data[..]), m)
    ensures HalvesPairs(old(data[..]), m, data[..])
  {
    ghost var s := data[..];
    var i := 0;
    ghost var j := 0;
    LevelZero(s);
    if m % 2 == 1 {
      while i + 1 < m
        invariant i == 2 * j && i <= m
        invariant data[..] == Level(s, 2 * j)
      {
        TransformPair(data, i, s, j);
        i, j := i + 2, j + 1;
      }
    } else {
      while i < m
        invariant i == 2 * j && i <= m
        invariant data[..] == Level(s, 2 * j)
      {
        TransformPair(data, i, s, j);
        i, j := i + 2, j + 1;
      }
    }
    EvenPart(s, m, j);
    LevelLayout(s, m);
  }

  lemma EvenPart(s: seq<int>, m: nat, j: nat)
    requires m <= |s| && j == m / 2
    ensures Level(s, 2 * j) == Level(s, m)
  {
    LevelEntries(s, m);
    LevelEntries(s, 2 * j);
  }

  lemma LevelZero(s: seq<int>)
    ensures Level(s, 0) == s
  {
    LevelEntries(s, 0);
  }

  method HaarTransform(data: array<int>, n: nat, levels: nat)
    requires n <= data.Length
    modifies data
    ensures data[..] == Forward(old(data[..]), n, levels)
  {
    ghost var start := data[..];
    var l := 0;
    ghost var cur := n;
    while l < levels
      invariant 0 <= l <= levels
      invariant cur == Halved(n, l) <= data.Length
      invariant Forward(data[..], cur, levels - l) == Forward(start, n, levels)
    {
      var m := LevelLength(n, l);
      if m < 2 {
        break;
      }
      TransformLevel(data, m);
      HalvedNext(n, l);
      l, cur := l + 1, m / 2;
    }
  }

  /** Entry `k` after the first `j` pairs have been merged back: the pairs, then the averages not yet used,
      then the differences, each in order. */
  function MergedAt(c: seq<int>, h: nat, j: nat, k: nat): int
    requires j <= h && 2 * h <= |c| && k < |c|
  {
    if k < 2 * j then UnlevelAt(c, 2 * h, k)
    else if k < h + j then c[k - j]
    else c[k]
  }

  function Merged(c: seq<int>, h: nat, j: nat): (r: seq<int>)
    requires j <= h && 2 * h <= |c|
    ensures |r| == |c|
  {
    Tabulate(|c|, (k: nat) requires k < |c| => MergedAt(c, h, j, k))
  }

  lemma MergedEntries(c: seq<int>, h: nat, j: nat)
    requires j <= h && 2 * h <= |c|
    ensures forall k :: 0 <= k < |c| ==> Merged(c, h, j)[k] == MergedAt(c, h, j, k)
  {
    TabulateEntries(|c|, (k: nat) requires k < |c| => MergedAt(c, h, j, k));
  }

  lemma MergeNext(before: seq<int>, after: seq<int>, c: seq<int>, h: nat, i: nat)
    requires |before| == |after| == |c| && i < h && 2 * h <= |c|
    requires before == Merged(c, h, i)
    requires after[2 * i] == before[2 * i] + before[i + h]
    requires after[2 * i + 1] == before[2 * i] - before[i + h]
    requires forall k :: 2 * i + 2 <= k < h + i + 1 ==> after[k] == before[k - 1]
    requires forall k :: 0 <= k < 2 * i || h + i + 1 <= k < |c| ==> after[k] == before[k]
    ensures after == Merged(c, h, i + 1)
  {
    MergedEntries(c, h, i);
    MergedEntries(c, h, i + 1);
    assert before[2 * i] == c[i] && before[i + h] == c[i + h];
    forall k | 0 <= k < |c|
      ensures after[k] == MergedAt(c, h, i + 1, k)
    {
      if 2 * i + 2 <= k < h + i + 1 {
        assert before[k - 1] == c[k - 1 - i];
      }
    }
  }

  /** One turn of the inverse loop: the averages still waiting move up by one over the difference used. */
  method MergePair(coeffs: array<int>, h: nat, i: nat, ghost c: seq<int>)
    requires i < h && 2 * h <= coeffs.Length == |c|
    requires coeffs[..] == Merged(c, h, i)
    modifies coeffs
    ensures coeffs[..] == Merged(c, h, i + 1)
  {
    ghost var before := coeffs[..];
    var a := coeffs[i * 2];
    var d := coeffs[i + h];
    Memmove(coeffs, i * 2 + 2, i * 2 + 1, h - i - 1);
    ghost var moved := coeffs[..];
    assert forall k :: 2 * i + 2 <= k < h + i + 1 ==> moved[k] == before[k - 1];
    assert forall k :: 0 <= k < 2 * i || h + i + 1 <= k < |c| ==> moved[k] == before[k];
    assert a == before[2 * i] && d == before[i + h];
    ghost var after := moved[2 * i := a + d][2 * i + 1 := a - d];
    MergeNext(before, after, c, h, i);
    coeffs[i * 2] := a + d;
    coeffs[i * 2 + 1] := a - d;
    assert coeffs[..] == after;
  }

  method MergeLevel(coeffs: array<int>, m: nat)
    requires m <= coeffs.Length
    modifies coeffs
    ensures coeffs[..] == Unlevel(old(coeffs[..]), m)
  {
    ghost var c := coeffs[..];
    var i := 0;
    NoneMerged(c, m / 2);
    while i < m / 2
      invariant 0 <= i <= m / 2
      invariant coeffs[..] == Merged(c, m / 2, i)
    {
      MergePair(coeffs, m / 2, i, c);
      i := i + 1;
    }
    AllMerged(c, m);
  }

  method InverseHaarTransform(coeffs: array<int>, n: nat, levels: nat)
    requires n <= coeffs.Length
    modifies coeffs
    ensures coeffs[..] == Inverse(old(coeffs[..]), n, levels)
  {
    ghost var start := coeffs[..];
    var l := levels - 1;
    assert Halved(n, 0) == n;
    assert levels == 0 ==> Pow2(levels) == 1;
    ghost var cur := Halved(n, levels);
    while l >= 0
      invariant -1 <= l < levels
      invariant l < levels - 1 ==> n >= Pow2(levels)
      invariant cur == Halved(n, l + 1)
      invariant coeffs[..] == Unwind(start, cur, levels - (l + 1))
    {
      var m := LevelLength(n, l);
      AtLeastTwo(n, l);
      Pow2Monotone(l + 1, levels);
      if m < 2 {
        assert l == levels - 1 && n < Pow2(levels);
        return;
      }
      MergeLevel(coeffs, m);
      HalvedNext(n, l);
      l, cur := l - 1, m;
    }
  }

  lemma {:induction false} Pow2Monotone(j: nat, k: nat)
    requires j <= k
    ensures Pow2(j) <= Pow2(k)
    decreases k - j
  {
    if j < k {
      Pow2Monotone(j + 1, k);
    }
  }

  lemma NoneMerged(c: seq<int>, h: nat)
    requires 2 * h <= |c|
    ensures Merged(c, h, 0) == c
  {
    MergedEntries(c, h, 0);
  }

  lemma AllMerged(c: seq<int>, m: nat)
    requires m <= |c|
    ensures Merged(c, m / 2, m / 2) == Unlevel(c, m)
  {
    MergedEntries(c, m / 2, m / 2);
    UnlevelEntries(c, m);
  }
}
