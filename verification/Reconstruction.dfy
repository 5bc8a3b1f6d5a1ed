/** How well the inverse transform undoes the forward one, with and without quantisation between them. */
module Reconstruction {
  import opened Bits
  import opened Haar
  import opened Quantizer
  import opened Rounding

  /** Rounding loses nothing from a pair with an even sum; with an odd sum exactly one of the two comes back
      off by exactly one. */
  lemma PairReconstruction(a: int, b: int)
    ensures var a', b' := Approx(a, b) + Detail(a, b), Approx(a, b) - Detail(a, b);
      if (a + b) % 2 == 0 then a' == a && b' == b
      else (Abs(a' - a) == 1 && b' == b) || (a' == a && Abs(b' - b) == 1)
  {
  }

  /** One more forward level halves the pairs of the averages so far, if these are two or more. */
  lemma {:induction false} ForwardNext(s: seq<int>, m: nat, levels: nat)
    requires m <= |s|
    ensures Forward(s, m, 0) == s
    ensures var before, after, n := Forward(s, m, levels), Forward(s, m, levels + 1), m / Pow2(levels);
      if n >= 2 then n <= m && HalvesPairs(before, n, after) else after == before
    decreases levels
  {
    ShiftIsHalving(m, levels);
    if levels == 0 {
      LevelLayout(s, m);
    } else if m >= 2 {
      ForwardNext(Level(s, m), m / 2, levels - 1);
      DivDouble(m, Pow2(levels - 1));
    }
  }

  /** One more inverse level merges the pairs of what the deeper levels give. */
  lemma UnwindNext(c: seq<int>, n: nat, levels: nat)
    requires n <= |c|
    ensures Unwind(c, n, 0) == c && MergesPairs(Unwind(c, n / 2, levels), n, Unwind(c, n, levels + 1))
  {
    UnlevelLayout(Unwind(c, n / 2, levels), n);
  }

  /** But nothing is done if the deepest level has fewer than two entries. */
  lemma InverseGivesUp(c: seq<int>, n: nat, levels: nat)
    requires n <= |c|
    ensures Inverse(c, n, levels) == if levels > 0 && n / Pow2(levels - 1) < 2 then c else Unwind(c, n, levels)
  {
    if levels > 0 {
      ShiftIsHalving(n, levels - 1);
      AtLeastTwo(n, levels - 1);
    }
  }

  lemma {:induction false} ForwardTail(s: seq<int>, m: nat, levels: nat)
    requires m <= |s|
    ensures forall k :: m <= k < |s| ==> Forward(s, m, levels)[k] == s[k]
    decreases levels
  {
    if levels > 0 && m >= 2 {
      LevelEntries(s, m);
      ForwardTail(Level(s, m), m / 2, levels - 1);
    }
  }

  lemma {:induction false} UnwindTail(c: seq<int>, m: nat, levels: nat)
    requires m <= |c|
    ensures forall k :: m <= k < |c| ==> Unwind(c, m, levels)[k] == c[k]
    decreases levels
  {
    if levels > 0 {
      UnwindTail(c, m / 2, levels - 1);
      UnlevelEntries(Unwind(c, m / 2, levels - 1), m);
    }
  }

  predicate Within(a: seq<int>, b: seq<int>, e: int) {
    |a| == |b| && forall k :: 0 <= k < |a| ==> Abs(a[k] - b[k]) <= e
  }

  /** Without quantisation, each level adds at most one to the error. */
  lemma {:induction false} UnwindForward(s: seq<int>, m: nat, levels: nat)
    requires Pow2(levels) <= m <= |s|
    ensures Within(Unwind(Forward(s, m, levels), m, levels), s, levels)
    decreases levels
  {
    if levels > 0 {
      var s1 := Level(s, m);
      var f := Forward(s1, m / 2, levels - 1);
      var u := Unwind(f, m / 2, levels - 1);
      UnwindForward(s1, m / 2, levels - 1);
      UnwindTail(f, m / 2, levels - 1);
      ForwardTail(s1, m / 2, levels - 1);
      assert forall k :: m / 2 <= k < |s| ==> u[k] == s1[k];
      LevelLayout(s, m);
      forall k | 0 <= k < |s|
        ensures Abs(Unlevel(u, m)[k] - s[k]) <= levels
      {
        if k < m {
          MergedLevel(s, u, m, levels - 1, 1, 1, k);
        } else {
          UnlevelEntries(u, m);
        }
      }
    }
  }

  /** A pair merged from a disturbed average and a disturbed detail. */
  lemma MergedPair(a: int, b: int, average: int, detail: int, e: int, threshold: int, step: int)
    requires step > 0
    requires Abs(average - Approx(a, b)) <= e
    requires NearDetail(Detail(a, b), detail, threshold, step)
    ensures Abs(average + detail - a) <= e + Max(threshold - 1, step / 2 + 1)
    ensures Abs(average - detail - b) <= e + Max(threshold - 1, step / 2 + 1)
  {
  }

  /** A level merged from disturbed averages and details, entry by entry. */
  lemma MergedLevel(s: seq<int>, u: seq<int>, m: nat, e: int, threshold: int, step: int, k: nat)
    requires k < m <= |s| == |u| && step > 0 && e >= 0
    requires forall j :: 0 <= j < m / 2 ==> Abs(u[j] - Level(s, m)[j]) <= e
    requires forall j :: m / 2 <= j < m ==> NearDetail(Level(s, m)[j], u[j], threshold, step)
    ensures Abs(Unlevel(u, m)[k] - s[k]) <= e + Max(threshold - 1, step / 2 + 1)
  {
    var h := m / 2;
    if k < 2 * h {
      var j := k / 2;
      assert Abs(u[j] - Level(s, m)[j]) <= e && NearDetail(Level(s, m)[h + j], u[h + j], threshold, step);
      MergedInPair(s, u, m, e, threshold, step, k);
    } else {
      assert NearDetail(Level(s, m)[k], u[k], threshold, step);
      MergedTail(s, u, m, threshold, step, k);
    }
  }

  lemma MergedInPair(s: seq<int>, u: seq<int>, m: nat, e: int, threshold: int, step: int, k: nat)
    requires m <= |s| == |u| && step > 0 && e >= 0 && k < 2 * (m / 2)
    requires Abs(u[k / 2] - Level(s, m)[k / 2]) <= e
    requires NearDetail(Level(s, m)[m / 2 + k / 2], u[m / 2 + k / 2], threshold, step)
    ensures Abs(Unlevel(u, m)[k] - s[k]) <= e + Max(threshold - 1, step / 2 + 1)
  {
    var h, j := m / 2, k / 2;
    UnlevelEntry(u, m, k);
    LevelEntryPair(s, m, j);
    MergedPair(s[2 * j], s[2 * j + 1], u[j], u[h + j], e, threshold, step);
  }

  lemma MergedTail(s: seq<int>, u: seq<int>, m: nat, threshold: int, step: int, k: nat)
    requires 2 * (m / 2) <= k < m <= |s| == |u| && step > 0
    requires NearDetail(Level(s, m)[k], u[k], threshold, step)
    ensures Abs(Unlevel(u, m)[k] - s[k]) <= Max(threshold - 1, step / 2 + 1)
  {
    UnlevelEntry(u, m, k);
    LevelEntries(s, m);
  }

  lemma UnlevelEntry(c: seq<int>, m: nat, k: nat)
    requires k < |c| && m <= |c|
    ensures Unlevel(c, m)[k] == UnlevelAt(c, m, k)
  {
    UnlevelEntries(c, m);
  }

  lemma LevelEntryPair(s: seq<int>, m: nat, j: nat)
    requires m <= |s| && j < m / 2
    ensures Level(s, m)[j] == Approx(s[2 * j], s[2 * j + 1])
    ensures Level(s, m)[m / 2 + j] == Detail(s[2 * j], s[2 * j + 1])
  {
    LevelEntries(s, m);
  }

  /** The inverse transform brings every wave of `n` samples back to within `levels`. */
  ghost predicate Reconstructs(n: nat, levels: nat) {
    forall s: seq<int> | |s| == n :: Within(Inverse(Forward(s, n, levels), n, levels), s, levels)
  }

  /** It does so exactly when the wave is long enough for all levels, or too short for any. */
  lemma ReconstructsExactlyWhen(n: nat, levels: nat)
    ensures Reconstructs(n, levels) <==> n < 2 || n >= Pow2(levels)
  {
    if n >= Pow2(levels) {
      forall s: seq<int> | |s| == n
        ensures Within(Inverse(Forward(s, n, levels), n, levels), s, levels)
      {
        UnwindForward(s, n, levels);
      }
    } else if n < 2 {
      forall s: seq<int> | |s| == n
        ensures Within(Inverse(Forward(s, n, levels), n, levels), s, levels)
      {
        assert Inverse(Forward(s, n, levels), n, levels) == s;
      }
    } else {
      var s := Constant(n, levels + 1);
      FlatWaveLost(n, levels, levels + 1);
      assert !Within(Inverse(Forward(s, n, levels), n, levels), s, levels);
    }
  }

  function Constant(n: nat, x: int): (s: seq<int>)
    ensures |s| == n && forall k :: 0 <= k < n ==> s[k] == x
  {
    if n == 0 then [] else Constant(n - 1, x) + [x]
  }

  /** A flat wave too short for all levels: its zero differences are taken for samples. */
  lemma FlatWaveLost(n: nat, levels: nat, x: int)
    requires 2 <= n < Pow2(levels)
    ensures Inverse(Forward(Constant(n, x), n, levels), n, levels)[n / 2] == 0
  {
    var s := Constant(n, x);
    LevelEntries(s, n);
    ForwardTail(Level(s, n), n / 2, levels - 1);
    assert levels > 0;
    assert Level(s, n)[n / 2] == 0;
  }

  /** The error after `levels` inverse levels: half a step for the deepest averages, and on each level a lost
      detail or a rounding on top of half a step. */
  function ErrorBound(levels: nat, threshold: int, step: int): int {
    if levels == 0 then step / 2 else ErrorBound(levels - 1, threshold, step) + Max(threshold - 1, step / 2 + 1)
  }

  lemma {:induction false} DisturbedReconstruction(s: seq<int>, m: nat, levels: nat, c: seq<int>, threshold: int, step: int)
    requires Pow2(levels) <= m <= |s| == |c| && step > 0
    requires forall k :: 0 <= k < Halved(m, levels) ==> NearAverage(Forward(s, m, levels)[k], c[k], step)
    requires forall k :: Halved(m, levels) <= k < m ==> NearDetail(Forward(s, m, levels)[k], c[k], threshold, step)
    ensures forall k :: 0 <= k < m ==> Abs(Unwind(c, m, levels)[k] - s[k]) <= ErrorBound(levels, threshold, step)
    decreases levels
  {
    if levels > 0 {
      var s1 := Level(s, m);
      var u := Unwind(c, m / 2, levels - 1);
      var e := ErrorBound(levels - 1, threshold, step);
      DisturbedReconstruction(s1, m / 2, levels - 1, c, threshold, step);
      ForwardTail(s1, m / 2, levels - 1);
      UnwindTail(c, m / 2, levels - 1);
      assert forall k :: m / 2 <= k < m ==> NearDetail(s1[k], u[k], threshold, step);
      ErrorBoundPositive(levels - 1, threshold, step);
      forall k | 0 <= k < m
        ensures Abs(Unlevel(u, m)[k] - s[k]) <= ErrorBound(levels, threshold, step)
      {
        MergedLevel(s, u, m, e, threshold, step, k);
      }
    }
  }

  lemma {:induction false} ErrorBoundPositive(levels: nat, threshold: int, step: int)
    requires step > 0
    ensures ErrorBound(levels, threshold, step) >= step / 2
  {
    if levels > 0 {
      ErrorBoundPositive(levels - 1, threshold, step);
    }
  }

  /** Averages of 16-bit samples stay 16-bit; a difference can exceed them by one, at the top. */
  lemma {:induction false} CoefficientRange(s: seq<int>, m: nat, levels: nat)
    requires m <= |s|
    requires forall k :: 0 <= k < m ==> Int16(s[k])
    requires forall k :: m <= k < |s| ==> -32768 <= s[k] <= 32768
    ensures forall k :: 0 <= k < |s| ==> -32768 <= Forward(s, m, levels)[k] <= 32768
    decreases levels
  {
    if levels > 0 && m >= 2 {
      LevelEntries(s, m);
      CoefficientRange(Level(s, m), m / 2, levels - 1);
    }
  }

  /** In the other direction the transform is exact: every coefficient sequence is what the forward transform
      makes of its own inverse. */
  lemma {:induction false} ForwardUnwind(c: seq<int>, m: nat, levels: nat)
    requires Pow2(levels) <= m <= |c|
    ensures Forward(Unwind(c, m, levels), m, levels) == c
    decreases levels
  {
    if levels > 0 {
      var u := Unwind(c, m / 2, levels - 1);
      LevelUnlevel(u, m);
      ForwardUnwind(c, m / 2, levels - 1);
    }
  }

  lemma LevelUnlevel(u: seq<int>, m: nat)
    requires m <= |u|
    ensures Level(Unlevel(u, m), m) == u
  {
    forall k | 0 <= k < |u|
      ensures Level(Unlevel(u, m), m)[k] == u[k]
    {
      LevelUnlevelAt(u, m, k);
    }
  }

  lemma LevelUnlevelAt(u: seq<int>, m: nat, k: nat)
    requires m <= |u| && k < |u|
    ensures Level(Unlevel(u, m), m)[k] == u[k]
  {
    var s, h := Unlevel(u, m), m / 2;
    if k < 2 * h {
      var j := if k < h then k else k - h;
      UnlevelEntry(u, m, 2 * j);
      UnlevelEntry(u, m, 2 * j + 1);
      LevelEntryPair(s, m, j);
      SumsAreEven(u[j], u[h + j]);
    } else {
      UnlevelEntry(u, m, k);
      LevelEntries(s, m);
    }
  }

  lemma SumsAreEven(a: int, d: int)
    ensures Approx(a + d, a - d) == a && Detail(a + d, a - d) == d
  {
  }
}
