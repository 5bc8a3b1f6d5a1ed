/** Sequences given by their entries. Defined by recursion, so that the verifier looks at an entry only where
    `TabulateEntries` is called. */
module Sequences {

  function Tabulate<T>(len: nat, f: nat --> T): (r: seq<T>)
    requires forall k :: 0 <= k < len ==> f.requires(k)
    ensures |r| == len
  {
    if len == 0 then [] else Tabulate(len - 1, f) + [f(len - 1)]
  }

  lemma {:induction false} TabulateEntries<T>(len: nat, f: nat --> T)
    requires forall k :: 0 <= k < len ==> f.requires(k)
    ensures forall k :: 0 <= k < len ==> Tabulate(len, f)[k] == f(k)
  {
    if len > 0 {
      TabulateEntries(len - 1, f);
    }
  }

  /** `s` with `part` in place of the entries from `at` on. */
  function Splice<T>(s: seq<T>, at: nat, part: seq<T>): (r: seq<T>)
    requires at + |part| <= |s|
    ensures |r| == |s|
  {
    Tabulate(|s|, (k: nat) requires k < |s| => if at <= k < at + |part| then part[k - at] else s[k])
  }

  lemma SpliceEntries<T>(s: seq<T>, at: nat, part: seq<T>)
    requires at + |part| <= |s|
    ensures forall k :: 0 <= k < |s| ==> Splice(s, at, part)[k] == if at <= k < at + |part| then part[k - at] else s[k]
  {
    TabulateEntries(|s|, (k: nat) requires k < |s| => if at <= k < at + |part| then part[k - at] else s[k]);
  }

  lemma SpliceNothing<T>(s: seq<T>, at: nat)
    requires at <= |s|
    ensures Splice(s, at, []) == s
  {
    SpliceEntries(s, at, []);
  }

  lemma SpliceNext<T>(s: seq<T>, at: nat, part: seq<T>, x: T)
    requires at + |part| < |s|
    ensures Splice(s, at, part)[at + |part| := x] == Splice(s, at, part + [x])
  {
    SpliceEntries(s, at, part);
    SpliceEntries(s, at, part + [x]);
  }

  lemma SpliceTwice<T>(s: seq<T>, at: nat, x: seq<T>, y: seq<T>)
    requires at + |x| + |y| <= |s|
    ensures Splice(Splice(s, at, x), at + |x|, y) == Splice(s, at, x + y)
  {
    SpliceEntries(s, at, x);
    SpliceEntries(Splice(s, at, x), at + |x|, y);
    SpliceEntries(s, at, x + y);
  }

  lemma SliceOfSlice<T>(s: seq<T>, lo: nat, hi: nat, j: nat, k: nat)
    requires lo <= hi <= |s| && j <= k <= hi - lo
    ensures s[lo..hi][j..k] == s[lo + j..lo + k]
  {
    var x, y := s[lo..hi][j..k], s[lo + j..lo + k];
    forall i | 0 <= i < k - j
      ensures x[i] == y[i]
    {
      assert x[i] == s[lo..hi][j + i] == s[lo + j + i] == y[i];
    }
  }

  /** The images of the entries, one after the other. */
  function FlatMap<A, B>(s: seq<A>, f: A --> seq<B>): seq<B>
    requires forall k :: 0 <= k < |s| ==> f.requires(s[k])
  {
    if s == [] then [] else FlatMap(s[..|s| - 1], f) + f(s[|s| - 1])
  }

  lemma {:induction false} FlatMapConcat<A, B>(a: seq<A>, b: seq<A>, f: A --> seq<B>)
    requires forall k :: 0 <= k < |a| ==> f.requires(a[k])
    requires forall k :: 0 <= k < |b| ==> f.requires(b[k])
    ensures FlatMap(a + b, f) == FlatMap(a, f) + FlatMap(b, f)
    decreases |b|
  {
    if b == [] {
      assert a + b == a;
    } else {
      var last := |b| - 1;
      FlatMapConcat(a, b[..last], f);
      assert (a + b)[..|a + b| - 1] == a + b[..last];
    }
  }

  lemma FlatMapSingle<A, B>(x: A, f: A --> seq<B>)
    requires f.requires(x)
    ensures FlatMap([x], f) == f(x)
  {
    assert [x][..0] == [];
    assert FlatMap([x], f) == FlatMap([x][..0], f) + f(x);
  }

  lemma {:induction false} FlatMapLength<A, B>(s: seq<A>, f: A --> seq<B>, low: nat, high: nat)
    requires forall k :: 0 <= k < |s| ==> f.requires(s[k]) && low <= |f(s[k])| <= high
    ensures low * |s| <= |FlatMap(s, f)| <= high * |s|
  {
    if s != [] {
      FlatMapLength(s[..|s| - 1], f, low, high);
      assert low * |s| == low * (|s| - 1) + low && high * |s| == high * (|s| - 1) + high;
    }
  }

  // ---------------------------------------------------------------- lists without repetition

  predicate Distinct<T(==)>(s: seq<T>) {
    s != [] ==> s[0] !in s[1..] && Distinct(s[1..])
  }

  /** Drops the first occurrence. */
  function Drop<T(==)>(s: seq<T>, x: T): seq<T> {
    if s == [] then [] else if s[0] == x then s[1..] else [s[0]] + Drop(s[1..], x)
  }

  lemma {:induction false} DropDrops<T>(s: seq<T>, x: T)
    requires Distinct(s)
    ensures Distinct(Drop(s, x))
    ensures forall y :: y in Drop(s, x) <==> y in s && y != x
    ensures |Drop(s, x)| == if x in s then |s| - 1 else |s|
  {
    if s != [] {
      DropDrops(s[1..], x);
      if s[0] != x {
        assert ([s[0]] + Drop(s[1..], x))[1..] == Drop(s[1..], x);
      }
    }
  }

  /** The others keep their order, and a list without `x` stays. */
  lemma {:induction false} DropAt<T>(s: seq<T>, x: T, i: nat)
    requires i <= |s| && x !in s[..i] && (i < |s| ==> s[i] == x)
    ensures Drop(s, x) == if i < |s| then s[..i] + s[i + 1..] else s
  {
    if i > 0 {
      assert s[0] in s[..i] && s[1..][..i - 1] == s[..i][1..];
      DropAt(s[1..], x, i - 1);
    }
  }

  // ---------------------------------------------------------------- paths

  /** The states before, between and after the events. */
  ghost predicate Path<S, E>(step: (S, E, S) -> bool, path: seq<S>, events: seq<E>) {
    && |path| == |events| + 1
    && forall i {:trigger events[i]} :: 0 <= i < |events| ==> step(path[i], events[i], path[i + 1])
  }

  lemma PathOn<S, E>(step: (S, E, S) -> bool, a: seq<S>, before: seq<E>, b: seq<S>, after: seq<E>)
    requires Path(step, a, before) && Path(step, b, after) && a[|before|] == b[0]
    ensures Path(step, a + b[1..], before + after)
  {
    var path, events := a + b[1..], before + after;
    forall i | 0 <= i < |events|
      ensures step(path[i], events[i], path[i + 1])
    {
      if i < |before| {
        assert step(a[i], before[i], a[i + 1]);
      } else {
        var j := i - |before|;
        assert step(b[j], after[j], b[j + 1]);
      }
    }
  }

  lemma PathRest<S, E>(step: (S, E, S) -> bool, path: seq<S>, events: seq<E>)
    requires Path(step, path, events) && events != []
    ensures step(path[0], events[0], path[1]) && Path(step, path[1..], events[1..])
  {
    assert step(path[0], events[0], path[1]);
    forall i | 0 <= i < |events| - 1
      ensures step(path[1..][i], events[1..][i], path[1..][i + 1])
    {
      assert step(path[i + 1], events[i + 1], path[i + 2]);
    }
  }

  /** The events lead from one state to another, one after the other. */
  ghost predicate Reaches<S(!new), E>(step: (S, E, S) -> bool, s: S, events: seq<E>, t: S) {
    exists path :: Path(step, path, events) && path[0] == s && path[|events|] == t
  }

  lemma ReachesNow<S(!new), E>(step: (S, E, S) -> bool, s: S)
    ensures Reaches(step, s, [], s)
  {
    assert Path(step, [s], []);
  }

  lemma ReachesNext<S(!new), E>(step: (S, E, S) -> bool, s: S, ev: E, t: S)
    requires step(s, ev, t)
    ensures Reaches(step, s, [ev], t)
  {
    assert Path(step, [s, t], [ev]);
  }

  lemma ReachesOn<S(!new), E>(step: (S, E, S) -> bool, s: S, before: seq<E>, t: S, after: seq<E>, u: S)
    requires Reaches(step, s, before, t) && Reaches(step, t, after, u)
    ensures Reaches(step, s, before + after, u)
  {
    var a :| Path(step, a, before) && a[0] == s && a[|before|] == t;
    var b :| Path(step, b, after) && b[0] == t && b[|after|] == u;
    PathOn(step, a, before, b, after);
  }
}
