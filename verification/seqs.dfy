/**
 * Sequence helpers the model is built from: filtering, keeping the first
 * occurrence of each value, counting, summing and flattening.
 */
module Seqs {
  import opened Base

  /** No value occurs twice. */
  predicate Distinct<T(==)>(s: seq<T>)
  {
    forall i, j :: 0 <= i < j < |s| ==> s[i] != s[j]
  }

  /** The values of `s` in the order they are first seen, each once. */
  function Dedup<T(==)>(s: seq<T>): (d: seq<T>)
    ensures forall i :: 0 <= i < |d| ==> d[i] in s
    ensures forall i :: 0 <= i < |s| ==> s[i] in d
    ensures Distinct(d)
    ensures |d| <= |s|
  {
    if |s| == 0 then []
    else
      var init := s[..|s| - 1];
      var d := Dedup(init);
      assert s == init + [s[|s| - 1]];
      if s[|s| - 1] in d then d else d + [s[|s| - 1]]
  }

  /** Dedup loses nothing exactly when nothing repeats. */
  lemma {:induction false} DedupKeepsAllIffDistinct<T>(s: seq<T>)
    ensures |Dedup(s)| == |s| <==> Distinct(s)
  {
    if |s| > 0 {
      var init := s[..|s| - 1];
      DedupKeepsAllIffDistinct(init);
      var last := s[|s| - 1];
      if last in init {
        var k :| 0 <= k < |init| && init[k] == last;
        assert s[k] == s[|s| - 1];
        assert !Distinct(s);
      } else {
        if Distinct(init) {
          forall i, j | 0 <= i < j < |s|
            ensures s[i] != s[j]
          {
            if j == |s| - 1 {
              assert s[i] == init[i];
            } else {
              assert s[i] == init[i] && s[j] == init[j];
            }
          }
        } else {
          var i, j :| 0 <= i < j < |init| && init[i] == init[j];
          assert s[i] == s[j];
        }
      }
    }
  }

  /** `f` applied to every element, in order. */
  function Map<A, B>(f: A -> B, xs: seq<A>): (ys: seq<B>)
    ensures |ys| == |xs| && forall i :: 0 <= i < |xs| ==> ys[i] == f(xs[i])
  {
    seq(|xs|, i requires 0 <= i < |xs| => f(xs[i]))
  }

  lemma MapCons<A, B>(f: A -> B, x: A, xs: seq<A>)
    ensures Map(f, [x] + xs) == [f(x)] + Map(f, xs)
  {
    assert forall i :: 0 < i <= |xs| ==> ([x] + xs)[i] == xs[i - 1];
  }

  /** The elements of `xs` that satisfy `p`, in order. */
  function Filter<T>(p: T -> bool, xs: seq<T>): (ys: seq<T>)
    ensures |ys| <= |xs|
    ensures forall k :: 0 <= k < |ys| ==> ys[k] in xs && p(ys[k])
  {
    if |xs| == 0 then [] else (if p(xs[0]) then [xs[0]] else []) + Filter(p, xs[1..])
  }

  /** An element that satisfies `p` survives the filter, so the result is not empty. */
  lemma {:induction false} FilterKeeps<T>(p: T -> bool, xs: seq<T>, i: nat)
    requires i < |xs| && p(xs[i])
    ensures |Filter(p, xs)| > 0
  {
    if i > 0 && !p(xs[0]) {
      FilterKeeps(p, xs[1..], i - 1);
    }
  }

  /** Every element that satisfies `p` is in the filtered sequence. */
  lemma {:induction false} FilterHas<T>(p: T -> bool, xs: seq<T>, i: nat)
    requires i < |xs| && p(xs[i])
    ensures xs[i] in Filter(p, xs)
  {
    if i > 0 {
      FilterHas(p, xs[1..], i - 1);
      assert xs[1..][i - 1] == xs[i];
    }
  }

  lemma {:induction false} FilterSnoc<T>(p: T -> bool, xs: seq<T>, x: T)
    ensures Filter(p, xs + [x]) == Filter(p, xs) + (if p(x) then [x] else [])
  {
    if |xs| == 0 {
      assert xs + [x] == [x];
    } else {
      assert (xs + [x])[1..] == xs[1..] + [x];
      FilterSnoc(p, xs[1..], x);
    }
  }

  /** Keeps the `Some` results of `f` over `xs`, in order. */
  function FilterMap<A, B>(f: A -> Option<B>, xs: seq<A>): (ys: seq<B>)
    ensures |ys| <= |xs|
    ensures |ys| == |xs| <==> forall i :: 0 <= i < |xs| ==> f(xs[i]).Some?
  {
    if |xs| == 0 then []
    else
      var rest := FilterMap(f, xs[1..]);
      assert forall i :: 0 < i < |xs| ==> xs[i] == xs[1..][i - 1];
      match f(xs[0])
      case Some(y) => [y] + rest
      case None => rest
  }

  /** FilterMap distributes over concatenation, so it keeps the order of `xs`. */
  lemma {:induction false} FilterMapAppend<A, B>(f: A -> Option<B>, xs: seq<A>, ys: seq<A>)
    ensures FilterMap(f, xs + ys) == FilterMap(f, xs) + FilterMap(f, ys)
  {
    if |xs| > 0 {
      assert (xs + ys)[1..] == xs[1..] + ys;
      FilterMapAppend(f, xs[1..], ys);
    } else {
      assert xs + ys == ys;
    }
  }

  /** The last element's value, if any, comes last. */
  lemma FilterMapSnoc<A, B>(f: A -> Option<B>, xs: seq<A>)
    requires |xs| > 0
    ensures FilterMap(f, xs) == FilterMap(f, xs[..|xs| - 1]) + FilterMap(f, [xs[|xs| - 1]])
  {
    var init, last := xs[..|xs| - 1], [xs[|xs| - 1]];
    FilterMapAppend(f, init, last);
    assert init + last == xs;
  }

  /** A partial map that is defined exactly where `p` holds, and is `g` there, is a filter followed by a map. */
  lemma {:induction false} FilterMapOfFilter<A, B>(f: A -> Option<B>, p: A -> bool, g: A -> B, xs: seq<A>)
    requires forall x :: f(x) == if p(x) then Some(g(x)) else None
    ensures FilterMap(f, xs) == Map(g, Filter(p, xs))
  {
    if |xs| > 0 {
      FilterMapOfFilter(f, p, g, xs[1..]);
      var tail := Filter(p, xs[1..]);
      assert f(xs[0]) == if p(xs[0]) then Some(g(xs[0])) else None;
      if p(xs[0]) {
        assert FilterMap(f, xs) == [g(xs[0])] + FilterMap(f, xs[1..]);
        assert Filter(p, xs) == [xs[0]] + tail;
        MapCons(g, xs[0], tail);
      } else {
        assert FilterMap(f, xs) == FilterMap(f, xs[1..]);
        assert Filter(p, xs) == [] + tail;
      }
    }
  }

  /**
   * `ys` lists, in order, the values `f` gives on `xs`: `js` holds the
   * strictly increasing positions they come from, and every position where
   * `f` has a value is among them.
   */
  ghost predicate PicksAt<A, B>(f: A -> Option<B>, xs: seq<A>, ys: seq<B>, js: seq<nat>)
  {
    Yields(f, xs, ys, js) && Increasing(js) && Covers(f, xs, js)
  }

  /** `ys[k]` is the value `f` gives at position `js[k]` of `xs`. */
  ghost predicate Yields<A, B>(f: A -> Option<B>, xs: seq<A>, ys: seq<B>, js: seq<nat>)
  {
    && |js| == |ys|
    && forall k :: 0 <= k < |js| ==> js[k] < |xs| && f(xs[js[k]]) == Some(ys[k])
  }

  /** Every position of `xs` where `f` has a value is in `js`. */
  ghost predicate Covers<A, B>(f: A -> Option<B>, xs: seq<A>, js: seq<nat>)
  {
    forall i :: 0 <= i < |xs| && f(xs[i]).Some? ==> i in js
  }

  /** Strictly increasing positions. */
  predicate Increasing(js: seq<nat>)
  {
    forall k, l :: 0 <= k < l < |js| ==> js[k] < js[l]
  }

  /** FilterMap keeps every value `f` gives, each once, in the order of its source. */
  lemma {:induction false} FilterMapPicks<A, B>(f: A -> Option<B>, xs: seq<A>)
    ensures exists js :: PicksAt(f, xs, FilterMap(f, xs), js)
  {
    var js := FilterMapPositions(f, xs);
  }

  lemma {:induction false} FilterMapPositions<A, B>(f: A -> Option<B>, xs: seq<A>) returns (js: seq<nat>)
    ensures PicksAt(f, xs, FilterMap(f, xs), js)
    decreases |xs|
  {
    if |xs| == 0 {
      js := [];
    } else {
      var rest := FilterMapPositions(f, xs[1..]);
      var ys := FilterMap(f, xs[1..]);
      var sh := Shift(rest);
      YieldsShift(f, xs, ys, rest);
      IncreasingShift(rest);
      CoversShift(f, xs, rest);
      match f(xs[0])
      case Some(y) =>
        js := [0] + sh;
        assert FilterMap(f, xs) == [y] + ys;
        YieldsCons(f, xs, y, ys, sh);
        IncreasingCons(0, sh);
        CoversCons(f, xs, sh);
      case None =>
        js := sh;
        assert FilterMap(f, xs) == ys;
    }
  }

  /** Every position moved one place to the right. */
  function Shift(js: seq<nat>): (r: seq<nat>)
    ensures |r| == |js| && forall k :: 0 <= k < |js| ==> r[k] == js[k] + 1
  {
    seq(|js|, k requires 0 <= k < |js| => js[k] + 1)
  }

  lemma ShiftHas(js: seq<nat>, i: nat)
    requires i in js
    ensures i + 1 in Shift(js)
  {
    var k :| 0 <= k < |js| && js[k] == i;
    assert Shift(js)[k] == i + 1;
  }

  /** Values picked from the tail come from the same elements, one place later, in the whole. */
  lemma YieldsShift<A, B>(f: A -> Option<B>, xs: seq<A>, ys: seq<B>, rest: seq<nat>)
    requires |xs| > 0 && Yields(f, xs[1..], ys, rest)
    ensures Yields(f, xs, ys, Shift(rest))
    ensures forall k :: 0 <= k < |rest| ==> 0 < Shift(rest)[k]
  {
    var sh := Shift(rest);
    forall k | 0 <= k < |sh|
      ensures sh[k] < |xs| && f(xs[sh[k]]) == Some(ys[k])
    {
      assert xs[sh[k]] == xs[1..][rest[k]];
    }
  }

  lemma YieldsCons<A, B>(f: A -> Option<B>, xs: seq<A>, y: B, ys: seq<B>, js: seq<nat>)
    requires |xs| > 0 && f(xs[0]) == Some(y) && Yields(f, xs, ys, js)
    ensures Yields(f, xs, [y] + ys, [0] + js)
  {
    var ks, zs := [0] + js, [y] + ys;
    forall k | 0 < k < |ks|
      ensures ks[k] < |xs| && f(xs[ks[k]]) == Some(zs[k])
    {
      assert ks[k] == js[k - 1] && zs[k] == ys[k - 1];
    }
  }

  lemma IncreasingShift(js: seq<nat>)
    requires Increasing(js)
    ensures Increasing(Shift(js))
  {
  }

  lemma IncreasingCons(x: nat, js: seq<nat>)
    requires Increasing(js) && forall k :: 0 <= k < |js| ==> x < js[k]
    ensures Increasing([x] + js)
  {
    var r := [x] + js;
    forall k, l | 0 <= k < l < |r|
      ensures r[k] < r[l]
    {
      assert r[l] == js[l - 1];
      if k > 0 {
        assert r[k] == js[k - 1];
      }
    }
  }

  /** A position after the first where `f` has a value is a tail position, shifted. */
  lemma CoversShift<A, B>(f: A -> Option<B>, xs: seq<A>, rest: seq<nat>)
    requires |xs| > 0 && Covers(f, xs[1..], rest)
    ensures forall i :: 0 < i < |xs| && f(xs[i]).Some? ==> i in Shift(rest)
  {
    forall i | 0 < i < |xs| && f(xs[i]).Some?
      ensures i in Shift(rest)
    {
      assert xs[i] == xs[1..][i - 1];
      ShiftHas(rest, i - 1);
    }
  }

  lemma CoversCons<A, B>(f: A -> Option<B>, xs: seq<A>, js: seq<nat>)
    requires forall i :: 0 < i < |xs| && f(xs[i]).Some? ==> i in js
    ensures Covers(f, xs, [0] + js)
  {
  }

  /** The number of elements of `xs` that satisfy `p`. */
  function Count<T>(p: T -> bool, xs: seq<T>): (n: nat)
    ensures n <= |xs|
  {
    if |xs| == 0 then 0 else (if p(xs[0]) then 1 else 0) + Count(p, xs[1..])
  }

  /** The test "`f` has no value here". */
  function IsNone<A, B>(f: A -> Option<B>): A -> bool
  {
    (x: A) => f(x).None?
  }

  /** FilterMap drops exactly the elements where `f` has no value. */
  lemma {:induction false} FilterMapCount<A, B>(f: A -> Option<B>, xs: seq<A>)
    ensures |FilterMap(f, xs)| + Count(IsNone(f), xs) == |xs|
  {
    if |xs| > 0 {
      FilterMapCount(f, xs[1..]);
    }
  }

  /** A non-empty FilterMap result has a source element where `f` has a value. */
  lemma {:induction false} FilterMapSomeWitness<A, B>(f: A -> Option<B>, xs: seq<A>)
    requires |FilterMap(f, xs)| > 0
    ensures exists j :: 0 <= j < |xs| && f(xs[j]).Some?
  {
    if f(xs[0]).None? {
      FilterMapSomeWitness(f, xs[1..]);
      var j :| 0 <= j < |xs[1..]| && f(xs[1..][j]).Some?;
      assert xs[j + 1] == xs[1..][j];
    }
  }

  /** When every element is counted, every element satisfies `p`. */
  lemma {:induction false} CountAll<T>(p: T -> bool, xs: seq<T>, j: nat)
    requires Count(p, xs) == |xs| && j < |xs|
    ensures p(xs[j])
  {
    if j > 0 {
      CountAll(p, xs[1..], j - 1);
      assert xs[1..][j - 1] == xs[j];
    }
  }

  function Sum(xs: seq<real>): real
  {
    if |xs| == 0 then 0.0 else xs[0] + Sum(xs[1..])
  }

  function SumNat(xs: seq<nat>): nat
  {
    if |xs| == 0 then 0 else xs[0] + SumNat(xs[1..])
  }

  function Flatten<T>(ss: seq<seq<T>>): seq<T>
  {
    if |ss| == 0 then [] else ss[0] + Flatten(ss[1..])
  }

  function Lengths<T>(ss: seq<seq<T>>): seq<nat>
  {
    seq(|ss|, i requires 0 <= i < |ss| => |ss[i]|)
  }

  lemma {:induction false} FlattenLength<T>(ss: seq<seq<T>>)
    ensures |Flatten(ss)| == SumNat(Lengths(ss))
  {
    if |ss| > 0 {
      FlattenLength(ss[1..]);
      assert Lengths(ss)[1..] == Lengths(ss[1..]);
    }
  }

  /** Flattening blocks of one common length `b` puts block i, element r at index i*b + r. */
  lemma {:induction false} FlattenUniform<T>(ss: seq<seq<T>>, b: nat, i: nat, r: nat)
    requires forall k :: 0 <= k < |ss| ==> |ss[k]| == b
    requires i < |ss| && r < b
    ensures |Flatten(ss)| == |ss| * b
    ensures i * b + r < |Flatten(ss)| && Flatten(ss)[i * b + r] == ss[i][r]
  {
    FlattenUniformLength(ss, b);
    var rest := Flatten(ss[1..]);
    assert Flatten(ss) == ss[0] + rest;
    if i > 0 {
      FlattenUniform(ss[1..], b, i - 1, r);
      var j := (i - 1) * b + r;
      assert ss[1..][i - 1] == ss[i];
      assert rest[j] == ss[i][r];
      MulSucc(i - 1, b);
      assert i * b + r == b + j;
      assert (ss[0] + rest)[b + j] == rest[j];
    }
  }

  /** After a header, block i, element r of uniform blocks of length `b` sits at index k = |header| + i*b + r. */
  lemma HeaderFlattenAt<T>(header: seq<T>, ss: seq<seq<T>>, b: nat, i: nat, r: nat, k: nat)
    requires forall n :: 0 <= n < |ss| ==> |ss[n]| == b
    requires i < |ss| && r < b && k == |header| + i * b + r
    ensures |header + Flatten(ss)| == |header| + |ss| * b
    ensures k < |header + Flatten(ss)| && (header + Flatten(ss))[k] == ss[i][r]
  {
    FlattenUniform(ss, b, i, r);
  }

  lemma MulSucc(n: nat, b: nat)
    ensures (n + 1) * b == b + n * b
  {
  }

  lemma MulAdd(a: nat, b: nat, c: nat)
    ensures (a + b) * c == a * c + b * c
  {
  }

  lemma {:induction false} FlattenUniformLength<T>(ss: seq<seq<T>>, b: nat)
    requires forall k :: 0 <= k < |ss| ==> |ss[k]| == b
    ensures |Flatten(ss)| == |ss| * b
  {
    if |ss| > 0 {
      FlattenUniformLength(ss[1..], b);
      MulSucc(|ss| - 1, b);
    }
  }
}
