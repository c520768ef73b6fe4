/**
 * The array built-ins the application relies on, over immutable sequences:
 * `filter`, `reduce` with `+`, and the stable `sort` with a comparator.
 */
module Seqs {

  /** `s.filter(p)`. */
  function Filter<T>(s: seq<T>, p: T -> bool): (r: seq<T>)
    ensures |r| <= |s|
  {
    if s == [] then []
    else Filter(s[..|s| - 1], p) + (if p(s[|s| - 1]) then [s[|s| - 1]] else [])
  }

  /** The filtered sequence holds exactly the elements of `s` that satisfy `p`. */
  lemma {:induction false} FilterMembers<T>(s: seq<T>, p: T -> bool)
    ensures forall x :: x in Filter(s, p) <==> x in s && p(x)
  {
    if s != [] {
      var pre := s[..|s| - 1];
      FilterMembers(pre, p);
      assert s == pre + [s[|s| - 1]];
    }
  }

  lemma {:induction false} FilterAppend<T>(a: seq<T>, b: seq<T>, p: T -> bool)
    ensures Filter(a + b, p) == Filter(a, p) + Filter(b, p)
    decreases |b|
  {
    if b != [] {
      var b' := b[..|b| - 1];
      assert (a + b)[..|a + b| - 1] == a + b';
      FilterAppend(a, b', p);
    } else {
      assert a + b == a;
    }
  }

  lemma FilterCons<T>(x: T, s: seq<T>, p: T -> bool)
    ensures Filter([x] + s, p) == (if p(x) then [x] else []) + Filter(s, p)
  {
    var one := [x];
    FilterAppend(one, s, p);
    assert one[..|one| - 1] == [] && one[|one| - 1] == x;
    var f := if p(x) then [x] else [];
    assert Filter(one, p) == [] + f;
    assert [] + f == f;
  }

  /** Keeping everything keeps the sequence. */
  lemma {:induction false} FilterAll<T>(s: seq<T>, p: T -> bool)
    requires forall i :: 0 <= i < |s| ==> p(s[i])
    ensures Filter(s, p) == s
  {
    if s != [] {
      FilterAll(s[..|s| - 1], p);
    }
  }

  /** Nothing passes when no element satisfies the predicate. */
  lemma {:induction false} FilterNone<T>(s: seq<T>, p: T -> bool)
    requires forall i :: 0 <= i < |s| ==> !p(s[i])
    ensures Filter(s, p) == []
  {
    if s != [] {
      FilterNone(s[..|s| - 1], p);
    }
  }

  /** `idx` lists strictly increasing positions of `s` at which the elements of `r` sit. */
  ghost predicate Embeds<T>(r: seq<T>, s: seq<T>, idx: seq<int>) {
    |idx| == |r|
    && (forall k :: 0 <= k < |idx| ==> 0 <= idx[k] < |s| && r[k] == s[idx[k]])
    && (forall k, l :: 0 <= k < l < |idx| ==> idx[k] < idx[l])
  }

  /** The filtered sequence is a subsequence: its elements keep their relative order. */
  lemma {:induction false} FilterEmbeds<T>(s: seq<T>, p: T -> bool) returns (idx: seq<int>)
    ensures Embeds(Filter(s, p), s, idx)
    ensures forall k :: 0 <= k < |idx| ==> idx[k] < |s|
  {
    if s == [] {
      idx := [];
    } else {
      var pre := s[..|s| - 1];
      var idx' := FilterEmbeds(pre, p);
      if p(s[|s| - 1]) {
        idx := idx' + [|s| - 1];
      } else {
        idx := idx';
      }
    }
  }

  /** `s.reduce((acc, x) => acc + v(x), 0)`. */
  function SumBy<T>(s: seq<T>, v: T -> real): real {
    if s == [] then 0.0 else SumBy(s[..|s| - 1], v) + v(s[|s| - 1])
  }

  /** The sum of a prefix is the sum of the shorter prefix plus its last term. */
  lemma SumByPrefix<T>(s: seq<T>, n: int, v: T -> real)
    requires 0 < n <= |s|
    ensures SumBy(s[..n], v) == SumBy(s[..n - 1], v) + v(s[n - 1])
  {
    assert s[..n][..n - 1] == s[..n - 1];
  }

  lemma {:induction false} SumByAppend<T>(a: seq<T>, b: seq<T>, v: T -> real)
    ensures SumBy(a + b, v) == SumBy(a, v) + SumBy(b, v)
    decreases |b|
  {
    if b != [] {
      var b' := b[..|b| - 1];
      assert (a + b)[..|a + b| - 1] == a + b';
      SumByAppend(a, b', v);
    } else {
      assert a + b == a;
    }
  }

  lemma SumByCons<T>(x: T, s: seq<T>, v: T -> real)
    ensures SumBy([x] + s, v) == v(x) + SumBy(s, v)
  {
    SumByAppend([x], s, v);
    assert [x][..0] == [];
  }

  /** Taking the element at `i` out of a sequence. */
  lemma RemoveAt<T>(b: seq<T>, i: int, v: T -> real)
    requires 0 <= i < |b|
    ensures multiset(b[..i] + b[i + 1..]) == multiset(b) - multiset{b[i]}
    ensures SumBy(b, v) == SumBy(b[..i] + b[i + 1..], v) + v(b[i])
  {
    MultisetRemove(b, i);
    SumRemove(b, i, v);
  }

  lemma MultisetRemove<T>(b: seq<T>, i: int)
    requires 0 <= i < |b|
    ensures multiset(b[..i] + b[i + 1..]) == multiset(b) - multiset{b[i]}
  {
    assert b == b[..i] + [b[i]] + b[i + 1..];
  }

  lemma SumRemove<T>(b: seq<T>, i: int, v: T -> real)
    requires 0 <= i < |b|
    ensures SumBy(b, v) == SumBy(b[..i] + b[i + 1..], v) + v(b[i])
  {
    var pre, x, post := b[..i], b[i], b[i + 1..];
    var c := pre + ([x] + post);
    assert c == b;
    RemoveAtSum(pre, x, post, v);
  }

  lemma RemoveAtSum<T>(pre: seq<T>, x: T, post: seq<T>, v: T -> real)
    ensures SumBy(pre + ([x] + post), v) == SumBy(pre + post, v) + v(x)
  {
    SumByAppend(pre, [x] + post, v);
    SumByCons(x, post, v);
    SumByAppend(pre, post, v);
  }

  /** A sum does not depend on the order of its terms. */
  lemma {:induction false} SumByPermutation<T>(a: seq<T>, b: seq<T>, v: T -> real)
    requires multiset(a) == multiset(b)
    ensures SumBy(a, v) == SumBy(b, v)
    decreases |a|
  {
    if a == [] {
      assert |b| == |multiset(b)| == 0;
    } else {
      var x := a[|a| - 1];
      var a' := a[..|a| - 1];
      assert a == a' + [x];
      assert x in multiset(b);
      var i :| 0 <= i < |b| && b[i] == x;
      RemoveAt(b, i, v);
      assert multiset(a') == multiset(a) - multiset{x};
      SumByPermutation(a', b[..i] + b[i + 1..], v);
    }
  }

  predicate Distinct<T(==)>(s: seq<T>) {
    forall i, j :: 0 <= i < j < |s| ==> s[i] != s[j]
  }

  /** A value occurs at most once in a sequence without repetitions. */
  lemma {:induction false} DistinctCount<T>(s: seq<T>, x: T)
    requires Distinct(s)
    ensures multiset(s)[x] <= 1
  {
    if s != [] {
      var s' := s[..|s| - 1];
      var y := s[|s| - 1];
      assert s == s' + [y];
      DistinctCount(s', x);
    }
  }

  /** A value at two positions occurs at least twice. */
  lemma RepeatCount<T>(s: seq<T>, i: int, j: int)
    requires 0 <= i < j < |s| && s[i] == s[j]
    ensures multiset(s)[s[i]] >= 2
  {
    assert s == s[..j] + [s[j]] + s[j + 1..];
    assert s[..j][i] == s[i];
    assert multiset(s) == multiset(s[..j]) + multiset{s[j]} + multiset(s[j + 1..]);
  }

  lemma PermutationPreservesDistinct<T>(a: seq<T>, b: seq<T>)
    requires multiset(a) == multiset(b) && Distinct(a)
    ensures Distinct(b)
  {
    if !Distinct(b) {
      var i, j :| 0 <= i < j < |b| && b[i] == b[j];
      RepeatCount(b, i, j);
      DistinctCount(a, b[i]);
    }
  }

  /** `le` orders any two elements one way or the other. */
  ghost predicate Total<T(!new)>(le: (T, T) -> bool) {
    forall a, b :: le(a, b) || le(b, a)
  }

  ghost predicate Transitive<T(!new)>(le: (T, T) -> bool) {
    forall a, b, c :: le(a, b) && le(b, c) ==> le(a, c)
  }

  /** Each element may stand before its successor. */
  predicate Sorted<T>(s: seq<T>, le: (T, T) -> bool) {
    forall i :: 0 < i < |s| ==> le(s[i - 1], s[i])
  }

  /** Inserts `x` ahead of the first element it may stand before, so that it stays ahead of its equals. */
  function Insert<T(!new)>(x: T, t: seq<T>, le: (T, T) -> bool): (r: seq<T>)
    ensures |r| == |t| + 1
    ensures multiset(r) == multiset(t) + multiset{x}
    ensures r[0] == x || (t != [] && r[0] == t[0])
  {
    if t == [] || le(x, t[0]) then [x] + t
    else
      var r := [t[0]] + Insert(x, t[1..], le);
      assert t == [t[0]] + t[1..];
      r
  }

  lemma {:induction false} InsertSorted<T(!new)>(x: T, t: seq<T>, le: (T, T) -> bool)
    ensures Total(le) && Sorted(t, le) ==> Sorted(Insert(x, t, le), le)
  {
    if Total(le) && Sorted(t, le) && t != [] && !le(x, t[0]) {
      InsertSorted(x, t[1..], le);
      var r := Insert(x, t, le);
      assert le(t[0], x);
      assert r == [t[0]] + Insert(x, t[1..], le);
    }
  }

  /**
   * `s.sort(cmp)`, which is stable: `le(a, b)` holds when the comparator does not put
   * `b` strictly before `a`.
   */
  function Sort<T(!new)>(s: seq<T>, le: (T, T) -> bool): (r: seq<T>)
    ensures multiset(r) == multiset(s)
    ensures |r| == |s|
    ensures Total(le) ==> Sorted(r, le)
  {
    if s == [] then []
    else
      assert s == [s[0]] + s[1..];
      InsertSorted(s[0], Sort(s[1..], le), le);
      Insert(s[0], Sort(s[1..], le), le)
  }

  /** Under a transitive order, a sorted sequence is ordered pairwise. */
  lemma {:induction false} SortedPairwise<T(!new)>(s: seq<T>, le: (T, T) -> bool, i: int, j: int)
    requires Transitive(le) && Sorted(s, le)
    requires 0 <= i < j < |s|
    ensures le(s[i], s[j])
    decreases j - i
  {
    if i + 1 < j {
      SortedPairwise(s, le, i + 1, j);
    }
  }

  /** Sorting does not change a sum. */
  lemma SortSum<T(!new)>(s: seq<T>, le: (T, T) -> bool, v: T -> real)
    ensures SumBy(Sort(s, le), v) == SumBy(s, v)
  {
    SumByPermutation(Sort(s, le), s, v);
  }
}
