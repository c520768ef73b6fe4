/**
 * Grouping a sequence by a string key, as done by filling a JavaScript object keyed by the
 * group name: the keys in order of first appearance, the members of each group, and the
 * fact that summing per group and then over groups gives the overall sum.
 */
module Grouping {
  import opened Seqs

  /** The distinct keys of `s` in order of first appearance. */
  function Keys<T>(s: seq<T>, key: T -> string): seq<string> {
    if s == [] then []
    else
      var pre := Keys(s[..|s| - 1], key);
      var k := key(s[|s| - 1]);
      if k in pre then pre else pre + [k]
  }

  /** No key is listed twice. */
  lemma {:induction false} KeysDistinct<T>(s: seq<T>, key: T -> string)
    ensures Distinct(Keys(s, key))
  {
    if s != [] {
      KeysDistinct(s[..|s| - 1], key);
    }
  }

  /** The key of every element is listed. */
  lemma {:induction false} KeysCover<T>(s: seq<T>, key: T -> string)
    ensures forall i :: 0 <= i < |s| ==> key(s[i]) in Keys(s, key)
  {
    if s != [] {
      var pre := s[..|s| - 1];
      KeysCover(pre, key);
      assert forall i :: 0 <= i < |s| - 1 ==> pre[i] == s[i];
    }
  }

  /** Every listed key is the key of some element. */
  lemma {:induction false} KeysWitness<T>(s: seq<T>, key: T -> string, k: string) returns (i: nat)
    requires k in Keys(s, key)
    ensures i < |s| && key(s[i]) == k
  {
    var pre := s[..|s| - 1];
    if k in Keys(pre, key) {
      i := KeysWitness(pre, key, k);
      assert pre[i] == s[i];
    } else {
      i := |s| - 1;
    }
  }

  /** The elements of `s` whose key is `k`, in their order in `s`. */
  function Group<T>(s: seq<T>, key: T -> string, k: string): seq<T> {
    if s == [] then []
    else Group(s[..|s| - 1], key, k) + (if key(s[|s| - 1]) == k then [s[|s| - 1]] else [])
  }

  /** A group holds exactly the elements with its key. */
  lemma {:induction false} GroupFacts<T>(s: seq<T>, key: T -> string, k: string)
    ensures |Group(s, key, k)| <= |s|
    ensures forall i :: 0 <= i < |Group(s, key, k)| ==> key(Group(s, key, k)[i]) == k && Group(s, key, k)[i] in s
    ensures forall i :: 0 <= i < |s| && key(s[i]) == k ==> s[i] in Group(s, key, k)
  {
    if s != [] {
      var pre := s[..|s| - 1];
      GroupFacts(pre, key, k);
      assert forall i :: 0 <= i < |s| - 1 ==> pre[i] == s[i];
    }
  }

  /** A key has a non-empty group exactly when it is one of the keys. */
  lemma GroupNonEmpty<T>(s: seq<T>, key: T -> string, k: string)
    ensures Group(s, key, k) != [] <==> k in Keys(s, key)
  {
    GroupFacts(s, key, k);
    var g := Group(s, key, k);
    if k in Keys(s, key) {
      var i := KeysWitness(s, key, k);
      assert s[i] in g;
    }
    if g != [] {
      assert key(g[0]) == k && g[0] in s;
      KeysCover(s, key);
    }
  }

  /** Each element lies in the group of its own key and in no other. */
  lemma ExactlyOneGroup<T>(s: seq<T>, key: T -> string, i: int)
    requires 0 <= i < |s|
    ensures key(s[i]) in Keys(s, key)
    ensures s[i] in Group(s, key, key(s[i]))
    ensures forall k :: k != key(s[i]) ==> s[i] !in Group(s, key, k)
  {
    KeysCover(s, key);
    GroupFacts(s, key, key(s[i]));
    forall k | k != key(s[i])
      ensures s[i] !in Group(s, key, k)
    {
      GroupFacts(s, key, k);
    }
  }

  lemma GroupSnoc<T>(s: seq<T>, x: T, key: T -> string, k: string)
    ensures Group(s + [x], key, k) == Group(s, key, k) + (if key(x) == k then [x] else [])
  {
    assert (s + [x])[..|s|] == s;
  }

  lemma KeysSnoc<T>(s: seq<T>, x: T, key: T -> string)
    ensures Keys(s + [x], key) == if key(x) in Keys(s, key) then Keys(s, key) else Keys(s, key) + [key(x)]
  {
    assert (s + [x])[..|s|] == s;
  }

  /** The sum over the keys `ks` of the `v`-sums of their groups. */
  function SumGroups<T>(s: seq<T>, key: T -> string, ks: seq<string>, v: T -> real): real {
    if ks == [] then 0.0
    else SumGroups(s, key, ks[..|ks| - 1], v) + SumBy(Group(s, key, ks[|ks| - 1]), v)
  }

  lemma SumGroupsPrefix<T>(s: seq<T>, key: T -> string, ks: seq<string>, n: int, v: T -> real)
    requires 0 < n <= |ks|
    ensures SumGroups(s, key, ks[..n], v) == SumGroups(s, key, ks[..n - 1], v) + SumBy(Group(s, key, ks[n - 1]), v)
  {
    assert ks[..n][..n - 1] == ks[..n - 1];
  }

  /** The last element adds its value to exactly the group sum of its key. */
  lemma {:induction false} SumGroupsLast<T>(s: seq<T>, key: T -> string, ks: seq<string>, v: T -> real)
    requires s != [] && Distinct(ks)
    ensures SumGroups(s, key, ks, v) ==
      SumGroups(s[..|s| - 1], key, ks, v) + (if key(s[|s| - 1]) in ks then v(s[|s| - 1]) else 0.0)
  {
    if ks != [] {
      var ks' := ks[..|ks| - 1];
      var k := ks[|ks| - 1];
      assert forall i, j :: 0 <= i < j < |ks'| ==> ks'[i] == ks[i] && ks'[j] == ks[j];
      SumGroupsLast(s, key, ks', v);
      var g := Group(s[..|s| - 1], key, k);
      var x := s[|s| - 1];
      if key(x) == k {
        assert (g + [x])[..|g|] == g;
      } else {
        assert g + [] == g;
      }
    }
  }

  /** Summing per group and then over all keys gives the sum of the whole sequence. */
  lemma {:induction false} GroupSumsTotal<T>(s: seq<T>, key: T -> string, v: T -> real)
    ensures SumGroups(s, key, Keys(s, key), v) == SumBy(s, v)
  {
    if s != [] {
      var s' := s[..|s| - 1];
      var x := s[|s| - 1];
      var ks' := Keys(s', key);
      GroupSumsTotal(s', key, v);
      KeysDistinct(s', key);
      SumGroupsLast(s, key, ks', v);
      if key(x) !in ks' {
        NewKeySum(s, key, v);
      }
    }
  }

  /** A key first met at the last element has that element alone in its group. */
  lemma NewKeySum<T>(s: seq<T>, key: T -> string, v: T -> real)
    requires s != [] && key(s[|s| - 1]) !in Keys(s[..|s| - 1], key)
    ensures SumGroups(s, key, Keys(s, key), v) == SumGroups(s, key, Keys(s[..|s| - 1], key), v) + v(s[|s| - 1])
  {
    var s', x := s[..|s| - 1], s[|s| - 1];
    var ks := Keys(s', key);
    GroupNonEmpty(s', key, key(x));
    assert Group(s', key, key(x)) == [];
    assert Group(s, key, key(x)) == [] + [x] == [x];
    assert [x][..0] == [];
    assert SumBy([x], v) == v(x);
    var ks2 := ks + [key(x)];
    assert Keys(s, key) == ks2;
    assert ks2[..|ks2| - 1] == ks && ks2[|ks2| - 1] == key(x);
    assert SumGroups(s, key, ks2, v) == SumGroups(s, key, ks, v) + SumBy(Group(s, key, key(x)), v);
  }

  function One<T>(x: T): real {
    1.0
  }

  lemma {:induction false} SumOfOnes<T>(s: seq<T>)
    ensures SumBy(s, One) == |s| as real
  {
    if s != [] {
      SumOfOnes(s[..|s| - 1]);
    }
  }

  /** The group sizes add up to the length of the sequence. */
  lemma GroupSizesTotal<T>(s: seq<T>, key: T -> string)
    ensures SumGroups(s, key, Keys(s, key), One) == |s| as real
  {
    GroupSumsTotal(s, key, One);
    SumOfOnes(s);
  }
}
