/**
 Sorting by a descending key, as both `std::sort` calls of the program do it
 (the comparators are `a.second > b.second` and `get<0>(a) > get<0>(b)`).

 `std::sort` is not stable and the program never relies on one tie order, so
 the sort is specified only by its postcondition: the result is a permutation
 of the input and is non-increasing under the key. The body is a selection
 sort; any other algorithm meeting the same contract would do.
 */
module Sorting {

  /** `s` is non-increasing under `key`. */
  ghost predicate SortedDesc<T>(s: seq<T>, key: T -> real)
  {
    forall i, j :: 0 <= i < j < |s| ==> key(s[i]) >= key(s[j])
  }

  /** No element occurs twice in `s`. */
  ghost predicate Distinct<T>(s: seq<T>)
  {
    forall i, j :: 0 <= i < j < |s| ==> s[i] != s[j]
  }

  /** The position of a largest key in `a[lo..]`. */
  method MaxIndexFrom<T>(a: array<T>, key: T -> real, lo: nat) returns (m: nat)
    requires lo < a.Length
    ensures lo <= m < a.Length
    ensures forall k :: lo <= k < a.Length ==> key(a[k]) <= key(a[m])
  {
    m := lo;
    var k := lo + 1;
    while k < a.Length
      invariant lo <= m < k <= a.Length
      invariant forall q :: lo <= q < k ==> key(a[q]) <= key(a[m])
    {
      if key(a[k]) > key(a[m]) {
        m := k;
      }
      k := k + 1;
    }
  }

  /** Exchanges two cells of `a`. */
  method Swap<T>(a: array<T>, i: nat, j: nat)
    requires i < a.Length && j < a.Length
    modifies a
    ensures a[..] == old(a[..])[i := old(a[j])][j := old(a[i])]
    ensures multiset(a[..]) == multiset(old(a[..]))
  {
    a[i], a[j] := a[j], a[i];
  }

  /** Sorts `a` in place, largest key first; ties end up in any order. */
  method SortDescending<T>(a: array<T>, key: T -> real)
    modifies a
    ensures SortedDesc(a[..], key)
    ensures multiset(a[..]) == multiset(old(a[..]))
  {
    for i := 0 to a.Length
      invariant forall x, y :: 0 <= x < y < a.Length && x < i ==> key(a[x]) >= key(a[y])
      invariant multiset(a[..]) == multiset(old(a[..]))
    {
      var m := MaxIndexFrom(a, key, i);
      Swap(a, i, m);
    }
  }

  /** In a sequence without repetitions every element occurs at most once. */
  lemma {:induction false} DistinctOnce<T>(s: seq<T>)
    requires Distinct(s)
    ensures forall x :: multiset(s)[x] <= 1
  {
    if s != [] {
      var init, last := s[..|s| - 1], s[|s| - 1];
      assert s == init + [last];
      assert Distinct(init);
      DistinctOnce(init);
      assert last !in init;
    }
  }

  /** Two equal cells make their value occur at least twice. */
  lemma RepeatedTwice<T>(s: seq<T>, i: nat, j: nat)
    requires i < j < |s| && s[i] == s[j]
    ensures multiset(s)[s[i]] >= 2
  {
    assert s == s[..j] + s[j..];
    assert s[i] in s[..j];
    assert s[j] in s[j..];
  }

  /** A permutation of a sequence without repetitions has none either. */
  lemma PermutationDistinct<T>(s: seq<T>, t: seq<T>)
    requires multiset(s) == multiset(t) && Distinct(s)
    ensures Distinct(t)
  {
    DistinctOnce(s);
    forall i, j | 0 <= i < j < |t|
      ensures t[i] != t[j]
    {
      if t[i] == t[j] {
        RepeatedTwice(t, i, j);
        assert false;
      }
    }
  }
}
