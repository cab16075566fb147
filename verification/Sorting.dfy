/** The stable sort that the scene uses, as a function with its three defining properties. */
module Sorting {

  // Sort keys are pairs compared lexicographically.
  datatype Key = Key(major: nat, minor: nat) {
    predicate Less(other: Key) {
      major < other.major || (major == other.major && minor < other.minor)
    }

    predicate AtMost(other: Key) {
      !other.Less(this)
    }
  }

  function Place<T>(sorted: seq<T>, x: T, key: T -> Key): seq<T> {
    if sorted == [] || key(sorted[|sorted| - 1]).AtMost(key(x)) then sorted + [x]
    else Place(sorted[..|sorted| - 1], x, key) + [sorted[|sorted| - 1]]
  }

  function SortBy<T>(s: seq<T>, key: T -> Key): seq<T> {
    if s == [] then [] else Place(SortBy(s[..|s| - 1], key), s[|s| - 1], key)
  }

  ghost predicate Sorted<T>(s: seq<T>, key: T -> Key) {
    forall i, j :: 0 <= i < j < |s| ==> key(s[i]).AtMost(key(s[j]))
  }

  /** The elements with key `k`, in order. */
  ghost function Having<T>(s: seq<T>, key: T -> Key, k: Key): seq<T> {
    if s == [] then []
    else Having(s[..|s| - 1], key, k) + if key(s[|s| - 1]) == k then [s[|s| - 1]] else []
  }

  lemma {:induction false} PlacePermutes<T>(sorted: seq<T>, x: T, key: T -> Key)
    ensures multiset(Place(sorted, x, key)) == multiset(sorted) + multiset{x}
  {
    if sorted != [] && !key(sorted[|sorted| - 1]).AtMost(key(x)) {
      PlacePermutes(sorted[..|sorted| - 1], x, key);
      assert sorted == sorted[..|sorted| - 1] + [sorted[|sorted| - 1]];
    }
  }

  lemma {:induction false} PlaceSorts<T>(sorted: seq<T>, x: T, key: T -> Key)
    requires Sorted(sorted, key)
    ensures Sorted(Place(sorted, x, key), key)
  {
    if sorted != [] && !key(sorted[|sorted| - 1]).AtMost(key(x)) {
      var rest, last := sorted[..|sorted| - 1], sorted[|sorted| - 1];
      PlaceSorts(rest, x, key);
      PlacePermutes(rest, x, key);
      var placed := Place(rest, x, key);
      assert Place(sorted, x, key) == placed + [last];
      hide Place;
      forall i | 0 <= i < |placed| ensures key(placed[i]).AtMost(key(last)) {
        assert placed[i] in multiset(placed);
        assert placed[i] == x || placed[i] in rest;
      }
    }
  }

  lemma HavingSnoc<T>(s: seq<T>, x: T, key: T -> Key, k: Key)
    ensures Having(s + [x], key, k) == Having(s, key, k) + if key(x) == k then [x] else []
  {
    assert (s + [x])[..|s|] == s;
  }

  lemma {:induction false} PlaceIsStable<T>(sorted: seq<T>, x: T, key: T -> Key, k: Key)
    requires Sorted(sorted, key)
    ensures Having(Place(sorted, x, key), key, k) == Having(sorted + [x], key, k)
  {
    HavingSnoc(sorted, x, key, k);
    if sorted != [] && !key(sorted[|sorted| - 1]).AtMost(key(x)) {
      var rest, last := sorted[..|sorted| - 1], sorted[|sorted| - 1];
      PlaceIsStable(rest, x, key, k);
      HavingSnoc(rest, x, key, k);
      HavingSnoc(Place(rest, x, key), last, key, k);
    }
  }

  /** A stable sort: sorted, a permutation, and equal keys keep their order. */
  lemma {:induction false} SortByIsStableSort<T>(s: seq<T>, key: T -> Key)
    ensures Sorted(SortBy(s, key), key)
    ensures multiset(SortBy(s, key)) == multiset(s)
    ensures forall k :: Having(SortBy(s, key), key, k) == Having(s, key, k)
  {
    if s != [] {
      var rest, last := s[..|s| - 1], s[|s| - 1];
      SortByIsStableSort(rest, key);
      var sorted := SortBy(rest, key);
      PlaceSorts(sorted, last, key);
      PlacePermutes(sorted, last, key);
      assert s == rest + [last];
      forall k ensures Having(SortBy(s, key), key, k) == Having(s, key, k) {
        PlaceIsStable(sorted, last, key, k);
        HavingSnoc(sorted, last, key, k);
        HavingSnoc(rest, last, key, k);
      }
    }
  }

  lemma RepeatedTwice<T>(s: seq<T>, i: nat, j: nat)
    requires i < j < |s| && s[i] == s[j]
    ensures multiset(s)[s[i]] >= 2
  {
    assert s == s[..j] + [s[j]] + s[j + 1..];
    assert s[..j][i] == s[i];
    assert s[i] in multiset(s[..j]);
  }

  lemma {:induction false} DistinctOnce<T>(s: seq<T>, x: T)
    requires forall i, j :: 0 <= i < j < |s| ==> s[i] != s[j]
    ensures multiset(s)[x] <= 1
  {
    if s != [] {
      assert s == [s[0]] + s[1..];
      DistinctOnce(s[1..], x);
    }
  }
}
