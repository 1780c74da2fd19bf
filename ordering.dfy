/**
 * `ORDER BY` with no tie-break: SQLite returns the rows sorted by the key,
 * but the order of rows with equal keys is not specified. `SortBy` is one
 * such order, fixed for given rows but not otherwise known.
 */
module Ordering {

  /** Keys never decrease along `s`. */
  predicate SortedBy<T>(s: seq<T>, key: T -> int)
  {
    forall i, j | 0 <= i < j < |s| :: key(s[i]) <= key(s[j])
  }

  /** The position of an element of least key. */
  function MinIndex<T>(s: seq<T>, key: T -> int): (i: nat)
    requires |s| > 0
    ensures i < |s| && forall j | 0 <= j < |s| :: key(s[i]) <= key(s[j])
    decreases |s|
  {
    if |s| == 1 then 0
    else
      var i := MinIndex(s[1..], key);
      assert forall j | 1 <= j < |s| :: s[j] == s[1..][j - 1];
      if key(s[0]) <= key(s[1..][i]) then 0 else i + 1
  }

  /** `s` without its element at `i`. */
  function RemoveAt<T>(s: seq<T>, i: nat): seq<T>
    requires i < |s|
  {
    s[..i] + s[i + 1..]
  }

  lemma RemoveAtMultiset<T>(s: seq<T>, i: nat)
    requires i < |s|
    ensures multiset(s) == multiset{s[i]} + multiset(RemoveAt(s, i))
  {
    assert s == s[..i] + [s[i]] + s[i + 1..];
  }

  /** A sorted arrangement of `s`, built by repeatedly taking an element of least key. */
  ghost function SelectionSort<T>(s: seq<T>, key: T -> int): seq<T>
    decreases |s|
  {
    if s == [] then []
    else
      var i := MinIndex(s, key);
      [s[i]] + SelectionSort(RemoveAt(s, i), key)
  }

  lemma {:induction false} SelectionSortPermutes<T>(s: seq<T>, key: T -> int)
    ensures multiset(SelectionSort(s, key)) == multiset(s)
    decreases |s|
  {
    if s != [] {
      var i := MinIndex(s, key);
      SelectionSortPermutes(RemoveAt(s, i), key);
      RemoveAtMultiset(s, i);
    }
  }

  lemma {:induction false} SelectionSortSorted<T>(s: seq<T>, key: T -> int)
    ensures SortedBy(SelectionSort(s, key), key)
    decreases |s|
  {
    if s != [] {
      var i := MinIndex(s, key);
      var rest := RemoveAt(s, i);
      var tail := SelectionSort(rest, key);
      SelectionSortSorted(rest, key);
      SelectionSortPermutes(rest, key);
      RemoveAtMultiset(s, i);
      forall j | 0 <= j < |tail| ensures key(s[i]) <= key(tail[j]) {
        assert tail[j] in multiset(s);
        var k :| 0 <= k < |s| && s[k] == tail[j];
      }
      SortedCons(s[i], tail, key);
    }
  }

  /** An element no greater than anything in a sorted sequence can go in front of it. */
  lemma SortedCons<T>(x: T, tail: seq<T>, key: T -> int)
    requires SortedBy(tail, key)
    requires forall j | 0 <= j < |tail| :: key(x) <= key(tail[j])
    ensures SortedBy([x] + tail, key)
  {
    var r := [x] + tail;
    forall a, b | 0 <= a < b < |r| ensures key(r[a]) <= key(r[b]) {
      assert r[b] == tail[b - 1];
      if a > 0 { assert r[a] == tail[a - 1]; }
    }
  }

  /** An element no smaller than anything in a sorted sequence can go after it. */
  lemma SortedSnoc<T>(s: seq<T>, x: T, key: T -> int)
    requires SortedBy(s, key)
    requires forall j | 0 <= j < |s| :: key(s[j]) <= key(x)
    ensures SortedBy(s + [x], key)
  {
    var r := s + [x];
    forall a, b | 0 <= a < b < |r| ensures key(r[a]) <= key(r[b]) {
      assert r[a] == s[a];
      if b < |s| { assert r[b] == s[b]; }
    }
  }

  /** Some arrangement of `s` sorted by `key`; the order among equal keys is unspecified. */
  ghost function SortBy<T(!new)>(s: seq<T>, key: T -> int): (r: seq<T>)
    ensures multiset(r) == multiset(s)
    ensures SortedBy(r, key)
  {
    var sorted := SelectionSort(s, key);
    SelectionSortPermutes(s, key);
    SelectionSortSorted(s, key);
    assert multiset(sorted) == multiset(s) && SortedBy(sorted, key);
    var r :| multiset(r) == multiset(s) && SortedBy(r, key);
    r
  }

  /** Some sequence listing each member of `s` once, in an unspecified order. */
  ghost function SetToSeq<T>(s: set<T>): (r: seq<T>)
    ensures multiset(r) == multiset(s)
    decreases |s|
  {
    if s == {} then []
    else
      var x :| x in s;
      var rest := SetToSeq(s - {x});
      assert multiset(s) == multiset{x} + multiset(s - {x}) by {
        assert s == {x} + (s - {x});
      }
      [x] + rest
  }
}
