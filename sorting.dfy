/**
 * The `orderBy` of a query: rows are arranged by a key of up to two
 * integer columns compared lexicographically (a descending column is
 * keyed by its negation). Insertion sort is the reference definition;
 * the store's own order for equal keys is not modelled.
 */
module Sorting {

  datatype Key = Key(major: int, minor: int)

  predicate KeyLe(a: Key, b: Key) {
    a.major < b.major || (a.major == b.major && a.minor <= b.minor)
  }

  predicate SortedBy<T>(s: seq<T>, key: T -> Key) {
    forall i, j :: 0 <= i < j < |s| ==> KeyLe(key(s[i]), key(s[j]))
  }

  predicate Distinct<T(==)>(s: seq<T>) {
    forall i, j :: 0 <= i < j < |s| ==> s[i] != s[j]
  }

  function InsertBy<T>(x: T, s: seq<T>, key: T -> Key): (r: seq<T>)
    ensures multiset(r) == multiset(s) + multiset{x}
    ensures SortedBy(s, key) ==> SortedBy(r, key)
  {
    if s == [] then [x]
    else if KeyLe(key(x), key(s[0])) then [x] + s
    else
      var tail := InsertBy(x, s[1..], key);
      assert s == [s[0]] + s[1..];
      assert SortedBy(s, key) ==> forall k :: 0 <= k < |tail| ==> KeyLe(key(s[0]), key(tail[k])) by {
        if SortedBy(s, key) {
          forall k | 0 <= k < |tail| ensures KeyLe(key(s[0]), key(tail[k])) {
            InsertedElement(tail, k, x, s[1..]);
          }
        }
      }
      [s[0]] + tail
  }

  /** An element of s with x added is x or an element of s. */
  lemma InsertedElement<T>(r: seq<T>, k: int, x: T, s: seq<T>)
    requires 0 <= k < |r| && multiset(r) == multiset(s) + multiset{x}
    ensures r[k] == x || exists m :: 0 <= m < |s| && s[m] == r[k]
  {
    assert r[k] in multiset(r);
  }

  /** The rows of s arranged by ascending key: a sorted permutation of s. */
  function SortBy<T>(s: seq<T>, key: T -> Key): (r: seq<T>)
    ensures multiset(r) == multiset(s)
    ensures SortedBy(r, key)
  {
    if s == [] then []
    else
      assert s == [s[0]] + s[1..];
      InsertBy(s[0], SortBy(s[1..], key), key)
  }

  lemma {:induction false} DistinctCount<T>(s: seq<T>, x: T)
    requires Distinct(s)
    ensures multiset(s)[x] <= 1
  {
    if s != [] {
      assert s == [s[0]] + s[1..];
      DistinctCount(s[1..], x);
      if s[0] == x {
        assert x !in s[1..];
      }
    }
  }

  /** A permutation of a sequence without repetitions has none either. */
  lemma DistinctPermutation<T>(s: seq<T>, r: seq<T>)
    requires multiset(s) == multiset(r) && Distinct(s)
    ensures Distinct(r)
  {
    forall i, j | 0 <= i < j < |r| ensures r[i] != r[j] {
      if r[i] == r[j] {
        var x := r[i];
        assert r == r[..j] + r[j..];
        assert x in r[..j];
        assert x in r[j..];
        assert multiset(r)[x] == multiset(r[..j])[x] + multiset(r[j..])[x];
        DistinctCount(s, x);
        assert false;
      }
    }
  }

  /** Sorting keeps exactly the rows it was given. */
  lemma SortByMembers<T>(s: seq<T>, key: T -> Key)
    ensures forall x :: x in SortBy(s, key) <==> x in s
  {
    var r := SortBy(s, key);
    forall x ensures x in r <==> x in s {
      assert x in r <==> x in multiset(r);
      assert x in s <==> x in multiset(s);
    }
  }

  /**
   * What every listing needs from the sort: rows with strictly
   * increasing ids come out as the same rows, sorted by the key, with
   * distinct ids.
   */
  lemma SortByFacts<T>(s: seq<T>, key: T -> Key, id: T -> int)
    requires forall i, j :: 0 <= i < j < |s| ==> id(s[i]) < id(s[j])
    ensures forall x :: x in SortBy(s, key) <==> x in s
    ensures SortedBy(SortBy(s, key), key)
    ensures forall i, j :: 0 <= i < j < |SortBy(s, key)| ==> id(SortBy(s, key)[i]) != id(SortBy(s, key)[j])
  {
    var r := SortBy(s, key);
    SortByMembers(s, key);
    assert Distinct(s);
    DistinctPermutation(s, r);
    forall i, j | 0 <= i < j < |r| ensures id(r[i]) != id(r[j]) {
      assert r[i] in multiset(s) && r[j] in multiset(s);
      var a :| 0 <= a < |s| && s[a] == r[i];
      var b :| 0 <= b < |s| && s[b] == r[j];
      assert a != b;
    }
  }
}
