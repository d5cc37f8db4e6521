/**
 * The list operations the store performs on its index buckets
 * (src/store/Store.java): the author/title intersection of `add` and the
 * bucket append of `AddToIndices`.
 */
module Indices {

  /** No element occurs twice. */
  ghost predicate Distinct<T>(s: seq<T>)
  {
    forall i, j :: 0 <= i < j < |s| ==> s[i] != s[j]
  }

  /** The elements of a list, as a set (what `HashSet.addAll` collects). */
  function Elems<T>(s: seq<T>): set<T>
  {
    set x | x in s
  }

  /** A non-empty set has an element (where iterating over a `HashSet` can start). */
  lemma Witness<T>(s: set<T>) returns (x: T)
    requires s != {}
    ensures x in s
  {
    if forall y :: y !in s {
      assert false;
    }
    x :| x in s;
  }

  /** A list without repetitions has as many elements as its set. */
  lemma {:induction false} DistinctCardinality<T>(s: seq<T>)
    requires Distinct(s)
    ensures |Elems(s)| == |s|
  {
    if s != [] {
      assert Distinct(s[1..]) by {
        forall i, j | 0 <= i < j < |s[1..]| ensures s[1..][i] != s[1..][j] {
          assert s[1..][i] == s[i + 1] && s[1..][j] == s[j + 1];
        }
      }
      DistinctCardinality(s[1..]);
      assert Elems(s) == {s[0]} + Elems(s[1..]);
      assert s[0] !in Elems(s[1..]);
    }
  }

  /**
   * `new ArrayList<>(a).retainAll(b)`: the elements of `a` that occur in `b`,
   * repetitions of `a` kept.
   */
  function Intersect(a: seq<int>, b: seq<int>): (r: seq<int>)
    ensures forall x :: x in r <==> x in a && x in b
    ensures |r| <= |a|
    ensures Distinct(a) ==> Distinct(r)
  {
    if a == [] then []
    else
      var rest := Intersect(a[1..], b);
      assert Distinct(a) ==> Distinct(a[1..]) && a[0] !in rest by {
        if Distinct(a) {
          forall i, j | 0 <= i < j < |a[1..]| ensures a[1..][i] != a[1..][j] {
            assert a[1..][i] == a[i + 1] && a[1..][j] == a[j + 1];
          }
        }
      }
      if a[0] in b then [a[0]] + rest else rest
  }

  /** `Intersect` keeps each element of `a` that occurs in `b` as often as `a` has it, and no other. */
  lemma {:induction false} IntersectCounts(a: seq<int>, b: seq<int>)
    ensures forall x :: multiset(Intersect(a, b))[x] == (if x in b then multiset(a)[x] else 0)
  {
    if a != [] {
      IntersectCounts(a[1..], b);
      assert a == [a[0]] + a[1..];
    }
  }

  /**
   * The index after `id` is appended to the bucket of `key`; a missing
   * bucket is created holding just `id`, and every other bucket is kept.
   */
  function IndexAppend<K>(index: map<K, seq<int>>, key: K, id: int): (r: map<K, seq<int>>)
    ensures r.Keys == index.Keys + {key}
    ensures r[key] == (if key in index then index[key] else []) + [id]
    ensures forall k :: k in index && k != key ==> r[k] == index[k]
  {
    if key in index then index[key := index[key] + [id]] else index[key := [id]]
  }
}
