/**
 * Filtering and ordering of database rows, as the ORM's `filter`,
 * `exclude` and `order_by` do them. An ordering is a comparator `le`
 * ("a may come before b"); `SortBy` is a stable insertion sort, so rows
 * that compare equal keep the order they had in the table.
 */
module Sorting {
  import opened Options

  /** `le` is total and transitive: a key that `order_by` can sort on. */
  ghost predicate TotalPreorder<T(!new)>(le: (T, T) -> bool) {
    && (forall a, b :: le(a, b) || le(b, a))
    && (forall a, b, c :: le(a, b) && le(b, c) ==> le(a, c))
  }

  predicate SortedBy<T>(s: seq<T>, le: (T, T) -> bool) {
    forall i, j :: 0 <= i < j < |s| ==> le(s[i], s[j])
  }

  /** The rows of `s` that satisfy `p`, in table order. */
  function Filter<T(!new)>(s: seq<T>, p: T -> bool): (r: seq<T>)
    ensures |r| <= |s|
    ensures forall x :: x in r <==> x in s && p(x)
    ensures forall x :: multiset(r)[x] == if p(x) then multiset(s)[x] else 0
  {
    if s == [] then []
    else
      var rest := Filter(s[1..], p);
      assert s == [s[0]] + s[1..];
      if p(s[0]) then [s[0]] + rest else rest
  }

  /** No two rows share a key: a primary-key or `unique=True` column. */
  predicate DistinctKeys<T, K(==)>(s: seq<T>, key: T -> K) {
    forall i, j :: 0 <= i < j < |s| ==> key(s[i]) != key(s[j])
  }

  lemma HeadKeyDiffers<T, K>(s: seq<T>, key: T -> K, x: T)
    requires DistinctKeys(s, key) && s != [] && x in s[1..]
    ensures key(s[0]) != key(x)
  {
    var k :| 0 <= k < |s[1..]| && s[1..][k] == x;
    assert s[k + 1] == x;
  }

  lemma HeadPrecedesTail<T>(s: seq<T>, le: (T, T) -> bool, x: T)
    requires SortedBy(s, le) && s != [] && x in s[1..]
    ensures le(s[0], x)
  {
    var k :| 0 <= k < |s[1..]| && s[1..][k] == x;
    assert s[k + 1] == x;
  }

  /** Filtering a table keeps its keys distinct. */
  lemma {:induction false} FilterDistinct<T(!new), K>(s: seq<T>, p: T -> bool, key: T -> K)
    requires DistinctKeys(s, key)
    ensures DistinctKeys(Filter(s, p), key)
  {
    if s != [] {
      FilterDistinct(s[1..], p, key);
      forall x | x in Filter(s[1..], p) ensures key(s[0]) != key(x) {
        HeadKeyDiffers(s, key, x);
      }
    }
  }

  /** Filtering a sorted sequence leaves it sorted. */
  lemma {:induction false} FilterSorted<T(!new)>(s: seq<T>, p: T -> bool, le: (T, T) -> bool)
    requires SortedBy(s, le)
    ensures SortedBy(Filter(s, p), le)
  {
    if s != [] {
      FilterSorted(s[1..], p, le);
      forall x | x in Filter(s[1..], p) ensures le(s[0], x) {
        HeadPrecedesTail(s, le, x);
      }
    }
  }

  /** Puts `x` in front of the first element it may precede. */
  function Insert<T>(x: T, s: seq<T>, le: (T, T) -> bool): (r: seq<T>)
    ensures multiset(r) == multiset(s) + multiset{x}
  {
    if s == [] then [x]
    else if le(x, s[0]) then [x] + s
    else
      assert s == [s[0]] + s[1..];
      [s[0]] + Insert(x, s[1..], le)
  }

  function SortBy<T>(s: seq<T>, le: (T, T) -> bool): (r: seq<T>)
    ensures multiset(r) == multiset(s)
  {
    if s == [] then []
    else
      assert s == [s[0]] + s[1..];
      Insert(s[0], SortBy(s[1..], le), le)
  }

  /** The first row of an ordered query, as `.first()` returns it. */
  function First<T>(s: seq<T>): (r: Option<T>)
    ensures r.None? <==> s == []
    ensures r.Some? ==> r.value in s && r.value == s[0]
  {
    if s == [] then None else Some(s[0])
  }

  lemma {:induction false} InsertSorted<T(!new)>(x: T, s: seq<T>, le: (T, T) -> bool)
    requires TotalPreorder(le)
    requires SortedBy(s, le)
    ensures SortedBy(Insert(x, s, le), le)
  {
    if s != [] && !le(x, s[0]) {
      var tail := Insert(x, s[1..], le);
      InsertSorted(x, s[1..], le);
      assert le(s[0], x);
      forall k | 0 <= k < |tail| ensures le(s[0], tail[k]) {
        assert tail[k] in multiset(s[1..]) + multiset{x} by {
          assert tail[k] in multiset(tail);
        }
        if tail[k] != x {
          assert tail[k] in s[1..];
        }
      }
    }
  }

  lemma {:induction false} SortBySorted<T(!new)>(s: seq<T>, le: (T, T) -> bool)
    requires TotalPreorder(le)
    ensures SortedBy(SortBy(s, le), le)
  {
    if s != [] {
      SortBySorted(s[1..], le);
      InsertSorted(s[0], SortBy(s[1..], le), le);
    }
  }

  /** Sorting keeps exactly the rows it was given. */
  lemma SortByMembers<T(!new)>(s: seq<T>, le: (T, T) -> bool)
    ensures forall x :: x in SortBy(s, le) <==> x in s
  {
    var r := SortBy(s, le);
    forall x ensures x in r <==> x in s {
      assert x in r <==> x in multiset(r);
      assert x in s <==> x in multiset(s);
    }
  }

  /** The head of a non-empty sorted sequence precedes every element of it. */
  lemma HeadIsLeast<T(!new)>(s: seq<T>, le: (T, T) -> bool, x: T)
    requires SortedBy(s, le)
    requires x in s
    requires TotalPreorder(le)
    ensures le(s[0], x)
  {
    var k :| 0 <= k < |s| && s[k] == x;
    if k > 0 { assert le(s[0], s[k]); }
  }

  /** The head of a sorted table precedes every row of it. */
  lemma SortedHeadIsLeast<T(!new)>(s: seq<T>, le: (T, T) -> bool)
    ensures TotalPreorder(le) && SortBy(s, le) != [] ==> forall x :: x in s ==> le(SortBy(s, le)[0], x)
  {
    if TotalPreorder(le) && SortBy(s, le) != [] {
      SortBySorted(s, le);
      SortByMembers(s, le);
      forall x | x in s ensures le(SortBy(s, le)[0], x) {
        HeadIsLeast(SortBy(s, le), le, x);
      }
    }
  }

  /**
   * `filter(p).order_by(le).first()`: a row satisfying `p` that no other
   * such row precedes, or nothing when no row satisfies `p`.
   */
  function FirstBy<T(!new)>(s: seq<T>, p: T -> bool, le: (T, T) -> bool): (r: Option<T>)
    ensures r.None? <==> forall x :: x in s ==> !p(x)
    ensures r.Some? ==> r.value in s && p(r.value)
    ensures TotalPreorder(le) && r.Some? ==> forall x :: x in s && p(x) ==> le(r.value, x)
  {
    SortByMembers(Filter(s, p), le);
    SortedHeadIsLeast(Filter(s, p), le);
    First(SortBy(Filter(s, p), le))
  }
}
