/** Filtering and reordering of lists. */
module Lists {

  lemma Regroup<T>(x: seq<T>, y: seq<T>, z: seq<T>)
    ensures x + y + z == x + (y + z)
  {
  }

  function Filter<T>(p: T -> bool, s: seq<T>): seq<T> {
    if s == [] then []
    else
      var before := Filter(p, s[..|s| - 1]);
      if p(s[|s| - 1]) then before + [s[|s| - 1]] else before
  }

  lemma FilterStep<T>(p: T -> bool, s: seq<T>, i: nat)
    requires i < |s|
    ensures Filter(p, s[..i + 1]) == if p(s[i]) then Filter(p, s[..i]) + [s[i]] else Filter(p, s[..i])
  {
    assert s[..i + 1][..i] == s[..i];
  }

  lemma {:induction false} FilterCounts<T>(p: T -> bool, s: seq<T>, x: T)
    ensures multiset(Filter(p, s))[x] == if p(x) then multiset(s)[x] else 0
  {
    if s == [] {
    } else {
      FilterCounts(p, s[..|s| - 1], x);
      assert s == s[..|s| - 1] + [s[|s| - 1]];
    }
  }

  lemma FilterMember<T>(p: T -> bool, s: seq<T>, x: T)
    ensures x in Filter(p, s) <==> x in s && p(x)
  {
    FilterCounts(p, s, x);
    assert x in Filter(p, s) <==> x in multiset(Filter(p, s));
    assert x in s <==> x in multiset(s);
  }

  predicate Reordered<T(==)>(a: seq<T>, b: seq<T>) {
    multiset(a) == multiset(b)
  }

  lemma SameCounts<T>(m: multiset<T>, n: multiset<T>)
    requires forall x | x in m + n :: m[x] == n[x]
    ensures m == n
  {
  }

  lemma FilterReordered<T>(p: T -> bool, a: seq<T>, b: seq<T>)
    requires Reordered(a, b)
    ensures Reordered(Filter(p, a), Filter(p, b))
  {
    var m, n := multiset(Filter(p, a)), multiset(Filter(p, b));
    forall x | x in m + n
      ensures m[x] == n[x]
    {
      FilterCounts(p, a, x);
      FilterCounts(p, b, x);
    }
    SameCounts(m, n);
  }

  lemma ReorderedLength<T>(a: seq<T>, b: seq<T>)
    requires Reordered(a, b)
    ensures |a| == |b| && (forall x | x in a :: x in b) && (|a| == 1 ==> a == b)
  {
    assert |multiset(a)| == |a| && |multiset(b)| == |b|;
    forall x | x in a
      ensures x in b
    {
      assert x in multiset(a);
    }
    if |a| == 1 {
      assert a[0] in b;
    }
  }

  /** The list holds each value of the map once, under whatever order. */
  predicate IsListing<K(==), V(==)>(s: seq<V>, m: map<K, V>, key: V -> K) {
    (forall v | v in s :: key(v) in m && m[key(v)] == v)
    && (forall k | k in m :: m[k] in s)
    && forall i, j | 0 <= i < j < |s| :: s[i] != s[j]
  }

  lemma {:induction false} DistinctOnce<T>(s: seq<T>, x: T)
    requires forall i, j | 0 <= i < j < |s| :: s[i] != s[j]
    ensures multiset(s)[x] == if x in s then 1 else 0
  {
    if s == [] {
    } else {
      var t, y := s[..|s| - 1], s[|s| - 1];
      DistinctOnce(t, x);
      assert s == t + [y];
      assert y !in t;
    }
  }

  /** Two listings of one map differ in order only. */
  lemma ListingsReordered<K, V>(a: seq<V>, b: seq<V>, m: map<K, V>, key: V -> K)
    requires IsListing(a, m, key) && IsListing(b, m, key)
    ensures Reordered(a, b)
  {
    forall x | true
      ensures multiset(a)[x] == multiset(b)[x]
    {
      DistinctOnce(a, x);
      DistinctOnce(b, x);
      assert x in a ==> key(x) in m && m[key(x)] in b;
      assert x in b ==> key(x) in m && m[key(x)] in a;
    }
  }
}
