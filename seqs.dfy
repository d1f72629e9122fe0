/**
 * Array operations the modelled code uses on its records: filter, counting by
 * a categorical key, and the stable sort of Array.prototype.sort with a
 * numeric comparator.
 */
module Seqs {
  import opened Wrappers

  /** The identity, as a key that compares whole elements. */
  function Id<T>(x: T): T { x }

  /** Array.prototype.filter. */
  function Filter<T>(s: seq<T>, p: T -> bool): (r: seq<T>)
    ensures |r| <= |s|
    ensures forall x | x in r :: x in s && p(x)
  {
    if s == [] then [] else (if p(s[0]) then [s[0]] else []) + Filter(s[1..], p)
  }

  /** Array.prototype.map. */
  function Map<T, U>(s: seq<T>, f: T -> U): (r: seq<U>)
    ensures |r| == |s|
    ensures forall i | 0 <= i < |s| :: r[i] == f(s[i])
  {
    if s == [] then [] else [f(s[0])] + Map(s[1..], f)
  }

  lemma {:induction false} FilterAppend<T>(a: seq<T>, b: seq<T>, p: T -> bool)
    ensures Filter(a + b, p) == Filter(a, p) + Filter(b, p)
  {
    if a == [] {
      assert a + b == b;
    } else {
      assert (a + b)[1..] == a[1..] + b;
      FilterAppend(a[1..], b, p);
    }
  }

  lemma MapAppend<T, U>(a: seq<T>, b: seq<T>, f: T -> U)
    ensures Map(a + b, f) == Map(a, f) + Map(b, f)
  {
  }

  lemma MapUpdate<T, U>(s: seq<T>, i: nat, x: T, f: T -> U)
    requires i < |s|
    ensures Map(s[i := x], f) == Map(s, f)[i := f(x)]
  {
  }

  /**
   * What a loop that pushes make(x) for every x passing keep accumulates,
   * element by element from the front.
   */
  function Collect<T, U>(s: seq<T>, keep: T -> bool, make: T -> U): seq<U> {
    if s == [] then []
    else
      var last := s[|s| - 1];
      Collect(s[..|s| - 1], keep, make) + (if keep(last) then [make(last)] else [])
  }

  /** One more element: the loop pushes make(s[j]) when s[j] is kept. */
  lemma CollectStep<T, U>(s: seq<T>, keep: T -> bool, make: T -> U, j: nat)
    requires j < |s|
    ensures Collect(s[..j + 1], keep, make) == Collect(s[..j], keep, make) + (if keep(s[j]) then [make(s[j])] else [])
  {
    assert s[..j + 1][..j] == s[..j];
  }

  /** The loop is a filter followed by a map: one result per kept element, in order. */
  lemma {:induction false} CollectFilterMap<T, U>(s: seq<T>, keep: T -> bool, make: T -> U)
    ensures Collect(s, keep, make) == Map(Filter(s, keep), make)
  {
    if s != [] {
      var init, last := s[..|s| - 1], s[|s| - 1];
      CollectFilterMap(init, keep, make);
      assert s == init + [last];
      FilterMapSnoc(init, last, keep, make);
    }
  }

  /** Filtering then mapping one more element adds its image when it is kept. */
  lemma FilterMapSnoc<T, U>(init: seq<T>, last: T, keep: T -> bool, make: T -> U)
    ensures Map(Filter(init + [last], keep), make)
         == Map(Filter(init, keep), make) + (if keep(last) then [make(last)] else [])
  {
    FilterAppend(init, [last], keep);
    assert Filter([last], keep) == if keep(last) then [last] else [];
    MapAppend(Filter(init, keep), Filter([last], keep), make);
  }

  /** CollectMember for everything after the first element, indexed in the whole sequence. */
  lemma CollectMemberAfterFirst<T, U>(s: seq<T>, keep: T -> bool, make: T -> U, u: U)
    requires |s| >= 1
    ensures u in Collect(s[1..], keep, make) <==> exists i | 1 <= i < |s| :: keep(s[i]) && u == make(s[i])
  {
    var data := s[1..];
    CollectMember(data, keep, make, u);
    if exists i | 0 <= i < |data| :: keep(data[i]) && u == make(data[i]) {
      var i :| 0 <= i < |data| && keep(data[i]) && u == make(data[i]);
      assert data[i] == s[i + 1];
    }
    if exists i | 1 <= i < |s| :: keep(s[i]) && u == make(s[i]) {
      var i :| 1 <= i < |s| && keep(s[i]) && u == make(s[i]);
      assert data[i - 1] == s[i];
    }
  }

  /** A result is in the collection exactly when some kept element makes it. */
  lemma {:induction false} CollectMember<T, U>(s: seq<T>, keep: T -> bool, make: T -> U, u: U)
    ensures u in Collect(s, keep, make) <==> exists i | 0 <= i < |s| :: keep(s[i]) && u == make(s[i])
  {
    if s != [] {
      var init, last := s[..|s| - 1], s[|s| - 1];
      CollectMember(init, keep, make, u);
      if exists i | 0 <= i < |init| :: keep(init[i]) && u == make(init[i]) {
        var i :| 0 <= i < |init| && keep(init[i]) && u == make(init[i]);
        assert s[i] == init[i];
      }
      if exists i | 0 <= i < |s| :: keep(s[i]) && u == make(s[i]) {
        var i :| 0 <= i < |s| && keep(s[i]) && u == make(s[i]);
        if i < |init| { assert init[i] == s[i]; }
      }
    }
  }

  /** CollectMember by membership rather than position. */
  lemma CollectMemberIn<T, U>(s: seq<T>, keep: T -> bool, make: T -> U, u: U)
    ensures u in Collect(s, keep, make) <==> exists x | x in s :: keep(x) && u == make(x)
  {
    CollectMember(s, keep, make, u);
    if exists x | x in s :: keep(x) && u == make(x) {
      var x :| x in s && keep(x) && u == make(x);
      var i :| 0 <= i < |s| && s[i] == x;
    }
  }

  /** A filter that every element passes keeps the sequence. */
  lemma {:induction false} FilterAllKept<T>(s: seq<T>, p: T -> bool)
    requires forall x | x in s :: p(x)
    ensures Filter(s, p) == s
  {
    if s != [] {
      assert forall x | x in s[1..] :: x in s;
      FilterAllKept(s[1..], p);
      assert s == [s[0]] + s[1..];
    }
  }

  /** A filter that no element passes keeps nothing. */
  lemma {:induction false} FilterNoneKept<T>(s: seq<T>, p: T -> bool)
    requires forall x | x in s :: !p(x)
    ensures Filter(s, p) == []
  {
    if s != [] {
      assert forall x | x in s[1..] :: x in s;
      FilterNoneKept(s[1..], p);
    }
  }

  /** The elements whose key equals v, in order. */
  function FilterKey<T, K(==)>(s: seq<T>, key: T -> K, v: K): (r: seq<T>)
    ensures |r| <= |s|
    ensures forall x | x in r :: key(x) == v
  {
    if s == [] then [] else (if key(s[0]) == v then [s[0]] else []) + FilterKey(s[1..], key, v)
  }

  /** An element survives FilterKey exactly when it is present and has the key. */
  lemma {:induction false} FilterKeyMember<T, K>(s: seq<T>, key: T -> K, v: K, x: T)
    ensures x in FilterKey(s, key, v) <==> x in s && key(x) == v
  {
    if s != [] {
      FilterKeyMember(s[1..], key, v, x);
      assert s == [s[0]] + s[1..];
    }
  }

  /** A filter whose predicate compares a key with one value is a FilterKey. */
  lemma {:induction false} FilterIsFilterKey<T, K>(s: seq<T>, p: T -> bool, key: T -> K, v: K)
    requires forall x :: p(x) == (key(x) == v)
    ensures Filter(s, p) == FilterKey(s, key, v)
  {
    if s != [] { FilterIsFilterKey(s[1..], p, key, v); }
  }

  lemma {:induction false} FilterKeyAppend<T, K>(a: seq<T>, b: seq<T>, key: T -> K, v: K)
    ensures FilterKey(a + b, key, v) == FilterKey(a, key, v) + FilterKey(b, key, v)
  {
    if a == [] {
      assert a + b == b;
    } else {
      assert a + b == [a[0]] + (a[1..] + b);
      assert a == [a[0]] + a[1..];
      FilterKeyAppend(a[1..], b, key, v);
      FilterKeyCons(a[0], a[1..] + b, key, v);
      FilterKeyCons(a[0], a[1..], key, v);
      AppendAssoc(if key(a[0]) == v then [a[0]] else [], FilterKey(a[1..], key, v), FilterKey(b, key, v));
    }
  }

  /** When every element with key1 == v1 also has key2 == v2, the first filter is no longer. */
  lemma {:induction false} FilterKeyImplied<T, K, L>(s: seq<T>, key1: T -> K, v1: K, key2: T -> L, v2: L)
    requires forall x | x in s :: key1(x) == v1 ==> key2(x) == v2
    ensures |FilterKey(s, key1, v1)| <= |FilterKey(s, key2, v2)|
  {
    if s != [] {
      assert forall x | x in s[1..] :: x in s;
      FilterKeyImplied(s[1..], key1, v1, key2, v2);
    }
  }

  /** The same, inside a further filter on a third key. */
  lemma {:induction false} NestedFilterKeyImplied<T, K, L, M>(
    s: seq<T>, key1: T -> K, v1: K, key2: T -> L, v2: L, key3: T -> M, v3: M)
    requires forall x | x in s :: key1(x) == v1 ==> key2(x) == v2
    ensures |FilterKey(FilterKey(s, key1, v1), key3, v3)| <= |FilterKey(FilterKey(s, key2, v2), key3, v3)|
  {
    if s != [] {
      assert forall x | x in s[1..] :: x in s;
      NestedFilterKeyImplied(s[1..], key1, v1, key2, v2, key3, v3);
      var a, b := FilterKey(s[1..], key1, v1), FilterKey(s[1..], key2, v2);
      var a0 := if key1(s[0]) == v1 then [s[0]] else [];
      var b0 := if key2(s[0]) == v2 then [s[0]] else [];
      FilterKeyAppend(a0, a, key3, v3);
      FilterKeyAppend(b0, b, key3, v3);
    }
  }

  predicate Distinct<K(==)>(s: seq<K>) {
    forall i, j | 0 <= i < j < |s| :: s[i] != s[j]
  }

  /** Sum over the values vs of the number of elements whose key is that value. */
  function SumKeyCounts<T, K(==)>(s: seq<T>, key: T -> K, vs: seq<K>): nat {
    if vs == [] then 0 else |FilterKey(s, key, vs[0])| + SumKeyCounts(s, key, vs[1..])
  }

  /** How many of the values vs equal k. */
  function Hits<K(==)>(vs: seq<K>, k: K): nat {
    if vs == [] then 0 else (if vs[0] == k then 1 else 0) + Hits(vs[1..], k)
  }

  lemma {:induction false} HitsDistinct<K>(vs: seq<K>, k: K)
    requires Distinct(vs)
    ensures Hits(vs, k) <= 1
    ensures k !in vs ==> Hits(vs, k) == 0
    ensures k in vs ==> Hits(vs, k) == 1
  {
    if vs != [] {
      HitsDistinct(vs[1..], k);
      if vs[0] == k {
        assert k !in vs[1..];
      }
    }
  }

  lemma {:induction false} SumKeyCountsFirst<T, K>(s: seq<T>, key: T -> K, vs: seq<K>)
    requires s != []
    ensures SumKeyCounts(s, key, vs) == Hits(vs, key(s[0])) + SumKeyCounts(s[1..], key, vs)
  {
    if vs != [] { SumKeyCountsFirst(s, key, vs[1..]); }
  }

  /**
   * Counting the elements under each of several distinct key values counts
   * every element at most once.
   */
  lemma {:induction false} SumKeyCountsBound<T, K>(s: seq<T>, key: T -> K, vs: seq<K>)
    requires Distinct(vs)
    ensures SumKeyCounts(s, key, vs) <= |s|
  {
    if s == [] {
      SumKeyCountsEmpty(key, vs);
    } else {
      SumKeyCountsFirst(s, key, vs);
      HitsDistinct(vs, key(s[0]));
      SumKeyCountsBound(s[1..], key, vs);
    }
  }

  /** Counting under distinct values that cover every key counts every element exactly once. */
  lemma {:induction false} SumKeyCountsCover<T, K>(s: seq<T>, key: T -> K, vs: seq<K>)
    requires Distinct(vs)
    requires forall x | x in s :: key(x) in vs
    ensures SumKeyCounts(s, key, vs) == |s|
  {
    if s == [] {
      SumKeyCountsEmpty(key, vs);
    } else {
      assert s[0] in s;
      assert forall x | x in s[1..] :: x in s;
      SumKeyCountsFirst(s, key, vs);
      HitsDistinct(vs, key(s[0]));
      SumKeyCountsCover(s[1..], key, vs);
    }
  }

  lemma {:induction false} SumKeyCountsEmpty<T, K>(key: T -> K, vs: seq<K>)
    ensures SumKeyCounts([], key, vs) == 0
  {
    if vs != [] { SumKeyCountsEmpty(key, vs[1..]); }
  }

  // ---------------------------------------------------------------------------
  // keyed lookup, as in an insertion-ordered Map or a plain object

  /** No two elements share a key. */
  predicate DistinctKeys<T, K(==)>(s: seq<T>, key: T -> K) {
    forall i, j | 0 <= i < j < |s| :: key(s[i]) != key(s[j])
  }

  /** Filtering keeps keys distinct: it only drops elements. */
  lemma {:induction false} FilterDistinctKeys<T, K>(s: seq<T>, p: T -> bool, key: T -> K)
    requires DistinctKeys(s, key)
    ensures DistinctKeys(Filter(s, p), key)
  {
    if s != [] {
      DistinctKeysTail(s, key);
      FilterDistinctKeys(s[1..], p, key);
      var rest := Filter(s[1..], p);
      if p(s[0]) {
        forall i | 0 <= i < |rest| ensures key(s[0]) != key(rest[i]) {
          assert rest[i] in rest;
        }
        PrependDistinct(s[0], rest, key);
      }
    }
  }

  /** Distinct keys stay distinct in the tail, none of them the head's. */
  lemma DistinctKeysTail<T, K>(s: seq<T>, key: T -> K)
    requires s != [] && DistinctKeys(s, key)
    ensures DistinctKeys(s[1..], key)
    ensures forall x | x in s[1..] :: key(x) != key(s[0])
  {
    forall i, j | 0 <= i < j < |s[1..]| ensures key(s[1..][i]) != key(s[1..][j]) {
      assert s[1..][i] == s[i + 1] && s[1..][j] == s[j + 1];
    }
    forall x | x in s[1..] ensures key(x) != key(s[0]) {
      var k :| 0 <= k < |s[1..]| && s[1..][k] == x;
      assert x == s[k + 1];
    }
  }

  /** The first position whose element has key k, if any. */
  function IndexOf<T, K(==)>(s: seq<T>, key: T -> K, k: K): (r: Option<nat>)
    ensures r.Some? ==> r.value < |s| && key(s[r.value]) == k
    ensures r.Some? ==> forall j | 0 <= j < r.value :: key(s[j]) != k
    ensures r.None? <==> forall j | 0 <= j < |s| :: key(s[j]) != k
  {
    if s == [] then None
    else if key(s[0]) == k then Some(0)
    else match IndexOf(s[1..], key, k) {
      case None => None
      case Some(i) => Some(i + 1)
    }
  }

  /** With distinct keys, looking up the key of an element finds that element. */
  lemma IndexOfDistinct<T, K>(s: seq<T>, key: T -> K, p: nat)
    requires DistinctKeys(s, key) && p < |s|
    ensures IndexOf(s, key, key(s[p])) == Some(p)
  {
    var r := IndexOf(s, key, key(s[p]));
    assert r.Some?;
  }

  /** Lookup depends only on the keys: two sequences with the same keys, position by position, agree on every lookup. */
  lemma IndexOfSameKeys<T, U, K>(s: seq<T>, t: seq<U>, ks: T -> K, kt: U -> K, k: K)
    requires |s| == |t|
    requires forall j | 0 <= j < |s| :: ks(s[j]) == kt(t[j])
    ensures IndexOf(s, ks, k) == IndexOf(t, kt, k)
  {
    var a, b := IndexOf(s, ks, k), IndexOf(t, kt, k);
    assert a.Some? ==> kt(t[a.value]) == k;
    assert b.Some? ==> ks(s[b.value]) == k;
  }

  /** Replacing an element by one with the same key changes no lookup. */
  lemma IndexOfUpdate<T, K>(s: seq<T>, i: nat, x: T, key: T -> K, k: K)
    requires i < |s| && key(x) == key(s[i])
    ensures IndexOf(s[i := x], key, k) == IndexOf(s, key, k)
  {
    IndexOfSameKeys(s, s[i := x], key, key, k);
  }

  /** Appending an element only matters when the key was missing. */
  lemma {:induction false} IndexOfAppend<T, K>(s: seq<T>, x: T, key: T -> K, k: K)
    ensures IndexOf(s + [x], key, k)
         == if IndexOf(s, key, k).Some? then IndexOf(s, key, k)
            else if key(x) == k then Some(|s|) else None
  {
    if s == [] {
      assert [x][1..] == [];
    } else {
      assert (s + [x])[0] == s[0];
      assert (s + [x])[1..] == s[1..] + [x];
      IndexOfAppend(s[1..], x, key, k);
    }
  }

  // ---------------------------------------------------------------------------
  // sums

  /** The sum of f over the elements, as Array.prototype.reduce with + computes it. */
  function SumBy<T>(s: seq<T>, f: T -> nat): nat {
    if s == [] then 0 else SumBy(s[..|s| - 1], f) + f(s[|s| - 1])
  }

  lemma {:induction false} SumByAppend<T>(a: seq<T>, b: seq<T>, f: T -> nat)
    ensures SumBy(a + b, f) == SumBy(a, f) + SumBy(b, f)
  {
    if b == [] {
      assert a + b == a;
    } else {
      assert (a + b)[..|a + b| - 1] == a + b[..|b| - 1];
      SumByAppend(a, b[..|b| - 1], f);
    }
  }

  /** Replacing one element changes the sum by the difference of the two. */
  lemma {:induction false} SumByUpdate<T>(s: seq<T>, i: nat, x: T, f: T -> nat)
    requires i < |s|
    ensures SumBy(s[i := x], f) == SumBy(s, f) - f(s[i]) + f(x)
  {
    var n := |s| - 1;
    if i == n {
      assert s[i := x][..n] == s[..n];
    } else {
      assert s[i := x][..n] == s[..n][i := x];
      SumByUpdate(s[..n], i, x, f);
    }
  }

  /** Taking one element out of a sequence takes its term out of the sum. */
  lemma RemoveAtSum<T>(b: seq<T>, k: nat, f: T -> nat)
    requires k < |b|
    ensures SumBy(b, f) == SumBy(b[..k] + b[k + 1..], f) + f(b[k])
  {
    var p, x, q := b[..k], b[k], b[k + 1..];
    assert b == p + ([x] + q);
    SumByAppend(p, [x] + q, f);
    SumByAppend([x], q, f);
    SumByAppend(p, q, f);
    assert [x][..0] == [];
  }

  /** Taking one element out of a sequence takes it out of the multiset. */
  lemma RemoveAtMultiset<T>(b: seq<T>, k: nat)
    requires k < |b|
    ensures multiset(b[..k] + b[k + 1..]) == multiset(b) - multiset{b[k]}
  {
    var p, x, q := b[..k], b[k], b[k + 1..];
    assert b == p + [x] + q;
    assert multiset(b) == multiset(p) + multiset{x} + multiset(q);
  }

  /** A sum does not depend on the order of the elements. */
  lemma {:induction false} SumByPermutation<T>(a: seq<T>, b: seq<T>, f: T -> nat)
    requires multiset(a) == multiset(b)
    ensures SumBy(a, f) == SumBy(b, f)
  {
    if a == [] {
      assert |multiset(b)| == 0;
    } else {
      var k := MatchLast(a, b);
      RemoveAtSum(b, k, f);
      SumByPermutation(a[..|a| - 1], b[..k] + b[k + 1..], f);
    }
  }

  /** An element of a permutation sits at some position of the original. */
  lemma PermutedAt<T>(a: seq<T>, b: seq<T>, k: nat) returns (p: nat)
    requires multiset(a) == multiset(b) && k < |a|
    ensures p < |b| && b[p] == a[k]
  {
    assert a[k] in multiset(b);
    p :| 0 <= p < |b| && b[p] == a[k];
  }

  /** The last element of a sits at some position k of its permutation b; without them the rest are permutations. */
  lemma MatchLast<T>(a: seq<T>, b: seq<T>) returns (k: nat)
    requires a != [] && multiset(a) == multiset(b)
    ensures k < |b| && b[k] == a[|a| - 1]
    ensures multiset(a[..|a| - 1]) == multiset(b[..k] + b[k + 1..])
  {
    var init, x := a[..|a| - 1], a[|a| - 1];
    assert a == init + [x];
    assert multiset(init) == multiset(a) - multiset{x};
    assert x in multiset(b);
    k :| 0 <= k < |b| && b[k] == x;
    RemoveAtMultiset(b, k);
  }

  // ---------------------------------------------------------------------------
  // stable sort

  predicate SortedBy<T>(s: seq<T>, key: T -> int) {
    forall i, j | 0 <= i < j < |s| :: key(s[i]) <= key(s[j])
  }

  /** Inserts x after every element whose key is at most key(x). */
  function InsertBy<T>(t: seq<T>, x: T, key: T -> int): (r: seq<T>)
    ensures |r| == |t| + 1
    ensures multiset(r) == multiset(t) + multiset{x}
  {
    if t == [] then [x]
    else if key(t[0]) <= key(x) then
      assert t == [t[0]] + t[1..];
      [t[0]] + InsertBy(t[1..], x, key)
    else
      [x] + t
  }

  /** Inserting into a sorted sequence keeps it sorted. */
  lemma {:induction false} InsertBySorted<T>(t: seq<T>, x: T, key: T -> int)
    requires SortedBy(t, key)
    ensures SortedBy(InsertBy(t, x, key), key)
  {
    if t != [] && key(t[0]) <= key(x) {
      var rest := InsertBy(t[1..], x, key);
      SortedTail(t, key);
      InsertBySorted(t[1..], x, key);
      assert forall i | 0 <= i < |t[1..]| :: key(t[0]) <= key(t[1..][i]) by {
        forall i | 0 <= i < |t[1..]| ensures key(t[0]) <= key(t[1..][i]) {
          assert t[1..][i] == t[i + 1];
        }
      }
      var lo := key(t[0]);
      InsertByAll(t[1..], x, key, y => lo <= key(y));
      PrependSorted(t[0], rest, key);
    }
  }

  /** Inserting keeps a property that every element and x have. */
  lemma {:induction false} InsertByAll<T>(t: seq<T>, x: T, key: T -> int, p: T -> bool)
    requires forall i | 0 <= i < |t| :: p(t[i])
    requires p(x)
    ensures forall i | 0 <= i < |InsertBy(t, x, key)| :: p(InsertBy(t, x, key)[i])
  {
    if t != [] && key(t[0]) <= key(x) {
      assert forall i | 0 <= i < |t[1..]| :: t[1..][i] == t[i + 1];
      InsertByAll(t[1..], x, key, p);
      var rest := InsertBy(t[1..], x, key);
      assert forall i | 0 < i < |rest| + 1 :: ([t[0]] + rest)[i] == rest[i - 1];
    }
  }

  /** A sorted sequence stays sorted behind an element no greater than any of it. */
  lemma PrependSorted<T>(y: T, rest: seq<T>, key: T -> int)
    requires SortedBy(rest, key)
    requires forall i | 0 <= i < |rest| :: key(y) <= key(rest[i])
    ensures SortedBy([y] + rest, key)
  {
    var r := [y] + rest;
    forall i, j | 0 <= i < j < |r| ensures key(r[i]) <= key(r[j]) {
      assert r[j] == rest[j - 1];
      if i > 0 { assert r[i] == rest[i - 1]; }
    }
  }

  /**
   * Array.prototype.sort with the comparator (a, b) => key(a) - key(b): the
   * result is ordered by key, holds the same elements, and elements with equal
   * keys keep their order (the sort is stable since ECMAScript 2019).
   */
  function SortBy<T>(s: seq<T>, key: T -> int): (r: seq<T>)
    ensures |r| == |s|
    ensures multiset(r) == multiset(s)
    ensures SortedBy(r, key)
  {
    if s == [] then []
    else
      var init := s[..|s| - 1];
      assert s == init + [s[|s| - 1]];
      InsertBySorted(SortBy(init, key), s[|s| - 1], key);
      InsertBy(SortBy(init, key), s[|s| - 1], key)
  }

  lemma {:induction false} FilterKeyAllAbove<T>(t: seq<T>, key: T -> int, k: int)
    requires forall y | y in t :: key(y) > k
    ensures FilterKey(t, key, k) == []
  {
    if t != [] {
      assert t[0] in t;
      assert forall y | y in t[1..] :: y in t;
      FilterKeyAllAbove(t[1..], key, k);
    }
  }

  /** Inserting x adds it after every element with the same key. */
  lemma {:induction false} InsertByFilter<T>(t: seq<T>, x: T, key: T -> int, k: int)
    requires SortedBy(t, key)
    ensures FilterKey(InsertBy(t, x, key), key, k)
         == FilterKey(t, key, k) + (if key(x) == k then [x] else [])
  {
    var hx: seq<T> := if key(x) == k then [x] else [];
    if t == [] {
      FilterKeyCons(x, [], key, k);
      assert [x] + [] == [x];
    } else if key(t[0]) <= key(x) {
      var rest := InsertBy(t[1..], x, key);
      assert InsertBy(t, x, key) == [t[0]] + rest;
      SortedTail(t, key);
      InsertByFilter(t[1..], x, key, k);
      ConsFilter(t, rest, x, key, k);
    } else {
      assert InsertBy(t, x, key) == [x] + t;
      PrependFilter(t, x, key, k);
    }
  }

  /** The step of InsertByFilter behind the first element. */
  lemma ConsFilter<T>(t: seq<T>, rest: seq<T>, x: T, key: T -> int, k: int)
    requires t != []
    requires FilterKey(rest, key, k) == FilterKey(t[1..], key, k) + (if key(x) == k then [x] else [])
    ensures FilterKey([t[0]] + rest, key, k) == FilterKey(t, key, k) + (if key(x) == k then [x] else [])
  {
    var h0: seq<T> := if key(t[0]) == k then [t[0]] else [];
    var hx: seq<T> := if key(x) == k then [x] else [];
    FilterKeyCons(t[0], rest, key, k);
    FilterKeyCons(t[0], t[1..], key, k);
    assert [t[0]] + t[1..] == t;
    AppendAssoc(h0, FilterKey(t[1..], key, k), hx);
  }

  /** Putting in front an element whose key is below every key of a sorted sequence. */
  lemma PrependFilter<T>(t: seq<T>, x: T, key: T -> int, k: int)
    requires SortedBy(t, key) && t != [] && key(x) < key(t[0])
    ensures FilterKey([x] + t, key, k) == FilterKey(t, key, k) + (if key(x) == k then [x] else [])
  {
    FilterKeyCons(x, t, key, k);
    if key(x) == k {
      forall y | y in t ensures key(y) > k {
        var i :| 0 <= i < |t| && t[i] == y;
        assert i == 0 || key(t[0]) <= key(t[i]);
      }
      FilterKeyAllAbove(t, key, k);
    }
  }

  lemma AppendAssoc<T>(a: seq<T>, b: seq<T>, c: seq<T>)
    ensures a + (b + c) == (a + b) + c
  {
  }

  /** The tail of a sorted sequence is sorted. */
  lemma SortedTail<T>(t: seq<T>, key: T -> int)
    requires t != [] && SortedBy(t, key)
    ensures SortedBy(t[1..], key)
  {
    forall i, j | 0 <= i < j < |t[1..]| ensures key(t[1..][i]) <= key(t[1..][j]) {
      assert t[1..][i] == t[i + 1] && t[1..][j] == t[j + 1];
    }
  }

  /** FilterKey of an element put in front. */
  lemma FilterKeyCons<T, K>(y: T, s: seq<T>, key: T -> K, v: K)
    ensures FilterKey([y] + s, key, v) == (if key(y) == v then [y] else []) + FilterKey(s, key, v)
  {
    assert ([y] + s)[1..] == s;
  }

  /** Inserting an element whose name is new keeps names distinct. */
  lemma {:induction false} InsertByDistinct<T, K>(t: seq<T>, x: T, key: T -> int, name: T -> K)
    requires DistinctKeys(t, name)
    requires forall y | y in t :: name(y) != name(x)
    ensures DistinctKeys(InsertBy(t, x, key), name)
  {
    if t != [] && key(t[0]) <= key(x) {
      var rest := InsertBy(t[1..], x, key);
      assert forall i | 0 <= i < |t[1..]| :: t[1..][i] == t[i + 1];
      assert forall y | y in t[1..] :: y in t;
      InsertByDistinct(t[1..], x, key, name);
      var n := name(t[0]);
      assert t[0] in t;
      InsertByAll(t[1..], x, key, y => name(y) != n);
      PrependDistinct(t[0], rest, name);
    } else if t != [] {
      assert forall i | 0 <= i < |t| :: t[i] in t;
      PrependDistinct(x, t, name);
    }
  }

  /** A sequence with distinct names stays so behind an element whose name none of it has. */
  lemma PrependDistinct<T, K>(y: T, rest: seq<T>, name: T -> K)
    requires DistinctKeys(rest, name)
    requires forall i | 0 <= i < |rest| :: name(y) != name(rest[i])
    ensures DistinctKeys([y] + rest, name)
  {
    var r := [y] + rest;
    forall i, j | 0 <= i < j < |r| ensures name(r[i]) != name(r[j]) {
      assert r[j] == rest[j - 1];
      if i > 0 { assert r[i] == rest[i - 1]; }
    }
  }

  /** Sorting keeps names distinct. */
  lemma {:induction false} SortByDistinct<T, K>(s: seq<T>, key: T -> int, name: T -> K)
    requires DistinctKeys(s, name)
    ensures DistinctKeys(SortBy(s, key), name)
  {
    if s != [] {
      var init, last := s[..|s| - 1], s[|s| - 1];
      var sorted := SortBy(init, key);
      SortByLast(s, key);
      SortByDistinct(init, key, name);
      forall y | y in sorted ensures name(y) != name(last) {
        assert y in multiset(init);
        var i :| 0 <= i < |init| && init[i] == y;
        assert s[i] == y;
      }
      InsertByDistinct(sorted, last, key, name);
    }
  }

  /** Stability: the elements with any one key come out in their input order. */
  lemma {:induction false} SortByStable<T>(s: seq<T>, key: T -> int, k: int)
    ensures FilterKey(SortBy(s, key), key, k) == FilterKey(s, key, k)
  {
    if s != [] {
      var init, last := s[..|s| - 1], s[|s| - 1];
      SortByLast(s, key);
      SortByStable(init, key, k);
      InsertByFilter(SortBy(init, key), last, key, k);
      FilterKeyLast(s, key, k);
    }
  }

  /** Sorting a non-empty sequence inserts its last element into the sorted rest. */
  lemma SortByLast<T>(s: seq<T>, key: T -> int)
    requires s != []
    ensures SortBy(s, key) == InsertBy(SortBy(s[..|s| - 1], key), s[|s| - 1], key)
  {
  }

  /** FilterKey of a non-empty sequence, its last element taken apart. */
  lemma FilterKeyLast<T, K>(s: seq<T>, key: T -> K, v: K)
    requires s != []
    ensures FilterKey(s, key, v) == FilterKey(s[..|s| - 1], key, v) + (if key(s[|s| - 1]) == v then [s[|s| - 1]] else [])
  {
    var init, last := s[..|s| - 1], s[|s| - 1];
    assert s == init + [last];
    FilterKeyAppend(init, [last], key, v);
    FilterKeyCons(last, [], key, v);
    assert [last] + [] == [last];
  }
}
