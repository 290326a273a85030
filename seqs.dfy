/**
 * The array operations the analysis code uses, on sequences: filter and
 * count, the set of distinct elements, sums, prefixes, and the stable
 * sort that `Array.prototype.sort` performs with a numeric comparator.
 */
module Seqs {

  /** `s.filter(p)`, defined from the last element so that a loop can extend it. */
  function Filter<T>(s: seq<T>, p: T -> bool): (r: seq<T>)
    ensures |r| <= |s|
    ensures forall i :: 0 <= i < |r| ==> p(r[i])
    ensures forall i :: 0 <= i < |r| ==> r[i] in s
  {
    if s == [] then []
    else Filter(s[..|s| - 1], p) + (if p(s[|s| - 1]) then [s[|s| - 1]] else [])
  }

  /** An element survives the filter exactly when it is in `s` and satisfies `p`. */
  lemma {:induction false} FilterMembership<T>(s: seq<T>, p: T -> bool, x: T)
    ensures x in Filter(s, p) <==> x in s && p(x)
  {
    if s != [] {
      FilterMembership(s[..|s| - 1], p, x);
      assert s == s[..|s| - 1] + [s[|s| - 1]];
    }
  }

  /** `s.filter(p).length`. */
  function Count<T>(s: seq<T>, p: T -> bool): nat
  {
    |Filter(s, p)|
  }

  lemma {:induction false} FilterAppend<T>(a: seq<T>, b: seq<T>, p: T -> bool)
    ensures Filter(a + b, p) == Filter(a, p) + Filter(b, p)
    decreases |b|
  {
    if b == [] {
      assert a + b == a;
    } else {
      assert (a + b)[..|a + b| - 1] == a + b[..|b| - 1];
      FilterAppend(a, b[..|b| - 1], p);
    }
  }

  lemma FilterSingle<T>(x: T, p: T -> bool)
    ensures Filter([x], p) == if p(x) then [x] else []
  {
    assert [x][..0] == [];
  }

  /** Extending a sequence by one element extends its count by that element's contribution. */
  lemma CountSnoc<T>(s: seq<T>, x: T, p: T -> bool)
    ensures Count(s + [x], p) == Count(s, p) + (if p(x) then 1 else 0)
  {
    assert (s + [x])[..|s|] == s;
  }

  /** When every element satisfies `p`, the filter keeps all of them. */
  lemma {:induction false} FilterAll<T>(s: seq<T>, p: T -> bool)
    requires forall i :: 0 <= i < |s| ==> p(s[i])
    ensures Filter(s, p) == s
  {
    if s != [] {
      FilterAll(s[..|s| - 1], p);
    }
  }

  /** When no element satisfies `p`, the filter keeps none. */
  lemma {:induction false} FilterNone<T>(s: seq<T>, p: T -> bool)
    requires forall i :: 0 <= i < |s| ==> !p(s[i])
    ensures Filter(s, p) == []
  {
    if s != [] {
      FilterNone(s[..|s| - 1], p);
    }
  }

  /** A weaker predicate never counts fewer elements. */
  lemma {:induction false} CountMonotone<T>(s: seq<T>, p: T -> bool, q: T -> bool)
    requires forall x :: p(x) ==> q(x)
    ensures Count(s, p) <= Count(s, q)
  {
    if s != [] {
      CountMonotone(s[..|s| - 1], p, q);
    }
  }

  /** Counting does not depend on the order of the elements. */
  lemma {:induction false} CountPermutation<T>(a: seq<T>, b: seq<T>, p: T -> bool)
    requires multiset(a) == multiset(b)
    ensures Count(a, p) == Count(b, p)
    decreases |a|
  {
    if a == [] {
      assert |b| == |multiset(b)| == 0;
    } else {
      var x := a[|a| - 1];
      var a' := a[..|a| - 1];
      assert a == a' + [x];
      assert multiset(a) == multiset(a') + multiset{x};
      assert x in multiset(b);
      var i :| 0 <= i < |b| && b[i] == x;
      var b' := b[..i] + b[i + 1..];
      MultisetRemove(b, i);
      CountPermutation(a', b', p);
      CountSnoc(a', x, p);
      CountRemove(b, i, p);
    }
  }

  /** Removing the element at `i` removes one copy of it from the multiset. */
  lemma MultisetRemove<T>(b: seq<T>, i: nat)
    requires i < |b|
    ensures multiset(b[..i] + b[i + 1..]) == multiset(b) - multiset{b[i]}
  {
    assert b == b[..i] + [b[i]] + b[i + 1..];
    assert multiset(b) == multiset(b[..i]) + multiset{b[i]} + multiset(b[i + 1..]);
  }

  /** Removing the element at `i` uncounts it. */
  lemma CountRemove<T>(b: seq<T>, i: nat, p: T -> bool)
    requires i < |b|
    ensures Count(b, p) == Count(b[..i] + b[i + 1..], p) + (if p(b[i]) then 1 else 0)
  {
    assert b == b[..i] + [b[i]] + b[i + 1..];
    FilterAppend(b[..i], [b[i]], p);
    FilterAppend(b[..i] + [b[i]], b[i + 1..], p);
    FilterAppend(b[..i], b[i + 1..], p);
    FilterSingle(b[i], p);
  }

  /** The elements of `s` as a set (`new Set(s)`). */
  function Distinct<T>(s: seq<T>): set<T>
  {
    set x | x in s
  }

  /** `new Set(s).size` never exceeds `s.length`, and is positive for a non-empty `s`. */
  lemma {:induction false} DistinctSize<T>(s: seq<T>)
    ensures |Distinct(s)| <= |s|
    ensures |s| > 0 ==> |Distinct(s)| > 0
  {
    if s != [] {
      var s' := s[..|s| - 1];
      DistinctSize(s');
      assert Distinct(s) == Distinct(s') + {s[|s| - 1]};
    }
  }

  /** `s.reduce((a, b) => a + b, 0)`. */
  function Sum(s: seq<real>): real
  {
    if s == [] then 0.0 else Sum(s[..|s| - 1]) + s[|s| - 1]
  }

  lemma SumSnoc(s: seq<real>, x: real)
    ensures Sum(s + [x]) == Sum(s) + x
  {
    assert (s + [x])[..|s|] == s;
  }

  /** A sum of non-negative terms is non-negative. */
  lemma {:induction false} SumNonNegative(s: seq<real>)
    requires forall i :: 0 <= i < |s| ==> s[i] >= 0.0
    ensures Sum(s) >= 0.0
  {
    if s != [] {
      SumNonNegative(s[..|s| - 1]);
    }
  }

  /** The smallest value. */
  function MinOf(s: seq<real>): (m: real)
    requires |s| > 0
    ensures exists i :: 0 <= i < |s| && s[i] == m
    ensures forall i :: 0 <= i < |s| ==> m <= s[i]
  {
    if |s| == 1 then s[0]
    else
      var m := MinOf(s[..|s| - 1]);
      assert forall i :: 0 <= i < |s| - 1 ==> s[i] == s[..|s| - 1][i];
      if s[|s| - 1] < m then s[|s| - 1] else m
  }

  /** The largest value. */
  function MaxOf(s: seq<real>): (m: real)
    requires |s| > 0
    ensures exists i :: 0 <= i < |s| && s[i] == m
    ensures forall i :: 0 <= i < |s| ==> s[i] <= m
  {
    if |s| == 1 then s[0]
    else
      var m := MaxOf(s[..|s| - 1]);
      assert forall i :: 0 <= i < |s| - 1 ==> s[i] == s[..|s| - 1][i];
      if s[|s| - 1] > m then s[|s| - 1] else m
  }

  /** Extending a prefix by one element: the bounds move only past that element. */
  lemma ExtremesSnoc(s: seq<real>, i: nat)
    requires 0 < i < |s|
    ensures MinOf(s[..i + 1]) == (if s[i] < MinOf(s[..i]) then s[i] else MinOf(s[..i]))
    ensures MaxOf(s[..i + 1]) == (if s[i] > MaxOf(s[..i]) then s[i] else MaxOf(s[..i]))
  {
    assert s[..i + 1][..i] == s[..i];
  }

  /** The mean of a non-empty list, `s.reduce((a, b) => a + b, 0) / s.length`. */
  function Mean(s: seq<real>): real
    requires |s| > 0
  {
    Sum(s) / |s| as real
  }

  /** A sum of `|s|` terms, each between `lo` and `hi`, lies between `|s|·lo` and `|s|·hi`. */
  lemma {:induction false} SumBetween(s: seq<real>, lo: real, hi: real)
    requires forall i :: 0 <= i < |s| ==> lo <= s[i] <= hi
    ensures |s| as real * lo <= Sum(s) <= |s| as real * hi
  {
    if s != [] {
      SumBetween(s[..|s| - 1], lo, hi);
    }
  }

  /** Dividing bounds of the form `n·lo <= a <= n·hi` by a positive `n`. */
  lemma DivideBounds(a: real, n: real, lo: real, hi: real)
    requires n > 0.0
    requires n * lo <= a <= n * hi
    ensures lo <= a / n <= hi
  {
    assert a / n * n == a;
  }

  /** The mean of values that all lie between two bounds lies between them too. */
  lemma MeanBetween(s: seq<real>, lo: real, hi: real)
    requires |s| > 0
    requires forall i :: 0 <= i < |s| ==> lo <= s[i] <= hi
    ensures lo <= Mean(s) <= hi
  {
    SumBetween(s, lo, hi);
    DivideBounds(Sum(s), |s| as real, lo, hi);
  }

  function Min(a: int, b: int): int {
    if a <= b then a else b
  }

  /** `s.slice(0, k)`. */
  function Take<T>(s: seq<T>, k: nat): (r: seq<T>)
    ensures |r| == Min(k, |s|)
    ensures r == s[..|r|]
  {
    if k <= |s| then s[..k] else s
  }

  /** `key` is non-decreasing along `s`. */
  ghost predicate SortedBy<T>(s: seq<T>, key: T -> real) {
    forall i, j :: 0 <= i < j < |s| ==> key(s[i]) <= key(s[j])
  }

  /** Insert `x` before the first element whose key is not smaller, so that
      earlier elements stay ahead of later ones with an equal key. */
  function Insert<T>(x: T, s: seq<T>, key: T -> real): (r: seq<T>)
    requires SortedBy(s, key)
    ensures SortedBy(r, key)
    ensures multiset(r) == multiset(s) + multiset{x}
  {
    if s == [] || key(x) <= key(s[0]) then
      ConsSorted(x, s, key);
      [x] + s
    else
      var rest := Insert(x, s[1..], key);
      assert s == [s[0]] + s[1..];
      LowerBoundKept(s[0], x, s[1..], rest, key);
      ConsSorted(s[0], rest, key);
      [s[0]] + rest
  }

  /** An element no larger than every element of a sorted sequence can go in front. */
  lemma ConsSorted<T>(y: T, s: seq<T>, key: T -> real)
    requires SortedBy(s, key)
    requires forall j :: 0 <= j < |s| ==> key(y) <= key(s[j])
    ensures SortedBy([y] + s, key)
  {
    var r := [y] + s;
    forall i, j | 0 <= i < j < |r|
      ensures key(r[i]) <= key(r[j])
    {
      assert r[j] == s[j - 1];
      if i > 0 {
        assert r[i] == s[i - 1];
      }
    }
  }

  /** A bound below `x` and below every element of `s` stays below every element of a
      sequence holding exactly those. */
  lemma LowerBoundKept<T>(y: T, x: T, s: seq<T>, rest: seq<T>, key: T -> real)
    requires key(y) <= key(x)
    requires forall j :: 0 <= j < |s| ==> key(y) <= key(s[j])
    requires multiset(rest) == multiset(s) + multiset{x}
    ensures forall j :: 0 <= j < |rest| ==> key(y) <= key(rest[j])
  {
    forall j | 0 <= j < |rest| ensures key(y) <= key(rest[j]) {
      assert rest[j] in multiset(rest);
      if rest[j] != x {
        assert rest[j] in multiset(s);
        assert rest[j] in s;
      }
    }
  }

  /** `[...s].sort((a, b) => key(a) - key(b))`: a stable sort, ascending by `key`. */
  function SortBy<T>(s: seq<T>, key: T -> real): (r: seq<T>)
    ensures SortedBy(r, key)
    ensures multiset(r) == multiset(s)
    ensures |r| == |s|
  {
    if s == [] then []
    else
      assert s == [s[0]] + s[1..];
      Insert(s[0], SortBy(s[1..], key), key)
  }

  /** A prefix of a permutation of `s` holds elements of `s`, and all of them when it is
      the whole permutation. */
  lemma PrefixMembers<T>(s: seq<T>, sorted: seq<T>, k: nat)
    requires multiset(sorted) == multiset(s)
    ensures var top := Take(sorted, k);
      multiset(top) <= multiset(s) &&
      (|s| <= k ==> multiset(top) == multiset(s)) &&
      (forall i :: 0 <= i < |top| ==> top[i] in s)
  {
    var top := Take(sorted, k);
    assert sorted == top + sorted[|top|..];
    assert multiset(sorted) == multiset(top) + multiset(sorted[|top|..]);
    forall i | 0 <= i < |top|
      ensures top[i] in s
    {
      assert top[i] in multiset(sorted);
    }
  }

  /** A prefix of a sorted permutation of `s` is sorted, and nothing of `s` outside it
      has a smaller key than one inside. */
  lemma PrefixSmallest<T>(s: seq<T>, sorted: seq<T>, key: T -> real, k: nat)
    requires SortedBy(sorted, key)
    requires multiset(sorted) == multiset(s)
    ensures var top := Take(sorted, k);
      (forall i, j :: 0 <= i < j < |top| ==> key(top[i]) <= key(top[j])) &&
      (forall e, i :: e in s && e !in top && 0 <= i < |top| ==> key(top[i]) <= key(e))
  {
    var top := Take(sorted, k);
    forall e, i | e in s && e !in top && 0 <= i < |top|
      ensures key(top[i]) <= key(e)
    {
      assert e in multiset(sorted);
      var j :| 0 <= j < |sorted| && sorted[j] == e;
      assert j >= |top|;
    }
  }

  /** The first `k` of a sorted copy: as many as there are, up to `k`, each taken from
      `s`, in key order, and none left out has a smaller key than one kept. */
  lemma TopByKey<T>(s: seq<T>, key: T -> real, k: nat)
    ensures var top := Take(SortBy(s, key), k);
      |top| == Min(k, |s|) &&
      multiset(top) <= multiset(s) &&
      (|s| <= k ==> multiset(top) == multiset(s)) &&
      (forall i :: 0 <= i < |top| ==> top[i] in s) &&
      (forall i, j :: 0 <= i < j < |top| ==> key(top[i]) <= key(top[j])) &&
      (forall e, i :: e in s && e !in top && 0 <= i < |top| ==> key(top[i]) <= key(e))
  {
    var sorted := SortBy(s, key);
    PrefixMembers(s, sorted, k);
    PrefixSmallest(s, sorted, key, k);
  }

  /** The elements whose key is `v`. */
  function KeyIs<T>(key: T -> real, v: real): T -> bool {
    (x: T) => key(x) == v
  }

  lemma FilterCons<T>(x: T, s: seq<T>, p: T -> bool)
    ensures Filter([x] + s, p) == (if p(x) then [x] else []) + Filter(s, p)
  {
    FilterAppend([x], s, p);
    FilterSingle(x, p);
  }

  /** Filters that agree on every element of `s` keep the same elements. */
  lemma {:induction false} FilterCongruent<T>(s: seq<T>, p: T -> bool, q: T -> bool)
    requires forall i :: 0 <= i < |s| ==> p(s[i]) == q(s[i])
    ensures Filter(s, p) == Filter(s, q)
  {
    if s != [] {
      FilterCongruent(s[..|s| - 1], p, q);
    }
  }

  /** Inserting `x` puts it ahead of every element of `s` with the same key. */
  lemma {:induction false} InsertStable<T>(x: T, s: seq<T>, key: T -> real, v: real)
    requires SortedBy(s, key)
    ensures Filter(Insert(x, s, key), KeyIs(key, v)) ==
      (if key(x) == v then [x] else []) + Filter(s, KeyIs(key, v))
  {
    var p := KeyIs(key, v);
    if s == [] || key(x) <= key(s[0]) {
      FilterCons(x, s, p);
    } else {
      var rest := Insert(x, s[1..], key);
      assert Insert(x, s, key) == [s[0]] + rest;
      InsertStable(x, s[1..], key, v);
      FilterCons(s[0], rest, p);
      assert s == [s[0]] + s[1..];
      FilterCons(s[0], s[1..], p);
      // `s[0]` has a smaller key than `x`, so at most one of them has key `v`.
      assert !(p(s[0]) && p(x));
      SwapKept(s[0], x, Filter(s[1..], p), p);
    }
  }

  /** Two elements of which at most one is kept can be filtered in either order. */
  lemma SwapKept<T>(a: T, b: T, tail: seq<T>, p: T -> bool)
    requires !(p(a) && p(b))
    ensures (if p(a) then [a] else []) + ((if p(b) then [b] else []) + tail) ==
      (if p(b) then [b] else []) + ((if p(a) then [a] else []) + tail)
  {
  }

  /** The sort is stable: the elements with any one key keep their relative order. */
  lemma {:induction false} SortStable<T>(s: seq<T>, key: T -> real, v: real)
    ensures Filter(SortBy(s, key), KeyIs(key, v)) == Filter(s, KeyIs(key, v))
  {
    if s != [] {
      SortStable(s[1..], key, v);
      InsertStable(s[0], SortBy(s[1..], key), key, v);
      FilterCons(s[0], s[1..], KeyIs(key, v));
      assert s == [s[0]] + s[1..];
    }
  }

  /** The first `k` of a sorted copy hold, for any one key, the first elements of `s`
      with that key, in their order in `s`. */
  lemma TopStable<T>(s: seq<T>, key: T -> real, k: nat, v: real)
    ensures Filter(Take(SortBy(s, key), k), KeyIs(key, v)) <= Filter(s, KeyIs(key, v))
  {
    var sorted := SortBy(s, key);
    var top := Take(sorted, k);
    assert sorted == top + sorted[|top|..];
    FilterAppend(top, sorted[|top|..], KeyIs(key, v));
    SortStable(s, key, v);
  }

  /** `TopStable` for a filter that keeps exactly the elements with key `v`. */
  lemma TopStableBy<T>(s: seq<T>, key: T -> real, k: nat, v: real, q: T -> bool)
    requires forall x :: q(x) == (key(x) == v)
    ensures Filter(Take(SortBy(s, key), k), q) <= Filter(s, q)
  {
    TopStable(s, key, k, v);
    FilterCongruent(Take(SortBy(s, key), k), KeyIs(key, v), q);
    FilterCongruent(s, KeyIs(key, v), q);
  }

  function Identity(x: real): real { x }

  /** `[...s].sort((a, b) => a - b)`. */
  function Ascending(s: seq<real>): (r: seq<real>)
    ensures |r| == |s|
  {
    SortBy(s, Identity)
  }

  function AtMost(v: real): real -> bool { (x: real) => x <= v }

  function AtLeast(v: real): real -> bool { (x: real) => x >= v }

  /** Counting a prefix of elements that all satisfy `p`. */
  lemma CountAtLeastPrefix<T>(s: seq<T>, k: nat, p: T -> bool)
    requires k <= |s|
    requires forall i :: 0 <= i < k ==> p(s[i])
    ensures Count(s, p) >= k
  {
    assert s == s[..k] + s[k..];
    FilterAppend(s[..k], s[k..], p);
    FilterAll(s[..k], p);
  }

  /** The element at position `k` of the ascending copy has at least `k + 1` elements
      of `s` at or below it and at least `|s| - k` at or above it. */
  lemma RankBounds(s: seq<real>, k: nat)
    requires k < |s|
    ensures Ascending(s)[k] in s
    ensures Count(s, AtMost(Ascending(s)[k])) >= k + 1
    ensures Count(s, AtLeast(Ascending(s)[k])) >= |s| - k
  {
    var r := Ascending(s);
    assert r[k] in multiset(r);
    RankBelow(r, s, k);
    RankAbove(r, s, k);
  }

  lemma RankBelow(r: seq<real>, s: seq<real>, k: nat)
    requires k < |r| && SortedBy(r, Identity) && multiset(r) == multiset(s)
    ensures Count(s, AtMost(r[k])) >= k + 1
  {
    CountAtLeastPrefix(r, k + 1, AtMost(r[k]));
    CountPermutation(r, s, AtMost(r[k]));
  }

  lemma RankAbove(r: seq<real>, s: seq<real>, k: nat)
    requires k < |r| && SortedBy(r, Identity) && multiset(r) == multiset(s)
    ensures Count(s, AtLeast(r[k])) >= |s| - k
  {
    var p := AtLeast(r[k]);
    assert forall i :: k <= i < |r| ==> p(r[i]);
    CountAtLeastSuffix(r, k, p);
    CountPermutation(r, s, p);
    assert |s| == |multiset(s)| == |multiset(r)| == |r|;
  }

  /** Counting a suffix of elements that all satisfy `p`. */
  lemma CountAtLeastSuffix<T>(s: seq<T>, k: nat, p: T -> bool)
    requires k <= |s|
    requires forall i :: k <= i < |s| ==> p(s[i])
    ensures Count(s, p) >= |s| - k
  {
    var tail := s[k..];
    assert s == s[..k] + tail;
    FilterAppend(s[..k], tail, p);
    FilterAll(tail, p);
  }

  /** Counting with a predicate that holds exactly when one of two exclusive predicates does. */
  lemma {:induction false} CountDisjointUnion<T>(s: seq<T>, p: T -> bool, q: T -> bool, r: T -> bool)
    requires forall x :: r(x) == (p(x) || q(x))
    requires forall x :: !(p(x) && q(x))
    ensures Count(s, r) == Count(s, p) + Count(s, q)
  {
    if s != [] {
      var init := s[..|s| - 1];
      CountDisjointUnion(init, p, q, r);
      assert s == init + [s[|s| - 1]];
      CountSnoc(init, s[|s| - 1], p);
      CountSnoc(init, s[|s| - 1], q);
      CountSnoc(init, s[|s| - 1], r);
    }
  }

  /** The elements that `f` sends to slot `k`. */
  function HasIndex<T>(f: T -> int, k: int): T -> bool {
    (x: T) => f(x) == k
  }

  /** The elements that `f` sends to one of the slots `0 .. b - 1`. */
  function IndexBelow<T>(f: T -> int, b: int): T -> bool {
    (x: T) => 0 <= f(x) < b
  }

  /** The number of elements tallied in slots `0 .. b - 1`, slot by slot. */
  function TallyTotal<T>(s: seq<T>, f: T -> int, b: nat): nat {
    if b == 0 then 0 else TallyTotal(s, f, b - 1) + Count(s, HasIndex(f, b - 1))
  }

  /** Tallying slot by slot counts each element sent to a slot below `b` exactly once. */
  lemma {:induction false} TallyTotalCount<T>(s: seq<T>, f: T -> int, b: nat)
    ensures TallyTotal(s, f, b) == Count(s, IndexBelow(f, b))
  {
    if b == 0 {
      FilterNone(s, IndexBelow(f, 0));
    } else {
      TallyTotalCount(s, f, b - 1);
      CountDisjointUnion(s, IndexBelow(f, b - 1), HasIndex(f, b - 1), IndexBelow(f, b));
    }
  }

  /** `s.findIndex(p)`: the first position whose element satisfies `p`, or -1. */
  function FindIndex<T>(s: seq<T>, p: T -> bool): (r: int)
    ensures -1 <= r < |s|
    ensures r == -1 <==> forall i :: 0 <= i < |s| ==> !p(s[i])
    ensures r >= 0 ==> p(s[r]) && forall i :: 0 <= i < r ==> !p(s[i])
  {
    if s == [] then -1
    else if p(s[0]) then 0
    else
      var r := FindIndex(s[1..], p);
      assert forall i :: 1 <= i < |s| ==> s[i] == s[1..][i - 1];
      if r == -1 then -1 else r + 1
  }

  /** Something is counted exactly when some element satisfies `p`. */
  lemma CountPositiveIff<T>(s: seq<T>, p: T -> bool)
    ensures Count(s, p) > 0 <==> exists i :: 0 <= i < |s| && p(s[i])
  {
    var f := Filter(s, p);
    if |f| > 0 {
      assert f[0] in s;
    } else if exists i :: 0 <= i < |s| && p(s[i]) {
      var i :| 0 <= i < |s| && p(s[i]);
      FilterMembership(s, p, s[i]);
    }
  }
}
