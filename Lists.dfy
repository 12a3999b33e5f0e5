/**
 * The Kotlin collection operations the parser is built from (`filter`,
 * `find`, `distinctBy`, `groupBy`), as functions on sequences. A selector
 * may be partial (`T --> K`), as `substring` is; each operation then asks
 * that it be defined on every element.
 */
module Lists {

  /** `key` can be applied to every element of `s`. */
  ghost predicate DefinedOn<T, K>(key: T --> K, s: seq<T>) {
    forall i :: 0 <= i < |s| ==> key.requires(s[i])
  }

  /** Some element of `s` has key `k`. */
  predicate Occurs<T, K(==)>(s: seq<T>, key: T --> K, k: K)
    requires DefinedOn(key, s)
  {
    exists i :: 0 <= i < |s| && key(s[i]) == k
  }

  /** The position of the first element of `s` whose key is `k`. */
  function FirstIndex<T, K(==)>(s: seq<T>, key: T --> K, k: K): (i: nat)
    requires DefinedOn(key, s) && Occurs(s, key, k)
    ensures i < |s| && key(s[i]) == k
    ensures forall j :: 0 <= j < i ==> key(s[j]) != k
  {
    if key(s[0]) == k then 0
    else
      assert Occurs(s[1..], key, k) by {
        var n :| 0 <= n < |s| && key(s[n]) == k;
        assert s[1..][n - 1] == s[n];
      }
      1 + FirstIndex(s[1..], key, k)
  }

  /** A key occurs in a non-empty sequence at its head or in its tail, and is first found accordingly. */
  lemma {:induction false} OccursCons<T, K>(s: seq<T>, key: T --> K, k: K)
    requires |s| > 0 && DefinedOn(key, s)
    ensures DefinedOn(key, s[1..])
    ensures Occurs(s, key, k) <==> key(s[0]) == k || Occurs(s[1..], key, k)
    ensures key(s[0]) == k ==> FirstIndex(s, key, k) == 0
    ensures key(s[0]) != k && Occurs(s, key, k) ==> FirstIndex(s, key, k) == 1 + FirstIndex(s[1..], key, k)
  {
    assert forall n :: 0 <= n < |s| - 1 ==> s[1..][n] == s[n + 1];
    if Occurs(s, key, k) && key(s[0]) != k {
      var n :| 0 <= n < |s| && key(s[n]) == k;
      assert s[1..][n - 1] == s[n];
    }
  }

  /** Extending a sequence does not move the first occurrence of a key it already has. */
  lemma {:induction false} FirstIndexOfPrefix<T, K>(s: seq<T>, x: T, key: T --> K, k: K)
    requires DefinedOn(key, s + [x]) && DefinedOn(key, s) && Occurs(s, key, k)
    ensures Occurs(s + [x], key, k)
    ensures FirstIndex(s + [x], key, k) == FirstIndex(s, key, k)
  {
    var i := FirstIndex(s, key, k);
    assert (s + [x])[i] == s[i];
    assert forall j :: 0 <= j < i ==> (s + [x])[j] == s[j];
  }

  /** A key that first appears in the last element is first found there. */
  lemma {:induction false} FirstIndexOfLast<T, K>(s: seq<T>, x: T, key: T --> K)
    requires key.requires(x) && DefinedOn(key, s + [x]) && DefinedOn(key, s)
    requires !Occurs(s, key, key(x))
    ensures Occurs(s + [x], key, key(x))
    ensures FirstIndex(s + [x], key, key(x)) == |s|
  {
    assert (s + [x])[|s|] == x;
    assert forall j :: 0 <= j < |s| ==> (s + [x])[j] == s[j];
  }

  /** `filter`: the elements that satisfy `p`, in their original order. */
  function Filter<T>(s: seq<T>, p: T -> bool): (r: seq<T>)
    ensures |r| <= |s|
    ensures forall i :: 0 <= i < |r| ==> p(r[i]) && r[i] in s
    ensures forall i :: 0 <= i < |s| && p(s[i]) ==> s[i] in r
  {
    if s == [] then []
    else (if p(s[0]) then [s[0]] else []) + Filter(s[1..], p)
  }

  /** `filter` distributes over concatenation, so it keeps the relative order of what it keeps. */
  lemma {:induction false} FilterConcat<T>(a: seq<T>, b: seq<T>, p: T -> bool)
    ensures Filter(a + b, p) == Filter(a, p) + Filter(b, p)
  {
    if a == [] {
      assert a + b == b;
    } else {
      assert (a + b)[1..] == a[1..] + b;
      FilterConcat(a[1..], b, p);
    }
  }

  /** `filter` with a predicate that every element satisfies keeps the sequence as it is. */
  lemma {:induction false} FilterKeepsAll<T>(s: seq<T>, p: T -> bool)
    requires forall i :: 0 <= i < |s| ==> p(s[i])
    ensures Filter(s, p) == s
  {
    if s != [] {
      FilterKeepsAll(s[1..], p);
    }
  }

  /**
   * `distinctBy`: the first element of each key, in order of first
   * appearance. Kotlin keeps a set of the keys seen so far; a key has been
   * seen exactly when it occurs in the prefix already processed.
   */
  function DistinctBy<T, K(==)>(s: seq<T>, key: T --> K): (r: seq<T>)
    requires DefinedOn(key, s)
    ensures |r| <= |s|
    ensures forall i :: 0 <= i < |r| ==> r[i] in s
    ensures DefinedOn(key, r)
    ensures forall i, j :: 0 <= i < j < |r| ==> key(r[i]) != key(r[j])
    ensures forall i :: 0 <= i < |r| ==>
      Occurs(s, key, key(r[i])) && r[i] == s[FirstIndex(s, key, key(r[i]))]
    ensures forall n :: 0 <= n < |s| ==> Occurs(r, key, key(s[n]))
    ensures forall i, j :: 0 <= i < j < |r| ==>
      FirstIndex(s, key, key(r[i])) < FirstIndex(s, key, key(r[j]))
    decreases |s|
  {
    if s == [] then []
    else
      var p, x := s[..|s| - 1], s[|s| - 1];
      assert s == p + [x];
      assert DefinedOn(key, p);
      var d := DistinctBy(p, key);
      if Occurs(p, key, key(x)) then
        DistinctBySeen(p, x, key, d);
        d
      else
        DistinctByNew(p, x, key, d);
        d + [x]
  }

  /** Induction step of DistinctBy when the last key was seen before. */
  lemma {:induction false} DistinctBySeen<T, K>(p: seq<T>, x: T, key: T --> K, d: seq<T>)
    requires key.requires(x) && DefinedOn(key, p + [x]) && DefinedOn(key, p)
    requires Occurs(p, key, key(x))
    requires DefinedOn(key, d)
    requires forall i :: 0 <= i < |d| ==> d[i] in p
    requires forall i :: 0 <= i < |d| ==>
      Occurs(p, key, key(d[i])) && d[i] == p[FirstIndex(p, key, key(d[i]))]
    requires forall n :: 0 <= n < |p| ==> Occurs(d, key, key(p[n]))
    requires forall i, j :: 0 <= i < j < |d| ==>
      FirstIndex(p, key, key(d[i])) < FirstIndex(p, key, key(d[j]))
    ensures forall i :: 0 <= i < |d| ==> d[i] in p + [x]
    ensures forall i :: 0 <= i < |d| ==>
      Occurs(p + [x], key, key(d[i])) && d[i] == (p + [x])[FirstIndex(p + [x], key, key(d[i]))]
    ensures forall n :: 0 <= n < |p + [x]| ==> Occurs(d, key, key((p + [x])[n]))
    ensures forall i, j :: 0 <= i < j < |d| ==>
      FirstIndex(p + [x], key, key(d[i])) < FirstIndex(p + [x], key, key(d[j]))
  {
    var s := p + [x];
    forall i | 0 <= i < |d|
      ensures Occurs(s, key, key(d[i])) && FirstIndex(s, key, key(d[i])) == FirstIndex(p, key, key(d[i]))
    {
      FirstIndexOfPrefix(p, x, key, key(d[i]));
    }
    forall i | 0 <= i < |d|
      ensures d[i] == s[FirstIndex(s, key, key(d[i]))]
    {
      assert s[FirstIndex(p, key, key(d[i]))] == p[FirstIndex(p, key, key(d[i]))];
    }
    forall n | 0 <= n < |s|
      ensures Occurs(d, key, key(s[n]))
    {
      if n < |p| {
        assert s[n] == p[n];
      } else {
        var m :| 0 <= m < |p| && key(p[m]) == key(x);
        assert Occurs(d, key, key(p[m]));
      }
    }
  }

  /** Induction step of DistinctBy when the last key is new. */
  lemma {:induction false} DistinctByNew<T, K>(p: seq<T>, x: T, key: T --> K, d: seq<T>)
    requires key.requires(x) && DefinedOn(key, p + [x]) && DefinedOn(key, p)
    requires !Occurs(p, key, key(x))
    requires DefinedOn(key, d)
    requires forall i :: 0 <= i < |d| ==>
      Occurs(p, key, key(d[i])) && d[i] == p[FirstIndex(p, key, key(d[i]))]
    requires forall n :: 0 <= n < |p| ==> Occurs(d, key, key(p[n]))
    requires forall i, j :: 0 <= i < j < |d| ==>
      FirstIndex(p, key, key(d[i])) < FirstIndex(p, key, key(d[j]))
    ensures DefinedOn(key, d + [x])
    ensures forall i :: 0 <= i < |d + [x]| ==>
      Occurs(p + [x], key, key((d + [x])[i]))
      && (d + [x])[i] == (p + [x])[FirstIndex(p + [x], key, key((d + [x])[i]))]
    ensures forall n :: 0 <= n < |p + [x]| ==> Occurs(d + [x], key, key((p + [x])[n]))
    ensures forall i, j :: 0 <= i < j < |d + [x]| ==>
      FirstIndex(p + [x], key, key((d + [x])[i])) < FirstIndex(p + [x], key, key((d + [x])[j]))
  {
    var s, r := p + [x], d + [x];
    FirstIndexOfLast(p, x, key);
    assert forall i :: 0 <= i < |d| ==> r[i] == d[i];
    assert r[|d|] == x;
    forall i | 0 <= i < |d|
      ensures Occurs(s, key, key(d[i])) && FirstIndex(s, key, key(d[i])) == FirstIndex(p, key, key(d[i]))
    {
      FirstIndexOfPrefix(p, x, key, key(d[i]));
    }
    forall i | 0 <= i < |d|
      ensures d[i] == s[FirstIndex(s, key, key(d[i]))]
    {
      assert s[FirstIndex(p, key, key(d[i]))] == p[FirstIndex(p, key, key(d[i]))];
    }
    DistinctByNewComplete(p, x, key, d);
  }

  lemma {:induction false} DistinctByNewComplete<T, K>(p: seq<T>, x: T, key: T --> K, d: seq<T>)
    requires key.requires(x) && DefinedOn(key, p) && DefinedOn(key, d)
    requires forall n :: 0 <= n < |p| ==> Occurs(d, key, key(p[n]))
    ensures DefinedOn(key, p + [x]) && DefinedOn(key, d + [x])
    ensures forall n :: 0 <= n < |p + [x]| ==> Occurs(d + [x], key, key((p + [x])[n]))
  {
    var s, r := p + [x], d + [x];
    assert forall i :: 0 <= i < |d| ==> r[i] == d[i];
    assert r[|d|] == x;
    forall n | 0 <= n < |s|
      ensures Occurs(r, key, key(s[n]))
    {
      if n < |p| {
        assert s[n] == p[n];
        var m :| 0 <= m < |d| && key(d[m]) == key(p[n]);
        assert r[m] == d[m];
      } else {
        assert r[|d|] == s[n];
      }
    }
  }

  /** The elements of `s` whose key is `k`, in their original order. */
  function Where<T, K(==)>(s: seq<T>, key: T --> K, k: K): (r: seq<T>)
    requires DefinedOn(key, s)
    ensures DefinedOn(key, r)
    ensures forall i :: 0 <= i < |r| ==> key(r[i]) == k
    ensures |r| > 0 <==> Occurs(s, key, k)
    decreases |s|
  {
    if s == [] then []
    else
      var p, x := s[..|s| - 1], s[|s| - 1];
      assert s == p + [x];
      assert DefinedOn(key, p);
      assert Occurs(p, key, k) ==> Occurs(s, key, k) by {
        assert forall n :: 0 <= n < |p| ==> s[n] == p[n];
      }
      Where(p, key, k) + (if key(x) == k then [x] else [])
  }

  lemma {:induction false} WhereSnoc<T, K>(p: seq<T>, x: T, key: T --> K, k: K)
    requires key.requires(x) && DefinedOn(key, p) && DefinedOn(key, p + [x])
    ensures Where(p + [x], key, k) == Where(p, key, k) + (if key(x) == k then [x] else [])
  {
    assert (p + [x])[..|p|] == p;
  }

  /** The keys of a map given as its sequence of entries. */
  function Keys<K, V>(entries: seq<(K, V)>): seq<K> {
    seq(|entries|, i requires 0 <= i < |entries| => entries[i].0)
  }

  ghost predicate DistinctKeys<K, V>(entries: seq<(K, V)>) {
    forall i, j :: 0 <= i < j < |entries| ==> entries[i].0 != entries[j].0
  }

  /**
   * `getOrPut(k) { ArrayList() }.add(x)` on a `LinkedHashMap`, given as its
   * sequence of entries: a new key goes to the end.
   */
  function Insert<T, K(==)>(entries: seq<(K, seq<T>)>, k: K, x: T): (r: seq<(K, seq<T>)>)
    requires DistinctKeys(entries)
    ensures k in Keys(entries) ==> |r| == |entries|
    ensures k !in Keys(entries) ==> |r| == |entries| + 1 && r[|entries|] == (k, [x])
    ensures forall i :: 0 <= i < |entries| ==>
      r[i] == (entries[i].0, if entries[i].0 == k then entries[i].1 + [x] else entries[i].1)
  {
    if entries == [] then [(k, [x])]
    else if entries[0].0 == k then
      assert Keys(entries)[0] == k;
      [(k, entries[0].1 + [x])] + entries[1..]
    else
      assert Keys(entries) == [entries[0].0] + Keys(entries[1..]);
      [entries[0]] + Insert(entries[1..], k, x)
  }

  /**
   * `groupBy`: a `LinkedHashMap` from each key to its elements, given as its
   * sequence of entries in iteration (insertion) order.
   */
  function GroupBy<T, K(==)>(s: seq<T>, key: T --> K): (groups: seq<(K, seq<T>)>)
    requires DefinedOn(key, s)
    ensures forall i, j :: 0 <= i < j < |groups| ==> groups[i].0 != groups[j].0
    ensures forall i :: 0 <= i < |groups| ==>
      Occurs(s, key, groups[i].0) && groups[i].1 == Where(s, key, groups[i].0)
    ensures forall n :: 0 <= n < |s| ==> key(s[n]) in Keys(groups)
    ensures forall i, j :: 0 <= i < j < |groups| ==>
      FirstIndex(s, key, groups[i].0) < FirstIndex(s, key, groups[j].0)
    decreases |s|
  {
    if s == [] then []
    else
      var p, x := s[..|s| - 1], s[|s| - 1];
      assert s == p + [x];
      assert DefinedOn(key, p);
      var g := GroupBy(p, key);
      var r := Insert(g, key(x), x);
      GroupByStepDistinct(p, x, key, g, r);
      GroupByStepGroups(p, x, key, g, r);
      GroupByStepComplete(p, x, key, g, r);
      GroupByStepOrder(p, x, key, g, r);
      r
  }

  // Induction step of GroupBy: `r` adds the last element `x` to the groups `g` of the prefix `p`.

  /** The keys stay distinct. */
  lemma {:induction false} GroupByStepDistinct<T, K>(p: seq<T>, x: T, key: T --> K, g: seq<(K, seq<T>)>, r: seq<(K, seq<T>)>)
    requires key.requires(x) && DefinedOn(key, p) && DefinedOn(key, p + [x])
    requires DistinctKeys(g) && r == Insert(g, key(x), x)
    requires forall i :: 0 <= i < |g| ==> Occurs(p, key, g[i].0) && g[i].1 == Where(p, key, g[i].0)
    requires forall n :: 0 <= n < |p| ==> key(p[n]) in Keys(g)
    requires forall i, j :: 0 <= i < j < |g| ==> FirstIndex(p, key, g[i].0) < FirstIndex(p, key, g[j].0)
    ensures DistinctKeys(r)
  {
    GroupByStepOld(p, x, key, g, r);
    if key(x) !in Keys(g) {
      GroupByStepNewKey(g, r, key(x));
    }
  }

  /** Each group holds the elements with its key. */
  lemma {:induction false} GroupByStepGroups<T, K>(p: seq<T>, x: T, key: T --> K, g: seq<(K, seq<T>)>, r: seq<(K, seq<T>)>)
    requires key.requires(x) && DefinedOn(key, p) && DefinedOn(key, p + [x])
    requires DistinctKeys(g) && r == Insert(g, key(x), x)
    requires forall i :: 0 <= i < |g| ==> Occurs(p, key, g[i].0) && g[i].1 == Where(p, key, g[i].0)
    requires forall n :: 0 <= n < |p| ==> key(p[n]) in Keys(g)
    requires forall i, j :: 0 <= i < j < |g| ==> FirstIndex(p, key, g[i].0) < FirstIndex(p, key, g[j].0)
    ensures forall i :: 0 <= i < |r| ==>
      Occurs(p + [x], key, r[i].0) && r[i].1 == Where(p + [x], key, r[i].0)
  {
    GroupByStepOld(p, x, key, g, r);
    if key(x) !in Keys(g) {
      GroupByStepNewGroup(p, x, key, g, r);
    }
    forall i | 0 <= i < |r|
      ensures Occurs(p + [x], key, r[i].0) && r[i].1 == Where(p + [x], key, r[i].0)
    {
      if i < |g| {
        assert Occurs(p + [x], key, r[i].0);
      } else {
        assert i == |g|;
      }
    }
  }

  /** The groups stay in order of first appearance. */
  lemma {:induction false} GroupByStepOrder<T, K>(p: seq<T>, x: T, key: T --> K, g: seq<(K, seq<T>)>, r: seq<(K, seq<T>)>)
    requires key.requires(x) && DefinedOn(key, p) && DefinedOn(key, p + [x])
    requires DistinctKeys(g) && r == Insert(g, key(x), x)
    requires forall i :: 0 <= i < |g| ==> Occurs(p, key, g[i].0) && g[i].1 == Where(p, key, g[i].0)
    requires forall n :: 0 <= n < |p| ==> key(p[n]) in Keys(g)
    requires forall i, j :: 0 <= i < j < |g| ==> FirstIndex(p, key, g[i].0) < FirstIndex(p, key, g[j].0)
    ensures forall i :: 0 <= i < |r| ==> Occurs(p + [x], key, r[i].0)
    ensures forall i, j :: 0 <= i < j < |r| ==>
      FirstIndex(p + [x], key, r[i].0) < FirstIndex(p + [x], key, r[j].0)
  {
    GroupByStepGroups(p, x, key, g, r);
    GroupByStepOld(p, x, key, g, r);
    if key(x) in Keys(g) {
      GroupBySeenOrder(p, x, key, g, r);
    } else {
      GroupByStepNewGroup(p, x, key, g, r);
      GroupByStepNewOrder(p, x, key, g, r);
    }
  }

  /** The groups of the prefix keep their keys and first positions and gain `x` where it belongs. */
  lemma {:induction false} GroupByStepOld<T, K>(p: seq<T>, x: T, key: T --> K, g: seq<(K, seq<T>)>, r: seq<(K, seq<T>)>)
    requires key.requires(x) && DefinedOn(key, p) && DefinedOn(key, p + [x])
    requires DistinctKeys(g) && r == Insert(g, key(x), x)
    requires forall i :: 0 <= i < |g| ==> Occurs(p, key, g[i].0) && g[i].1 == Where(p, key, g[i].0)
    ensures |g| <= |r|
    ensures forall i :: 0 <= i < |g| ==>
      r[i].0 == g[i].0 && Occurs(p + [x], key, r[i].0) && r[i].1 == Where(p + [x], key, r[i].0)
      && FirstIndex(p + [x], key, r[i].0) == FirstIndex(p, key, g[i].0)
    ensures key(x) in Keys(g) ==> |r| == |g| && DistinctKeys(r) && key(x) in Keys(r)
  {
    forall i | 0 <= i < |g|
      ensures Occurs(p + [x], key, g[i].0)
      ensures FirstIndex(p + [x], key, g[i].0) == FirstIndex(p, key, g[i].0)
      ensures r[i].1 == Where(p + [x], key, r[i].0)
    {
      FirstIndexOfPrefix(p, x, key, g[i].0);
      WhereSnoc(p, x, key, g[i].0);
    }
    if key(x) in Keys(g) {
      assert Keys(r) == Keys(g);
    }
  }

  /** When no group is added, the first positions and hence their order are unchanged. */
  lemma {:induction false} GroupBySeenOrder<T, K>(p: seq<T>, x: T, key: T --> K, g: seq<(K, seq<T>)>, r: seq<(K, seq<T>)>)
    requires key.requires(x) && DefinedOn(key, p) && DefinedOn(key, p + [x])
    requires |r| == |g|
    requires forall i :: 0 <= i < |g| ==> Occurs(p, key, g[i].0)
    requires forall i :: 0 <= i < |r| ==> Occurs(p + [x], key, r[i].0)
    requires forall i :: 0 <= i < |g| ==>
      r[i].0 == g[i].0 && FirstIndex(p + [x], key, r[i].0) == FirstIndex(p, key, g[i].0)
    requires forall i, j :: 0 <= i < j < |g| ==> FirstIndex(p, key, g[i].0) < FirstIndex(p, key, g[j].0)
    ensures forall i, j :: 0 <= i < j < |r| ==>
      FirstIndex(p + [x], key, r[i].0) < FirstIndex(p + [x], key, r[j].0)
  {
  }

  /** A key not among the groups of the prefix does not occur in the prefix. */
  lemma {:induction false} UngroupedKeyIsNew<T, K>(p: seq<T>, key: T --> K, g: seq<(K, seq<T>)>, k: K)
    requires DefinedOn(key, p) && k !in Keys(g)
    requires forall n :: 0 <= n < |p| ==> key(p[n]) in Keys(g)
    ensures !Occurs(p, key, k)
  {
    forall n | 0 <= n < |p| ensures key(p[n]) != k {
      assert key(p[n]) in Keys(g);
    }
  }

  /** A new key opens a group of its own at the end. */
  lemma {:induction false} GroupByStepNewKey<K, V>(g: seq<(K, V)>, r: seq<(K, V)>, k: K)
    requires DistinctKeys(g) && k !in Keys(g)
    requires |r| == |g| + 1 && r[|g|].0 == k && forall i :: 0 <= i < |g| ==> r[i].0 == g[i].0
    ensures DistinctKeys(r)
  {
    forall i, j | 0 <= i < j < |r|
      ensures r[i].0 != r[j].0
    {
      if j == |g| {
        assert Keys(g)[i] == g[i].0;
      }
    }
  }

  /** The group of a new key holds just `x`, which is where that key is first seen. */
  lemma {:induction false} GroupByStepNewGroup<T, K>(p: seq<T>, x: T, key: T --> K, g: seq<(K, seq<T>)>, r: seq<(K, seq<T>)>)
    requires key.requires(x) && DefinedOn(key, p) && DefinedOn(key, p + [x])
    requires DistinctKeys(g) && r == Insert(g, key(x), x) && key(x) !in Keys(g)
    requires forall n :: 0 <= n < |p| ==> key(p[n]) in Keys(g)
    ensures |r| == |g| + 1
    ensures Occurs(p + [x], key, r[|g|].0) && r[|g|].1 == Where(p + [x], key, r[|g|].0)
    ensures FirstIndex(p + [x], key, r[|g|].0) == |p|
  {
    UngroupedKeyIsNew(p, key, g, key(x));
    FirstIndexOfLast(p, x, key);
    WhereSnoc(p, x, key, key(x));
  }

  /** The new group comes after all others, and so does its first position. */
  lemma {:induction false} GroupByStepNewOrder<T, K>(p: seq<T>, x: T, key: T --> K, g: seq<(K, seq<T>)>, r: seq<(K, seq<T>)>)
    requires key.requires(x) && DefinedOn(key, p) && DefinedOn(key, p + [x])
    requires |g| <= |r| == |g| + 1
    requires forall i :: 0 <= i < |g| ==> Occurs(p, key, g[i].0)
    requires forall i :: 0 <= i < |r| ==> Occurs(p + [x], key, r[i].0)
    requires forall i :: 0 <= i < |g| ==>
      r[i].0 == g[i].0 && FirstIndex(p + [x], key, r[i].0) == FirstIndex(p, key, g[i].0)
    requires FirstIndex(p + [x], key, r[|g|].0) == |p|
    requires forall i, j :: 0 <= i < j < |g| ==> FirstIndex(p, key, g[i].0) < FirstIndex(p, key, g[j].0)
    ensures forall i, j :: 0 <= i < j < |r| ==>
      FirstIndex(p + [x], key, r[i].0) < FirstIndex(p + [x], key, r[j].0)
  {
    forall i, j | 0 <= i < j < |r|
      ensures FirstIndex(p + [x], key, r[i].0) < FirstIndex(p + [x], key, r[j].0)
    {
      if j == |g| {
        assert FirstIndex(p, key, g[i].0) < |p|;
      }
    }
  }

  /** Every key of the extended sequence has a group. */
  lemma {:induction false} GroupByStepComplete<T, K>(p: seq<T>, x: T, key: T --> K, g: seq<(K, seq<T>)>, r: seq<(K, seq<T>)>)
    requires key.requires(x) && DefinedOn(key, p) && DefinedOn(key, p + [x])
    requires DistinctKeys(g) && r == Insert(g, key(x), x)
    requires forall n :: 0 <= n < |p| ==> key(p[n]) in Keys(g)
    ensures forall n :: 0 <= n < |p + [x]| ==> key((p + [x])[n]) in Keys(r)
  {
    assert key(x) in Keys(r) by {
      if key(x) !in Keys(g) {
        assert Keys(r)[|g|] == key(x);
      } else {
        assert Keys(r) == Keys(g);
      }
    }
    forall n | 0 <= n < |p + [x]|
      ensures key((p + [x])[n]) in Keys(r)
    {
      if n < |p| {
        assert (p + [x])[n] == p[n];
        var m :| 0 <= m < |g| && Keys(g)[m] == key(p[n]);
        assert Keys(r)[m] == key(p[n]);
      }
    }
  }
}
