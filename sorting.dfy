/** Python's `sorted(..., key=..., reverse=...)` and pandas `sort_values`, modelled as a
    stable insertion sort on a real-valued key, ascending or descending. */
module Sorting {
  import opened Common

  /** A key a may come before a key b in the chosen direction. */
  predicate Precedes(a: real, b: real, descending: bool)
  {
    if descending then a >= b else a <= b
  }

  predicate SortedByKey<T>(s: seq<T>, key: T -> real, descending: bool)
  {
    forall i, j :: 0 <= i < j < |s| ==> Precedes(key(s[i]), key(s[j]), descending)
  }

  /** Inserts x before the first element it may precede, so x lands ahead of its equals. */
  function Insert<T>(x: T, s: seq<T>, key: T -> real, descending: bool): (r: seq<T>)
    requires SortedByKey(s, key, descending)
    ensures SortedByKey(r, key, descending)
    ensures multiset(r) == multiset(s) + multiset{x}
    ensures |r| == |s| + 1
  {
    if s == [] then [x]
    else if Precedes(key(x), key(s[0]), descending) then
      assert forall j :: 0 <= j < |s| ==> Precedes(key(s[0]), key(s[j]), descending);
      [x] + s
    else
      var t := Insert(x, s[1..], key, descending);
      assert s == [s[0]] + s[1..];
      InsertedAfterHead(x, s, t, key, descending);
      [s[0]] + t
  }

  lemma InsertedAfterHead<T>(x: T, s: seq<T>, t: seq<T>, key: T -> real, descending: bool)
    requires s != [] && SortedByKey(s, key, descending) && !Precedes(key(x), key(s[0]), descending)
    requires SortedByKey(t, key, descending) && multiset(t) == multiset(s[1..]) + multiset{x}
    ensures SortedByKey([s[0]] + t, key, descending)
  {
    forall j | 0 <= j < |t| ensures Precedes(key(s[0]), key(t[j]), descending) {
      assert t[j] in multiset(t);
      if t[j] != x {
        assert t[j] in multiset(s[1..]);
        var k :| 0 <= k < |s[1..]| && s[1..][k] == t[j];
        assert s[k + 1] == t[j];
      }
    }
    var r := [s[0]] + t;
    forall i, j | 0 <= i < j < |r| ensures Precedes(key(r[i]), key(r[j]), descending) {
      if i == 0 {
        assert r[j] == t[j - 1];
      } else {
        assert r[i] == t[i - 1] && r[j] == t[j - 1];
      }
    }
  }

  /** The sorted permutation of s; elements with equal keys keep their input order. */
  function SortByKey<T>(s: seq<T>, key: T -> real, descending: bool): (r: seq<T>)
    ensures SortedByKey(r, key, descending)
    ensures multiset(r) == multiset(s)
    ensures |r| == |s|
  {
    if s == [] then []
    else
      assert s == [s[0]] + s[1..];
      Insert(s[0], SortByKey(s[1..], key, descending), key, descending)
  }

  /** The elements whose key is v. */
  function KeyIs<T>(key: T -> real, v: real): T -> bool
  {
    (x: T) => key(x) == v
  }

  /** The elements of s whose key is v, in order. */
  function WithKey<T>(s: seq<T>, key: T -> real, v: real): seq<T>
  {
    if s == [] then [] else (if key(s[0]) == v then [s[0]] else []) + WithKey(s[1..], key, v)
  }

  /** WithKey is the mask `key == v`. */
  lemma {:induction false} WithKeyIsFilter<T>(s: seq<T>, key: T -> real, v: real)
    ensures WithKey(s, key, v) == Filter(s, KeyIs(key, v))
  {
    if s != [] {
      var p := KeyIs(key, v);
      var tail := s[1..];
      calc {
        WithKey(s, key, v);
        (if key(s[0]) == v then [s[0]] else []) + WithKey(tail, key, v);
        { WithKeyIsFilter(tail, key, v); }
        (if key(s[0]) == v then [s[0]] else []) + Filter(tail, p);
        { FilterSingleton(s[0], p); }
        Filter([s[0]], p) + Filter(tail, p);
        { FilterConcat([s[0]], tail, p); }
        Filter([s[0]] + tail, p);
        { assert [s[0]] + tail == s; }
        Filter(s, p);
      }
    }
  }

  /** Inserting x puts it ahead of every element with its key and moves no element past
      another with the same key. */
  lemma {:induction false} InsertKeepsEqualKeys<T>(x: T, s: seq<T>, key: T -> real, descending: bool, v: real)
    requires SortedByKey(s, key, descending)
    ensures WithKey(Insert(x, s, key, descending), key, v) ==
      if key(x) == v then [x] + WithKey(s, key, v) else WithKey(s, key, v)
  {
    if s == [] {
      assert [x][1..] == [];
    } else if Precedes(key(x), key(s[0]), descending) {
      assert ([x] + s)[0] == x && ([x] + s)[1..] == s;
    } else {
      InsertPastHead(x, s, key, descending);
      var t := Insert(x, s[1..], key, descending);
      InsertKeepsEqualKeys(x, s[1..], key, descending, v);
      assert ([s[0]] + t)[0] == s[0] && ([s[0]] + t)[1..] == t;
      assert key(s[0]) != key(x);
    }
  }

  /** An x that may not precede the head is inserted into the tail. */
  lemma InsertPastHead<T>(x: T, s: seq<T>, key: T -> real, descending: bool)
    requires SortedByKey(s, key, descending) && s != [] && !Precedes(key(x), key(s[0]), descending)
    ensures SortedByKey(s[1..], key, descending)
    ensures Insert(x, s, key, descending) == [s[0]] + Insert(x, s[1..], key, descending)
  {
    assert forall i, j :: 0 <= i < j < |s[1..]| ==> s[1..][i] == s[i + 1] && s[1..][j] == s[j + 1];
  }

  /** The sort is stable: the elements with any one key come out in their input order. */
  lemma SortByKeyStable<T>(s: seq<T>, key: T -> real, descending: bool, v: real)
    ensures Filter(SortByKey(s, key, descending), KeyIs(key, v)) == Filter(s, KeyIs(key, v))
  {
    SortKeepsWithKey(s, key, descending, v);
    WithKeyIsFilter(s, key, v);
    WithKeyIsFilter(SortByKey(s, key, descending), key, v);
  }

  lemma {:induction false} SortKeepsWithKey<T>(s: seq<T>, key: T -> real, descending: bool, v: real)
    ensures WithKey(SortByKey(s, key, descending), key, v) == WithKey(s, key, v)
  {
    if s != [] {
      var rest := SortByKey(s[1..], key, descending);
      calc {
        WithKey(SortByKey(s, key, descending), key, v);
        WithKey(Insert(s[0], rest, key, descending), key, v);
        { InsertKeepsEqualKeys(s[0], rest, key, descending, v); }
        (if key(s[0]) == v then [s[0]] + WithKey(rest, key, v) else WithKey(rest, key, v));
        { SortKeepsWithKey(s[1..], key, descending, v); }
        (if key(s[0]) == v then [s[0]] + WithKey(s[1..], key, v) else WithKey(s[1..], key, v));
        WithKey(s, key, v);
      }
    }
  }

  /** In a sorted sequence each of the first n elements precedes every later one. */
  lemma PrefixPrecedesRest<T>(r: seq<T>, key: T -> real, descending: bool, n: nat)
    requires SortedByKey(r, key, descending) && n <= |r|
    ensures forall x :: x in multiset(r[n..]) ==>
      forall i :: 0 <= i < n ==> Precedes(key(r[i]), key(x), descending)
  {
    forall x | x in multiset(r[n..]) ensures forall i :: 0 <= i < n ==> Precedes(key(r[i]), key(x), descending) {
      var j :| 0 <= j < |r[n..]| && r[n..][j] == x;
      assert r[n + j] == x;
    }
  }

  /** top is drawn from s, and each of its elements precedes every element of s left out. */
  ghost predicate DominatesRest<T>(top: seq<T>, s: seq<T>, key: T -> real, descending: bool)
  {
    multiset(top) <= multiset(s) &&
    forall x :: x in multiset(s) - multiset(top) ==>
      forall i :: 0 <= i < |top| ==> Precedes(key(top[i]), key(x), descending)
  }

  /** The first k of a sorted permutation of s are drawn from s, and each precedes every
      element of s left out: what `sorted(...)[:k]` and `.head(k)` promise. */
  lemma TakeOfSortDominatesRest<T>(s: seq<T>, key: T -> real, descending: bool, k: nat)
    ensures DominatesRest(Take(SortByKey(s, key, descending), k), s, key, descending)
  {
    var r := SortByKey(s, key, descending);
    var top := Take(r, k);
    assert top == r[..|top|];
    PrefixDominatesRest(r, key, descending, |top|);
    assert multiset(s) == multiset(r);
  }

  lemma PrefixDominatesRest<T>(r: seq<T>, key: T -> real, descending: bool, n: nat)
    requires SortedByKey(r, key, descending) && n <= |r|
    ensures DominatesRest(r[..n], r, key, descending)
  {
    assert r == r[..n] + r[n..];
    assert multiset(r) - multiset(r[..n]) == multiset(r[n..]);
    PrefixPrecedesRest(r, key, descending, n);
  }

  /** Keeping the elements that satisfy p keeps a sorted sequence sorted. */
  lemma {:induction false} FilterKeepsSorted<T>(s: seq<T>, p: T -> bool, key: T -> real, descending: bool)
    requires SortedByKey(s, key, descending)
    ensures SortedByKey(Filter(s, p), key, descending)
  {
    if s != [] {
      var init := s[..|s| - 1];
      var x := s[|s| - 1];
      assert s == init + [x];
      FilterAppend(init, x, p);
      FilterKeepsSorted(init, p, key, descending);
      if p(x) {
        LastFollowsFiltered(init, x, p, key, descending);
      }
    }
  }

  lemma LastFollowsFiltered<T>(init: seq<T>, x: T, p: T -> bool, key: T -> real, descending: bool)
    requires SortedByKey(init + [x], key, descending) && SortedByKey(Filter(init, p), key, descending)
    ensures SortedByKey(Filter(init, p) + [x], key, descending)
  {
    var rest := Filter(init, p);
    forall i | 0 <= i < |rest| ensures Precedes(key(rest[i]), key(x), descending) {
      var j :| 0 <= j < |init| && init[j] == rest[i];
      assert (init + [x])[j] == init[j] && (init + [x])[|init|] == x;
    }
  }
}
