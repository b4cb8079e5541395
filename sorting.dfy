/** `Array.prototype.sort` with a comparator `(a, b) => key(b) - key(a)`: a
    stable sort into non-increasing key order (ECMA-262 requires stability
    since its 2019 edition). The library's algorithm is not the program's, so
    the sort is stated as a function, insertion sort, together with the
    properties that determine its result; `slice(0, n)` is `Take`. */
module Sorting {

  /** Keys never increase from left to right. */
  predicate Descending<T>(s: seq<T>, key: T -> int) {
    forall i, j :: 0 <= i < j < |s| ==> key(s[i]) >= key(s[j])
  }

  /** Places `x` before the first element whose key is at most its own. */
  function Insert<T>(x: T, s: seq<T>, key: T -> int): (r: seq<T>)
    ensures |r| == |s| + 1
    ensures r[0] == x || (s != [] && r[0] == s[0])
  {
    if s == [] || key(x) >= key(s[0]) then [x] + s
    else
      assert s == [s[0]] + s[1..];
      [s[0]] + Insert(x, s[1..], key)
  }

  /** The sorted copy. */
  function SortDesc<T>(s: seq<T>, key: T -> int): (r: seq<T>)
    ensures |r| == |s|
  {
    if s == [] then [] else Insert(s[0], SortDesc(s[1..], key), key)
  }

  /** The elements whose key is `k`, in their order. */
  function WithKey<T>(s: seq<T>, key: T -> int, k: int): seq<T> {
    if s == [] then [] else (if key(s[0]) == k then [s[0]] else []) + WithKey(s[1..], key, k)
  }

  /** Inserting into a descending sequence keeps it descending. */
  lemma {:induction false} InsertDescending<T>(x: T, s: seq<T>, key: T -> int)
    requires Descending(s, key)
    ensures Descending(Insert(x, s, key), key)
  {
    if s != [] && key(x) < key(s[0]) {
      var t := Insert(x, s[1..], key);
      InsertDescending(x, s[1..], key);
      assert key(t[0]) <= key(s[0]);
      var r := [s[0]] + t;
      forall i, j | 0 <= i < j < |r|
        ensures key(r[i]) >= key(r[j])
      {
        if i == 0 {
          assert key(t[j - 1]) <= key(t[0]);
        } else {
          assert r[i] == t[i - 1] && r[j] == t[j - 1];
        }
      }
    }
  }

  /** Insertion adds exactly `x`. */
  lemma {:induction false} InsertPerm<T>(x: T, s: seq<T>, key: T -> int)
    ensures multiset(Insert(x, s, key)) == multiset(s) + multiset{x}
  {
    if s != [] && key(x) < key(s[0]) {
      InsertPerm(x, s[1..], key);
      assert s == [s[0]] + s[1..];
    }
  }

  lemma WithKeyCons<T>(y: T, t: seq<T>, key: T -> int, k: int)
    ensures WithKey([y] + t, key, k) == (if key(y) == k then [y] else []) + WithKey(t, key, k)
  {
    assert ([y] + t)[1..] == t;
  }

  /** Insertion puts `x` in front of every element with its key. */
  lemma {:induction false} InsertWithKey<T>(x: T, s: seq<T>, key: T -> int, k: int)
    ensures WithKey(Insert(x, s, key), key, k) == (if key(x) == k then [x] else []) + WithKey(s, key, k)
  {
    if s == [] || key(x) >= key(s[0]) {
      WithKeyCons(x, s, key, k);
    } else {
      var t := Insert(x, s[1..], key);
      InsertWithKey(x, s[1..], key, k);
      WithKeyCons(s[0], t, key, k);
      WithKeyCons(s[0], s[1..], key, k);
      assert s == [s[0]] + s[1..];
      var rest := WithKey(s[1..], key, k);
      if key(x) == k {
        assert WithKey(t, key, k) == [x] + rest;
        assert WithKey([s[0]] + t, key, k) == WithKey(t, key, k);
        assert WithKey(s, key, k) == rest;
      } else {
        assert WithKey(t, key, k) == rest;
      }
    }
  }

  /** The sorted copy is descending, holds the same elements as often as the
      input, and keeps the input order among elements with equal keys. */
  lemma {:induction false} SortDescSpec<T>(s: seq<T>, key: T -> int)
    ensures Descending(SortDesc(s, key), key)
    ensures multiset(SortDesc(s, key)) == multiset(s)
    ensures forall k :: WithKey(SortDesc(s, key), key, k) == WithKey(s, key, k)
  {
    if s != [] {
      SortDescSpec(s[1..], key);
      InsertDescending(s[0], SortDesc(s[1..], key), key);
      InsertPerm(s[0], SortDesc(s[1..], key), key);
      assert s == [s[0]] + s[1..];
      forall k
        ensures WithKey(SortDesc(s, key), key, k) == WithKey(s, key, k)
      {
        InsertWithKey(s[0], SortDesc(s[1..], key), key, k);
      }
    }
  }

  /** `s.slice(0, n)` for `n >= 0`. */
  function Take<T>(s: seq<T>, n: nat): (r: seq<T>)
    ensures |r| == if n <= |s| then n else |s|
    ensures r <= s
  {
    if n <= |s| then s[..n] else s
  }

  /** The first `n` of the sorted copy are the top `n`: at most `n`, taken
      from the input with their multiplicities, descending, and an element of
      the input that is left out means the list is full and has no greater
      key than any element kept. */
  lemma TopSpec<T>(s: seq<T>, key: T -> int, n: nat)
    ensures var r := Take(SortDesc(s, key), n);
      && |r| <= n && (|s| >= n ==> |r| == n)
      && Descending(r, key)
      && multiset(r) <= multiset(s)
      && (forall y :: y in r ==> y in s)
      && forall z :: z in s && z !in r ==> |r| == n && forall y :: y in r ==> key(y) >= key(z)
  {
    var sorted := SortDesc(s, key);
    var r := Take(sorted, n);
    var rest := sorted[|r|..];
    SortDescSpec(s, key);
    assert sorted == r + rest;
    assert multiset(sorted) == multiset(r) + multiset(rest);
    DescendingPrefix(sorted, key, |r|);
    DescendingSplit(sorted, key, |r|);
    SplitMembers(s, r, rest);
  }

  /** No element occurs twice. */
  ghost predicate NoDuplicates<T>(s: seq<T>) {
    forall i, j :: 0 <= i < j < |s| ==> s[i] != s[j]
  }

  /** In a sequence without duplicates every element has multiplicity at most one. */
  lemma {:induction false} NoDuplicatesCount<T>(s: seq<T>, x: T)
    requires NoDuplicates(s)
    ensures multiset(s)[x] <= 1
  {
    if s != [] {
      var p := s[..|s| - 1];
      assert s == p + [s[|s| - 1]];
      assert NoDuplicates(p) by {
        forall i, j | 0 <= i < j < |p|
          ensures p[i] != p[j]
        {
          assert p[i] == s[i] && p[j] == s[j];
        }
      }
      NoDuplicatesCount(p, x);
      if x == s[|s| - 1] {
        assert x !in p by {
          forall i | 0 <= i < |p|
            ensures p[i] != x
          {
            assert p[i] == s[i];
          }
        }
      }
    }
  }

  /** Taking elements of a duplicate-free sequence with their multiplicities
      (a sub-multiset) gives a duplicate-free sequence. */
  lemma SubMultisetNoDuplicates<T>(r: seq<T>, s: seq<T>)
    requires NoDuplicates(s) && multiset(r) <= multiset(s)
    ensures NoDuplicates(r)
  {
    forall i, j | 0 <= i < j < |r|
      ensures r[i] != r[j]
    {
      if r[i] == r[j] {
        var x := r[i];
        assert r == r[..j] + [r[j]] + r[j + 1..];
        assert x in r[..j] by { assert r[..j][i] == x; }
        assert multiset(r)[x] >= 2;
        NoDuplicatesCount(s, x);
        assert false;
      }
    }
  }

  lemma DescendingPrefix<T>(s: seq<T>, key: T -> int, m: nat)
    requires Descending(s, key) && m <= |s|
    ensures Descending(s[..m], key)
  {
    assert forall i :: 0 <= i < m ==> s[..m][i] == s[i];
  }

  /** In a descending sequence every element of a prefix has a key at least
      that of every element after it. */
  lemma DescendingSplit<T>(s: seq<T>, key: T -> int, m: nat)
    requires Descending(s, key) && m <= |s|
    ensures forall y, z :: y in s[..m] && z in s[m..] ==> key(y) >= key(z)
  {
    forall y, z | y in s[..m] && z in s[m..]
      ensures key(y) >= key(z)
    {
      var i :| 0 <= i < m && s[..m][i] == y;
      var j :| 0 <= j < |s| - m && s[m..][j] == z;
      assert s[i] == y && s[m + j] == z;
    }
  }

  /** When `r` and `rest` together hold the elements of `s`, every element of
      `r` is one of `s`, and every element of `s` not in `r` is in `rest`. */
  lemma SplitMembers<T>(s: seq<T>, r: seq<T>, rest: seq<T>)
    requires multiset(r) + multiset(rest) == multiset(s)
    ensures forall y :: y in r ==> y in s
    ensures forall z :: z in s && z !in r ==> z in rest
  {
    forall y | y in r
      ensures y in s
    {
      assert y in multiset(r);
      assert y in multiset(s);
    }
    forall z | z in s && z !in r
      ensures z in rest
    {
      assert z in multiset(s);
      assert z !in multiset(r);
      assert z in multiset(rest);
    }
  }
}
