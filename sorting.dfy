/**
 * The two library sorts the scripts call: `sorted(...)` on strings, and a
 * stable sort by an integer key (`sorted(keys, key=int)`, `list.sort(key=...)`).
 * Both are given as insertion sorts, with lemmas that state what Python
 * promises of them: ordered output, same elements, and (for the keyed sort)
 * stability, i.e. elements with equal keys keep their input order.
 */
module Sorting {
  import opened Text

  predicate SortedStrings(s: seq<string>)
  {
    forall i, j :: 0 <= i < j < |s| ==> StrLe(s[i], s[j])
  }

  predicate Distinct<T(==)>(s: seq<T>)
  {
    forall i, j :: 0 <= i < j < |s| ==> s[i] != s[j]
  }

  function InsertString(x: string, s: seq<string>): (r: seq<string>)
    ensures multiset(r) == multiset(s) + multiset{x}
  {
    if s == [] || StrLe(x, s[0]) then [x] + s
    else
      assert s == [s[0]] + s[1..];
      [s[0]] + InsertString(x, s[1..])
  }

  /** `sorted(xs)` for a list of strings. */
  function SortStrings(xs: seq<string>): (r: seq<string>)
    ensures multiset(r) == multiset(xs)
  {
    if xs == [] then []
    else
      assert xs == [xs[0]] + xs[1..];
      InsertString(xs[0], SortStrings(xs[1..]))
  }

  lemma {:induction false} InsertStringSorted(x: string, s: seq<string>)
    requires SortedStrings(s)
    ensures SortedStrings(InsertString(x, s))
    decreases |s|
  {
    if s == [] || StrLe(x, s[0]) {
      forall j | 0 <= j < |s| ensures StrLe(x, s[j]) {
        if j > 0 { StrLeTransitive(x, s[0], s[j]); }
      }
    } else {
      StrLeTotal(x, s[0]);
      InsertStringSorted(x, s[1..]);
      var tail := InsertString(x, s[1..]);
      forall j | 0 <= j < |tail| ensures StrLe(s[0], tail[j]) {
        assert tail[j] in multiset(tail);
        if tail[j] != x {
          assert tail[j] in multiset(s[1..]);
          var k :| 0 <= k < |s[1..]| && s[1..][k] == tail[j];
          assert StrLe(s[0], s[k + 1]);
        }
      }
    }
  }

  /** `sorted()` returns its input's strings in ascending order. */
  lemma {:induction false} SortStringsSorted(xs: seq<string>)
    ensures SortedStrings(SortStrings(xs))
    decreases |xs|
  {
    if xs != [] {
      SortStringsSorted(xs[1..]);
      InsertStringSorted(xs[0], SortStrings(xs[1..]));
    }
  }

  /** Sorting a list that is already in order gives it back unchanged. */
  lemma {:induction false} SortStringsOfSorted(s: seq<string>)
    requires SortedStrings(s)
    ensures SortStrings(s) == s
    decreases |s|
  {
    if s != [] {
      assert SortedStrings(s[1..]);
      SortStringsOfSorted(s[1..]);
      if |s| > 1 {
        assert StrLe(s[0], s[1]);
      }
      assert s == [s[0]] + s[1..];
    }
  }

  /** A list without repetitions stays without repetitions when reordered. */
  lemma {:induction false} DistinctPermutation<T>(s: seq<T>, t: seq<T>)
    requires multiset(s) == multiset(t) && Distinct(s)
    ensures Distinct(t)
  {
    forall i, j | 0 <= i < j < |t| ensures t[i] != t[j] {
      if t[i] == t[j] {
        var x := t[i];
        assert t == t[..i] + [x] + t[i+1..j] + [x] + t[j+1..];
        assert multiset(t)[x] >= 2;
        DistinctCountsOnce(s, x);
        assert false;
      }
    }
  }

  lemma {:induction false} DistinctCountsOnce<T>(s: seq<T>, x: T)
    requires Distinct(s)
    ensures multiset(s)[x] <= 1
    decreases |s|
  {
    if s != [] {
      assert s == [s[0]] + s[1..];
      assert Distinct(s[1..]);
      DistinctCountsOnce(s[1..], x);
      if s[0] == x {
        assert x !in s[1..];
        assert multiset(s[1..])[x] == 0;
      }
    }
  }

  predicate SortedByRank<T>(s: seq<T>, rank: T -> int)
  {
    forall i, j :: 0 <= i < j < |s| ==> rank(s[i]) <= rank(s[j])
  }

  function InsertByRank<T>(x: T, s: seq<T>, rank: T -> int): (r: seq<T>)
    ensures multiset(r) == multiset(s) + multiset{x}
  {
    if s == [] || rank(x) <= rank(s[0]) then [x] + s
    else
      assert s == [s[0]] + s[1..];
      [s[0]] + InsertByRank(x, s[1..], rank)
  }

  /** A stable sort by an integer key, as `sorted(xs, key=rank)` and `xs.sort(key=rank)`. */
  function SortByRank<T>(xs: seq<T>, rank: T -> int): (r: seq<T>)
    ensures multiset(r) == multiset(xs)
  {
    if xs == [] then []
    else
      assert xs == [xs[0]] + xs[1..];
      InsertByRank(xs[0], SortByRank(xs[1..], rank), rank)
  }

  lemma {:induction false} InsertByRankSorted<T>(x: T, s: seq<T>, rank: T -> int)
    requires SortedByRank(s, rank)
    ensures SortedByRank(InsertByRank(x, s, rank), rank)
    decreases |s|
  {
    if !(s == [] || rank(x) <= rank(s[0])) {
      InsertByRankSorted(x, s[1..], rank);
      var tail := InsertByRank(x, s[1..], rank);
      forall j | 0 <= j < |tail| ensures rank(s[0]) <= rank(tail[j]) {
        assert tail[j] in multiset(tail);
        if tail[j] != x {
          assert tail[j] in multiset(s[1..]);
          var k :| 0 <= k < |s[1..]| && s[1..][k] == tail[j];
          assert rank(s[0]) <= rank(s[k + 1]);
        }
      }
    }
  }

  /** The keyed sort puts its elements in ascending key order. */
  lemma {:induction false} SortByRankSorted<T>(xs: seq<T>, rank: T -> int)
    ensures SortedByRank(SortByRank(xs, rank), rank)
    decreases |xs|
  {
    if xs != [] {
      SortByRankSorted(xs[1..], rank);
      InsertByRankSorted(xs[0], SortByRank(xs[1..], rank), rank);
    }
  }

  /** The elements of `s` whose key is `v`, in the order of `s`. */
  function WithRank<T>(s: seq<T>, rank: T -> int, v: int): seq<T>
  {
    if s == [] then [] else (if rank(s[0]) == v then [s[0]] else []) + WithRank(s[1..], rank, v)
  }

  lemma {:induction false} InsertByRankStable<T>(x: T, s: seq<T>, rank: T -> int, v: int)
    ensures WithRank(InsertByRank(x, s, rank), rank, v) == (if rank(x) == v then [x] else []) + WithRank(s, rank, v)
    decreases |s|
  {
    var r := InsertByRank(x, s, rank);
    var mine: seq<T> := if rank(x) == v then [x] else [];
    if s == [] || rank(x) <= rank(s[0]) {
      assert r == [x] + s;
      assert r[0] == x && r[1..] == s;
    } else {
      var tail := InsertByRank(x, s[1..], rank);
      var head: seq<T> := if rank(s[0]) == v then [s[0]] else [];
      assert r == [s[0]] + tail;
      assert r[0] == s[0] && r[1..] == tail;
      InsertByRankStable(x, s[1..], rank, v);
      assert WithRank(r, rank, v) == head + (mine + WithRank(s[1..], rank, v));
      assert head == [] || mine == [];
      assert WithRank(s, rank, v) == head + WithRank(s[1..], rank, v);
    }
  }

  /** Stability: elements with equal keys come out in the order they went in. */
  lemma {:induction false} SortByRankStable<T>(xs: seq<T>, rank: T -> int, v: int)
    ensures WithRank(SortByRank(xs, rank), rank, v) == WithRank(xs, rank, v)
    decreases |xs|
  {
    if xs != [] {
      SortByRankStable(xs[1..], rank, v);
      InsertByRankStable(xs[0], SortByRank(xs[1..], rank), rank, v);
    }
  }
}
