/** Sorting by an integer key: the meaning of `sort.Ints` and of `sort.Slice` on durations. */
module Sorting {
  import opened Decimal

  ghost predicate Ascending(s: seq<Int64>) {
    forall i, j :: 0 <= i < j < |s| ==> s[i] <= s[j]
  }

  ghost predicate StrictlyAscending(s: seq<Int64>) {
    forall i, j :: 0 <= i < j < |s| ==> s[i] < s[j]
  }

  function Insert(x: Int64, s: seq<Int64>): (r: seq<Int64>)
    requires Ascending(s)
    ensures Ascending(r) && multiset(r) == multiset(s) + multiset{x}
  {
    if s == [] || x <= s[0] then [x] + s
    else
      var rest := Insert(x, s[1..]);
      assert s == [s[0]] + s[1..];
      ConsAscending(s[0], s[1..], x, rest);
      [s[0]] + rest
  }

  lemma ConsAscending(h: Int64, t: seq<Int64>, x: Int64, rest: seq<Int64>)
    requires Ascending([h] + t) && h <= x
    requires Ascending(rest) && multiset(rest) == multiset(t) + multiset{x}
    ensures Ascending([h] + rest) && multiset([h] + rest) == multiset([h] + t) + multiset{x}
  {
    forall i | 0 <= i < |rest| ensures h <= rest[i] {
      assert rest[i] in multiset(rest);
      if rest[i] != x {
        assert rest[i] in multiset(t);
        var j :| 0 <= j < |t| && t[j] == rest[i];
        assert ([h] + t)[0] <= ([h] + t)[j + 1];
      }
    }
  }

  ghost predicate IsSorting(r: seq<Int64>, s: seq<Int64>) {
    Ascending(r) && multiset(r) == multiset(s) && |r| == |s|
  }

  /** The ascending permutation of `s`. */
  ghost function Sorted(s: seq<Int64>): (r: seq<Int64>)
    ensures IsSorting(r, s)
  {
    assert exists r :: IsSorting(r, s) by {
      assert IsSorting(InsertionSort(s), s);
    }
    var r :| IsSorting(r, s);
    r
  }

  function InsertionSort(s: seq<Int64>): (r: seq<Int64>)
    ensures IsSorting(r, s)
  {
    if s == [] then []
    else
      assert s == [s[0]] + s[1..];
      var r := Insert(s[0], InsertionSort(s[1..]));
      SameSize(r, multiset(s));
      r
  }

  /** `sort.Ints`, and `sort.Slice` on durations. */
  method Sort(s: seq<Int64>) returns (r: seq<Int64>)
    ensures r == Sorted(s)
  {
    r := InsertionSort(s);
    AscendingUnique(r, Sorted(s));
  }

  lemma SameSize(s: seq<Int64>, m: multiset<Int64>)
    requires multiset(s) == m
    ensures |s| == |m|
  {
  }

  lemma CutOut(s: seq<Int64>, j: nat)
    requires j < |s|
    ensures multiset(s) == multiset(s[..j] + s[j + 1..]) + multiset{s[j]}
  {
    assert s == s[..j] + [s[j]] + s[j + 1..];
  }

  /** A multiset has only one ascending listing. */
  lemma {:induction false} AscendingUnique(a: seq<Int64>, b: seq<Int64>)
    requires Ascending(a) && Ascending(b) && multiset(a) == multiset(b)
    ensures a == b
  {
    SameSize(a, multiset(b));
    SameSize(b, multiset(b));
    if a != [] {
      assert a == [a[0]] + a[1..] && b == [b[0]] + b[1..];
      SameFirst(a[0], a[1..], b[0], b[1..]);
      AscendingUnique(a[1..], b[1..]);
    }
  }

  lemma SameFirst(x: Int64, s: seq<Int64>, y: Int64, t: seq<Int64>)
    requires Ascending([x] + s) && Ascending([y] + t) && multiset([x] + s) == multiset([y] + t)
    ensures x == y && multiset(s) == multiset(t)
  {
    FirstIsLeast(x, s, y);
    FirstIsLeast(y, t, x);
    assert multiset(s) == multiset([x] + s) - multiset{x};
    assert multiset(t) == multiset([y] + t) - multiset{y};
  }

  lemma FirstIsLeast(h: Int64, t: seq<Int64>, x: Int64)
    requires Ascending([h] + t) && x in multiset([h] + t)
    ensures h <= x
  {
    var s := [h] + t;
    var i :| 0 <= i < |s| && s[i] == x;
    assert s[0] <= s[i];
  }

  /** A set has only one strictly ascending listing. */
  lemma {:induction false} StrictlyAscendingUnique(a: seq<Int64>, b: seq<Int64>)
    requires StrictlyAscending(a) && StrictlyAscending(b)
    requires forall x :: x in a <==> x in b
    ensures a == b
  {
    assert (a == [] || a[0] in a) && (b == [] || b[0] in b);
    if a != [] && b != [] {
      assert a[0] in b && b[0] in a;
      assert a[0] == b[0];
      assert a == [a[0]] + a[1..] && b == [b[0]] + b[1..];
      forall x ensures x in a[1..] <==> x in b[1..] {
        if x in a[1..] { assert x in a && x != a[0]; assert x in b; }
        if x in b[1..] { assert x in b && x != b[0]; assert x in a; }
      }
      StrictlyAscendingUnique(a[1..], b[1..]);
    }
  }

  /** Inserting a new key keeps a listing strictly ascending. */
  lemma {:induction false} InsertFresh(k: Int64, s: seq<Int64>)
    requires StrictlyAscending(s) && k !in s
    ensures StrictlyAscending(Insert(k, s)) && forall x :: x in Insert(k, s) <==> x == k || x in s
  {
    if s != [] {
      assert s[0] in s && s == [s[0]] + s[1..];
      if s[0] < k {
        InsertFresh(k, s[1..]);
        var rest := Insert(k, s[1..]);
        forall i | 0 <= i < |rest| ensures s[0] < rest[i] {
          assert rest[i] in rest;
        }
      }
    }
  }

  lemma {:induction false} InsertionSortDistinct(s: seq<Int64>)
    requires forall i, j :: 0 <= i < j < |s| ==> s[i] != s[j]
    ensures StrictlyAscending(InsertionSort(s)) && forall x :: x in InsertionSort(s) <==> x in s
  {
    if s != [] {
      InsertionSortDistinct(s[1..]);
      InsertFresh(s[0], InsertionSort(s[1..]));
      assert s == [s[0]] + s[1..];
    }
  }

  /** Sorting distinct keys lists them in strictly ascending order. */
  lemma SortDistinct(s: seq<Int64>)
    requires forall i, j :: 0 <= i < j < |s| ==> s[i] != s[j]
    ensures StrictlyAscending(Sorted(s)) && forall x :: x in Sorted(s) <==> x in s
  {
    InsertionSortDistinct(s);
    AscendingUnique(InsertionSort(s), Sorted(s));
  }
}
