/** Which sample of a list a quantile is: the rank convention that the worker (worker/metrics.go) and the coordinator
    (coordinator/sketch.go) share, and what it means for the list. */
module Quantiles {
  import opened Decimal
  import opened Sorting
  import opened Counting

  lemma Scale(a: real, b: real, t: real)
    requires a <= b && 0.0 <= t
    ensures a * t <= b * t
  {
  }

  lemma ScaleStrictly(a: real, b: real, t: real)
    requires a < b && 0.0 < t
    ensures a * t < b * t
  {
  }

  /** The index of the q-quantile among n sorted samples: uint64(q * float64(n-1)). */
  function Rank(q: real, n: nat): (r: nat)
    requires 0.0 <= q <= 1.0 && n > 0
    ensures r < n
  {
    Scale(q, 1.0, (n - 1) as real);
    Scale(0.0, q, (n - 1) as real);
    var x := q * (n - 1) as real;
    assert 0.0 <= x <= (n - 1) as real;
    x.Floor
  }

  /** How many samples are below x, and how many at most x. */
  ghost function Below(s: seq<Int64>, x: Int64): nat {
    |set i: nat | i < |s| && s[i] < x|
  }

  ghost function AtMost(s: seq<Int64>, x: Int64): nat {
    |set i: nat | i < |s| && s[i] <= x|
  }

  /** x is a sample, at most q * (n-1) of the n samples, rounded down, are below it, and more than that are at most x.
      Of any list there is one such x, whatever order it is in (`OneQuantile`). */
  ghost predicate IsQuantile(s: seq<Int64>, q: real, x: Int64) {
    && x in s
    && Below(s, x) <= (q * (|s| - 1) as real).Floor < AtMost(s, x)
  }

  ghost function BelowFlags(s: seq<Int64>, x: Int64): (f: seq<bool>)
    ensures |f| == |s| && forall i :: 0 <= i < |s| ==> f[i] == (s[i] < x)
  {
    seq(|s|, i requires 0 <= i < |s| => s[i] < x)
  }

  ghost function AtMostFlags(s: seq<Int64>, x: Int64): (f: seq<bool>)
    ensures |f| == |s| && forall i :: 0 <= i < |s| ==> f[i] == (s[i] <= x)
  {
    seq(|s|, i requires 0 <= i < |s| => s[i] <= x)
  }

  lemma CountsAre(s: seq<Int64>, x: Int64)
    ensures Below(s, x) == Count(BelowFlags(s, x)) && AtMost(s, x) == Count(AtMostFlags(s, x))
  {
    CountIsSize(BelowFlags(s, x));
    CountIsSize(AtMostFlags(s, x));
    assert Positions(BelowFlags(s, x)) == set i: nat | i < |s| && s[i] < x;
    assert Positions(AtMostFlags(s, x)) == set i: nat | i < |s| && s[i] <= x;
  }

  lemma CountsWithout(s: seq<Int64>, j: nat, x: Int64, rest: seq<Int64>)
    requires j < |s| && rest == s[..j] + s[j + 1..]
    ensures Count(BelowFlags(s, x)) == Count(BelowFlags(rest, x)) + if s[j] < x then 1 else 0
    ensures Count(AtMostFlags(s, x)) == Count(AtMostFlags(rest, x)) + if s[j] <= x then 1 else 0
  {
    var below, atMost := BelowFlags(s, x), AtMostFlags(s, x);
    CountWithout(below, j);
    CountWithout(atMost, j);
    assert BelowFlags(rest, x) == below[..j] + below[j + 1..];
    assert AtMostFlags(rest, x) == atMost[..j] + atMost[j + 1..];
  }

  lemma SameRest(a: seq<Int64>, b: seq<Int64>, j: nat)
    requires multiset(a) == multiset(b) && a != [] && j < |b| && b[j] == a[0]
    ensures multiset(a[..0] + a[1..]) == multiset(b[..j] + b[j + 1..])
  {
    CutOut(a, 0);
    CutOut(b, j);
    assert multiset(a[..0] + a[1..]) == multiset(a) - multiset{a[0]};
    assert multiset(b[..j] + b[j + 1..]) == multiset(b) - multiset{b[j]};
  }

  lemma {:induction false} CountsPermute(a: seq<Int64>, b: seq<Int64>, x: Int64)
    requires multiset(a) == multiset(b)
    ensures Count(BelowFlags(a, x)) == Count(BelowFlags(b, x)) && Count(AtMostFlags(a, x)) == Count(AtMostFlags(b, x))
  {
    SameSize(a, multiset(b));
    SameSize(b, multiset(b));
    if a == [] {
      assert b == [];
    } else {
      assert a[0] in multiset(a);
      var j :| 0 <= j < |b| && b[j] == a[0];
      var a', b' := a[..0] + a[1..], b[..j] + b[j + 1..];
      SameRest(a, b, j);
      CountsPermute(a', b', x);
      CountsWithout(a, 0, x, a');
      CountsWithout(b, j, x, b');
    }
  }

  /** In an ascending list the sample of index k has at most k samples below it, and more than k at most it. */
  lemma AscendingCounts(s: seq<Int64>, k: nat)
    requires Ascending(s) && k < |s|
    ensures Below(s, s[k]) <= k < AtMost(s, s[k])
  {
    var below, atMost := set i: nat | i < |s| && s[i] < s[k], set i: nat | i < |s| && s[i] <= s[k];
    SubsetSize(below, Initial(k));
    SubsetSize(Initial(k + 1), atMost);
  }

  /** The sample of the rank in the sorted list is the quantile of the list. */
  lemma SortedQuantile(s: seq<Int64>, q: real)
    requires s != [] && 0.0 <= q <= 1.0
    ensures IsQuantile(s, q, Sorted(s)[Rank(q, |s|)])
  {
    var sorted, k := Sorted(s), Rank(q, |s|);
    var x := sorted[k];
    assert x in multiset(sorted);
    AscendingCounts(sorted, k);
    CountsAre(s, x);
    CountsAre(sorted, x);
    CountsPermute(s, sorted, x);
  }

  lemma FewerBelow(s: seq<Int64>, x: Int64, y: Int64)
    requires x < y
    ensures AtMost(s, x) <= Below(s, y)
  {
    SubsetSize(set i: nat | i < |s| && s[i] <= x, set i: nat | i < |s| && s[i] < y);
  }

  /** A list has one q-quantile. */
  lemma OneQuantile(s: seq<Int64>, q: real, x: Int64, y: Int64)
    requires IsQuantile(s, q, x) && IsQuantile(s, q, y)
    ensures x == y
  {
    if x < y {
      FewerBelow(s, x, y);
    } else if y < x {
      FewerBelow(s, y, x);
    }
  }

  /** The least sample is the 0-quantile, and the greatest the 1-quantile. */
  lemma QuantileEnds(s: seq<Int64>, x: Int64)
    ensures IsQuantile(s, 0.0, x) <==> x in s && forall y :: y in s ==> x <= y
    ensures IsQuantile(s, 1.0, x) <==> x in s && forall y :: y in s ==> y <= x
  {
    if x in s {
      var k :| 0 <= k < |s| && s[k] == x;
      var below, atMost := set i: nat | i < |s| && s[i] < x, set i: nat | i < |s| && s[i] <= x;
      assert 0.0 * (|s| - 1) as real == 0.0 && (1.0 * (|s| - 1) as real).Floor == |s| - 1;
      assert k in atMost;
      LeastOf(s, x);
      GreatestOf(s, x);
    }
  }

  lemma LeastOf(s: seq<Int64>, x: Int64)
    requires x in s
    ensures Below(s, x) == 0 <==> forall y :: y in s ==> x <= y
    ensures AtMost(s, x) > 0
  {
    var below, atMost := set i: nat | i < |s| && s[i] < x, set i: nat | i < |s| && s[i] <= x;
    var k: nat :| k < |s| && s[k] == x;
    assert k in atMost;
    if below == {} {
      forall y | y in s ensures x <= y {
        var i: nat :| i < |s| && s[i] == y;
        assert i !in below;
      }
    } else {
      var i :| i in below;
      assert s[i] in s;
    }
  }

  lemma GreatestOf(s: seq<Int64>, x: Int64)
    requires x in s
    ensures AtMost(s, x) > |s| - 1 <==> forall y :: y in s ==> y <= x
    ensures Below(s, x) <= |s| - 1
  {
    var all := Initial(|s|);
    var below, atMost := set i: nat | i < |s| && s[i] < x, set i: nat | i < |s| && s[i] <= x;
    var k: nat :| k < |s| && s[k] == x;
    SubsetSize(below, all - {k});
    SubsetSize(atMost, all);
    if forall y :: y in s ==> y <= x {
      forall i: nat | i < |s| ensures i in atMost {
        assert s[i] in s;
      }
      assert atMost == all;
    } else {
      var y :| y in s && y > x;
      var i: nat :| i < |s| && s[i] == y;
      SubsetSize(atMost, all - {i});
    }
  }

  /** The median of three is the middle one. */
  lemma MedianOfThree(s: seq<Int64>, a: Int64, b: Int64, c: Int64, x: Int64)
    requires a <= b <= c && multiset(s) == multiset{a, b, c} && IsQuantile(s, 0.50, x)
    ensures x == b
  {
    var sorted := [a, b, c];
    assert multiset(sorted) == multiset{a, b, c};
    SameSize(s, multiset(sorted));
    CountsPermute(s, sorted, b);
    CountsAre(s, b);
    CountsAre(sorted, b);
    AscendingCounts(sorted, 1);
    assert sorted[1] == b && b in multiset(s);
    assert (0.50 * (|s| - 1) as real).Floor == 1;
    OneQuantile(s, 0.50, x, b);
  }
}
