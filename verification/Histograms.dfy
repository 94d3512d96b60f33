/** Histograms as maps from bucket index to count, and the sample multiset each one stands for. */
module Histograms {
  import opened Decimal
  import opened Sorting
  import opened Wrappers

  type Counts = map<Int64, nat>

  function CountOf(c: Counts, b: Int64): nat {
    if b in c then c[b] else 0
  }

  /** The histogram of a list of bucket indexes. */
  function CountsOf(s: seq<Int64>): Counts {
    map b | b in s :: multiset(s)[b]
  }

  function Add(c: Counts, b: Int64, n: nat): Counts {
    c[b := CountOf(c, b) + n]
  }

  /** The histogram of the samples of both. */
  function Merge(a: Counts, b: Counts): Counts {
    map k | k in a.Keys + b.Keys :: CountOf(a, k) + CountOf(b, k)
  }

  /** The merge with the keys in `rest` of b still to be added. */
  ghost function MergeExcept(a: Counts, b: Counts, rest: set<Int64>): Counts {
    map k | k in a.Keys + (b.Keys - rest) :: CountOf(a, k) + if k in rest then 0 else CountOf(b, k)
  }

  lemma MergeExceptStep(a: Counts, b: Counts, rest: set<Int64>, k: Int64)
    requires k in b && k in rest
    ensures MergeExcept(a, b, rest - {k}) == Add(MergeExcept(a, b, rest), k, b[k])
  {
  }

  lemma MergeExceptEnds(a: Counts, b: Counts)
    ensures MergeExcept(a, b, b.Keys) == a && MergeExcept(a, b, {}) == Merge(a, b)
  {
  }

  function MergeAll(cs: seq<Counts>): Counts {
    if cs == [] then map[] else Merge(MergeAll(cs[..|cs| - 1]), cs[|cs| - 1])
  }

  /** `ks` lists the set in ascending order, each element once. */
  ghost predicate Lists(ks: seq<Int64>, s: set<Int64>) {
    StrictlyAscending(ks) && forall k :: k in ks <==> k in s
  }

  lemma {:induction false} ListingExists(s: set<Int64>) returns (ks: seq<Int64>)
    ensures Lists(ks, s)
    decreases |s|
  {
    ks := [];
    if s != {} {
      var k := Choose(s);
      var rest := ListingExists(s - {k});
      InsertFresh(k, rest);
      ks := Insert(k, rest);
    }
  }

  /** The ascending list of a histogram's bucket indexes. */
  ghost function SortedKeys(c: Counts): (ks: seq<Int64>)
    ensures Lists(ks, c.Keys)
  {
    assert exists ks :: Lists(ks, c.Keys) by { var ks := ListingExists(c.Keys); }
    var ks :| Lists(ks, c.Keys);
    ks
  }

  ghost function Repeat(b: Int64, n: nat): (s: seq<Int64>)
    ensures |s| == n && multiset(s) == multiset{}[b := n]
    ensures forall i :: 0 <= i < n ==> s[i] == b
  {
    if n == 0 then [] else Repeat(b, n - 1) + [b]
  }

  /** The first n listed bucket indexes, each as often as it is counted, in list order. */
  ghost function Expand(ks: seq<Int64>, n: nat, c: Counts): seq<Int64>
    requires n <= |ks|
  {
    if n == 0 then [] else Expand(ks, n - 1, c) + Repeat(ks[n - 1], CountOf(c, ks[n - 1]))
  }

  /** The listing holds a bucket index as often as it is counted, or not at all. */
  lemma {:induction false} ExpandCount(ks: seq<Int64>, n: nat, c: Counts, i: nat)
    requires StrictlyAscending(ks) && i < n <= |ks|
    ensures multiset(Expand(ks, n, c))[ks[i]] == CountOf(c, ks[i])
  {
    if i < n - 1 {
      ExpandCount(ks, n - 1, c, i);
    } else {
      ExpandAbsent(ks, n - 1, c, ks[i]);
    }
  }

  lemma {:induction false} ExpandAbsent(ks: seq<Int64>, n: nat, c: Counts, b: Int64)
    requires n <= |ks| && forall i :: 0 <= i < n ==> ks[i] != b
    ensures multiset(Expand(ks, n, c))[b] == 0
  {
    if n > 0 {
      ExpandAbsent(ks, n - 1, c, b);
    }
  }

  lemma AscendingThen(s: seq<Int64>, x: Int64, n: nat)
    requires Ascending(s) && forall r :: 0 <= r < |s| ==> s[r] <= x
    ensures Ascending(s + Repeat(x, n)) && forall r :: 0 <= r < |s + Repeat(x, n)| ==> (s + Repeat(x, n))[r] <= x
  {
  }

  lemma {:induction false} ExpandAscending(ks: seq<Int64>, n: nat, c: Counts)
    requires StrictlyAscending(ks) && n <= |ks|
    ensures Ascending(Expand(ks, n, c))
    ensures forall r :: 0 <= r < |Expand(ks, n, c)| ==> n > 0 && Expand(ks, n, c)[r] <= ks[n - 1]
  {
    if n > 0 {
      ExpandAscending(ks, n - 1, c);
      assert n > 1 ==> ks[n - 2] < ks[n - 1];
      AscendingThen(Expand(ks, n - 1, c), ks[n - 1], CountOf(c, ks[n - 1]));
    }
  }

  lemma {:induction false} ExpandPrefix(ks: seq<Int64>, i: nat, n: nat, c: Counts)
    requires i <= n <= |ks|
    ensures Expand(ks, i, c) <= Expand(ks, n, c)
  {
    if i < n {
      ExpandPrefix(ks, i, n - 1, c);
    }
  }

  ghost predicate IsSampleListing(s: seq<Int64>, c: Counts) {
    Ascending(s) && forall b :: multiset(s)[b] == CountOf(c, b)
  }

  lemma ExpandIsSampleListing(c: Counts)
    ensures IsSampleListing(Expand(SortedKeys(c), |SortedKeys(c)|, c), c)
  {
    var ks := SortedKeys(c);
    ExpandAscending(ks, |ks|, c);
    forall b: Int64 ensures multiset(Expand(ks, |ks|, c))[b] == CountOf(c, b) {
      assert b in ks <==> b in c.Keys;
      if b in ks {
        var i :| 0 <= i < |ks| && ks[i] == b;
        ExpandCount(ks, |ks|, c, i);
      } else {
        ExpandAbsent(ks, |ks|, c, b);
      }
    }
  }

  /** The samples a histogram counts, as bucket indexes in ascending order. */
  ghost function SortedSamples(c: Counts): (s: seq<Int64>)
    ensures IsSampleListing(s, c)
  {
    assert exists s :: IsSampleListing(s, c) by { ExpandIsSampleListing(c); }
    var s :| IsSampleListing(s, c);
    s
  }

  ghost function Total(c: Counts): nat {
    |SortedSamples(c)|
  }

  /** A histogram has as many samples as any multiset with the same multiplicities. */
  lemma SamplesAre(c: Counts, m: multiset<Int64>)
    requires forall b :: m[b] == CountOf(c, b)
    ensures multiset(SortedSamples(c)) == m && Total(c) == |m|
  {
    assert multiset(SortedSamples(c)) == m;
    SameSize(SortedSamples(c), m);
  }

  /** Bucket i holds the samples of the ranks from the count of all lower buckets up. */
  lemma ExpandStep(c: Counts, i: nat, r: nat)
    requires i < |SortedKeys(c)|
    requires |Expand(SortedKeys(c), i, c)| <= r < Total(c)
    ensures |Expand(SortedKeys(c), i + 1, c)| == |Expand(SortedKeys(c), i, c)| + c[SortedKeys(c)[i]]
    ensures r < |Expand(SortedKeys(c), i + 1, c)| ==> SortedSamples(c)[r] == SortedKeys(c)[i]
  {
    var ks := SortedKeys(c);
    assert ks[i] in ks;
    ExpandPrefix(ks, i + 1, |ks|, c);
    ExpandIsSampleListing(c);
    SameListing(Expand(ks, |ks|, c), SortedSamples(c), c);
  }

  lemma AllExpanded(c: Counts)
    ensures |Expand(SortedKeys(c), |SortedKeys(c)|, c)| == Total(c)
  {
    ExpandIsSampleListing(c);
    SameListing(Expand(SortedKeys(c), |SortedKeys(c)|, c), SortedSamples(c), c);
  }

  lemma SameListing(s: seq<Int64>, t: seq<Int64>, c: Counts)
    requires IsSampleListing(s, c) && IsSampleListing(t, c)
    ensures s == t
  {
    assert multiset(s) == multiset(t);
    AscendingUnique(s, t);
  }

  /** Sorting the samples is sorting the list they were counted from. */
  lemma SamplesOfCountsOf(s: seq<Int64>)
    ensures multiset(SortedSamples(CountsOf(s))) == multiset(s) && Total(CountsOf(s)) == |s|
    ensures SortedSamples(CountsOf(s)) == Sorted(s)
  {
    SamplesAre(CountsOf(s), multiset(s));
    AscendingUnique(SortedSamples(CountsOf(s)), Sorted(s));
  }

  lemma TotalOfAdd(c: Counts, b: Int64, n: nat)
    ensures Total(Add(c, b, n)) == Total(c) + n
  {
    SamplesAre(Add(c, b, n), multiset(SortedSamples(c)) + multiset{}[b := n]);
  }

  /** A merge counts the samples of both histograms. */
  lemma SamplesOfMerge(a: Counts, b: Counts)
    ensures multiset(SortedSamples(Merge(a, b))) == multiset(SortedSamples(a)) + multiset(SortedSamples(b))
    ensures Total(Merge(a, b)) == Total(a) + Total(b)
  {
    SamplesAre(Merge(a, b), multiset(SortedSamples(a)) + multiset(SortedSamples(b)));
  }

  /** Counting a concatenation is merging the counts. */
  lemma MergeIsHomomorphism(s: seq<Int64>, t: seq<Int64>)
    ensures CountsOf(s + t) == Merge(CountsOf(s), CountsOf(t))
  {
    assert multiset(s + t) == multiset(s) + multiset(t);
  }

  lemma MergeAllSnoc(cs: seq<Counts>, c: Counts)
    ensures MergeAll(cs + [c]) == Merge(MergeAll(cs), c)
  {
    assert (cs + [c])[..|cs|] == cs;
  }

  lemma MergeSwap(a: Counts, b: Counts, c: Counts)
    ensures Merge(Merge(a, b), c) == Merge(Merge(a, c), b)
  {
    var x, y := Merge(Merge(a, b), c), Merge(Merge(a, c), b);
    assert x.Keys == y.Keys == a.Keys + b.Keys + c.Keys;
    forall k | k in x ensures x[k] == y[k] {
      assert x[k] == CountOf(a, k) + CountOf(b, k) + CountOf(c, k);
    }
  }

  /** A histogram merged in anywhere can be merged in last. */
  lemma {:induction false} MergeAllRemove(cs: seq<Counts>, i: nat)
    requires i < |cs|
    ensures MergeAll(cs) == Merge(MergeAll(cs[..i] + cs[i + 1..]), cs[i])
  {
    var n := |cs| - 1;
    var without, front := cs[..i] + cs[i + 1..], cs[..n];
    if i == n {
      assert without == front;
    } else {
      var fewer := front[..i] + front[i + 1..];
      MergeAllRemove(front, i);
      assert without == fewer + [cs[n]];
      MergeAllSnoc(fewer, cs[n]);
      MergeSwap(MergeAll(fewer), cs[i], cs[n]);
    }
  }

  /** The order in which sketches are merged does not matter. */
  lemma {:induction false} MergeAllOrderFree(xs: seq<Counts>, ys: seq<Counts>)
    requires multiset(xs) == multiset(ys)
    ensures MergeAll(xs) == MergeAll(ys)
  {
    assert |multiset(xs)| == |multiset(ys)|;
    if xs != [] {
      var n := |xs| - 1;
      assert xs[n] in multiset(xs);
      var j :| 0 <= j < |ys| && ys[j] == xs[n];
      var xs', ys' := xs[..n], ys[..j] + ys[j + 1..];
      assert xs == xs' + [xs[n]];
      RemoveSketch(ys, j, ys');
      MergeAllOrderFree(xs', ys');
      MergeAllRemove(ys, j);
    }
  }

  lemma RemoveSketch(cs: seq<Counts>, j: nat, fewer: seq<Counts>)
    requires j < |cs| && fewer == cs[..j] + cs[j + 1..]
    ensures multiset(fewer) == multiset(cs) - multiset{cs[j]}
  {
    assert cs == cs[..j] + [cs[j]] + cs[j + 1..];
  }
}
