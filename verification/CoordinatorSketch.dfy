/** Decoding, merging and reading latency sketches (coordinator/sketch.go). */
module CoordinatorSketch {
  import opened Wrappers
  import opened Decimal
  import opened Strings
  import opened Sorting
  import opened Histograms
  import opened Buckets
  import opened SketchWire
  import opened WorkerSketch
  import opened Quantiles

  /** The quantile a histogram answers: the representative, in milliseconds, of the bucket that holds the
      sample of that rank. `None` for an empty histogram. */
  ghost function Quantile(c: Counts, q: real): Option<real>
    requires 0.0 <= q <= 1.0
  {
    if Total(c) == 0 then None
    else Some(BucketValueMicros(SortedSamples(c)[Rank(q, Total(c))]) / 1000.0)
  }

  /** What is read is the representative of the bucket that is the quantile of the samples' buckets. */
  lemma QuantileReads(c: Counts, q: real)
    requires 0.0 <= q <= 1.0
    ensures Quantile(c, q).None? <==> Total(c) == 0
    ensures Quantile(c, q).Some? ==> exists b :: ReadsBucket(c, q, b, Quantile(c, q).value)
  {
    if Total(c) > 0 {
      var s := SortedSamples(c);
      SortedQuantile(s, q);
      AscendingUnique(s, Sorted(s));
      assert ReadsBucket(c, q, s[Rank(q, Total(c))], Quantile(c, q).value);
    }
  }

  /** The value read, in milliseconds, is the representative of bucket b, which is the q-quantile of the samples. */
  ghost predicate ReadsBucket(c: Counts, q: real, b: Int64, v: real) {
    IsQuantile(SortedSamples(c), q, b) && v == BucketValueMicros(b) / 1000.0
  }

  class LatencySketch {
    var counts: Counts
    var total: nat

    ghost predicate Valid()
      reads this
    {
      total == Total(counts)
    }

    constructor ()
      ensures Valid() && counts == map[]
    {
      counts := map[];
      total := 0;
      SamplesAre(map[], multiset{});
    }

    /** `decodeLatencySketch`. */
    static method Decode(s: string) returns (r: Result<LatencySketch, DecodeError>)
      ensures r.Err? <==> Decoded(s).Err?
      ensures r.Err? ==> r.error == Decoded(s).error
      ensures r.Ok? ==> fresh(r.value) && r.value.Valid() && r.value.counts == Decoded(s).value
    {
      if !(FORMAT_PREFIX <= s) {
        return Err(UnsupportedFormat);
      }
      var body := s[|FORMAT_PREFIX|..];
      var sk := new LatencySketch();
      if body == "" {
        return Ok(sk);
      }
      var pairs := Split(body, ',');
      for i := 0 to |pairs|
        invariant DecodePairs(pairs[..i]) == Ok(sk.counts) && sk.Valid()
      {
        DecodePairsStep(pairs, i);
        var cut := Cut(pairs[i], ':');
        if cut.None? {
          return Err(MalformedBucket(pairs[i]));
        }
        var (idxStr, countStr) := cut.value;
        var idx := Atoi(idxStr);
        if idx.None? {
          return Err(MalformedIndex(idxStr));
        }
        var count := ParseUint(countStr);
        if count.None? {
          return Err(MalformedCount(countStr));
        }
        assert ParsePair(pairs[i]) == Ok((idx.value, count.value));
        TotalOfAdd(sk.counts, idx.value, count.value);
        sk.counts := Add(sk.counts, idx.value, count.value);
        sk.total := sk.total + count.value;
      }
      assert pairs[..|pairs|] == pairs;
      return Ok(sk);
    }

    /** `merge`: the other sketch may be this one. */
    method Merge(other: LatencySketch)
      requires Valid() && other.Valid()
      modifies this
      ensures Valid() && counts == Histograms.Merge(old(counts), old(other.counts))
    {
      ghost var mine := counts;
      var theirs := other.counts;
      MergeExceptEnds(mine, theirs);
      var rest := theirs.Keys;
      while rest != {}
        invariant rest <= theirs.Keys && counts == MergeExcept(mine, theirs, rest)
        decreases |rest|
        modifies `counts
      {
        var k := NextKey(rest);
        MergeExceptStep(mine, theirs, rest, k);
        counts := Add(counts, k, theirs[k]);
        rest := rest - {k};
      }
      SamplesOfMerge(mine, theirs);
      total := total + other.total;
    }

    /** `quantileMS`: the cumulative walk finds the bucket of the sample of the requested rank. */
    method QuantileMS(q: real) returns (v: Option<real>)
      requires Valid() && 0.0 <= q <= 1.0
      ensures v == Quantile(counts, q)
      ensures v.None? <==> Total(counts) == 0
      ensures v.Some? ==> exists b :: ReadsBucket(counts, q, b, v.value)
    {
      QuantileReads(counts, q);
      v := None;
      if total == 0 {
        return;
      }
      var rank := Rank(q, total);
      ghost var c := counts;
      var idxs := SortedKeyList(counts);
      var seen := 0;
      for i := 0 to |idxs|
        invariant seen == |Expand(idxs, i, c)| <= rank
      {
        WalkStep(c, i, q);
        seen := seen + counts[idxs[i]];
        if seen > rank {
          return Some(BucketValueMicros(idxs[i]) / 1000.0);
        }
      }
      // The walk always stops inside the loop: the counts add up to more than any rank.
      AllExpanded(c);
      assert false;
    }
  }

  /** The walk passes the rank at the bucket the quantile is read from, and not before. */
  lemma WalkStep(c: Counts, i: nat, q: real)
    requires 0.0 <= q <= 1.0 && Total(c) > 0 && i < |SortedKeys(c)|
    requires |Expand(SortedKeys(c), i, c)| <= Rank(q, Total(c))
    ensures SortedKeys(c)[i] in c
    ensures |Expand(SortedKeys(c), i + 1, c)| == |Expand(SortedKeys(c), i, c)| + c[SortedKeys(c)[i]]
    ensures Rank(q, Total(c)) < |Expand(SortedKeys(c), i + 1, c)| ==>
              Quantile(c, q) == Some(BucketValueMicros(SortedKeys(c)[i]) / 1000.0)
  {
    assert SortedKeys(c)[i] in SortedKeys(c);
    ExpandStep(c, i, Rank(q, Total(c)));
  }
}
