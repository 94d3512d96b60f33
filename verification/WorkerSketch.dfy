/** Building and printing a latency sketch (worker/sketch.go). */
module WorkerSketch {
  import opened Wrappers
  import opened Decimal
  import opened Strings
  import opened Sorting
  import opened Histograms
  import opened Buckets
  import opened SketchWire

  /** The keys of a histogram map, collected in any order and then sorted. */
  method SortedKeyList(c: Counts) returns (keys: seq<Int64>)
    ensures keys == SortedKeys(c)
  {
    keys := [];
    var rest := c.Keys;
    while rest != {}
      invariant rest <= c.Keys
      invariant forall k :: k in keys <==> k in c.Keys - rest
      invariant forall i, j :: 0 <= i < j < |keys| ==> keys[i] != keys[j]
      decreases |rest|
    {
      var k := NextKey(rest);
      assert k !in keys;
      keys := keys + [k];
      rest := rest - {k};
    }
    SortDistinct(keys);
    keys := Sort(keys);
    StrictlyAscendingUnique(keys, SortedKeys(c));
  }

  /** The first loop of `encodeLatencySketch`. */
  method CountBuckets(latencies: seq<Duration>) returns (counts: Counts)
    ensures counts == CountsOf(BucketsOf(latencies))
  {
    ghost var buckets := BucketsOf(latencies);
    counts := map[];
    for i := 0 to |latencies|
      invariant counts == CountsOf(buckets[..i])
    {
      CountsOfNext(buckets, i);
      counts := Add(counts, Bucket(latencies[i]), 1);
    }
    assert buckets[..|latencies|] == buckets;
  }

  /** The printing loop of `encodeLatencySketch`. */
  method Print(keys: seq<Int64>, counts: Counts) returns (text: string)
    requires forall k :: k in keys ==> k in counts
    ensures text == FORMAT_PREFIX + Join(PairTexts(keys, counts), ',')
  {
    text := FORMAT_PREFIX;
    ghost var pairs := PairTexts(keys, counts);
    for i := 0 to |keys|
      invariant text == FORMAT_PREFIX + Join(pairs[..i], ',')
    {
      AppendPair(FORMAT_PREFIX, pairs, i, Itoa(keys[i]), Itoa(counts[keys[i]]));
      if i > 0 {
        text := text + ",";
      }
      text := text + Itoa(keys[i]);
      text := text + ":";
      text := text + Itoa(counts[keys[i]]);
    }
    assert pairs[..|keys|] == pairs;
  }

  /** `encodeLatencySketch`. */
  method EncodeLatencySketch(latencies: seq<Duration>) returns (text: string)
    ensures text == Encoded(latencies)
  {
    var counts := CountBuckets(latencies);
    var keys := SortedKeyList(counts);
    text := Print(keys, counts);
  }

  lemma CountsOfNext(s: seq<Int64>, i: nat)
    requires i < |s|
    ensures CountsOf(s[..i + 1]) == Add(CountsOf(s[..i]), s[i], 1)
  {
    assert s[..i + 1] == s[..i] + [s[i]];
  }

  lemma AppendPair(prefix: string, ps: seq<string>, i: nat, b: string, n: string)
    requires i < |ps| && ps[i] == b + ":" + n
    ensures var text := prefix + Join(ps[..i], ',');
            prefix + Join(ps[..i + 1], ',') == (if i > 0 then text + "," else text) + b + ":" + n
  {
    assert ps[..i + 1][..i] == ps[..i];
  }
}
