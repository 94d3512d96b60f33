/** What the sketches are for: a test-wide percentile within 1% of the percentile of all requests together. */
module SketchAccuracy {
  import opened Wrappers
  import opened Decimal
  import opened Sorting
  import opened Histograms
  import opened Buckets
  import opened SketchWire
  import opened CoordinatorSketch
  import opened Quantiles

  /** Every request of every worker, in one list. */
  function Concat(workers: seq<seq<Duration>>): seq<Duration> {
    if workers == [] then [] else Concat(workers[..|workers| - 1]) + workers[|workers| - 1]
  }

  /** The sketches the coordinator decodes, one per worker. */
  ghost function Sketches(workers: seq<seq<Duration>>): seq<Counts> {
    seq(|workers|, i requires 0 <= i < |workers| => CountsOf(BucketsOf(workers[i])))
  }

  /** Merging the sketches of all workers gives the sketch of all requests together. */
  lemma {:induction false} MergedSketchIsSketchOfAll(workers: seq<seq<Duration>>)
    ensures MergeAll(Sketches(workers)) == CountsOf(BucketsOf(Concat(workers)))
  {
    if workers != [] {
      var front, last := workers[..|workers| - 1], workers[|workers| - 1];
      MergedSketchIsSketchOfAll(front);
      assert Sketches(workers) == Sketches(front) + [CountsOf(BucketsOf(last))];
      MergeAllSnoc(Sketches(front), CountsOf(BucketsOf(last)));
      BucketsOfConcat(Concat(front), last);
      MergeIsHomomorphism(BucketsOf(Concat(front)), BucketsOf(last));
    }
  }

  lemma BucketsOfConcat(s: seq<Duration>, t: seq<Duration>)
    ensures BucketsOf(s + t) == BucketsOf(s) + BucketsOf(t)
  {
  }

  /** Bucketing is monotone, so it commutes with sorting. */
  lemma SortedBuckets(latencies: seq<Duration>)
    ensures BucketsOf(Sorted(latencies)) == Sorted(BucketsOf(latencies))
  {
    var sorted := Sorted(latencies);
    forall i, j | 0 <= i < j < |sorted| ensures BucketsOf(sorted)[i] <= BucketsOf(sorted)[j] {
      BucketMonotone(sorted[i], sorted[j]);
    }
    BucketsPermute(sorted, latencies);
    AscendingUnique(BucketsOf(sorted), Sorted(BucketsOf(latencies)));
  }

  lemma {:induction false} BucketsPermute(a: seq<Duration>, b: seq<Duration>)
    requires multiset(a) == multiset(b)
    ensures multiset(BucketsOf(a)) == multiset(BucketsOf(b))
  {
    SameSize(a, multiset(b));
    SameSize(b, multiset(b));
    if a != [] {
      assert a[0] in multiset(a);
      var j :| 0 <= j < |b| && b[j] == a[0];
      var a', b' := a[..0] + a[1..], b[..j] + b[j + 1..];
      RemoveOne(a, 0, a');
      RemoveOne(b, j, b');
      BucketsPermute(a', b');
    }
  }

  lemma RemoveOne(s: seq<Duration>, j: nat, t: seq<Duration>)
    requires j < |s| && t == s[..j] + s[j + 1..]
    ensures multiset(t) == multiset(s) - multiset{s[j]}
    ensures multiset(BucketsOf(s)) == multiset(BucketsOf(t)) + multiset{Bucket(s[j])}
  {
    var bs := BucketsOf(s);
    assert BucketsOf(t) == bs[..j] + bs[j + 1..];
    CutOut(s, j);
    CutOut(bs, j);
  }

  /** The exact q-quantile, in the convention the worker uses for its own percentiles. */
  ghost function ExactQuantile(latencies: seq<Duration>, q: real): (x: Duration)
    requires 0.0 <= q <= 1.0 && latencies != []
    ensures IsQuantile(latencies, q, x)
  {
    SortedQuantile(latencies, q);
    Sorted(latencies)[Rank(q, |latencies|)]
  }

  /** A quantile read off a sketch is the representative of the bucket of the exact quantile. */
  lemma QuantileOfSketch(latencies: seq<Duration>, q: real)
    requires 0.0 <= q <= 1.0 && latencies != []
    ensures Quantile(CountsOf(BucketsOf(latencies)), q)
            == Some(BucketValueMicros(Bucket(ExactQuantile(latencies, q))) / 1000.0)
  {
    SamplesOfCountsOf(BucketsOf(latencies));
    SortedBuckets(latencies);
  }

  lemma DecodedSketches(workers: seq<seq<Duration>>, sketches: seq<Counts>)
    requires |sketches| == |workers|
    requires forall i :: 0 <= i < |workers| ==> |workers[i]| <= INT64_MAX
    requires forall i :: 0 <= i < |workers| ==> Decoded(Encoded(workers[i])) == Ok(sketches[i])
    ensures sketches == Sketches(workers)
  {
    forall i | 0 <= i < |workers| ensures sketches[i] == Sketches(workers)[i] {
      RoundTrip(workers[i]);
    }
  }

  /** How a quantile read off a sketch, in milliseconds, stands to the exact one: within 1% of it if and only if that
      is at least 991ns, and 1us if it is at most that. */
  ghost predicate ReadsFor(readMS: real, exact: Duration) {
    && (WithinOnePercent(readMS * 1000.0, Micros(exact)) <==> exact >= 991)
    && (exact <= 1000 ==> readMS * 1000.0 == 1.0)
  }

  lemma QuantileAccuracy(latencies: seq<Duration>, q: real)
    requires 0.0 <= q <= 1.0 && latencies != []
    ensures var exact := ExactQuantile(latencies, q);
            var read := Quantile(CountsOf(BucketsOf(latencies)), q);
            read.Some? && ReadsFor(read.value, exact)
  {
    QuantileOfSketch(latencies, q);
    var exact := ExactQuantile(latencies, q);
    BucketAccuracy(exact);
    assert Quantile(CountsOf(BucketsOf(latencies)), q).value * 1000.0 == BucketValueMicros(Bucket(exact));
  }

  /** End to end. Each worker encodes its latencies, the coordinator decodes and merges the texts, and reads
      off any quantile: the answer is within 1% of the exact quantile of all requests together if and only if
      that exact quantile is at least 991ns. At or below 1us the answer is 1us. */
  lemma TestWidePercentile(workers: seq<seq<Duration>>, sketches: seq<Counts>, q: real)
    requires 0.0 <= q <= 1.0 && Concat(workers) != []
    requires |sketches| == |workers|
    requires forall i :: 0 <= i < |workers| ==> |workers[i]| <= INT64_MAX
    requires forall i :: 0 <= i < |workers| ==> Decoded(Encoded(workers[i])) == Ok(sketches[i])
    ensures var exact := ExactQuantile(Concat(workers), q);
            var read := Quantile(MergeAll(sketches), q);
            && IsQuantile(Concat(workers), q, exact)
            && read.Some? && ReadsFor(read.value, exact)
  {
    DecodedSketches(workers, sketches);
    MergedSketchIsSketchOfAll(workers);
    QuantileAccuracy(Concat(workers), q);
  }

  lemma QuantilePositive(c: Counts, q: real)
    requires 0.0 <= q <= 1.0 && Total(c) > 0
    ensures Quantile(c, q).Some? && Quantile(c, q).value > 0.0
  {
    var b := SortedSamples(c)[Rank(q, Total(c))];
    BucketValueMonotone(b, b);
  }

  /** Larger quantiles never read lower. */
  lemma QuantileMonotone(c: Counts, p: real, q: real)
    requires 0.0 <= p <= q <= 1.0 && Total(c) > 0
    ensures 0.0 < Quantile(c, p).value <= Quantile(c, q).value
  {
    var n := Total(c);
    RankMonotone(p, q, n);
    var s := SortedSamples(c);
    var i, j := Rank(p, n), Rank(q, n);
    assert s[i] <= s[j];
    BucketValueMonotone(s[i], s[j]);
  }

  lemma RankMonotone(p: real, q: real, n: nat)
    requires 0.0 <= p <= q <= 1.0 && n > 0
    ensures Rank(p, n) <= Rank(q, n)
  {
    Scale(p, q, (n - 1) as real);
    FloorMonotone(p * (n - 1) as real, q * (n - 1) as real);
  }

  /** `math.Round(v*10) / 10` for the non-negative values it is used on. */
  function RoundTenths(v: real): real
    requires v >= 0.0
  {
    (v * 10.0 + 0.5).Floor as real / 10.0
  }

  /** What is rounded is a whole number of tenths, at most half a tenth away, and the higher one if it lies half way
      between two. */
  lemma RoundsToTenths(v: real) returns (n: nat)
    requires v >= 0.0
    ensures RoundTenths(v) == n as real / 10.0
    ensures n as real / 10.0 - 0.05 <= v < n as real / 10.0 + 0.05
  {
    FloorMonotone(v * 10.0 + 0.5, v * 10.0 + 0.5);
    n := (v * 10.0 + 0.5).Floor;
  }

  /** Rounding moves a percentile by at most 0.05ms and keeps the order of percentiles. */
  lemma RoundingError(v: real, w: real)
    requires 0.0 <= v <= w
    ensures v - 0.05 <= RoundTenths(v) <= v + 0.05
    ensures RoundTenths(v) <= RoundTenths(w)
  {
    FloorMonotone(v * 10.0 + 0.5, w * 10.0 + 0.5);
  }

  lemma FloorMonotone(x: real, y: real)
    requires x <= y
    ensures x.Floor <= y.Floor && x.Floor as real <= x < x.Floor as real + 1.0
  {
  }

  /** What a snapshot reports: the quantile of the merged sketch, rounded to a tenth of a millisecond. */
  ghost function ReportedMS(c: Counts, q: real): Option<real>
    requires 0.0 <= q <= 1.0
  {
    if Total(c) == 0 then None
    else
      QuantilePositive(c, q);
      Some(RoundTenths(Quantile(c, q).value))
  }

  lemma ReportedOrder(c: Counts, p: real, q: real)
    requires 0.0 <= p <= q <= 1.0 && Total(c) > 0
    ensures ReportedMS(c, p).value <= ReportedMS(c, q).value
  {
    QuantileMonotone(c, p, q);
    RoundingError(Quantile(c, p).value, Quantile(c, q).value);
  }

  /** Within 1% and 0.05ms of a latency. */
  ghost predicate WithinReported(reportedMS: real, exact: Duration) {
    0.99 * (Micros(exact) / 1000.0) - 0.05 <= reportedMS <= 1.01 * (Micros(exact) / 1000.0) + 0.05
  }

  /** How far rounding moves the value a bucket stands for, in microseconds. */
  function Shift(k: nat): real {
    BucketValueMonotone(0, k);
    RoundTenths(BucketValueMicros(k) / 1000.0) * 1000.0 - BucketValueMicros(k)
  }

  /** Rounding moves the value of the latency's bucket by no more than the bucket leaves on that side: downwards 99%
      of the distance to its upper end, upwards 101% of the distance to its lower end. The first bucket is reported
      as 0.0. */
  predicate SurvivesRounding(exact: Duration) {
    if exact <= 1000 then exact == 0
    else
      var k := Bucket(exact);
      -0.99 * (GammaPow(k) - Micros(exact)) <= Shift(k) <= 1.01 * (Micros(exact) - GammaPow(k - 1))
  }

  /** So many tenths of a millisecond are within 1% of the latency. */
  ghost predicate IsNear(tenths: int, exact: Duration) {
    WithinOnePercent(tenths as real * 100.0, Micros(exact))
  }

  /** All that is within 1% of the latency rounds to so many tenths of a millisecond, which are within 1% of it too. */
  ghost predicate IsClear(tenths: int, exact: Duration) {
    && IsNear(tenths, exact)
    && tenths as real * 100.0 - 50.0 <= 0.99 * Micros(exact) && 1.01 * Micros(exact) < tenths as real * 100.0 + 50.0
  }

  /** How a reported value stands to the exact latency: it is always within 1% and 0.05ms of it, and 0.0 up to 49us.
      It is within 1% alone if and only if the latency survives the rounding; in particular if some number of tenths
      of a millisecond is clear for it, and only if one is near it. */
  ghost predicate StandsFor(reportedMS: real, exact: Duration) {
    && (exact >= 0 ==> WithinReported(reportedMS, exact))
    && (exact <= 49000 ==> reportedMS == 0.0)
    && (WithinOnePercent(reportedMS * 1000.0, Micros(exact)) <==> SurvivesRounding(exact))
    && (exact <= 49000 && exact != 0 ==> !SurvivesRounding(exact))
    && (forall n :: IsClear(n, exact) ==> SurvivesRounding(exact))
    && (SurvivesRounding(exact) ==> exists n :: IsNear(n, exact))
  }

  lemma RoundingExact(exact: Duration)
    ensures var value := BucketValueMicros(Bucket(exact)) / 1000.0;
            && value >= 0.0
            && (WithinOnePercent(RoundTenths(value) * 1000.0, Micros(exact)) <==> SurvivesRounding(exact))
  {
    var k: nat := Bucket(exact);
    BucketAccuracy(exact);
    BucketValueMonotone(0, k);
    if exact > 1000 {
      GammaStep(k - 1);
      assert BucketValueMicros(k) == 0.99 * GammaPow(k) == 1.01 * GammaPow(k - 1);
    } else {
      FloorMonotone(0.51, 0.51);
    }
  }

  /** A value within 1% of the latency rounds to the tenths that are clear for it. */
  lemma ClearRounds(tenths: int, exact: Duration)
    requires IsClear(tenths, exact)
    ensures SurvivesRounding(exact)
  {
    var value := BucketValueMicros(Bucket(exact)) / 1000.0;
    BucketAccuracy(exact);
    RoundingExact(exact);
    if exact > 1000 {
      var x := value * 10.0 + 0.5;
      assert tenths as real <= x < tenths as real + 1.0;
      assert x.Floor == tenths;
    } else {
      assert tenths == 0;
    }
  }

  lemma RoundingBounds(exact: Duration)
    ensures var value := BucketValueMicros(Bucket(exact)) / 1000.0;
            && value >= 0.0
            && (exact >= 0 ==> WithinReported(RoundTenths(value), exact))
            && (exact <= 49000 ==> RoundTenths(value) == 0.0)
  {
    var value := BucketValueMicros(Bucket(exact)) / 1000.0;
    BucketAccuracy(exact);
    BucketValueMonotone(0, Bucket(exact));
    RoundingError(value, value);
    FloorMonotone(value * 10.0 + 0.5, value * 10.0 + 0.5);
  }

  lemma SurvivorsAreNear(exact: Duration)
    requires SurvivesRounding(exact)
    ensures exists n :: IsNear(n, exact)
  {
    RoundingExact(exact);
    assert IsNear((BucketValueMicros(Bucket(exact)) / 1000.0 * 10.0 + 0.5).Floor, exact);
  }

  lemma ReportedAccuracy(exact: Duration)
    ensures var value := BucketValueMicros(Bucket(exact)) / 1000.0;
            value >= 0.0 && StandsFor(RoundTenths(value), exact)
  {
    RoundingBounds(exact);
    RoundingExact(exact);
    if SurvivesRounding(exact) {
      SurvivorsAreNear(exact);
    }
    forall n | IsClear(n, exact) ensures SurvivesRounding(exact) {
      ClearRounds(n, exact);
    }
  }

  lemma ReportedOfOne(d: Duration, q: real)
    requires 0.0 <= q <= 1.0
    ensures BucketValueMicros(Bucket(d)) >= 0.0
    ensures ReportedMS(CountsOf(BucketsOf([d])), q) == Some(RoundTenths(BucketValueMicros(Bucket(d)) / 1000.0))
  {
    SamplesOfCountsOf(BucketsOf([d]));
    QuantileOfSketch([d], q);
    OnlyOne([d], q);
    BucketValueMonotone(0, Bucket(d));
  }

  lemma Rounded148()
    ensures BucketValueMicros(Bucket(148_000)) >= 0.0
    ensures RoundTenths(BucketValueMicros(Bucket(148_000)) / 1000.0) == 0.1
  {
    BucketAccuracy(148_000);
    var value := BucketValueMicros(Bucket(148_000)) / 1000.0;
    FloorMonotone(1.0, value * 10.0 + 0.5);
    FloorMonotone(value * 10.0 + 0.5, 1.9999);
  }

  /** A test of one request of 148us reports every percentile as 0.1ms, 32% off. */
  lemma RoundingLosesAccuracy(q: real)
    requires 0.0 <= q <= 1.0
    ensures ReportedMS(CountsOf(BucketsOf([148_000])), q) == Some(0.1)
    ensures !WithinOnePercent(100.0, Micros(148_000)) && !SurvivesRounding(148_000)
  {
    ReportedOfOne(148_000, q);
    Rounded148();
    RoundingExact(148_000);
  }

  lemma OnlyOne(all: seq<Duration>, q: real)
    requires 0.0 <= q <= 1.0 && |all| == 1
    ensures ExactQuantile(all, q) == all[0]
  {
    var sorted := Sorted(all);
    assert sorted[0] in multiset(sorted);
    assert sorted[0] in multiset(all);
  }

  /** What is reported off the sketch of some latencies, against their exact quantile. */
  lemma ReportedOfSketch(all: seq<Duration>, q: real)
    requires 0.0 <= q <= 1.0 && all != []
    ensures var exact := ExactQuantile(all, q);
            var reported := ReportedMS(CountsOf(BucketsOf(all)), q);
            reported.Some? && StandsFor(reported.value, exact)
  {
    SamplesOfCountsOf(BucketsOf(all));
    QuantileOfSketch(all, q);
    ReportedAccuracy(ExactQuantile(all, q));
  }

  /** Test-wide percentiles as reported: within 1% and 0.05ms of the exact ones, and in order. Within 1% alone
      they are exactly where the exact one survives the rounding. */
  lemma ReportedPercentiles(workers: seq<seq<Duration>>, q: real)
    requires 0.0 <= q <= 1.0 && Concat(workers) != []
    ensures var exact := ExactQuantile(Concat(workers), q);
            var reported := ReportedMS(MergeAll(Sketches(workers)), q);
            && IsQuantile(Concat(workers), q, exact)
            && reported.Some? && StandsFor(reported.value, exact)
    ensures ReportedMS(MergeAll(Sketches(workers)), 0.50).value
            <= ReportedMS(MergeAll(Sketches(workers)), 0.95).value
            <= ReportedMS(MergeAll(Sketches(workers)), 0.99).value
  {
    var all := Concat(workers);
    MergedSketchIsSketchOfAll(workers);
    SamplesOfCountsOf(BucketsOf(all));
    ReportedOfSketch(all, q);
    ReportedOrder(MergeAll(Sketches(workers)), 0.50, 0.95);
    ReportedOrder(MergeAll(Sketches(workers)), 0.95, 0.99);
  }
}
