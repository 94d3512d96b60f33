/** The numbers on the dashboard against the requests that were really made. */
module SnapshotAccuracy {
  import opened Wrappers
  import opened Decimal
  import opened Histograms
  import opened Buckets
  import opened SketchWire
  import opened CoordinatorSketch
  import opened SketchAccuracy
  import opened Quantiles
  import opened Messages
  import opened JobOrder
  import opened TestLog
  import opened Snapshots
  import opened Metrics

  /** The sub-job's state came from the worker's metrics of these results. */
  ghost predicate ReportedBy(sj: SubJob, results: seq<RequestResult>) {
    && |results| <= INT64_MAX
    && sj.requests == |results| && sj.errors == ErrorCount(results)
    && sj.sketch == SketchOf(SketchText(results))
  }

  ghost predicate AllReported(m: SubJobs, runs: map<string, seq<RequestResult>>) {
    m.Keys == runs.Keys && forall id :: id in m ==> ReportedBy(m[id], runs[id])
  }

  /** Every latency of the listed sub-jobs. */
  function LatenciesIn(ids: seq<string>, runs: map<string, seq<RequestResult>>): seq<Duration>
    requires forall id :: id in ids ==> id in runs
  {
    if ids == [] then [] else LatenciesIn(ids[..|ids| - 1], runs) + LatenciesOf(runs[ids[|ids| - 1]])
  }

  lemma ReportedSketch(sj: SubJob, results: seq<RequestResult>)
    requires ReportedBy(sj, results)
    ensures sj.requests == 0 <==> results == []
    ensures results != [] ==> sj.sketch == Some(CountsOf(BucketsOf(LatenciesOf(results))))
  {
    if results != [] {
      RoundTrip(LatenciesOf(results));
    }
  }

  lemma PlusReported(s: Sums, sj: SubJob, results: seq<RequestResult>, before: seq<Duration>)
    requires ReportedBy(sj, results) && s.counts == CountsOf(BucketsOf(before)) && s.requests == |before|
    ensures Plus(s, sj).counts == CountsOf(BucketsOf(before + LatenciesOf(results)))
    ensures Plus(s, sj).requests == |before + LatenciesOf(results)|
  {
    ReportedSketch(sj, results);
    if results == [] {
      assert before + LatenciesOf(results) == before;
    } else {
      BucketsOfConcat(before, LatenciesOf(results));
      MergeIsHomomorphism(BucketsOf(before), BucketsOf(LatenciesOf(results)));
    }
  }

  lemma {:induction false} SumsAreOfAllRequests(ids: seq<string>, m: SubJobs, runs: map<string, seq<RequestResult>>)
    requires AllReported(m, runs) && forall id :: id in ids ==> id in m
    ensures SumOf(ids, m).counts == CountsOf(BucketsOf(LatenciesIn(ids, runs)))
    ensures SumOf(ids, m).requests == |LatenciesIn(ids, runs)|
  {
    if ids == [] {
      assert CountsOf(BucketsOf([])) == map[];
    } else {
      var front, last := ids[..|ids| - 1], ids[|ids| - 1];
      SumsAreOfAllRequests(front, m, runs);
      assert last in ids;
      PlusReported(SumOf(front, m), m[last], runs[last], LatenciesIn(front, runs));
    }
  }

  lemma NothingMissing(m: SubJobs, runs: map<string, seq<RequestResult>>)
    requires AllReported(m, runs)
    ensures !SketchMissing(m)
  {
    forall id | id in m ensures m[id].requests == 0 || m[id].sketch.Some? {
      ReportedSketch(m[id], runs[id]);
    }
  }

  lemma SketchOfAllReads(all: seq<Duration>, q: real)
    requires 0.0 <= q <= 1.0
    ensures var c := CountsOf(BucketsOf(all));
            && Total(c) == |all|
            && (ReportedMS(c, q).Some? <==> all != [])
            && (all != [] ==> ReportedMS(c, q).value == RoundTenths(Quantile(c, q).value))
  {
    SamplesOfCountsOf(BucketsOf(all));
  }

  /** From the workers' requests to the snapshot: the total is the number of requests, the merged sketch has
      exactly that many samples, a percentile is shown as soon as there is one request, and it stands for the exact
      percentile of all requests of all workers: within 1% and 0.05ms. */
  lemma SnapshotPercentiles(testID: string, t: Test, runs: map<string, seq<RequestResult>>, q: real)
    requires AllReported(t.subJobs, runs) && 0.0 <= q <= 1.0
    ensures var all := LatenciesIn(SortedIDs(t.subJobs.Keys), runs);
            && SnapshotOf(testID, t).totalRequests == |all| == Total(SumOfAll(t.subJobs).counts)
            && (Percentile(t.subJobs, q).Some? <==> all != [])
            && (all != [] ==> StandsFor(Percentile(t.subJobs, q).value, ExactQuantile(all, q)))
  {
    var m := t.subJobs;
    var all := LatenciesIn(SortedIDs(m.Keys), runs);
    SumsAreOfAllRequests(SortedIDs(m.Keys), m, runs);
    NothingMissing(m, runs);
    SketchOfAllReads(all, q);
    if all != [] {
      ReportedOfSketch(all, q);
    }
  }

  /** A test with one request in all, of 148us, shows every percentile as 0.1ms: the 1% does not hold of what the
      snapshot shows. */
  lemma SnapshotIsOff(t: Test, runs: map<string, seq<RequestResult>>, q: real)
    requires AllReported(t.subJobs, runs) && 0.0 <= q <= 1.0
    requires LatenciesIn(SortedIDs(t.subJobs.Keys), runs) == [148_000]
    ensures Percentile(t.subJobs, q) == Some(0.1) && !WithinOnePercent(100.0, Micros(148_000))
  {
    SumsAreOfAllRequests(SortedIDs(t.subJobs.Keys), t.subJobs, runs);
    NothingMissing(t.subJobs, runs);
    RoundingLosesAccuracy(q);
  }

  /** Every result of the listed sub-jobs. */
  function ResultsIn(ids: seq<string>, runs: map<string, seq<RequestResult>>): seq<RequestResult>
    requires forall id :: id in ids ==> id in runs
  {
    if ids == [] then [] else ResultsIn(ids[..|ids| - 1], runs) + runs[ids[|ids| - 1]]
  }

  lemma {:induction false} LatenciesOfResults(ids: seq<string>, runs: map<string, seq<RequestResult>>)
    requires forall id :: id in ids ==> id in runs
    ensures LatenciesOf(ResultsIn(ids, runs)) == LatenciesIn(ids, runs)
  {
    if ids != [] {
      var front, last := ids[..|ids| - 1], ids[|ids| - 1];
      assert last in ids;
      LatenciesOfResults(front, runs);
      LatenciesConcat(ResultsIn(front, runs), runs[last]);
    }
  }

  lemma LatenciesConcat(a: seq<RequestResult>, b: seq<RequestResult>)
    ensures LatenciesOf(a + b) == LatenciesOf(a) + LatenciesOf(b)
  {
  }

  lemma {:induction false} ErrorsConcat(a: seq<RequestResult>, b: seq<RequestResult>)
    ensures ErrorCount(a + b) == ErrorCount(a) + ErrorCount(b)
  {
    if b == [] {
      assert a + b == a;
    } else {
      ErrorsConcat(a, b[..|b| - 1]);
      assert (a + b)[..|a + b| - 1] == a + b[..|b| - 1];
    }
  }

  lemma {:induction false} ErrorsAreOfAllRequests(ids: seq<string>, m: SubJobs, runs: map<string, seq<RequestResult>>)
    requires AllReported(m, runs) && forall id :: id in ids ==> id in m
    ensures SumOf(ids, m).errors == ErrorCount(ResultsIn(ids, runs))
  {
    if ids != [] {
      var front, last := ids[..|ids| - 1], ids[|ids| - 1];
      assert last in ids && ReportedBy(m[last], runs[last]);
      ErrorsAreOfAllRequests(front, m, runs);
      ErrorsConcat(ResultsIn(front, runs), runs[last]);
    }
  }

  /** What is shown stands for the q-quantile of the latencies. */
  ghost predicate ShowsQuantile(shown: Option<real>, latencies: seq<Duration>, q: real) {
    shown.Some? && exists x :: IsQuantile(latencies, q, x) && StandsFor(shown.value, x)
  }

  lemma PercentileStands(m: SubJobs, runs: map<string, seq<RequestResult>>, q: real)
    requires AllReported(m, runs) && 0.0 <= q <= 1.0
    ensures var all := LatenciesIn(SortedIDs(m.Keys), runs);
            if all == [] then Percentile(m, q).None? else ShowsQuantile(Percentile(m, q), all, q)
  {
    SnapshotPercentiles("", Test("", "", m), runs, q);
    var all := LatenciesIn(SortedIDs(m.Keys), runs);
    if all != [] {
      assert IsQuantile(all, q, ExactQuantile(all, q));
    }
  }

  /** The numbers of a snapshot in terms of the requests that the workers made: how many there were, how many failed
      outright or got a 5xx, and the three percentiles of all of them together. */
  lemma SnapshotNumbers(testID: string, t: Test, runs: map<string, seq<RequestResult>>)
    requires AllReported(t.subJobs, runs)
    ensures var all := ResultsIn(SortedIDs(t.subJobs.Keys), runs);
            var snap := SnapshotOf(testID, t);
            && snap.totalRequests == |all|
            && snap.totalErrors == |set i: nat | i < |all| && (all[i].failed || all[i].statusCode >= 500)|
            && if all == [] then snap.p50MS.None? && snap.p95MS.None? && snap.p99MS.None?
               else
                 && ShowsQuantile(snap.p50MS, LatenciesOf(all), 0.50)
                 && ShowsQuantile(snap.p95MS, LatenciesOf(all), 0.95)
                 && ShowsQuantile(snap.p99MS, LatenciesOf(all), 0.99)
  {
    var m := t.subJobs;
    var ids := SortedIDs(m.Keys);
    var all := ResultsIn(ids, runs);
    SumsAreOfAllRequests(ids, m, runs);
    ErrorsAreOfAllRequests(ids, m, runs);
    ErrorsAreFailures(all);
    LatenciesOfResults(ids, runs);
    PercentileStands(m, runs, 0.50);
    PercentileStands(m, runs, 0.95);
    PercentileStands(m, runs, 0.99);
  }

  /** A report that has requests but no sketch, or none that decodes, leaves the test without percentiles. */
  lemma UnusableSketchHidesPercentiles(tests: Tests, m: Message)
    requires Known(tests, m) && m.Report? && m.u.requests != 0
    requires m.u.latencySketch == "" || Decoded(m.u.latencySketch).Err?
    ensures m.testID in AfterMessage(tests, m)
    ensures var snap := SnapshotOf(m.testID, AfterMessage(tests, m)[m.testID]);
            snap.p50MS.None? && snap.p95MS.None? && snap.p99MS.None?
  {
    var subJobs := AfterMessage(tests, m)[m.testID].subJobs;
    assert m.jobID in subJobs && subJobs[m.jobID].requests != 0 && subJobs[m.jobID].sketch.None?;
  }
}
