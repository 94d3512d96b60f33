/** Summaries of a load run (worker/metrics.go). */
module Metrics {
  import opened Decimal
  import opened Wrappers
  import opened Sorting
  import opened Histograms
  import opened Buckets
  import opened SketchWire
  import opened WorkerSketch
  import opened CoordinatorSketch
  import opened SketchAccuracy
  import opened Quantiles
  import opened Counting

  const MIN_SAMPLES: nat := 20
  const ERROR_RATE_THRESHOLD: real := 0.5

  datatype RequestResult = RequestResult(latency: Duration, statusCode: int, failed: bool)

  datatype Metrics = Metrics(
    elapsed: nat,
    requests: nat,
    errors: nat,
    rps: real,
    p50: Duration,
    p95: Duration,
    p99: Duration,
    done: bool,
    circuitBroken: bool,
    latencySketch: string)

  /** The request failed outright or the target answered with a server error. */
  predicate IsError(r: RequestResult) {
    r.failed || r.statusCode >= 500
  }

  function ErrorCount(results: seq<RequestResult>): (n: nat)
    ensures n <= |results|
  {
    if results == [] then 0
    else ErrorCount(results[..|results| - 1]) + if IsError(results[|results| - 1]) then 1 else 0
  }

  function LatenciesOf(results: seq<RequestResult>): (ls: seq<Duration>)
    ensures |ls| == |results| && forall i :: 0 <= i < |ls| ==> ls[i] == results[i].latency
  {
    seq(|results|, i requires 0 <= i < |results| => results[i].latency)
  }

  /** The text a worker sends as its sketch: none at all before the first request. */
  ghost function SketchText(results: seq<RequestResult>): string {
    if results == [] then "" else Encoded(LatenciesOf(results))
  }

  function Rate(n: nat, elapsed: nat): real {
    if elapsed > 0 then n as real * 1_000_000_000.0 / elapsed as real else 0.0
  }

  /** The metrics of the results so far; `elapsed` is in nanoseconds. */
  ghost function MetricsOf(results: seq<RequestResult>, elapsed: nat, done: bool): Metrics {
    if results == [] then Metrics(elapsed, 0, 0, 0.0, 0, 0, 0, done, false, "")
    else
      var ls := LatenciesOf(results);
      Metrics(elapsed, |results|, ErrorCount(results), Rate(|results|, elapsed),
              ExactQuantile(ls, 0.50), ExactQuantile(ls, 0.95), ExactQuantile(ls, 0.99),
              done, false, SketchText(results))
  }

  ghost function FailureFlags(results: seq<RequestResult>): (f: seq<bool>)
    ensures |f| == |results| && forall i :: 0 <= i < |f| ==> f[i] == IsError(results[i])
  {
    seq(|results|, i requires 0 <= i < |results| => IsError(results[i]))
  }

  lemma {:induction false} CountsFailures(results: seq<RequestResult>)
    ensures ErrorCount(results) == Count(FailureFlags(results))
  {
    if results != [] {
      CountsFailures(results[..|results| - 1]);
      assert FailureFlags(results)[..|results| - 1] == FailureFlags(results[..|results| - 1]);
    }
  }

  /** Errors are the requests that failed outright or got a 5xx, and no others. */
  lemma ErrorsAreFailures(results: seq<RequestResult>)
    ensures ErrorCount(results)
         == |set i: nat | i < |results| && (results[i].failed || results[i].statusCode >= 500)|
  {
    CountsFailures(results);
    CountIsSize(FailureFlags(results));
    assert Positions(FailureFlags(results))
        == set i: nat | i < |results| && (results[i].failed || results[i].statusCode >= 500);
  }

  lemma PerUnit(n: real, e: real, u: real)
    requires e > 0.0 && u > 0.0
    ensures (n * u / e) * (e / u) == n
  {
    Quotient(n * u, e);
    Quotient(e, u);
    Cancel(n * u / e, e / u, e, u, n);
  }

  lemma Cancel(r: real, t: real, e: real, u: real, n: real)
    requires r * e == n * u && t * u == e && u > 0.0
    ensures r * t == n
  {
    assert r * t * u == n * u by {
      assert r * (t * u) == r * e;
      assert r * t * u == r * (t * u);
    }
    SameFactor(r * t, n, u);
  }

  lemma SameFactor(a: real, b: real, u: real)
    requires a * u == b * u && u > 0.0
    ensures a == b
  {
    if a < b {
      ScaleStrictly(a, b, u);
    } else if b < a {
      ScaleStrictly(b, a, u);
    }
  }

  /** The counts, in terms of the results alone. */
  ghost predicate CountsAreOf(m: Metrics, results: seq<RequestResult>) {
    && m.requests == |results|
    && m.errors == |set i: nat | i < |results| && (results[i].failed || results[i].statusCode >= 500)|
  }

  /** Requests per second of the elapsed nanoseconds. */
  ghost predicate RateIs(rps: real, n: nat, elapsed: nat) {
    if n == 0 || elapsed == 0 then rps == 0.0 else rps * (elapsed as real / 1_000_000_000.0) == n as real
  }

  /** The quantiles of the latencies. */
  ghost predicate PercentilesAreOf(m: Metrics, latencies: seq<Duration>) {
    if latencies == [] then m.p50 == m.p95 == m.p99 == 0
    else
      && IsQuantile(latencies, 0.50, m.p50) && IsQuantile(latencies, 0.95, m.p95) && IsQuantile(latencies, 0.99, m.p99)
      && m.p50 <= m.p95 <= m.p99
  }

  /** What the metrics say, in terms of the results alone. */
  ghost predicate Summarize(m: Metrics, results: seq<RequestResult>, elapsed: nat, done: bool) {
    && CountsAreOf(m, results) && RateIs(m.rps, |results|, elapsed) && PercentilesAreOf(m, LatenciesOf(results))
    && SketchIsOf(m.latencySketch, LatenciesOf(results))
    && m.elapsed == elapsed && m.done == done && !m.circuitBroken
  }

  /** The text decodes to the histogram of the latencies; there is none without latencies. */
  ghost predicate SketchIsOf(text: string, latencies: seq<Duration>) {
    if latencies == [] then text == ""
    else |latencies| <= INT64_MAX ==> Decoded(text) == Ok(CountsOf(BucketsOf(latencies)))
  }

  lemma SketchSummarizes(results: seq<RequestResult>, elapsed: nat, done: bool)
    ensures SketchIsOf(MetricsOf(results, elapsed, done).latencySketch, LatenciesOf(results))
  {
    var ls := LatenciesOf(results);
    if results != [] && |ls| <= INT64_MAX {
      RoundTrip(ls);
    }
  }

  lemma MetricsSummarize(results: seq<RequestResult>, elapsed: nat, done: bool)
    ensures Summarize(MetricsOf(results, elapsed, done), results, elapsed, done)
  {
    CountsSummarize(results, elapsed, done);
    RateSummarizes(results, elapsed, done);
    PercentilesSummarize(results, elapsed, done);
    SketchSummarizes(results, elapsed, done);
  }

  lemma CountsSummarize(results: seq<RequestResult>, elapsed: nat, done: bool)
    ensures CountsAreOf(MetricsOf(results, elapsed, done), results)
  {
    ErrorsAreFailures(results);
  }

  lemma RateIsPerSecond(n: nat, elapsed: nat)
    requires n > 0
    ensures RateIs(Rate(n, elapsed), n, elapsed)
  {
    if elapsed > 0 {
      PerUnit(n as real, elapsed as real, 1_000_000_000.0);
    }
  }

  lemma RateSummarizes(results: seq<RequestResult>, elapsed: nat, done: bool)
    ensures RateIs(MetricsOf(results, elapsed, done).rps, |results|, elapsed)
  {
    if results != [] {
      RateIsPerSecond(|results|, elapsed);
      RateField(results, elapsed, done);
    }
  }

  lemma RateField(results: seq<RequestResult>, elapsed: nat, done: bool)
    requires results != []
    ensures MetricsOf(results, elapsed, done).rps == Rate(|results|, elapsed)
  {
  }

  lemma PercentilesSummarize(results: seq<RequestResult>, elapsed: nat, done: bool)
    ensures PercentilesAreOf(MetricsOf(results, elapsed, done), LatenciesOf(results))
  {
    var ls := LatenciesOf(results);
    if results != [] {
      QuantilesAscend(ls, 0.50, 0.95);
      QuantilesAscend(ls, 0.95, 0.99);
    }
  }

  lemma QuantilesAscend(ls: seq<Duration>, p: real, q: real)
    requires ls != [] && 0.0 <= p <= q <= 1.0
    ensures ExactQuantile(ls, p) <= ExactQuantile(ls, q)
  {
    RankMonotone(p, q, |ls|);
  }

  /** `computeMetrics`. */
  method ComputeMetrics(results: seq<RequestResult>, elapsed: nat, done: bool) returns (m: Metrics)
    ensures m == MetricsOf(results, elapsed, done)
    ensures Summarize(m, results, elapsed, done)
  {
    m := Computed(results, elapsed, done);
    MetricsSummarize(results, elapsed, done);
  }

  method Computed(results: seq<RequestResult>, elapsed: nat, done: bool) returns (m: Metrics)
    ensures m == MetricsOf(results, elapsed, done)
  {
    var n := |results|;
    if n == 0 {
      return Metrics(elapsed, 0, 0, 0.0, 0, 0, 0, done, false, "");
    }
    var latencies: seq<Duration> := [];
    var errors := 0;
    for i := 0 to n
      invariant latencies == LatenciesOf(results)[..i] && errors == ErrorCount(results[..i])
    {
      latencies := latencies + [results[i].latency];
      if results[i].failed || results[i].statusCode >= 500 {
        errors := errors + 1;
      }
      assert results[..i + 1][..i] == results[..i];
    }
    assert results[..n] == results && latencies == LatenciesOf(results);
    var sorted := Sort(latencies);
    var text := EncodeLatencySketch(sorted);
    SketchOfSorted(latencies);
    m := Metrics(elapsed, n, errors, Rate(n, elapsed),
                 sorted[Rank(0.50, n)], sorted[Rank(0.95, n)], sorted[Rank(0.99, n)],
                 done, false, text);
  }

  /** The sketch does not depend on the order of the latencies. */
  lemma SketchOfSorted(latencies: seq<Duration>)
    ensures Encoded(Sorted(latencies)) == Encoded(latencies)
  {
    BucketsPermute(Sorted(latencies), latencies);
    SameHistogram(BucketsOf(Sorted(latencies)), BucketsOf(latencies));
  }

  function ErrorRate(m: Metrics): real {
    if m.requests == 0 then 0.0 else m.errors as real / m.requests as real
  }

  predicate TripsCircuitBreaker(m: Metrics) {
    m.requests >= MIN_SAMPLES && ErrorRate(m) >= ERROR_RATE_THRESHOLD
  }

  /** The breaker trips exactly when at least 20 requests were sent and at least half of them failed outright or got
      a 5xx. */
  lemma TripsExactly(results: seq<RequestResult>, elapsed: nat, done: bool)
    ensures TripsCircuitBreaker(MetricsOf(results, elapsed, done)) <==>
              && |results| >= 20
              && 2 * |set i: nat | i < |results| && (results[i].failed || results[i].statusCode >= 500)| >= |results|
  {
    ErrorsAreFailures(results);
    if |results| > 0 {
      HalfOf(ErrorCount(results), |results|);
    }
  }

  /** Twenty answers of 503 trip it, and twenty of 404 do not. */
  lemma ServerErrorsTrip(status: int, elapsed: nat, done: bool)
    ensures var results := seq(20, _ => RequestResult(1_000_000, status, false));
            TripsCircuitBreaker(MetricsOf(results, elapsed, done)) <==> status >= 500
  {
    var results := seq(20, _ => RequestResult(1_000_000, status, false));
    TripsExactly(results, elapsed, done);
    AllOrNone(results, status);
  }

  lemma AllOrNone(results: seq<RequestResult>, status: int)
    requires forall i :: 0 <= i < |results| ==> !results[i].failed && results[i].statusCode == status
    ensures |set i: nat | i < |results| && (results[i].failed || results[i].statusCode >= 500)|
         == if status >= 500 then |results| else 0
  {
    var failing := set i: nat | i < |results| && (results[i].failed || results[i].statusCode >= 500);
    assert failing == if status >= 500 then Initial(|results|) else {};
  }

  lemma HalfOf(errors: nat, n: nat)
    requires n > 0
    ensures errors as real / n as real >= 0.5 <==> 2 * errors >= n
  {
    Quotient(errors as real, n as real);
    HalfAtLeast(errors as real / n as real, errors as real, n as real);
  }

  lemma Quotient(a: real, b: real)
    requires b != 0.0
    ensures a / b * b == a
  {
  }

  lemma HalfAtLeast(rate: real, errors: real, n: real)
    requires n > 0.0 && rate * n == errors
    ensures rate >= 0.5 <==> 2.0 * errors >= n
  {
    if rate >= 0.5 {
      Scale(0.5, rate, n);
    } else {
      ScaleStrictly(rate, 0.5, n);
    }
  }

  /** A worker's own percentile and the coordinator's reading of the sketch sent with it agree within 1%, from
      991ns on and not below. */
  lemma WorkerAndCoordinatorAgree(results: seq<RequestResult>, elapsed: nat)
    requires results != [] && |results| <= INT64_MAX
    ensures var m := MetricsOf(results, elapsed, true);
            && Decoded(m.latencySketch).Ok?
            && var read := Quantile(Decoded(m.latencySketch).value, 0.95);
               read.Some? && ReadsFor(read.value, m.p95)
  {
    var ls := LatenciesOf(results);
    RoundTrip(ls);
    QuantileAccuracy(ls, 0.95);
  }
}
