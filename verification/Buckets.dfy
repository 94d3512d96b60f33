/** Logarithmic latency buckets (worker/sketch.go, coordinator/sketch.go).

    Latencies are whole nanoseconds in the range of `time.Duration`. The bucket base is the exact rational
    101/99, which is what (1 + 0.01) / (1 - 0.01) denotes. */
module Buckets {
  import opened Decimal

  type Duration = Int64

  const GAMMA: real := 101.0 / 99.0
  const RELATIVE_ACCURACY: real := 0.01

  function Micros(d: Duration): real {
    d as real / 1000.0
  }

  function GammaPow(k: nat): (p: real)
    ensures p >= 1.0
  {
    if k == 0 then 1.0 else GammaPow(k - 1) * GAMMA
  }

  lemma GammaStep(k: nat)
    ensures GammaPow(k + 1) * 99.0 == GammaPow(k) * 101.0
    ensures GammaPow(k) < GammaPow(k + 1)
  {
  }

  lemma {:induction false} GammaIncreasing(j: nat, k: nat)
    requires j < k
    ensures GammaPow(j) < GammaPow(k)
  {
    GammaStep(k - 1);
    if j < k - 1 {
      GammaIncreasing(j, k - 1);
    }
  }

  /** Bernoulli's inequality: the powers of gamma grow at least linearly. */
  lemma {:induction false} Bernoulli(k: nat)
    ensures 99.0 * GammaPow(k) >= 99.0 + 2.0 * k as real
  {
    if k > 0 {
      Bernoulli(k - 1);
      GammaStep(k - 1);
    }
  }

  /** The search for the first power of gamma that reaches `us`; Bernoulli's inequality bounds it. */
  function FirstCover(us: real, k: nat): (b: nat)
    requires k >= 1 && GammaPow(k - 1) < us
    ensures b >= k && GammaPow(b - 1) < us <= GammaPow(b)
    decreases (50.0 * us).Floor - k
  {
    if us <= GammaPow(k) then k
    else
      Bernoulli(k);
      FirstCover(us, k + 1)
  }

  /** Every bucket index of a latency fits an int64, so it survives printing and `strconv.Atoi`. */
  lemma CoverFits(d: Duration)
    requires Micros(d) > 1.0
    ensures FirstCover(Micros(d), 1) <= INT64_MAX
  {
    var k := FirstCover(Micros(d), 1) - 1;
    Bernoulli(k);
    assert GammaPow(k) < Micros(d) && IsInt64(d);
    assert d as real <= INT64_MAX as real;
    assert 2.0 * k as real < 99.0 * INT64_MAX as real / 1000.0;
    assert 2000 * k < 99 * INT64_MAX;
  }

  /** `sketchBucket`: Ceil(Log(us) / Log(gamma)) is the least k with us <= gamma^k. */
  function Bucket(d: Duration): (b: Int64)
    ensures b >= 0
  {
    if Micros(d) <= 1.0 then 0
    else
      CoverFits(d);
      FirstCover(Micros(d), 1)
  }

  /** `bucketValueMicros`. */
  function BucketValueMicros(idx: int): real {
    if idx <= 0 then 1.0 else 2.0 * GammaPow(idx) / (GAMMA + 1.0)
  }

  /** Above 1us, bucket k is the one and only k >= 1 with gamma^(k-1) < us <= gamma^k. */
  lemma BucketCovers(d: Duration, k: nat)
    requires d > 1000
    ensures Bucket(d) == k <==> k >= 1 && GammaPow(k - 1) < Micros(d) <= GammaPow(k)
  {
    var b := Bucket(d);
    if k >= 1 && GammaPow(k - 1) < Micros(d) <= GammaPow(k) && k != b {
      if b < k {
        if b < k - 1 { GammaIncreasing(b, k - 1); }
        assert false;
      } else {
        if k < b - 1 { GammaIncreasing(k, b - 1); }
        assert false;
      }
    }
  }

  /** Slower requests never land in a lower bucket. */
  lemma BucketMonotone(d: Duration, e: Duration)
    requires d <= e
    ensures Bucket(d) <= Bucket(e)
  {
    if d > 1000 && Bucket(e) < Bucket(d) {
      if Bucket(e) < Bucket(d) - 1 { GammaIncreasing(Bucket(e), Bucket(d) - 1); }
      assert false;
    }
  }

  ghost predicate WithinOnePercent(reported: real, actual: real) {
    (1.0 - RELATIVE_ACCURACY) * actual <= reported <= (1.0 + RELATIVE_ACCURACY) * actual
  }

  /** The accuracy the sketch is built for: the value reported for a sample's bucket is within 1% of the
      sample exactly when the sample lasted at least 991ns. Shorter samples are all reported as 1us. */
  lemma BucketAccuracy(d: Duration)
    ensures WithinOnePercent(BucketValueMicros(Bucket(d)), Micros(d)) <==> d >= 991
    ensures d <= 1000 ==> BucketValueMicros(Bucket(d)) == 1.0
  {
    if d > 1000 {
      GammaStep(Bucket(d) - 1);
      assert BucketValueMicros(Bucket(d)) == 0.99 * GammaPow(Bucket(d));
    }
  }

  /** The stated accuracy fails for a 500ns sample: it is reported at twice its length. */
  lemma SubMicrosecondSampleIsOff()
    ensures BucketValueMicros(Bucket(500)) == 2.0 * Micros(500)
    ensures !WithinOnePercent(BucketValueMicros(Bucket(500)), Micros(500))
  {
  }

  lemma BucketValueMonotone(j: int, k: int)
    requires j <= k
    ensures 1.0 <= BucketValueMicros(j) <= BucketValueMicros(k)
  {
    if 0 < k {
      assert forall i: nat :: i > 0 ==> BucketValueMicros(i) == 0.99 * GammaPow(i);
      assert GammaPow(1) == GammaPow(0) * GAMMA;
      if 1 < k { GammaIncreasing(1, k); }
      if 1 < j { GammaIncreasing(1, j); }
      if 0 < j < k { GammaIncreasing(j, k); }
    }
  }

  function BucketsOf(latencies: seq<Duration>): (bs: seq<Int64>)
    ensures |bs| == |latencies|
    ensures forall i :: 0 <= i < |bs| ==> bs[i] == Bucket(latencies[i])
  {
    seq(|latencies|, i requires 0 <= i < |latencies| => Bucket(latencies[i]))
  }
}
