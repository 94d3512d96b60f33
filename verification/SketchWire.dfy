/** The sketch wire format "v1:bucket:count,bucket:count" as functions: what the worker's encoder prints
    and what the coordinator's decoder makes of any string. */
module SketchWire {
  import opened Wrappers
  import opened Decimal
  import opened Strings
  import opened Sorting
  import opened Histograms
  import opened Buckets

  const FORMAT_PREFIX: string := "v1:"

  function PairText(b: Int64, n: nat): string {
    Itoa(b) + ":" + Itoa(n)
  }

  ghost function PairTexts(ks: seq<Int64>, c: Counts): (ps: seq<string>)
    ensures |ps| == |ks|
    ensures forall i :: 0 <= i < |ks| ==> ps[i] == PairText(ks[i], CountOf(c, ks[i]))
  {
    seq(|ks|, i requires 0 <= i < |ks| => PairText(ks[i], CountOf(c, ks[i])))
  }

  /** The canonical text of a histogram: its buckets in ascending order. */
  ghost function Render(c: Counts): string {
    FORMAT_PREFIX + Join(PairTexts(SortedKeys(c), c), ',')
  }

  /** What a worker sends for these latencies. */
  ghost function Encoded(latencies: seq<Duration>): string {
    Render(CountsOf(BucketsOf(latencies)))
  }

  datatype DecodeError =
    | UnsupportedFormat
    | MalformedBucket(pair: string)
    | MalformedIndex(idx: string)
    | MalformedCount(count: string)

  function ParsePair(pair: string): Result<(Int64, nat), DecodeError> {
    match Cut(pair, ':')
    case None => Err(MalformedBucket(pair))
    case Some((idxStr, countStr)) =>
      match Atoi(idxStr)
      case None => Err(MalformedIndex(idxStr))
      case Some(idx) =>
        match ParseUint(countStr)
        case None => Err(MalformedCount(countStr))
        case Some(count) => Ok((idx, count))
  }

  /** The pairs added up from left to right; the first malformed one is the error. */
  function DecodePairs(pairs: seq<string>): Result<Counts, DecodeError> {
    if pairs == [] then Ok(map[])
    else
      match DecodePairs(pairs[..|pairs| - 1])
      case Err(e) => Err(e)
      case Ok(c) =>
        match ParsePair(pairs[|pairs| - 1])
        case Err(e) => Err(e)
        case Ok((idx, count)) => Ok(Add(c, idx, count))
  }

  function Decoded(s: string): Result<Counts, DecodeError> {
    if !(FORMAT_PREFIX <= s) then Err(UnsupportedFormat)
    else if s[|FORMAT_PREFIX|..] == "" then Ok(map[])
    else DecodePairs(Split(s[|FORMAT_PREFIX|..], ','))
  }

  /** The first malformed pair decides the result, whatever follows it. */
  lemma {:induction false} DecodePairsError(pairs: seq<string>, i: nat)
    requires i <= |pairs| && DecodePairs(pairs[..i]).Err?
    ensures DecodePairs(pairs) == DecodePairs(pairs[..i])
  {
    var n := |pairs|;
    if i == n {
      assert pairs[..i] == pairs;
    } else {
      var front := pairs[..n - 1];
      assert front[..i] == pairs[..i];
      DecodePairsError(front, i);
    }
  }

  /** One step of the decoding loop: the next pair is added, or its error is the result. */
  lemma DecodePairsStep(pairs: seq<string>, i: nat)
    requires i < |pairs| && DecodePairs(pairs[..i]).Ok?
    ensures match ParsePair(pairs[i])
            case Ok((idx, count)) => DecodePairs(pairs[..i + 1]) == Ok(Add(DecodePairs(pairs[..i]).value, idx, count))
            case Err(e) => DecodePairs(pairs) == Err(e)
  {
    var upTo := pairs[..i + 1];
    assert upTo[..i] == pairs[..i] && upTo[i] == pairs[i];
    if DecodePairs(upTo).Err? {
      DecodePairsError(pairs, i + 1);
    }
  }

  lemma AddSwap(c: Counts, a: Counts, b: Int64, n: nat)
    ensures Histograms.Merge(c, Add(a, b, n)) == Add(Histograms.Merge(c, a), b, n)
  {
  }

  /** Pairs add up, wherever the list is cut; a bucket may come more than once. */
  lemma {:induction false} PairsAddUp(a: seq<string>, b: seq<string>)
    requires DecodePairs(a).Ok? && DecodePairs(b).Ok?
    ensures DecodePairs(a + b) == Ok(Histograms.Merge(DecodePairs(a).value, DecodePairs(b).value))
  {
    if b == [] {
      assert a + b == a && Histograms.Merge(DecodePairs(a).value, map[]) == DecodePairs(a).value;
    } else {
      var front, last := b[..|b| - 1], b[|b| - 1];
      PairsAddUp(a, front);
      assert (a + b)[..|a + b| - 1] == a + front;
      AddSwap(DecodePairs(a).value, DecodePairs(front).value, ParsePair(last).value.0, ParsePair(last).value.1);
    }
  }

  /** One pair is one bucket with its count. */
  lemma OnePair(pair: string)
    requires ParsePair(pair).Ok?
    ensures DecodePairs([pair]) == Ok(map[ParsePair(pair).value.0 := ParsePair(pair).value.1])
  {
    assert [pair][..0] == [];
  }

  lemma {:induction false} AllPairsParse(pairs: seq<string>)
    ensures DecodePairs(pairs).Ok? <==> AllParse(pairs)
  {
    if pairs != [] {
      var front, last := pairs[..|pairs| - 1], pairs[|pairs| - 1];
      AllPairsParse(front);
      OneMoreParses(front, last);
      AllParseNext(front, last);
      assert pairs == front + [last];
    }
  }

  ghost predicate AllParse(pairs: seq<string>) {
    forall i :: 0 <= i < |pairs| ==> ParsePair(pairs[i]).Ok?
  }

  lemma AllParseNext(front: seq<string>, last: string)
    ensures AllParse(front + [last]) <==> AllParse(front) && ParsePair(last).Ok?
  {
    var all := front + [last];
    assert all[|front|] == last && forall i :: 0 <= i < |front| ==> all[i] == front[i];
  }

  lemma OneMoreParses(front: seq<string>, last: string)
    ensures DecodePairs(front + [last]).Ok? <==> DecodePairs(front).Ok? && ParsePair(last).Ok?
  {
    assert (front + [last])[..|front|] == front;
  }

  /** Two numbers around the first colon: the index with a sign or without, the count without. */
  ghost predicate IsPair(pair: string, b: Int64, n: nat) {
    exists i :: 0 <= i < |pair| && ColonAt(pair, i) && Atoi(pair[..i]) == Some(b) && ParseUint(pair[i + 1..]) == Some(n)
  }

  ghost predicate ColonAt(pair: string, i: nat)
    requires i < |pair|
  {
    pair[i] == ':' && forall j :: 0 <= j < i ==> pair[j] != ':'
  }

  lemma OneFirstColon(pair: string, i: nat, k: nat)
    requires i < |pair| && k < |pair| && ColonAt(pair, i) && ColonAt(pair, k)
    ensures i == k
  {
  }

  lemma PairsAre(pair: string, b: Int64, n: nat)
    ensures ParsePair(pair) == Ok((b, n)) <==> IsPair(pair, b, n)
  {
    CutExactly(pair, ':');
    if Cut(pair, ':').Some? {
      var (before, after) := Cut(pair, ':').value;
      var k: nat := |before|;
      assert pair[..k] == before && pair[k + 1..] == after;
      assert forall j :: 0 <= j < k ==> pair[j] == before[j];
      assert ColonAt(pair, k);
      forall i | 0 <= i < |pair| && ColonAt(pair, i) ensures i == k {
        OneFirstColon(pair, i, k);
      }
    }
  }

  /** What is wrong with a pair that is rejected is what the error says. */
  lemma PairErrorsAreTrue(pair: string)
    requires ParsePair(pair).Err?
    ensures match ParsePair(pair).error
            case UnsupportedFormat => false
            case MalformedBucket(p) => p == pair && ':' !in pair
            case MalformedIndex(idx) =>
              Atoi(idx).None? && |idx| < |pair| && pair[..|idx|] == idx && ColonAt(pair, |idx|)
            case MalformedCount(count) =>
              var k := |pair| - |count| - 1;
              ParseUint(count).None? && k >= 0 && pair[k + 1..] == count && ColonAt(pair, k)
  {
    CutExactly(pair, ':');
    if Cut(pair, ':').Some? {
      var (before, after) := Cut(pair, ':').value;
      var k: nat := |before|;
      assert pair[..k] == before && pair[k + 1..] == after;
      assert forall j :: 0 <= j < k ==> pair[j] == before[j];
    }
  }

  /** What the decoder accepts: the version prefix, and then nothing, or pairs that all parse, separated by commas. */
  lemma DecodesExactly(s: string)
    ensures Decoded(s).Ok? <==>
              && |s| >= 3 && s[..3] == "v1:"
              && (s[3..] == "" || AllParse(Split(s[3..], ',')))
    ensures Decoded("v1:") == Ok(map[]) && Decoded("v2:0:1") == Err(UnsupportedFormat)
  {
    assert |FORMAT_PREFIX| == 3 && (FORMAT_PREFIX <= s <==> |s| >= 3 && s[..3] == "v1:");
    if FORMAT_PREFIX <= s {
      AllPairsParse(Split(s[3..], ','));
    }
    DecodedBody("");
    assert FORMAT_PREFIX + "" == "v1:";
    assert "v2:0:1"[1] != FORMAT_PREFIX[1];
  }

  lemma SampleKeys(c: Counts)
    requires c.Keys == {0, 5}
    ensures SortedKeys(c) == [0, 5]
  {
    var ks: seq<Int64> := [0, 5];
    StrictlyAscendingUnique(ks, SortedKeys(c));
  }

  lemma SamplePairs()
    ensures PairText(0, 2) == "0:2" && PairText(5, 1) == "5:1"
  {
    PrintedNumbers();
    assert Itoa(2) == "2" && Itoa(5) == "5" && Itoa(1) == "1";
    assert "0" + ":" + "2" == "0:2" && "5" + ":" + "1" == "5:1";
  }

  /** Two samples of bucket 0 and one of bucket 5, as they are sent. */
  lemma SampleText(c: Counts)
    requires c == map[0 := 2, 5 := 1]
    ensures Render(c) == "v1:0:2,5:1"
  {
    SampleKeys(c);
    SamplePairs();
    SameTexts(PairTexts([0, 5], c), ["0:2", "5:1"]);
    assert ["0:2", "5:1"][..1] == ["0:2"];
    assert Join(["0:2"], ',') == "0:2" && Join(["0:2", "5:1"], ',') == "0:2" + [','] + "5:1";
  }

  lemma ParsePairInverts(b: Int64, n: nat)
    requires n <= UINT64_MAX
    ensures ParsePair(PairText(b, n)) == Ok((b, n))
    ensures ',' !in PairText(b, n)
  {
    ItoaCharacters(b, ':');
    ItoaCharacters(b, ',');
    ItoaCharacters(n, ',');
    CutAtFirst(Itoa(b), ':', Itoa(n));
    AtoiInvertsItoa(b);
    ParseUintInvertsItoa(n);
  }

  ghost function Restrict(c: Counts, ks: seq<Int64>): Counts {
    map k | k in ks && k in c :: c[k]
  }

  lemma {:induction false} DecodePairTexts(ks: seq<Int64>, c: Counts)
    requires StrictlyAscending(ks) && forall k :: k in ks ==> k in c && c[k] <= UINT64_MAX
    ensures DecodePairs(PairTexts(ks, c)) == Ok(Restrict(c, ks))
  {
    if ks != [] {
      var front, last := ks[..|ks| - 1], ks[|ks| - 1];
      assert ks == front + [last] && last in ks && forall k :: k in front ==> k in ks;
      DecodePairTexts(front, c);
      ParsePairInverts(last, c[last]);
      PairTextsSnoc(ks, c);
      DecodePairsSnoc(PairTexts(front, c), PairText(last, c[last]));
      RestrictSnoc(c, front, last);
    }
  }

  lemma PairTextsSnoc(ks: seq<Int64>, c: Counts)
    requires ks != []
    ensures var last := ks[|ks| - 1];
            PairTexts(ks, c) == PairTexts(ks[..|ks| - 1], c) + [PairText(last, CountOf(c, last))]
  {
    var n, last := |ks| - 1, ks[|ks| - 1];
    var all, rest := PairTexts(ks, c), PairTexts(ks[..n], c) + [PairText(last, CountOf(c, last))];
    forall i | 0 <= i < |all| ensures all[i] == rest[i] {
      assert i < n ==> ks[..n][i] == ks[i];
    }
    SameTexts(all, rest);
  }

  lemma SameTexts(a: seq<string>, b: seq<string>)
    requires |a| == |b| && forall i :: 0 <= i < |a| ==> a[i] == b[i]
    ensures a == b
  {
  }

  lemma DecodePairsSnoc(ps: seq<string>, p: string)
    requires DecodePairs(ps).Ok? && ParsePair(p).Ok?
    ensures DecodePairs(ps + [p]) == Ok(Add(DecodePairs(ps).value, ParsePair(p).value.0, ParsePair(p).value.1))
  {
    assert (ps + [p])[..|ps|] == ps;
  }

  lemma RestrictSnoc(c: Counts, front: seq<Int64>, last: Int64)
    requires last in c && last !in front
    ensures Restrict(c, front + [last]) == Add(Restrict(c, front), last, c[last])
  {
  }

  lemma PairsSplit(ks: seq<Int64>, c: Counts)
    requires ks != [] && forall k :: k in ks ==> k in c && c[k] <= UINT64_MAX
    ensures Split(Join(PairTexts(ks, c), ','), ',') == PairTexts(ks, c) && Join(PairTexts(ks, c), ',') != ""
  {
    var ps := PairTexts(ks, c);
    forall i | 0 <= i < |ps| ensures ',' !in ps[i] {
      ParsePairInverts(ks[i], c[ks[i]]);
    }
    SplitInvertsJoin(ps, ',');
    JoinNonEmpty(ps);
  }

  lemma DecodedBody(body: string)
    ensures Decoded(FORMAT_PREFIX + body) == if body == "" then Ok(map[]) else DecodePairs(Split(body, ','))
  {
    assert (FORMAT_PREFIX + body)[|FORMAT_PREFIX|..] == body;
  }

  lemma RestrictAll(c: Counts)
    ensures Restrict(c, SortedKeys(c)) == c
  {
  }

  /** The text of any histogram whose counts fit a uint64 decodes to that histogram. */
  lemma DecodeInvertsRender(c: Counts)
    requires forall k :: k in c ==> c[k] <= UINT64_MAX
    ensures Decoded(Render(c)) == Ok(c)
  {
    var ks := SortedKeys(c);
    DecodePairTexts(ks, c);
    RestrictAll(c);
    DecodedBody(Join(PairTexts(ks, c), ','));
    if ks != [] {
      PairsSplit(ks, c);
    }
  }

  lemma JoinNonEmpty(ps: seq<string>)
    requires |ps| >= 1 && forall i :: 0 <= i < |ps| ==> ps[i] != ""
    ensures Join(ps, ',') != ""
  {
  }

  lemma CountsAtMostLength(s: seq<Int64>)
    ensures forall k :: k in CountsOf(s) ==> 1 <= CountsOf(s)[k] <= |s|
  {
    forall k | k in s ensures multiset(s)[k] <= |s| {
      assert multiset(s)[k := 0] + multiset{}[k := multiset(s)[k]] == multiset(s);
      assert |multiset(s)| == |s|;
    }
  }

  /** Round trip: whatever latencies a worker measured, the coordinator decodes exactly their histogram, and
      its total is the number of requests. */
  lemma RoundTrip(latencies: seq<Duration>)
    requires |latencies| <= INT64_MAX
    ensures Decoded(Encoded(latencies)) == Ok(CountsOf(BucketsOf(latencies)))
    ensures Total(CountsOf(BucketsOf(latencies))) == |latencies|
  {
    CountsAtMostLength(BucketsOf(latencies));
    DecodeInvertsRender(CountsOf(BucketsOf(latencies)));
    SamplesOfCountsOf(BucketsOf(latencies));
  }

  /** The encoding is canonical: two workers send the same text exactly when their buckets agree as multisets. */
  lemma EncodingIsCanonical(a: seq<Duration>, b: seq<Duration>)
    requires |a| <= INT64_MAX && |b| <= INT64_MAX
    ensures Encoded(a) == Encoded(b) <==> multiset(BucketsOf(a)) == multiset(BucketsOf(b))
  {
    RoundTrip(a);
    RoundTrip(b);
    SameHistogram(BucketsOf(a), BucketsOf(b));
  }

  lemma SameHistogram(s: seq<Int64>, t: seq<Int64>)
    ensures CountsOf(s) == CountsOf(t) <==> multiset(s) == multiset(t)
  {
    if multiset(s) == multiset(t) {
      forall k ensures k in s <==> k in t {
        assert k in multiset(s) <==> k in multiset(t);
      }
    }
    if CountsOf(s) == CountsOf(t) {
      SamplesOfCountsOf(s);
      SamplesOfCountsOf(t);
    }
  }
}
