/** From an API request to job records on the stream (coordinator/handlers.go `handleCreateTest`,
    coordinator/jobs.go, coordinator/enqueue.go). */
module Admission {
  import opened Wrappers
  import opened WorkerJobs
  import opened TestLog
  import opened Snapshots
  import opened TestStores
  import Messages

  const MAX_VUS_PER_TEST: int := 200
  const MAX_TEST_SECONDS: int := 300
  const MAX_FANOUT: int := 5

  function Sum(s: seq<int>): int {
    if s == [] then 0 else Sum(s[..|s| - 1]) + s[|s| - 1]
  }

  /** Even shares of a total, the larger ones first. */
  ghost predicate FairSplit(shares: seq<int>, total: int) {
    && Sum(shares) == total
    && forall i, j :: 0 <= i < j < |shares| ==> shares[j] <= shares[i] <= shares[j] + 1
  }

  /** `splitVUs`. */
  method SplitVUs(totalVUs: int, fanout: int) returns (vus: array<int>)
    requires totalVUs >= 0 && fanout >= 1
    ensures fresh(vus) && vus.Length == fanout && FairSplit(vus[..], totalVUs)
    ensures fanout <= totalVUs ==> forall i :: 0 <= i < fanout ==> vus[i] >= 1
  {
    var base, remainder := totalVUs / fanout, totalVUs % fanout;
    vus := new int[fanout];
    for i := 0 to fanout
      invariant forall k :: 0 <= k < i ==> vus[k] == base + if k < remainder then 1 else 0
    {
      vus[i] := base;
      if i < remainder {
        vus[i] := vus[i] + 1;
      }
    }
    QuotientAndRemainder(totalVUs, fanout);
    SumOfShape(vus[..], base, remainder, fanout);
    assert vus[..][..fanout] == vus[..];
  }

  lemma QuotientAndRemainder(total: nat, n: nat)
    requires n >= 1
    ensures n * (total / n) + total % n == total
    ensures n <= total ==> total / n >= 1
  {
  }

  /** How far the larger shares reach, and what the shares add up to. */
  lemma {:induction false} FairShape(shares: seq<int>, total: int) returns (r: nat)
    requires FairSplit(shares, total) && shares != []
    ensures r < |shares|
    ensures forall i :: 0 <= i < |shares| ==> shares[i] == shares[|shares| - 1] + if i < r then 1 else 0
    ensures total == |shares| * shares[|shares| - 1] + r
  {
    var n := |shares| - 1;
    var least := shares[n];
    r := 0;
    while r < n && shares[r] == least + 1
      invariant r <= n && forall i :: 0 <= i < r ==> shares[i] == least + 1
    {
      r := r + 1;
    }
    SumOfShape(shares, least, r, n + 1);
    assert shares[..n + 1] == shares;
  }

  lemma {:induction false} SumOfShape(shares: seq<int>, least: int, r: nat, n: nat)
    requires n <= |shares|
    requires forall i :: 0 <= i < n ==> shares[i] == least + if i < r then 1 else 0
    ensures Sum(shares[..n]) == n * least + if n < r then n else r
  {
    if n > 0 {
      SumOfShape(shares, least, r, n - 1);
      assert shares[..n][..n - 1] == shares[..n - 1];
    }
  }

  /** There is only one fair split. */
  lemma FairSplitIsUnique(a: seq<int>, b: seq<int>, total: int)
    requires FairSplit(a, total) && FairSplit(b, total) && |a| == |b|
    ensures a == b
  {
    if a != [] {
      var r := FairShape(a, total);
      var s := FairShape(b, total);
      SameQuotient(|a|, a[|a| - 1], r, b[|b| - 1], s);
    }
  }

  lemma SameQuotient(n: nat, p: int, r: nat, q: int, s: nat)
    requires r < n && s < n && n * p + r == n * q + s
    ensures p == q && r == s
  {
    if p < q {
      Multiple(n, p, q);
    } else if q < p {
      Multiple(n, q, p);
    }
  }

  lemma {:induction false} Multiple(n: nat, p: int, q: int)
    requires p < q
    ensures n * q >= n * p + n
    decreases q - p
  {
    if p + 1 < q {
      Multiple(n, p, q - 1);
    }
    assert n * q == n * (q - 1) + n;
  }

  /** The jobs stream, as far as its writer sees it. */
  class JobsStream {
    var entries: seq<Fields>

    constructor ()
      ensures entries == []
    {
      entries := [];
    }

    /** What other requests add meanwhile. */
    method AddAll(records: seq<Fields>)
      modifies this
      ensures entries == old(entries) + records
    {
      entries := entries + records;
    }

    /** XADD: appends the entry, or fails and appends nothing. */
    method XAdd(values: Fields, ok: bool) returns (added: bool)
      modifies this
      ensures added == ok && entries == old(entries) + if ok then [values] else []
    {
      if ok {
        entries := entries + [values];
      }
      added := ok;
    }
  }

  /** The record was added by another request. */
  ghost predicate FromOthers(others: seq<seq<Fields>>, values: Fields) {
    exists i :: 0 <= i < |others| && values in others[i]
  }

  /** The stream grew by our records, in order and at these places, and by records of other requests in between. */
  ghost predicate Interleaved(before: seq<Fields>, after: seq<Fields>, added: seq<Fields>, places: seq<nat>,
                              others: seq<seq<Fields>>) {
    && before <= after && |places| == |added|
    && (forall i :: 0 <= i < |places| ==> |before| <= places[i] < |after| && after[places[i]] == added[i])
    && (forall i, j :: 0 <= i < j < |places| ==> places[i] < places[j])
    && forall n: nat :: |before| <= n < |after| && n !in places ==> FromOthers(others, after[n])
  }

  lemma AppendOthers(before: seq<Fields>, after: seq<Fields>, added: seq<Fields>, places: seq<nat>,
                     others: seq<seq<Fields>>, k: nat)
    requires Interleaved(before, after, added, places, others) && k < |others|
    ensures Interleaved(before, after + others[k], added, places, others)
  {
    var longer := after + others[k];
    forall n: nat | |before| <= n < |longer| && n !in places ensures FromOthers(others, longer[n]) {
      assert n < |after| ==> longer[n] == after[n];
      assert n >= |after| ==> longer[n] in others[k];
    }
  }

  lemma AppendOwn(before: seq<Fields>, after: seq<Fields>, added: seq<Fields>, places: seq<nat>,
                  others: seq<seq<Fields>>, values: Fields)
    requires Interleaved(before, after, added, places, others)
    ensures Interleaved(before, after + [values], added + [values], places + [|after|], others)
  {
    var longer, more := after + [values], places + [|after|];
    assert more[|places|] == |after|;
    assert forall n :: n in places ==> n in more;
    forall n: nat | |before| <= n < |longer| && n !in more ensures FromOthers(others, longer[n]) {
      assert n != |after|;
    }
  }

  lemma OnlyOurs(before: seq<Fields>, after: seq<Fields>, added: seq<Fields>, places: seq<nat>,
                 others: seq<seq<Fields>>)
    requires Interleaved(before, after, added, places, others)
    requires forall k :: 0 <= k < |others| ==> others[k] == []
    ensures forall n: nat :: |before| <= n < |after| ==> n in places
  {
    assert forall values :: !FromOthers(others, values);
  }

  lemma {:induction false} OneAfterAnother(base: nat, end: nat, places: seq<nat>, i: nat)
    requires base <= end && i <= |places| && forall k :: 0 <= k < |places| ==> base <= places[k] < end
    requires forall j, k :: 0 <= j < k < |places| ==> places[j] < places[k]
    requires forall n: nat :: base <= n < end ==> n in places
    ensures base + i <= end && forall k :: 0 <= k < i ==> places[k] == base + k
  {
    if i > 0 {
      OneAfterAnother(base, end, places, i - 1);
      if i > 1 {
        assert places[i - 2] == base + (i - 2) && places[i - 2] < places[i - 1];
      }
      assert base + i - 1 <= places[i - 1] < end;
      var n: nat := base + i - 1;
      assert n in places;
      var k :| 0 <= k < |places| && places[k] == n;
      assert k >= i - 1;
    }
  }

  /** If nobody else adds a record, ours follow each other. */
  lemma Undisturbed(before: seq<Fields>, after: seq<Fields>, added: seq<Fields>, places: seq<nat>,
                    others: seq<seq<Fields>>)
    requires Interleaved(before, after, added, places, others)
    requires forall k :: 0 <= k < |others| ==> others[k] == []
    ensures after == before + added
  {
    OnlyOurs(before, after, added, places, others);
    OneAfterAnother(|before|, |after|, places, |places|);
    if |after| > |before| {
      var last: nat := |after| - 1;
      assert last in places;
      var k :| 0 <= k < |places| && places[k] == last;
    }
    SameRecords(after, before + added);
  }

  lemma SameRecords(a: seq<Fields>, b: seq<Fields>)
    requires |a| == |b| && forall n :: 0 <= n < |a| ==> a[n] == b[n]
    ensures a == b
  {
  }

  /** Other requests add their records, and then one of ours is added if Redis takes it. */
  method AddOne(stream: JobsStream, values: Fields, ok: bool, others: seq<seq<Fields>>, k: nat,
                ghost before: seq<Fields>, ghost records: seq<Fields>, ghost places: seq<nat>)
    returns (added: bool, ghost place: nat)
    requires Interleaved(before, stream.entries, records, places, others) && k < |others|
    modifies stream
    ensures added == ok
    ensures if ok then Interleaved(before, stream.entries, records + [values], places + [place], others)
            else Interleaved(before, stream.entries, records, places, others)
  {
    AppendOthers(before, stream.entries, records, places, others, k);
    stream.AddAll(others[k]);
    AppendOwn(before, stream.entries, records, places, others, values);
    place := |stream.entries|;
    added := stream.XAdd(values, ok);
  }

  datatype SubJobSpec = SubJobSpec(jobID: string, vus: int)

  /** `buildSubJobs`, with the fresh job IDs it generates. */
  method BuildSubJobs(totalVUs: int, fanout: int, freshIDs: seq<string>) returns (specs: seq<SubJobSpec>)
    requires totalVUs >= 0 && 1 <= fanout == |freshIDs|
    ensures |specs| == fanout && forall i :: 0 <= i < fanout ==> specs[i].jobID == freshIDs[i]
    ensures FairSplit(VUsOf(specs), totalVUs)
    ensures fanout <= totalVUs ==> forall i :: 0 <= i < fanout ==> specs[i].vus >= 1
  {
    var counts := SplitVUs(totalVUs, fanout);
    specs := [];
    for i := 0 to fanout
      invariant |specs| == i && forall k :: 0 <= k < i ==> specs[k] == SubJobSpec(freshIDs[k], counts[k])
    {
      specs := specs + [SubJobSpec(freshIDs[i], counts[i])];
    }
    assert VUsOf(specs) == counts[..];
  }

  function VUsOf(specs: seq<SubJobSpec>): seq<int> {
    seq(|specs|, i requires 0 <= i < |specs| => specs[i].vus)
  }

  /** The first n records of a test. */
  function Records(testID: string, specs: seq<SubJobSpec>, url: string, duration: int, rampPattern: string,
                   n: nat): seq<Fields>
    requires n <= |specs|
  {
    seq(n, i requires 0 <= i < n =>
      RecordOf(JobRecord(specs[i].jobID, testID, url, specs[i].vus, duration, rampPattern)))
  }

  lemma RecordsNext(testID: string, specs: seq<SubJobSpec>, url: string, duration: int, rampPattern: string, n: nat)
    requires n < |specs|
    ensures Records(testID, specs, url, duration, rampPattern, n + 1)
         == Records(testID, specs, url, duration, rampPattern, n)
            + [RecordOf(JobRecord(specs[n].jobID, testID, url, specs[n].vus, duration, rampPattern))]
  {
  }

  /** `Enqueue`: `answers[i]` says whether Redis accepts the i-th record, before which other requests add
      `others[i]`. The first refusal ends it, and the records before it stay on the stream. */
  method Enqueue(stream: JobsStream, url: string, rampPattern: string, totalVUs: int, duration: int, fanout: int,
                 testID: string, freshIDs: seq<string>, answers: seq<bool>, others: seq<seq<Fields>>)
    returns (r: Result<(string, seq<string>), ()>, ghost specs: seq<SubJobSpec>, ghost places: seq<nat>)
    requires totalVUs >= 0 && 1 <= fanout == |freshIDs| <= |answers| == |others|
    modifies stream
    ensures |specs| == fanout && FairSplit(VUsOf(specs), totalVUs)
    ensures forall i :: 0 <= i < fanout ==> specs[i].jobID == freshIDs[i]
    ensures fanout <= totalVUs ==> forall i :: 0 <= i < fanout ==> specs[i].vus >= 1
    ensures var n := |places|;
            && n <= fanout && (forall i :: 0 <= i < n ==> answers[i]) && (n < fanout ==> !answers[n])
            && Interleaved(old(stream.entries), stream.entries, Records(testID, specs, url, duration, rampPattern, n),
                           places, others)
            && if n == fanout then r == Ok((testID, freshIDs)) else r.Err?
  {
    var built := BuildSubJobs(totalVUs, fanout, freshIDs);
    specs, places := built, [];
    var subJobIDs: seq<string> := [];
    for i := 0 to fanout
      invariant subJobIDs == freshIDs[..i] && |places| == i && forall k :: 0 <= k < i ==> answers[k]
      invariant Interleaved(old(stream.entries), stream.entries,
                            Records(testID, specs, url, duration, rampPattern, i), places, others)
    {
      subJobIDs := subJobIDs + [built[i].jobID];
      var record := RecordOf(JobRecord(built[i].jobID, testID, url, built[i].vus, duration, rampPattern));
      ghost var records := Records(testID, specs, url, duration, rampPattern, i);
      var added;
      ghost var place;
      added, place := AddOne(stream, record, answers[i], others, i, old(stream.entries), records, places);
      if !added {
        return Err(()), specs, places;
      }
      places := places + [place];
      RecordsNext(testID, specs, url, duration, rampPattern, i);
    }
    assert freshIDs[..fanout] == freshIDs;
    return Ok((testID, subJobIDs)), specs, places;
  }

  datatype Request = Request(url: string, vus: int, durationSeconds: int, rampPattern: string, workerCount: int)

  /** What the handler learns from the rest of the coordinator: who is asking, the request if its body
      parses, whether its URL is an http(s) URL with a host, whether that host is on the allowlist or verified by the
      user, and how many workers are live if that can be told. */
  datatype Surroundings = Surroundings(
    user: Option<string>,
    request: Option<Request>,
    urlUsable: bool,
    domainAllowed: bool,
    liveWorkers: Option<nat>)

  datatype Response =
    | Unauthorized
    | TooManyRequests
    | BadRequest
    | Forbidden
    | CapacityUnknown
    | NoWorkers
    | EnqueueFailed
    | Accepted(testID: string, subJobIDs: seq<string>, clamped: bool)

  function Min(a: int, b: int): int {
    if a < b then a else b
  }

  /** The request passes every check before the capacity check. */
  predicate Admissible(s: Surroundings, coolingDown: bool) {
    && s.user.Some? && !coolingDown && s.request.Some? && s.urlUsable && s.domainAllowed
    && 1 <= s.request.value.vus <= MAX_VUS_PER_TEST
    && 1 <= s.request.value.durationSeconds <= MAX_TEST_SECONDS
    && IsRampPattern(s.request.value.rampPattern)
  }

  /** What a request may ask for, in numbers. */
  predicate WithinCaps(req: Request) {
    && 1 <= req.vus <= 200 && 1 <= req.durationSeconds <= 300
    && (req.rampPattern == "steady" || req.rampPattern == "ramp")
  }

  /** How many workers the request asks for, within the caps. */
  function Wanted(req: Request): int {
    Min(Min(if req.workerCount < 1 then 1 else req.workerCount, MAX_FANOUT), req.vus)
  }

  /** So many workers are no more than the request asks for, at least one, than five, and than it has VUs. */
  predicate Permitted(k: int, req: Request) {
    k <= 5 && k <= req.vus && (k <= 1 || k <= req.workerCount)
  }

  lemma WantedIsMost(req: Request)
    ensures forall k :: k <= Wanted(req) <==> Permitted(k, req)
  {
  }

  /** The clamps of `handleCreateTest`, one after the other. */
  method Fanout(req: Request, liveWorkers: nat) returns (fanout: int, clamped: bool)
    requires req.vus >= 1 && liveWorkers >= 1
    ensures fanout == Min(Wanted(req), liveWorkers) && 1 <= fanout
    ensures forall k :: k <= fanout <==> Permitted(k, req) && k <= liveWorkers
    ensures clamped <==> fanout < Wanted(req)
    ensures clamped <==> liveWorkers < 5 && liveWorkers < req.vus && liveWorkers < req.workerCount
  {
    fanout := req.workerCount;
    if fanout <= 0 {
      fanout := 1;
    }
    if fanout > MAX_FANOUT {
      fanout := MAX_FANOUT;
    }
    if fanout > req.vus {
      fanout := req.vus;
    }
    clamped := false;
    if fanout > liveWorkers {
      clamped := true;
      fanout := liveWorkers;
    }
  }

  /** The records of an accepted test: a fair split of its VUs, each record one the worker will run. */
  ghost predicate Enqueued(records: seq<Fields>, testID: string, subJobIDs: seq<string>, req: Request) {
    && |records| == |subJobIDs|
    && (exists shares :: FairSplit(shares, req.vus) && |shares| == |records|
          && forall i :: 0 <= i < |records| ==>
               ParseJob(records[i]) == Ok(JobRecord(subJobIDs[i], testID, req.url, shares[i], req.durationSeconds,
                                                    req.rampPattern)))
    && ReadyJobs(records, testID, subJobIDs)
  }

  /** The records are read as these sub-jobs of the test, each ready to run. */
  ghost predicate ReadyJobs(records: seq<Fields>, testID: string, subJobIDs: seq<string>) {
    && |records| == |subJobIDs|
    && forall i :: 0 <= i < |records| ==> JobOf(records[i]) == Messages.Job(testID, subJobIDs[i], true)
  }

  lemma RecordsEnqueued(testID: string, specs: seq<SubJobSpec>, ids: seq<string>, req: Request, n: nat)
    requires n <= |specs| == |ids| && forall i :: 0 <= i < |specs| ==> specs[i].jobID == ids[i] && specs[i].vus >= 1
    requires FairSplit(VUsOf(specs), req.vus)
    requires req.vus <= MAX_VUS_PER_TEST && 1 <= req.durationSeconds <= MAX_TEST_SECONDS
    requires IsRampPattern(req.rampPattern)
    ensures n == |specs| ==>
              Enqueued(Records(testID, specs, req.url, req.durationSeconds, req.rampPattern, n), testID, ids, req)
    ensures forall i :: 0 <= i < n ==>
              JobOf(Records(testID, specs, req.url, req.durationSeconds, req.rampPattern, n)[i]).testID == testID
  {
    var records := Records(testID, specs, req.url, req.durationSeconds, req.rampPattern, n);
    var shares := VUsOf(specs);
    SharesAreParts(shares, |shares|);
    assert shares[..|shares|] == shares;
    forall i | 0 <= i < n
      ensures ParseJob(records[i]) == Ok(JobRecord(ids[i], testID, req.url, shares[i], req.durationSeconds,
                                                   req.rampPattern))
      ensures JobOf(records[i]) == Messages.Job(testID, ids[i], true)
    {
      assert shares[i] == specs[i].vus;
      RecordReadsBack(JobRecord(specs[i].jobID, testID, req.url, specs[i].vus, req.durationSeconds, req.rampPattern));
    }
  }

  /** No share exceeds the total. */
  lemma {:induction false} SharesAreParts(shares: seq<int>, n: nat)
    requires n <= |shares| && forall i :: 0 <= i < |shares| ==> shares[i] >= 0
    ensures Sum(shares[..n]) >= 0 && forall i :: 0 <= i < n ==> shares[i] <= Sum(shares[..n])
  {
    if n > 0 {
      SharesAreParts(shares, n - 1);
      assert shares[..n][..n - 1] == shares[..n - 1];
    }
  }

  /** The refusals of `handleCreateTest`, in order. */
  method Refuse(around: Surroundings, coolingDown: bool) returns (refusal: Option<Response>)
    ensures refusal.None? <==>
              Admissible(around, coolingDown) && around.liveWorkers.Some? && around.liveWorkers.value >= 1
    ensures refusal == Some(CapacityUnknown) <==> Admissible(around, coolingDown) && around.liveWorkers.None?
    ensures refusal == Some(NoWorkers) <==> Admissible(around, coolingDown) && around.liveWorkers == Some(0)
    ensures refusal == Some(Unauthorized) <==> around.user.None?
    ensures refusal == Some(TooManyRequests) <==> around.user.Some? && coolingDown
    ensures refusal == Some(Forbidden) <==>
              around.user.Some? && !coolingDown && around.request.Some? && around.urlUsable && !around.domainAllowed
    ensures refusal == Some(BadRequest) <==>
              && around.user.Some? && !coolingDown
              && (around.request.None? || !around.urlUsable
                  || (around.domainAllowed && !WithinCaps(around.request.value)))
    ensures refusal.Some? ==> !refusal.value.Accepted? && refusal.value != EnqueueFailed
  {
    if around.user.None? {
      return Some(Unauthorized);
    }
    if coolingDown {
      return Some(TooManyRequests);
    }
    if around.request.None? || !around.urlUsable {
      return Some(BadRequest);
    }
    if !around.domainAllowed {
      return Some(Forbidden);
    }
    var req := around.request.value;
    if req.vus <= 0 || req.vus > MAX_VUS_PER_TEST {
      return Some(BadRequest);
    }
    if req.durationSeconds <= 0 || req.durationSeconds > MAX_TEST_SECONDS {
      return Some(BadRequest);
    }
    if !IsRampPattern(req.rampPattern) {
      return Some(BadRequest);
    }
    if around.liveWorkers.None? {
      return Some(CapacityUnknown);
    }
    if around.liveWorkers.value == 0 {
      return Some(NoWorkers);
    }
    return None;
  }

  /** The clamps and the records of an admitted request. */
  method Submit(stream: JobsStream, req: Request, liveWorkers: nat, testID: string, freshIDs: seq<string>,
                answers: seq<bool>, others: seq<seq<Fields>>)
    returns (enqueued: Result<(string, seq<string>), ()>, clamped: bool, ghost added: seq<Fields>,
             ghost places: seq<nat>)
    requires liveWorkers >= 1 && |freshIDs| == |answers| == |others| == MAX_FANOUT
    requires 1 <= req.vus <= MAX_VUS_PER_TEST && 1 <= req.durationSeconds <= MAX_TEST_SECONDS
    requires IsRampPattern(req.rampPattern)
    modifies stream
    ensures Interleaved(old(stream.entries), stream.entries, added, places, others)
    ensures forall i :: 0 <= i < |added| ==> JobOf(added[i]).testID == testID
    ensures var f := Min(Wanted(req), liveWorkers);
            && 1 <= f <= 5 && f <= req.vus && f <= liveWorkers && (clamped <==> f < Wanted(req))
            && (enqueued.Ok? <==> forall i :: 0 <= i < f ==> answers[i])
            && (enqueued.Ok? ==>
                  enqueued.value == (testID, freshIDs[..f]) && Enqueued(added, testID, freshIDs[..f], req))
            && (enqueued.Err? ==> |added| < f && !answers[|added|] && forall i :: 0 <= i < |added| ==> answers[i])
  {
    var fanout;
    fanout, clamped := Fanout(req, liveWorkers);
    ghost var specs;
    enqueued, specs, places := Enqueue(stream, req.url, req.rampPattern, req.vus, req.durationSeconds, fanout,
                                       testID, freshIDs[..fanout], answers, others);
    added := Records(testID, specs, req.url, req.durationSeconds, req.rampPattern, |places|);
    RecordsEnqueued(testID, specs, freshIDs[..fanout], req, |places|);
  }

  /** The user registered a test less than the cooldown ago. */
  predicate CoolsDown(lastSubmitted: map<string, nat>, user: Option<string>, cooldown: nat, now: nat) {
    user.Some? && user.value in lastSubmitted && now < lastSubmitted[user.value] + cooldown
  }

  /** `handleCreateTest`, which asks for the cooldown at `now` and registers the test at `createdAt`. The request, the
      domain check and the worker count come from `around`; `testID` and `freshIDs` are what the UUID generator
      yields, `answers` what Redis replies to each record, and `others` what other requests add before each. Every
      outcome but `Accepted` leaves the store alone, and every outcome but `Accepted` and `EnqueueFailed` leaves the
      stream alone. */
  method HandleCreateTest(store: TestStore, stream: JobsStream, around: Surroundings, testID: string,
                          freshIDs: seq<string>, answers: seq<bool>, others: seq<seq<Fields>>, cooldown: nat, now: nat,
                          createdAt: nat)
    returns (response: Response, ghost added: seq<Fields>, ghost places: seq<nat>)
    requires store.RecordOK() && |freshIDs| == |answers| == |others| == MAX_FANOUT
    requires forall u :: u in store.lastSubmitted ==> store.lastSubmitted[u] <= now <= createdAt
    modifies store, stream
    ensures store.RecordOK() && Interleaved(old(stream.entries), stream.entries, added, places, others)
    ensures var coolingDown := CoolsDown(old(store.lastSubmitted), around.user, cooldown, now);
            var admitted :=
              Admissible(around, coolingDown) && around.liveWorkers.Some? && around.liveWorkers.value >= 1;
            && (response.Accepted? <==> admitted && AllTaken(answers, around))
            && (response == EnqueueFailed <==> admitted && !AllTaken(answers, around))
            && (response == CapacityUnknown <==> Admissible(around, coolingDown) && around.liveWorkers.None?)
            && (response == NoWorkers <==> Admissible(around, coolingDown) && around.liveWorkers == Some(0))
            && (response == TooManyRequests <==> coolingDown)
            && (response == BadRequest <==>
                  && around.user.Some? && !coolingDown
                  && (around.request.None? || !around.urlUsable
                      || (around.domainAllowed && !WithinCaps(around.request.value))))
    ensures response == EnqueueFailed ==> forall i :: 0 <= i < |added| ==> JobOf(added[i]).testID == testID
    ensures response == EnqueueFailed ==>
              |added| < MAX_FANOUT && !answers[|added|] && forall i :: 0 <= i < |added| ==> answers[i]
    ensures response.Accepted? ==>
              var req, f := around.request.value, Min(Wanted(around.request.value), around.liveWorkers.value);
              && response == Accepted(testID, freshIDs[..f], f < Wanted(req))
              && 1 <= f <= 5 && f <= req.vus && f <= around.liveWorkers.value
              && Enqueued(added, testID, freshIDs[..f], req) && WithinCaps(req)
              && store.model == After(old(store.model), Op.Register(testID, around.user.value, req.url, freshIDs[..f]))
              && store.lastSubmitted == old(store.lastSubmitted)[around.user.value := createdAt]
    ensures response.Accepted? ==>
              && (forall u :: SnapshotFor(store.model, testID, u).Some? <==> u == around.user.value)
              && SnapshotFor(store.model, testID, around.user.value).value.url == around.request.value.url
    ensures !response.Accepted? ==>
              && store.model == old(store.model) && store.lastSubmitted == old(store.lastSubmitted)
              && (response != EnqueueFailed ==> added == [] && stream.entries == old(stream.entries))
  {
    added, places := [], [];
    var remaining: nat := 0;
    if around.user.Some? {
      remaining := store.CooldownRemaining(around.user.value, cooldown, now);
    }
    var refusal := Refuse(around, remaining > 0);
    if refusal.Some? {
      return refusal.value, [], [];
    }
    var req := around.request.value;
    var enqueued, clamped;
    enqueued, clamped, added, places :=
      Submit(stream, req, around.liveWorkers.value, testID, freshIDs, answers, others);
    if enqueued.Err? {
      return EnqueueFailed, added, places;
    }
    store.Register(testID, around.user.value, req.url, enqueued.value.1, createdAt);
    response := Accepted(testID, enqueued.value.1, clamped);
  }

  /** Redis takes every record of the admitted request. */
  predicate AllTaken(answers: seq<bool>, around: Surroundings)
    requires |answers| == MAX_FANOUT
  {
    around.request.Some? && around.liveWorkers.Some? &&
    forall i :: 0 <= i < Min(Wanted(around.request.value), around.liveWorkers.value) ==> answers[i]
  }
}
