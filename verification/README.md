# Sentry Load: a verified model

Sentry Load is a distributed load tester. A coordinator admits a test, splits it into sub-jobs and puts them on a
Redis stream; workers take them under leases, run them, and publish snapshots with mergeable latency sketches; the
coordinator folds the snapshots into one view of the test, which it serves, pushes to live viewers and persists.
This project models that path in Dafny and proves what the code and its comments promise about it.

The files follow the program.

- Sketches: `Buckets`, `Histograms`, `Quantiles` (which sample a percentile is), `SketchWire` (the text format),
  `WorkerSketch` and `CoordinatorSketch` (the code of both sides), `SketchAccuracy` (the accuracy end to end),
  `Metrics`, `LoadRun`.
- The queue: `Lease` is the protocol as a timed state machine over the consumer group, with crash-stop workers and
  listing and claiming as separate steps, and with metrics tickers that may outlive the run they belong to;
  `LeaseSafety`, `LeaseRetries`, `LeaseWords`, `LeaseLog`, `LeaseLimits` and `LeaseProgress` are about its runs;
  `JobQueue` is one worker's code over it, while others interfere between any two of its Redis calls.
- The coordinator: `TestLog` gives the state of all tests as a function of what was registered and reported;
  `TestStores` is the store that is updated in place, proved to be that function; `Snapshots`, `SnapshotAccuracy`,
  `Subscribers`, `OtherHandlers`, `LiveView` and `LiveDelivery` are what is derived from it and pushed.
- The ends: `WorkerJobs` and `Admission` (a request becomes job records), `Composition` and `Journey` (an accepted
  test ends up done), `Identities`, `Persisters`, `UserStores` and `DomainStores` (what survives a restart).
- `Wrappers`, `Decimal`, `Strings`, `Sorting`, `Counting`, `JobOrder` and `Messages` are what these share.

Classes stand where the program updates objects in place. Each carries ghost fields that say what it means as a
value, and its methods are proved against functions of those values. A Go map's unspecified iteration order is a
nondeterministic choice of the next key, so results hold for every order.

## Where the code and its comments differ

For each of these there are theorems that say exactly when the code does what is written.

- Percentiles "within 1% of the true value" (`coordinator/teststore.go:282-283`, `worker/sketch.go:11-20`): of the
  sketch that is true exactly for latencies of at least 991ns, because everything up to 1us is reported as 1us
  (`BucketAccuracy`, `TestWidePercentile`). Of the snapshot it is not true even then, because the value is rounded to
  a tenth of a millisecond: a test of one request of 148us shows 0.1ms (`SnapshotIsOff`). What is shown is always
  within 1% and 0.05ms, and 0.0 up to 49us. It is within 1% if and only if rounding moves the value of the latency's
  bucket by no more than the bucket leaves on that side: downwards 0.99 times the distance to its upper end, upwards
  1.01 times the distance to its lower end. For that it is enough that everything within 1% of the latency rounds to
  a number that is within 1% of it too (`ReportedPercentiles`, `SnapshotPercentiles`).
- A test finishes once its jobs are acked (`worker/reclaim.go:29-32`): not if a late metrics tick has the last word, or
  the last word came too early. The worker's ticker is told to stop but not waited for (`worker/loadgen.go:76-106`),
  so it may publish a not-done update after the final one, which the coordinator takes as the sub-job being open
  again. And the handler enqueues before it registers (`coordinator/handlers.go:373-379`); what is applied in between
  is lost (`EarlyReportsAreLost`). As long as leases hold, an accepted test whose entries are all acked is reported
  done if and only if, about each of them, no late tick is the last message and that message was applied after the
  registration, whatever else the coordinator serves (`AcceptedTestFinishes`, `AckedTestIsDone`,
  `AckedTestIsDoneExactlyWhenPrompt`).
- Whatever becomes of the leases: a test whose jobs are acked is reported done for good if and only if it is now and
  no live worker still runs a job of it or has its ticker lingering (`DoneForGood`, `NothingFollowsTheAck`); an acked
  job whose last word does not end it, and that no live worker can end, leaves its test open for ever (`StaysOpen`,
  `LateTickLeavesTestOpen`); and everything else is recoverable (`EveryEntryCanBeAcked`, `CanStillFinish`).
- The live view "until done=true" (`coordinator/live.go:20-22`): no update is missed between the subscription and
  the second look, but a full channel drops updates, the last one included. A viewer is told that the test is done
  exactly if some done snapshot was offered while fewer than four were queued (`DoneReachesTheViewer`,
  `DoneCanBeLost`).
- "Without re-triggering" (`coordinator/teststore.go:153-157`): over any stretch of the stream the finished signal
  fires once for every time the test is opened after it was all done, and once more if it is done at the end and was
  not at the start (`FiringsBalance`). So it fires at most once if and only if the test, once all done, is not opened
  and closed again (`FinishedAtMostOnce`). A message opens it exactly if it is a not-done report about one of its
  sub-jobs (`OpensExactly`); the late tick is such a report (`DoneStaysLast`, `LateTickReopens`).
- Counts are "cumulative since the job started" (`worker/main.go:204-207`): published counts go back if and only if a
  tick that sampled less is still to be published at the final update (`CountsNeverGoBack`, `StraddlingTickGoesBack`).
  The Prometheus totals are right all the same (`CountsOverEveryRun`).
- A run that the breaker aborted is reported so (`worker/loadgen.go:149-155`): the final update says it if and only if
  the tick marked the trip before that update was made up (`OneDoneUpdate`). A tick between the two says that the
  circuit broke, and the final update takes it back (`TripMissed`).
- A job that does not parse or validate is acked without any message (`worker/main.go:186-199`), so a test with
  such a record is never done unless it is abandoned (`AckedTestIsDone`). No record the coordinator writes is of that
  kind (`RecordReadsBack`, `HandleCreateTest`).
- The lease constants (`worker/reclaim.go:38-42`): the protocol is safe if and only if the longest a worker may go
  without touching its entry, with all failed renewals, jitter and delays, is less than 45s (`SafeExactlyWhenPrompt`);
  with less than 5s of delays that is three failed renewals in a row and not four (`SafeExactlyUpToThreeFailures`).
  The bound of three starts holds, for every failure and delay of renewals, exactly if a worker claims less than 45s
  after it listed (`StartsBoundedExactlyByListGrace`).
- "A failure never leaves memory claiming a verification that won't survive a restart"
  (`coordinator/domainstore.go:82-85`): true however the write failed (`NothingIsLost`). The converse is not
  promised and does not hold: a write that failed but reached the database shows up after the restart, unless it
  was redundant (`LandedWriteDisagrees`), or a restart, a later write to the same row or the expiry of the session
  made up for it since (`AgreementOverRuns`).

## Assumptions

- Timing, for lease safety: a renewal tick fires within a bounded jitter, a bounded number of renewals in a row
  fails, acking and abandoning take a bounded time, and together they stay below 45s (`Lease.Prompt`). For the bound
  on starts: claiming follows listing within less than 45s, and nothing else. `LeaseLimits` shows that neither can be
  relaxed. `JobQueue` assumes both (`Lease.Tolerable`).
- Workers stop for good when they crash. Processes may share a consumer name, and a restarted one is new.
- A metrics tick samples, marks a trip and publishes in three steps, one tick at a time, and the end of a run takes
  the results and the mark in one step and publishes in another; each publish is one step. A tick may do any of it
  after the final update of its run.
- Test and job IDs are fresh. Where a store is said to serve a test, it registered it before it applied a message about
  it; the other case is `DoneIfHeard`.
- Session tokens are hashed by an arbitrary function that is a parameter of the store.

## Model

| member | source | states |
|---|---|---|
| Buckets.FirstCover | worker/sketch.go:37-43 | the search for the bucket ends, and ends at the least power of gamma that covers the latency |
| Buckets.CoverFits | worker/sketch.go:37-43 | the bucket of every possible duration fits an int, so it survives printing and parsing |
| Buckets.BucketCovers | worker/sketch.go:34-43 | above 1us the bucket is the one and only k with gamma^(k-1) < us <= gamma^k |
| Buckets.BucketMonotone | worker/sketch.go:37-43 | slower requests never land in a lower bucket |
| Buckets.BucketAccuracy | coordinator/sketch.go:97-105 | a bucket's representative is within 1% of the sample if and only if the sample took at least 991ns; up to 1us it is 1us |
| Buckets.SubMicrosecondSampleIsOff | worker/sketch.go:34-43 | a 500ns sample is reported at twice its length |
| Buckets.BucketValueMonotone | coordinator/sketch.go:97-105 | representatives never decrease with the bucket and are at least 1us |
| Decimal.AtoiInvertsItoa | coordinator/sketch.go:49-52 | parsing a printed int64 gives it back |
| Decimal.ParseUintInvertsItoa | coordinator/sketch.go:53-55 | parsing a printed count gives it back |
| Decimal.DigitsArePositional | coordinator/sketch.go:49-55 | digits are read in base ten, the most significant first |
| Decimal.AtoiSigned | coordinator/sketch.go:49-52 | after a sign Atoi takes one digit or more, of a value within int64, and nothing else |
| Decimal.AtoiUnsigned | coordinator/sketch.go:49-52 | and likewise without a sign |
| Decimal.ParseUintAccepts | coordinator/sketch.go:53-56 | ParseUint takes digits only, of a value within uint64 |
| Strings.SplitInvertsJoin | coordinator/sketch.go:44 | splitting joined pairs at the commas gives the pairs back |
| Strings.JoinInvertsSplit | coordinator/sketch.go:44 | joining undoes splitting, and no part holds the separator |
| Strings.CutExactly | coordinator/sketch.go:45-48 | a cut is at the first separator, and fails exactly if there is none |
| Histograms.MergeIsHomomorphism | coordinator/sketch.go:63-69 | merging the histograms of two lists gives the histogram of both lists together |
| Histograms.SamplesOfMerge | coordinator/sketch.go:63-69 | a merge holds exactly the samples of both sides, so the total stays the sum of the counts |
| Histograms.MergeAllOrderFree | coordinator/sketch.go:63-69 | the order in which sketches are merged does not matter |
| SketchWire.DecodeInvertsRender | worker/sketch.go:46-68 | any histogram with uint64 counts survives the wire format |
| SketchWire.PairErrorsAreTrue | coordinator/sketch.go:44-56 | a rejected bucket pair has no colon, or the number that is named around its first colon does not parse |
| SketchWire.RoundTrip | worker/sketch.go:45-68 | decoding what a worker encodes yields exactly its histogram, with the number of requests as total |
| SketchWire.SampleText | worker/sketch.go:27-30 | two samples of bucket 0 and one of bucket 5 are sent as v1:0:2,5:1 |
| SketchWire.DecodesExactly | coordinator/sketch.go:35-61 | the decoder accepts the prefix v1: followed by nothing or by pairs that all parse, and nothing else |
| SketchWire.PairsAre | coordinator/sketch.go:45-56 | a pair is an index before the first colon and a count after it |
| SketchWire.PairsAddUp | coordinator/sketch.go:57-58 | pairs add up wherever the list is cut, so a bucket may come more than once |
| SketchWire.EncodingIsCanonical | worker/sketch.go:52-67 | two encodings are the same text exactly when the bucketed latencies agree as multisets |
| WorkerSketch.SortedKeyList | worker/sketch.go:52-56 | collecting map keys in any order and sorting them gives the one ascending list |
| WorkerSketch.EncodeLatencySketch | worker/sketch.go:46-68 | the encoder's loops print the canonical text of the latencies' histogram |
| CoordinatorSketch.LatencySketch.Decode | coordinator/sketch.go:35-61 | the decoding loop accepts and rejects exactly as the wire format says, with the same error, and keeps total equal to the sum of the counts |
| CoordinatorSketch.LatencySketch.Merge | coordinator/sketch.go:63-69 | adds the other sketch in place, whatever the iteration order, even when it is the same object |
| CoordinatorSketch.LatencySketch.QuantileMS | coordinator/sketch.go:71-95 | the cumulative walk returns the representative of a bucket with at most floor(q*(n-1)) of the n samples in lower buckets and more than that in it and lower ones; nothing exactly for an empty sketch; the return after the loop is unreachable |
| Quantiles.SortedQuantile | coordinator/sketch.go:71-79 | of any list, the sample at index floor(q*(n-1)) in sorted order has at most that many samples below it, and more than that at most it |
| Quantiles.OneQuantile | coordinator/sketch.go:71-79 | only one sample is such |
| Quantiles.QuantileEnds | coordinator/sketch.go:71-79 | for q=0 it is the least sample and for q=1 the greatest |
| Quantiles.MedianOfThree | worker/metrics.go:70-73 | the p50 of three samples is the middle one |
| CoordinatorSketch.WalkStep | coordinator/sketch.go:82-93 | the walk passes the rank exactly at that bucket |
| SketchAccuracy.MergedSketchIsSketchOfAll | coordinator/sketch.go:63-69 | merging all workers' sketches gives the sketch of all requests together |
| SketchAccuracy.SortedBuckets | coordinator/sketch.go:71-95 | bucketing commutes with sorting |
| SketchAccuracy.QuantileOfSketch | coordinator/sketch.go:71-95 | a quantile of the sketch is the representative of the bucket of the exact quantile |
| SketchAccuracy.TestWidePercentile | coordinator/teststore.go:280-286 | encode at every worker, decode, merge, read: within 1% of the quantile of all requests together (counted as above) if and only if that is at least 991ns, and 1us at or below 1us |
| SketchAccuracy.QuantileMonotone | coordinator/sketch.go:71-95 | higher quantiles never read lower |
| SketchAccuracy.ReportedPercentiles | coordinator/teststore.go:349-373 | after rounding, for every latency: within 1% and 0.05ms; 0.0 up to 49us; within 1% if and only if rounding moves the bucket's value by no more than the bucket leaves on that side of the latency; and p50 <= p95 <= p99 |
| SketchAccuracy.RoundsToTenths | coordinator/teststore.go:366-371 | what is shown is a whole number of tenths of a millisecond, at most half a tenth away, half a tenth up |
| SketchAccuracy.RoundingLosesAccuracy | coordinator/teststore.go:280-286 | one request of 148us is reported as 0.1ms at every percentile, which is not within 1% |
| Metrics.ComputeMetrics | worker/metrics.go:50-84 | requests and errors by number, requests per second of the elapsed time, p50, p95 and p99 as the quantiles of the latencies, in order, and the sketch of the same latencies |
| Metrics.ErrorsAreFailures | worker/metrics.go:60-67 | errors are the results that failed outright or have a status of 500 or more, and no others |
| Metrics.TripsExactly | worker/metrics.go:28-48 | the breaker trips exactly at 20 requests or more, at least half of which failed outright or got a 5xx |
| Metrics.ServerErrorsTrip | worker/metrics.go:28-67 | twenty results of one status trip it if and only if the status is 500 or more |
| Metrics.WorkerAndCoordinatorAgree | worker/metrics.go:69-83 | the p95 the coordinator reads off one worker's sketch is within 1% of that worker's own p95 if and only if that is at least 991ns, and 1us if that is at most 1us |
| LoadRun.CountsOverEveryRun | worker/main.go:201-216 | over every interleaving published counts decrease only when a tick straddles the final update, errors never exceed requests, and the Prometheus totals are the counts last published, after the final update the run's own |
| LoadRun.CountsNeverGoBack | worker/main.go:201-216 | published counts never decrease, in every continuation from the final update on, if and only if no tick is then on its way with fewer requests or errors than the run has |
| LoadRun.StraddlingTickGoesBack | worker/loadgen.go:76-106 | such a tick publishes fewer requests than the final update before it |
| LoadRun.OneDoneUpdate | worker/loadgen.go:146-156 | exactly one update is done; it counts the requests that ended before it was made up and those of them that failed, and says circuit-broken if and only if a tick marked a trip before that |
| LoadRun.UpdatesAreSamples | worker/loadgen.go:84-95 | every other update has the counts of the results at the time some tick sampled them, and says circuit-broken exactly if those are at least 20 with at least half of them errors |
| LoadRun.UndisturbedTick | worker/loadgen.go:84-95 | a tick with nothing in between publishes one update with the counts so far, and after a trip marks the run aborted and stops ticking |
| LoadRun.TripMissed | worker/loadgen.go:85-96 | a trip sampled before and marked after that: its tick says circuit-broken and the final update after it does not |
| LoadRun.DoneIsLastExactlyWithoutLateTick | worker/loadgen.go:76-106 | the done update is the last one if and only if no tick publishes after it |
| LoadRun.DoneStaysLast | worker/loadgen.go:76-106 | the final update is the last in every continuation if and only if the ticker has stopped by then, after a trip or because the time is over |
| LoadRun.LateTickReopens | worker/loadgen.go:76-106 | a late tick publishes a not-done update after the done one |
| LoadRun.Runner.PublishMetrics | worker/main.go:201-216 | advances the totals by what was not counted yet |
| LoadRun.Runner.OnTick | worker/loadgen.go:84-85 | a tick begins: it samples the results and computes |
| LoadRun.Runner.MarkTrip | worker/loadgen.go:86-90 | the tick marks a trip if it sampled one |
| LoadRun.Runner.EndTick | worker/loadgen.go:91-95 | the rest of the tick: publish, and after a trip stop ticking |
| LoadRun.Runner.StopTicking | worker/loadgen.go:79-83 | the ticker returns because the time is over |
| LoadRun.Runner.MakeFinal | worker/loadgen.go:146-153 | the final update takes all the results and the mark |
| LoadRun.Runner.Finish | worker/loadgen.go:154 | the final update is published |
| LeaseRetries.ListingIsFirstTen | worker/reclaim.go:100-111 | the listing holds only entries idle for 45s, in id order with their delivery counts, at most ten, and passes none over for a later one |
| LeaseRetries.NewJobsInOrder | worker/main.go:107-131 | new jobs go out in stream order, each to a worker that runs it, as its first delivery |
| LeaseRetries.LostRepliesCount | worker/reclaim.go:114-131 | a read or claim whose reply is lost counts as a delivery and starts nothing |
| LeaseSafety.HeldIsFresh | worker/reclaim.go:13-42 | an entry a live worker holds never looks stale |
| LeaseSafety.StepKeepsLeaseInv | worker/reclaim.go:53-133 | every step of every worker and lingering ticker, every crash and every tick of the clock keeps the invariant |
| LeaseSafety.NoEntryIsLost | worker/reclaim.go:11-16 | whatever the delays and failures, in every reachable state each entry is exactly one of undelivered, pending or acked |
| LeaseSafety.ReachableIsSafe | worker/reclaim.go:91-133 | in every reachable state each entry is exactly one of undelivered, pending or acked, at most one live worker holds it, and no claim of a held entry can succeed |
| LeaseRetries.ListedCountIsCurrent | worker/reclaim.go:114-131 | a claim that succeeds finds the delivery count that was listed, if it comes less than 45s after the listing, whatever became of the leases |
| LeaseRetries.ClaimDecision | worker/reclaim.go:114-131 | a claim succeeds exactly if the entry is idle for 45s, counts one delivery, and runs the job if it was delivered fewer than 3 times and abandons it otherwise; one that fails touches nothing |
| LeaseRetries.StartsAreBounded | worker/reclaim.go:13-42 | no job is started more than three times in any run whose claims come less than 45s after their listings, even if leases are lost |
| LeaseLimits.SafeExactlyWhenPrompt | worker/reclaim.go:24-42 | for all delays: every reachable state is safe, and equally exclusive, if and only if failed renewals, jitter and ack delay together stay below 45s |
| LeaseLimits.SafeExactlyUpToThreeFailures | worker/reclaim.go:24-42 | so with less than 5s of jitter and ack delay, if and only if at most three renewals in a row may fail |
| LeaseLimits.FourFailedRenewals | worker/reclaim.go:24-42 | with four, two live workers run the same job |
| LeaseLimits.StartsBoundedExactlyByListGrace | worker/reclaim.go:100-131 | for all delays and failures: the bound on starts holds in every reachable state if and only if claiming follows listing within less than 45s |
| LeaseLimits.ThreeStartsAreReached | worker/reclaim.go:38-42 | under any delays a job can be started three times, and the claim after that abandons it |
| LeaseWords.AckedOnlyAfterFinal | worker/main.go:88-104 | whatever became of the leases, a job that can run is acked only after a done or abandoned message about it |
| LeaseLimits.LastTimelyWordExactlyWhenPrompt | worker/reclaim.go:24-42 | that message is the last one but for late ticks, in every reachable state, if and only if leases hold |
| LeaseWords.AfterTheAck | worker/main.go:132-139 | in every continuation the ack stands and nobody new comes to the job; if nobody is at it only late ticks speak of it, none if no live ticker lingers, and one that has spoken keeps the last word; if nobody can reopen it, a final word stays the last |
| LeaseWords.NothingFollowsTheAck | worker/main.go:132-139 | nothing follows a job's ack in any continuation if and only if no live process's ticker lingers for it and none still runs or abandons it |
| LeaseLog.OnlyTickersFollowTheAck | worker/main.go:132-139 | as long as leases hold, if and only if no live process's ticker lingers for it |
| LeaseProgress.EveryEntryCanBeAcked | worker/reclaim.go:29-32 | from every reachable state, for all delays and failures, some continuation acks every entry, gives each that was not acked a last word that ends it, and says nothing about the others |
| JobQueue.Cluster.RenewLease | worker/reclaim.go:53-63 | resets one entry's idle time, leaves its delivery count and all other entries alone |
| JobQueue.Cluster.ClaimStale | worker/reclaim.go:100-133 | what the loop returns is held by this worker and by nobody else, is pending under its name, and is exhausted exactly if it was delivered 3 times before; undisturbed it is the first candidate; without a Redis error it returns nothing only after trying every candidate; a failed listing changes nothing |
| JobQueue.Cluster.AbandonJob | worker/reclaim.go:135-155 | adds one abandon message with the job's own IDs |
| JobQueue.Cluster.RunLeased | worker/main.go:143-149 | ends with the job settled: every update was sent and the final one is the last message, or the job was rejected in silence |
| JobQueue.Cluster.Pass | worker/main.go:77-140 | one pass of the main loop settles the job it works on, acks it and returns to idle, whatever the others do before each of its Redis calls; undisturbed it takes the first stale job before any new one; it is without work only if there is no new job or the reply to its read was lost |
| TestLog.StoreSummarizesLog | coordinator/teststore.go:113-218 | after any operations a sub-job's numbers are those of its last report, it is abandoned for good once abandoned, and done exactly when its last message says so |
| TestLog.EarlyReportsAreLost | coordinator/teststore.go:117-133 | registering starts from nothing, whatever was reported before |
| TestLog.MessagesAreLocal | coordinator/teststore.go:158-181 | a message changes only the sub-job it names, and nothing if that is unknown |
| TestLog.FiresOnTheEdge | coordinator/teststore.go:182-191 | the signal fires exactly when a message takes the test from open to all done |
| TestLog.FiringsNeedReopening | coordinator/teststore.go:153-161 | between two firings some report reopened a done sub-job |
| TestLog.FiringsBalance | coordinator/resultwatcher.go:49-73 | over any stretch the signals for a test, plus one if it was done before, are its openings, plus one if it is done after |
| TestLog.FinishedAtMostOnce | coordinator/teststore.go:153-161 | an open test is reported finished at most once if and only if, once all done, it is not opened and closed again |
| TestLog.OpensExactly | coordinator/teststore.go:182-186 | a message opens a test that is all done exactly if it is a not-done report about one of its sub-jobs |
| TestLog.NeverReopened | coordinator/teststore.go:153-161 | while no done sub-job is reopened it is reported at most once, and is done from then on |
| TestLog.ReopenedTestFiresTwice | coordinator/teststore.go:153-191 | done, not done, done again signals twice |
| TestLog.ReplayAll | coordinator/resultwatcher.go:28-76 | reading the stream continues the log of operations |
| TestLog.HearsSince | coordinator/teststore.go:113-218 | a store knows a test's sub-jobs as last registered, and of the messages about them those applied since, whatever else it registers and hears |
| TestLog.KnowsTest | coordinator/teststore.go:117-133 | whatever precedes or follows, a test has the owner, the URL and the sub-jobs of its last registration |
| Snapshots.SumOrderFree | coordinator/teststore.go:316-334 | totals and the merged sketch do not depend on the map's iteration order |
| Snapshots.TotalsFollowMessages | coordinator/teststore.go:328-333 | a report moves total requests, total errors and the combined rate by its numbers minus those its sub-job had, an abandonment moves none |
| Snapshots.FreshTotals | coordinator/teststore.go:312-334 | a test that was just registered has zero of each and no percentiles |
| Snapshots.RowsAreSubJobs | coordinator/teststore.go:314-345 | one row for each sub-job, with its own numbers, in the order of the job IDs |
| Snapshots.SnapshotFollowsLog | coordinator/teststore.go:312-347 | after any operations each row shows the last report about its sub-job and how it stands, and the test is done, circuit-broken or abandoned as its rows say |
| Snapshots.OnlyTheOwnerSees | coordinator/teststore.go:297-310 | after any operations a test is seen by the owner of its last registration, with the ID and URL registered, and by nobody else |
| Snapshots.OwnerSeesNewTest | coordinator/teststore.go:118-137 | right after its registration a test shows its owner its ID and URL with no requests and no errors, and shows nobody else anything |
| JobOrder.LessIsLexicographic | coordinator/teststore.go:344 | job IDs are ordered lexicographically |
| SnapshotAccuracy.SumsAreOfAllRequests | coordinator/teststore.go:353-363 | with metrics from workers the merged sketch is that of all their requests, and its total is TotalRequests |
| SnapshotAccuracy.SnapshotPercentiles | coordinator/teststore.go:280-286 | from the requests to the snapshot: a percentile is shown as soon as there is one request, and stands for the exact one of all requests as said above, whatever its size |
| SnapshotAccuracy.SnapshotNumbers | coordinator/teststore.go:312-347 | with metrics from workers the snapshot shows how many requests all of them made, how many of these failed outright or got a 5xx, and for p50, p95 and p99 what stands for that quantile of all latencies |
| SnapshotAccuracy.UnusableSketchHidesPercentiles | coordinator/teststore.go:349-362 | a report with requests and without a sketch that decodes leaves the test without percentiles |
| SnapshotAccuracy.SnapshotIsOff | coordinator/teststore.go:280-286 | the snapshot of a test with one request of 148us shows 0.1ms |
| TestStores.AllSubJobsDone | coordinator/teststore.go:220-227 | the loop answers whether all sub-jobs are done |
| TestStores.CombinedPercentiles | coordinator/teststore.go:349-373 | the three percentiles of the merged sketch, or none if a sub-job with requests lacks a usable one; no stored sketch is changed |
| TestStores.BuildSnapshot | coordinator/teststore.go:312-347 | the snapshot is the one the test's state determines, in whatever order the map is walked |
| TestStores.TestStore.Register | coordinator/teststore.go:113-133 | replaces the test by one with fresh sub-jobs, which the owner sees with its URL and nobody else sees, and stamps the owner's last submission |
| TestStores.TestStore.CooldownRemaining | coordinator/teststore.go:135-151 | what is missing until the cooldown has passed since the owner's last submission, and zero exactly if it has or there is none |
| TestStores.TestStore.Snapshot | coordinator/teststore.go:297-310 | someone else's test reads like one that does not exist |
| TestStores.TestStore.Update | coordinator/teststore.go:153-192 | the record takes the report, the signal is right, and every open subscription of the test is offered the new state |
| TestStores.TestStore.MarkAbandoned | coordinator/teststore.go:194-218 | likewise for an abandonment, which keeps the numbers |
| TestStores.TestStore.WatchResults | coordinator/resultwatcher.go:49-73 | reading a stretch of the stream leaves the store at the log's state, reports the finished tests in order, and offers each subscriber its test's pushes |
| Subscribers.AcceptedInOrder | coordinator/teststore.go:99-111 | what a channel accepts is its test's updates in order with some left out |
| Subscribers.QueueIsSuffix | coordinator/teststore.go:74-75 | never more than four are queued, and they are the latest accepted |
| Subscribers.NothingElseIsDropped | coordinator/teststore.go:99-111 | updates are lost exactly when offered to a channel that holds four |
| Subscribers.GetsThrough | coordinator/teststore.go:99-111 | a snapshot is accepted if and only if it was offered while there was room |
| Subscribers.AcceptedIsReadOrQueued | coordinator/teststore.go:69-97 | every accepted snapshot was read, in order, or is still queued |
| Subscribers.StillOpenMembers | coordinator/teststore.go:74-97 | a test's list holds its open channels and no others, none twice |
| Subscribers.StillOpenWithout | coordinator/teststore.go:87-92 | cutting a channel out of the list in place leaves the other open ones in order |
| Subscribers.Registry.Subscribe | coordinator/teststore.go:74-80 | appends one open channel to the test's list |
| Subscribers.Registry.Unsubscribe | coordinator/teststore.go:82-96 | the first call cuts the channel out of its list and closes it, any later call does nothing |
| Subscribers.Registry.Notify | coordinator/teststore.go:99-111 | offers the snapshot to every open channel of the test and sends nothing to a closed one |
| Subscribers.ToldAll | coordinator/teststore.go:99-111 | over a stretch of the stream an open channel is offered all its test's pushes in order, a closed one nothing |
| OtherHandlers.Meanwhile | coordinator/teststore.go:69-111 | while other handlers register tests, subscribe, read and leave between any two messages, the test follows its own messages, and its channel is offered exactly its pushes |
| LiveView.HandleTestLive | coordinator/live.go:31-101 | for every interleaving with the watcher and other handlers, and every failing write: what is written is the second look and then what the channel accepted, in order; it ends right after a done snapshot, a failed write or the client's leaving, and its subscription ends with it |
| LiveDelivery.NoUpdateIsMissed | coordinator/live.go:52-57 | every update is reflected in the second look or was offered to the channel |
| LiveDelivery.CaughtUp | coordinator/live.go:52-69 | a viewer who has read all that is queued sees the current state if the latest update found room |
| LiveDelivery.DoneReachesTheViewer | coordinator/live.go:84-100 | a viewer who has read all that is queued was told the test is done if and only if some done snapshot was offered while there was room |
| LiveDelivery.DoneCanBeLost | coordinator/teststore.go:99-111 | five updates before the first read, the last of them done: the viewer is never told |
| Composition.StoreFollowsEntry | coordinator/resultwatcher.go:49-73 | in every store that serves the test, among any others, a sub-job's state is decided by the messages its own queue entry caused |
| Composition.DoneIfHeard | coordinator/handlers.go:373-379 | whenever a store registered a test, it has it as done if and only if the last word about each job ends it and was applied since |
| Composition.StoresAgree | coordinator/resultwatcher.go:49-73 | all stores that serve a test agree on whether it is done, which is what the last words say |
| Composition.AckedTestIsDone | worker/main.go:88-104 | once all of a test's jobs are acked, a store that applied the stream has the test as done if and only if each job could run or was abandoned, no late tick has the last word about any, and each last word was applied since the registration |
| Composition.AckedTestIsDoneExactlyWhenPrompt | worker/reclaim.go:24-42 | that holds of all runs and stores if and only if leases hold |
| Composition.DoneForGood | worker/main.go:132-139 | an acked test is reported done in every continuation if and only if it is now and no live worker runs a job of it or has its ticker lingering |
| Composition.StaysOpen | coordinator/teststore.go:182-191 | an acked job whose last word does not end it, and that no live worker can end, leaves its test open in every continuation |
| Composition.LateTickLeavesTestOpen | worker/loadgen.go:76-106 | a run in which one late tick takes an acked, finished test back to open, for good |
| Composition.CanStillFinish | worker/reclaim.go:29-32 | a test can still finish if and only if, of each of its jobs that is acked already, the last word ends it or a live worker can end it |
| WorkerJobs.RecordReadsBack | worker/job.go:30-94 | the worker reads back exactly what the coordinator wrote, and runs it exactly within the caps |
| WorkerJobs.JobErrorsAreTrue | worker/job.go:30-80 | the error of a rejected record names a field that is missing, not a string, no number, or no known ramp pattern |
| WorkerJobs.CapErrorsAreTrue | worker/job.go:84-94 | the caps refuse exactly the users outside 1 to 200, and then the durations outside 1 to 300 seconds |
| WorkerJobs.OnlyCappedJobsRun | worker/job.go:84-94 | a record is run if and only if all six fields are strings, both numbers parse and are within the caps, and the ramp pattern is known |
| WorkerJobs.AnyRecordHasIDs | worker/reclaim.go:135-148 | the abandon path reads the IDs of any record, a missing one as the empty text |
| Admission.SplitVUs | coordinator/jobs.go:23-36 | shares that add up to the request, differ by at most one, larger ones first, and none is zero if there are enough VUs |
| Admission.FairSplitIsUnique | coordinator/jobs.go:23-36 | there is only one such split |
| Admission.Fanout | coordinator/handlers.go:341-371 | the most workers that exceed neither the request (at least 1), nor 5, the VUs and the live workers; it warns exactly when the live workers made the difference |
| Admission.Refuse | coordinator/handlers.go:295-370 | each refusal is given exactly in its case, in the order of the checks, with 200 VUs and 300 seconds as the caps |
| Admission.Enqueue | coordinator/enqueue.go:19-40 | all records are appended in order, other requests' records in between, and the IDs returned, or the first refusal ends it with the records before it left on the stream |
| Admission.Undisturbed | coordinator/enqueue.go:24-37 | without other requests the records follow each other at the end of the stream |
| Admission.HandleCreateTest | coordinator/handlers.go:295-387 | a request is accepted exactly if it is admitted and Redis takes all its records; it then has 1 to 200 VUs, 1 to 300 seconds and a known ramp pattern, leaves between 1 and 5 records the worker will run, a fair split of its VUs, amid those of other requests, registers exactly their IDs for the submitter, who sees the test as nobody else does, and stamps the submission; it is refused as too fast exactly within the cooldown; otherwise nothing is registered or stamped |
| Journey.AddedIsQueued | coordinator/enqueue.go:24-37 | what an accepted request leaves is on the jobs stream at its places, whatever other requests add before, between and after |
| Journey.AcceptedTestFinishes | coordinator/handlers.go:373-387 | an accepted test whose entries are acked, wherever they lie on the stream, is reported done if and only if about each of them no late tick has the last word and that word was applied since the registration, crashes, reclaims and other tests notwithstanding |
| Identities.UserIDInjective | coordinator/userstore.go:37-45 | GitHub accounts never share a user ID |
| Identities.UsersFollowActions | coordinator/userstore.go:111-209 | over any run without landed failures, restarts included, the users are those who logged in, with the login of the last time and the webhook they set last |
| Identities.VerificationsFollowActions | coordinator/domainstore.go:82-101 | and the verifications are those that were saved for a known user |
| Identities.SessionsLiveThirtyDays | coordinator/userstore.go:134-180 | a session issued to a known user works for 30 days to the nanosecond, through restarts and whatever becomes of other writes, and not from then on |
| Identities.StepPersisted | coordinator/identitystore.go:11-29 | every action keeps memory's sessions and verifications in the database, and memory equal to it unless a failed write landed |
| Identities.RestartAgreement | coordinator/userstore.go:62-109 | after any run in which failed writes write nothing, a store loaded later answers every question as memory does from then on |
| Identities.OffNext | coordinator/userstore.go:62-109 | after one action a row differs between memory and database if and only if a landed failed write broke it, or it differed and was not healed |
| Identities.AgreementOverRuns | coordinator/userstore.go:62-109 | over every run, whatever became of failed writes, a store loaded now answers as the running one if and only if every row that a landed write broke was healed since: by a restart, by a write that makes both alike, or by the expiry of the session |
| Identities.NothingIsLost | coordinator/domainstore.go:82-101 | whatever became of failed writes, no working session and no verification is lost by a restart |
| Identities.SessionsFindUsers | coordinator/userstore.go:159-180 | without landed failures an unexpired session always finds its user |
| Identities.LandedWriteDisagrees | coordinator/userstore.go:211-225 | a failed write that landed breaks the agreement if and only if it was not redundant: same login or webhook, verification there or owner unknown, session refused |
| Identities.NoAccountClash | coordinator/history.go:128-133 | the unique constraint on GitHub accounts never fires |
| Persisters.Persister.SaveUser | coordinator/identitystore.go:48-57 | inserts the row or updates login and webhook |
| Persisters.Persister.LoadSessions | coordinator/identitystore.go:84-105 | deletes the expired rows and returns the others |
| UserStores.UserStore.FindOrCreate | coordinator/userstore.go:111-132 | database first, then memory; a returning user keeps their object and the two maps stay in step |
| UserStores.UserStore.IssueSession | coordinator/userstore.go:134-157 | a session exists in memory exactly if the database took it |
| UserStores.UserStore.UserForSession | coordinator/userstore.go:159-180 | resolves an unexpired session to its user and forgets an expired one |
| UserStores.UserStore.SetWebhookURL | coordinator/userstore.go:193-209 | edits the user in place only if the database took it |
| UserStores.LoadUserStore | coordinator/userstore.go:85-109 | holds exactly the database's users and unexpired sessions, each user one object under both keys |
| DomainStores.DomainStore.MarkVerified | coordinator/domainstore.go:82-101 | authorizes that user for that domain and nobody else, only if the database took it |
| DomainStores.LoadDomainStore | coordinator/domainstore.go:43-59 | holds exactly the database's verifications |

## Left out

- Floating point: latencies, rates and quantiles are reals, and `math.Log` is taken as exact; bucket edges may differ by one in the program.
- Unsigned wrap-around: sketch counts are unbounded naturals, so a total beyond uint64 is not modelled.
- Admission.HandleCreateTest: URL parsing, the allowlist, the domain check and the count of live workers are inputs; the times of the check and of the registration are given; two requests of one user do not overlap, and nobody else changes the store while the handler runs; the warning is the fact that it was given, not its text.
- Identities.RestartAgreement: Postgres keeps timestamps to the microsecond; expiry times are kept exactly here.
- LeaseSafety.ReachableIsSafe: a partitioned worker that keeps running after it lost its lease is outside the crash-stop model, because renewal does not check ownership.
- JobQueue.Cluster.ClaimStale: entries trimmed from the stream, whose claim yields no values, do not occur; nothing in the repository trims it.
- Redis: recreation of the consumer group, trimming of streams, the watcher's start position and refused writes by live workers.
- Parsing of result messages: the watcher's numeric and text fields arrive as they were published.
- In-place slices share backing arrays in Go; here a list that is edited is replaced by the edited list, so what a reader of an old slice would see is not captured.
- Sub-job records are values in the store's map, not objects that are pointed to; `sort.Slice` and `sort.Ints` are specified by the sorted list and realized by insertion.
- The domain challenges, and the label and timestamps of a test.
- HTTP, WebSocket framing, GitHub login, DNS checks, webhooks, the history tables, metrics registration, the token bucket, the dashboard and the demo target.
