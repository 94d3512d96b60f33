/** The merged view of a test that the API returns and pushes (coordinator/teststore.go). */
module Snapshots {
  import opened Wrappers
  import opened Messages
  import opened Histograms
  import opened SketchAccuracy
  import opened JobOrder
  import opened TestLog

  datatype SubJobSnapshot = SubJobSnapshot(
    jobID: string,
    requests: int,
    errors: int,
    rps: real,
    p50: string,
    p95: string,
    p99: string,
    done: bool,
    circuitBroken: bool,
    abandoned: bool)

  datatype TestSnapshot = TestSnapshot(
    testID: string,
    url: string,
    done: bool,
    circuitBroken: bool,
    abandoned: bool,
    totalRequests: int,
    totalErrors: int,
    combinedRPS: real,
    p50MS: Option<real>,
    p95MS: Option<real>,
    p99MS: Option<real>,
    subJobs: seq<SubJobSnapshot>)

  type SubJobs = map<string, SubJob>

  function Row(jobID: string, sj: SubJob): SubJobSnapshot {
    SubJobSnapshot(jobID, sj.requests, sj.errors, sj.rps, sj.p50, sj.p95, sj.p99, sj.done, sj.circuitBroken,
                   sj.abandoned)
  }

  ghost function Rows(ids: seq<string>, m: SubJobs): seq<SubJobSnapshot>
    requires forall id :: id in ids ==> id in m
  {
    seq(|ids|, i requires 0 <= i < |ids| => Row(ids[i], m[ids[i]]))
  }

  /** What sub-jobs add up to: requests, errors, rate, and the merged latency histogram. */
  datatype Sums = Sums(requests: int, errors: int, rps: real, counts: Counts)

  const ZERO: Sums := Sums(0, 0, 0.0, map[])

  /** A sub-job without requests adds no samples. */
  function Plus(s: Sums, sj: SubJob): Sums {
    Sums(s.requests + sj.requests, s.errors + sj.errors, s.rps + sj.rps,
         if sj.requests == 0 || sj.sketch.None? then s.counts else Merge(s.counts, sj.sketch.value))
  }

  /** The sums over the listed sub-jobs, in list order. */
  ghost function SumOf(ids: seq<string>, m: SubJobs): Sums
    requires forall id :: id in ids ==> id in m
  {
    if ids == [] then ZERO else Plus(SumOf(ids[..|ids| - 1], m), m[ids[|ids| - 1]])
  }

  lemma PlusSwap(s: Sums, a: SubJob, b: SubJob)
    ensures Plus(Plus(s, a), b) == Plus(Plus(s, b), a)
  {
    if a.sketch.Some? && b.sketch.Some? {
      MergeSwap(s.counts, a.sketch.value, b.sketch.value);
    }
  }

  lemma SumSnoc(ids: seq<string>, id: string, m: SubJobs)
    requires id in m && forall i :: i in ids ==> i in m
    ensures forall i :: i in ids + [id] ==> i in m
    ensures SumOf(ids + [id], m) == Plus(SumOf(ids, m), m[id])
  {
    assert (ids + [id])[..|ids|] == ids;
  }

  /** A sub-job added anywhere can be added last. */
  lemma {:induction false} SumRemove(ids: seq<string>, k: nat, m: SubJobs)
    requires k < |ids| && forall id :: id in ids ==> id in m
    ensures var rest := ids[..k] + ids[k + 1..];
            (forall id :: id in rest ==> id in m) && SumOf(ids, m) == Plus(SumOf(rest, m), m[ids[k]])
  {
    var n := |ids| - 1;
    var front := ids[..n];
    if k == n {
      assert ids[..k] + ids[k + 1..] == front;
    } else {
      var fewer := front[..k] + front[k + 1..];
      SumRemove(front, k, m);
      assert ids[..k] + ids[k + 1..] == fewer + [ids[n]];
      SumSnoc(fewer, ids[n], m);
      PlusSwap(SumOf(fewer, m), m[ids[k]], m[ids[n]]);
    }
  }

  ghost predicate Distinct(ids: seq<string>) {
    forall i, j :: 0 <= i < j < |ids| ==> ids[i] != ids[j]
  }

  /** The order in which the map is walked does not change the sums. */
  lemma {:induction false} SumOrderFree(xs: seq<string>, ys: seq<string>, m: SubJobs)
    requires Distinct(xs) && Distinct(ys) && forall id :: id in xs <==> id in ys
    requires forall id :: id in xs ==> id in m
    ensures SumOf(xs, m) == SumOf(ys, m)
  {
    assert (xs == [] || xs[|xs| - 1] in xs) && (ys == [] || ys[0] in ys);
    if xs != [] && ys != [] {
      var n := |xs| - 1;
      var k :| 0 <= k < |ys| && ys[k] == xs[n];
      var xs', ys' := xs[..n], ys[..k] + ys[k + 1..];
      WithoutOne(xs, n);
      WithoutOne(ys, k);
      assert xs' == xs[..n] + xs[n + 1..];
      SumOrderFree(xs', ys', m);
      SumRemove(ys, k, m);
    }
  }

  lemma WithoutOne(ids: seq<string>, k: nat)
    requires Distinct(ids) && k < |ids|
    ensures var rest := ids[..k] + ids[k + 1..];
            Distinct(rest) && forall id :: id in rest <==> id in ids && id != ids[k]
  {
    var rest := ids[..k] + ids[k + 1..];
    forall id ensures id in rest <==> id in ids && id != ids[k] {
      if id in ids && id != ids[k] {
        var i :| 0 <= i < |ids| && ids[i] == id;
        assert rest[if i < k then i else i - 1] == id;
      }
    }
  }

  lemma InOrderIsDistinct(ids: seq<string>)
    requires InOrder(ids)
    ensures Distinct(ids)
  {
    forall i, j | 0 <= i < j < |ids| ensures ids[i] != ids[j] {
      LessTotal(ids[i], ids[j]);
    }
  }

  ghost function SumOfAll(m: SubJobs): Sums {
    SumOf(SortedIDs(m.Keys), m)
  }

  /** Some sub-job that sent requests sent no usable sketch. */
  predicate SketchMissing(m: SubJobs) {
    exists id :: id in m && m[id].requests != 0 && m[id].sketch.None?
  }

  ghost function Percentile(m: SubJobs, q: real): Option<real>
    requires 0.0 <= q <= 1.0
  {
    if SketchMissing(m) then None else ReportedMS(SumOfAll(m).counts, q)
  }

  /** The snapshot a test's state determines. */
  ghost function SnapshotOf(testID: string, t: Test): TestSnapshot {
    var m := t.subJobs;
    var sums := SumOfAll(m);
    TestSnapshot(
      testID, t.url,
      AllDone(t),
      exists id :: id in m && m[id].circuitBroken,
      exists id :: id in m && m[id].abandoned,
      sums.requests, sums.errors, sums.rps,
      Percentile(m, 0.50), Percentile(m, 0.95), Percentile(m, 0.99),
      Rows(SortedIDs(m.Keys), m))
  }

  lemma {:induction false} SumElsewhere(ids: seq<string>, m: SubJobs, m': SubJobs)
    requires forall id :: id in ids ==> id in m && id in m' && m'[id] == m[id]
    ensures SumOf(ids, m') == SumOf(ids, m)
  {
    if ids != [] {
      assert ids[|ids| - 1] in ids;
      SumElsewhere(ids[..|ids| - 1], m, m');
    }
  }

  /** One sub-job's new state moves the sums by the difference. */
  lemma SumsMove(m: SubJobs, j: string, sj: SubJob)
    requires j in m
    ensures var before, after := SumOfAll(m), SumOfAll(m[j := sj]);
            && after.requests == before.requests + sj.requests - m[j].requests
            && after.errors == before.errors + sj.errors - m[j].errors
            && after.rps == before.rps + sj.rps - m[j].rps
  {
    var m' := m[j := sj];
    var ids := SortedIDs(m.Keys);
    assert m'.Keys == m.Keys;
    InOrderIsDistinct(ids);
    var k :| 0 <= k < |ids| && ids[k] == j;
    WithoutOne(ids, k);
    SumRemove(ids, k, m);
    SumRemove(ids, k, m');
    SumElsewhere(ids[..k] + ids[k + 1..], m, m');
  }

  /** What one message changes of the totals: a report replaces the numbers of its sub-job, and an abandonment keeps
      them. */
  lemma TotalsFollowMessages(tests: Tests, m: Message)
    requires Known(tests, m)
    ensures m.testID in AfterMessage(tests, m)
    ensures var t := tests[m.testID];
            var was, now, sj :=
              SnapshotOf(m.testID, t), SnapshotOf(m.testID, AfterMessage(tests, m)[m.testID]), t.subJobs[m.jobID];
            if m.Abandoned? then
              && now.totalRequests == was.totalRequests && now.totalErrors == was.totalErrors
              && now.combinedRPS == was.combinedRPS
            else
              && now.totalRequests == was.totalRequests + m.u.requests - sj.requests
              && now.totalErrors == was.totalErrors + m.u.errors - sj.errors
              && now.combinedRPS == was.combinedRPS + m.u.rps - sj.rps
  {
    var subJobs := tests[m.testID].subJobs;
    var sj := subJobs[m.jobID];
    SumsMove(subJobs, m.jobID, if m.Abandoned? then GaveUp(sj) else Reported(sj, m.u));
  }

  lemma {:induction false} ZeroSums(ids: seq<string>, m: SubJobs)
    requires forall id :: id in ids ==> id in m && m[id] == NEW_SUB_JOB
    ensures SumOf(ids, m) == Sums(0, 0, 0.0, map[])
  {
    if ids != [] {
      assert ids[|ids| - 1] in ids;
      ZeroSums(ids[..|ids| - 1], m);
    }
  }

  lemma FreshSums(jobIDs: seq<string>)
    ensures SumOfAll(Fresh(jobIDs)) == Sums(0, 0, 0.0, map[])
  {
    ZeroSums(SortedIDs(Fresh(jobIDs).Keys), Fresh(jobIDs));
  }

  lemma NoPercentile(q: real)
    requires 0.0 <= q <= 1.0
    ensures ReportedMS(map[], q).None?
  {
    SamplesAre(map[], multiset{});
  }

  lemma FreshFlags(jobIDs: seq<string>)
    ensures (forall id :: id in Fresh(jobIDs) ==> Fresh(jobIDs)[id].done) <==> jobIDs == []
  {
    if jobIDs != [] {
      assert jobIDs[0] in Fresh(jobIDs);
    }
  }

  /** A test that was just registered has no requests, no errors and no percentiles. */
  lemma FreshTotals(testID: string, ownerID: string, url: string, jobIDs: seq<string>)
    ensures var snap := SnapshotOf(testID, Test(ownerID, url, Fresh(jobIDs)));
            && snap.testID == testID && snap.url == url
            && snap.totalRequests == 0 && snap.totalErrors == 0 && snap.combinedRPS == 0.0
            && snap.p50MS.None? && snap.p95MS.None? && snap.p99MS.None?
            && (snap.done <==> jobIDs == []) && !snap.circuitBroken && !snap.abandoned
  {
    FreshSums(jobIDs);
    NoPercentile(0.50);
    NoPercentile(0.95);
    NoPercentile(0.99);
    FreshFlags(jobIDs);
  }

  lemma RowShows(ids: seq<string>, m: SubJobs, i: nat)
    requires i < |ids| && forall id :: id in ids ==> id in m
    ensures Rows(ids, m)[i].jobID == ids[i] && Shows(Rows(ids, m)[i], m[ids[i]])
  {
  }

  ghost predicate HasRow(rows: seq<SubJobSnapshot>, id: string) {
    exists i :: 0 <= i < |rows| && rows[i].jobID == id
  }

  /** The rows of a snapshot are the sub-jobs of the test, each with its own numbers, by job ID. */
  lemma RowsAreSubJobs(testID: string, t: Test)
    ensures var rows := SnapshotOf(testID, t).subJobs;
            && (forall i, j :: 0 <= i < j < |rows| ==> Less(rows[i].jobID, rows[j].jobID))
            && (forall id :: id in t.subJobs ==> HasRow(rows, id))
            && forall i :: 0 <= i < |rows| ==> rows[i].jobID in t.subJobs && Shows(rows[i], t.subJobs[rows[i].jobID])
  {
    var ids := SortedIDs(t.subJobs.Keys);
    var rows := Rows(ids, t.subJobs);
    forall i | 0 <= i < |rows| ensures rows[i].jobID == ids[i] && Shows(rows[i], t.subJobs[ids[i]]) {
      RowShows(ids, t.subJobs, i);
    }
    forall id | id in t.subJobs ensures HasRow(rows, id) {
      var i :| 0 <= i < |ids| && ids[i] == id;
      assert rows[i].jobID == id;
    }
  }

  ghost predicate Shows(row: SubJobSnapshot, sj: SubJob) {
    && row.requests == sj.requests && row.errors == sj.errors && row.rps == sj.rps
    && row.p50 == sj.p50 && row.p95 == sj.p95 && row.p99 == sj.p99
    && row.done == sj.done && row.circuitBroken == sj.circuitBroken && row.abandoned == sj.abandoned
  }

  /** The row says what the last report said, or nothing yet, and how the sub-job stands by its messages. */
  ghost predicate ShowsMessages(row: SubJobSnapshot, ms: seq<Message>) {
    && (row.done <==> ms != [] && Final(ms[|ms| - 1]))
    && (row.abandoned <==> EverAbandoned(ms))
    && match LastReport(ms)
       case None =>
         && row.requests == 0 && row.errors == 0 && row.rps == 0.0
         && row.p50 == "" && row.p95 == "" && row.p99 == "" && !row.circuitBroken
       case Some(u) =>
         && row.requests == u.requests && row.errors == u.errors && row.rps == u.rps
         && row.p50 == u.p50 && row.p95 == u.p95 && row.p99 == u.p99 && row.circuitBroken == u.circuitBroken
  }

  /** What a snapshot shows, after any operations: a row for each sub-job with what the last report about it said, and
      the test is done, circuit-broken or abandoned if all rows are the first, or some row is one of the others. */
  lemma SnapshotFollowsLog(ops: seq<Op>, testID: string)
    requires testID in Replay(ops)
    ensures var snap := SnapshotOf(testID, Replay(ops)[testID]);
            && (forall i :: 0 <= i < |snap.subJobs| ==>
                  ShowsMessages(snap.subJobs[i], MessagesAbout(ops, testID, snap.subJobs[i].jobID)))
            && (snap.done <==> forall i :: 0 <= i < |snap.subJobs| ==> snap.subJobs[i].done)
            && (snap.circuitBroken <==> exists i :: 0 <= i < |snap.subJobs| && snap.subJobs[i].circuitBroken)
            && (snap.abandoned <==> exists i :: 0 <= i < |snap.subJobs| && snap.subJobs[i].abandoned)
  {
    var t := Replay(ops)[testID];
    var rows := SnapshotOf(testID, t).subJobs;
    RowsAreSubJobs(testID, t);
    forall i | 0 <= i < |rows| ensures ShowsMessages(rows[i], MessagesAbout(ops, testID, rows[i].jobID)) {
      StoreSummarizesLog(ops, testID, rows[i].jobID);
    }
    FlagsAreOfRows(testID, t);
  }

  lemma FlagsAreOfRows(testID: string, t: Test)
    ensures var snap := SnapshotOf(testID, t);
            && (snap.done <==> forall i :: 0 <= i < |snap.subJobs| ==> snap.subJobs[i].done)
            && (snap.circuitBroken <==> exists i :: 0 <= i < |snap.subJobs| && snap.subJobs[i].circuitBroken)
            && (snap.abandoned <==> exists i :: 0 <= i < |snap.subJobs| && snap.subJobs[i].abandoned)
  {
    var rows := SnapshotOf(testID, t).subJobs;
    RowsAreSubJobs(testID, t);
    forall id | id in t.subJobs
      ensures exists i :: 0 <= i < |rows| && rows[i].jobID == id && Shows(rows[i], t.subJobs[id])
    {
      assert HasRow(rows, id);
      var i :| 0 <= i < |rows| && rows[i].jobID == id;
      assert Shows(rows[i], t.subJobs[rows[i].jobID]);
    }
  }

  /** What a user sees of a test: nothing, unless it is their own. */
  ghost function SnapshotFor(tests: Tests, testID: string, ownerID: string): Option<TestSnapshot> {
    if testID in tests && tests[testID].ownerID == ownerID then Some(SnapshotOf(testID, tests[testID])) else None
  }

  /** Whatever other operations precede or follow: the owner of the last registration of a test, and nobody else, sees
      it, with the ID and URL it was registered with. */
  lemma OnlyTheOwnerSees(ops: seq<Op>, op: Op, k: nat, userID: string)
    requires RegistersAt(ops, op, k)
    ensures SnapshotFor(Replay(ops), op.testID, userID).Some? <==> userID == op.ownerID
    ensures var seen := SnapshotFor(Replay(ops), op.testID, op.ownerID);
            seen.Some? && seen.value.testID == op.testID && seen.value.url == op.url
  {
    KnowsTest(ops, op, k);
  }

  /** Right after its registration. */
  lemma OwnerSeesNewTest(tests: Tests, op: Op, userID: string)
    requires op.Register?
    ensures SnapshotFor(After(tests, op), op.testID, userID).Some? <==> userID == op.ownerID
    ensures var seen := SnapshotFor(After(tests, op), op.testID, op.ownerID);
            && seen.Some? && seen.value.testID == op.testID && seen.value.url == op.url
            && seen.value.totalRequests == 0 && seen.value.totalErrors == 0
            && (seen.value.done <==> op.jobIDs == [])
  {
    FreshTotals(op.testID, op.ownerID, op.url, op.jobIDs);
  }

  /** A test that was never registered is seen by nobody. */
  lemma {:induction false} NobodySees(ops: seq<Op>, testID: string, userID: string)
    requires forall i :: 0 <= i < |ops| ==> !Registers(ops[i], testID)
    ensures SnapshotFor(Replay(ops), testID, userID).None?
  {
    if ops != [] {
      NobodySees(ops[..|ops| - 1], testID, userID);
    }
  }
}
