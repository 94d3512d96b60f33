/** The in-memory record of every test (coordinator/teststore.go), updated in place and proved against the
    function of its message log in TestLog. Sub-jobs refer to their decoded sketches. */
module TestStores {
  import opened Wrappers
  import opened Messages
  import opened Histograms
  import opened CoordinatorSketch
  import opened SketchAccuracy
  import opened JobOrder
  import opened TestLog
  import opened Snapshots
  import opened Subscribers

  datatype SubJobState = SubJobState(
    requests: int,
    errors: int,
    rps: real,
    p50: string,
    p95: string,
    p99: string,
    done: bool,
    circuitBroken: bool,
    abandoned: bool,
    sketch: LatencySketch?)

  datatype TestState = TestState(testID: string, ownerID: string, url: string, subJobs: map<string, SubJobState>)

  /** What each sketch of the store holds. */
  type Contents = map<LatencySketch, Counts>

  ghost predicate SketchesHold(contents: Contents)
    reads contents.Keys
  {
    forall s :: s in contents ==> s.Valid() && s.counts == contents[s]
  }

  /** The state of a sub-job is what the log says, and its sketch, if any, is one of the store's. */
  ghost predicate SubJobOK(sj: SubJobState, v: SubJob, contents: Contents) {
    && sj.requests == v.requests && sj.errors == v.errors && sj.rps == v.rps
    && sj.p50 == v.p50 && sj.p95 == v.p95 && sj.p99 == v.p99
    && sj.done == v.done && sj.circuitBroken == v.circuitBroken && sj.abandoned == v.abandoned
    && if sj.sketch == null then v.sketch.None? else sj.sketch in contents && v.sketch == Some(contents[sj.sketch])
  }

  ghost predicate TestOK(t: TestState, v: Test, contents: Contents) {
    && t.ownerID == v.ownerID && t.url == v.url && t.subJobs.Keys == v.subJobs.Keys
    && forall id :: id in t.subJobs ==> SubJobOK(t.subJobs[id], v.subJobs[id], contents)
  }

  /** `allSubJobsDone`. */
  method AllSubJobsDone(t: TestState, ghost v: Test, ghost contents: Contents) returns (all: bool)
    requires TestOK(t, v, contents)
    ensures all == AllDone(v)
  {
    var rest := t.subJobs.Keys;
    while rest != {}
      invariant rest <= t.subJobs.Keys
      invariant forall id :: id in t.subJobs.Keys - rest ==> v.subJobs[id].done
      decreases |rest|
    {
      var id := NextKey(rest);
      if !t.subJobs[id].done {
        return false;
      }
      rest := rest - {id};
    }
    return true;
  }

  /** `combinedPercentiles`: merges into a sketch of its own; no stored sketch is modified. */
  method CombinedPercentiles(t: TestState, ghost v: Test, ghost contents: Contents)
    returns (p50: Option<real>, p95: Option<real>, p99: Option<real>)
    requires TestOK(t, v, contents) && SketchesHold(contents)
    ensures p50 == Percentile(v.subJobs, 0.50) && p95 == Percentile(v.subJobs, 0.95)
    ensures p99 == Percentile(v.subJobs, 0.99)
  {
    p50, p95, p99 := None, None, None;
    var merged := new LatencySketch();
    var rest := t.subJobs.Keys;
    ghost var walked: seq<string> := [];
    while rest != {}
      invariant rest <= t.subJobs.Keys && Walked(walked, t.subJobs.Keys - rest)
      invariant merged.Valid() && fresh(merged)
      invariant (forall id :: id in walked ==> id in v.subJobs) && merged.counts == SumOf(walked, v.subJobs).counts
      invariant forall id :: id in walked ==> v.subJobs[id].requests == 0 || v.subJobs[id].sketch.Some?
      decreases |rest|
    {
      var id := NextKey(rest);
      var sj := t.subJobs[id];
      WalkOn(walked, t.subJobs.Keys, rest, id);
      SumSnoc(walked, id, v.subJobs);
      rest, walked := rest - {id}, walked + [id];
      if sj.requests != 0 {
        if sj.sketch == null {
          return;
        }
        merged.Merge(sj.sketch);
      }
    }
    SumOrderFreeSorted(walked, v.subJobs);
    p50 := Rounded(merged, 0.50);
    p95 := Rounded(merged, 0.95);
    p99 := Rounded(merged, 0.99);
  }

  /** The quantile of a sketch, rounded to a tenth of a millisecond. */
  method Rounded(sketch: LatencySketch, q: real) returns (r: Option<real>)
    requires sketch.Valid() && 0.0 <= q <= 1.0
    ensures r == ReportedMS(sketch.counts, q)
  {
    var v := sketch.QuantileMS(q);
    if v.None? {
      return None;
    }
    QuantilePositive(sketch.counts, q);
    return Some(RoundTenths(v.value));
  }

  /** `walked` lists the keys visited so far, each once. */
  ghost predicate Walked(walked: seq<string>, keys: set<string>) {
    Distinct(walked) && forall id :: id in walked <==> id in keys
  }

  lemma WalkOn(walked: seq<string>, keys: set<string>, rest: set<string>, id: string)
    requires Walked(walked, keys - rest) && id in rest && rest <= keys
    ensures Walked(walked + [id], keys - (rest - {id}))
  {
  }

  lemma SumOrderFreeSorted(walked: seq<string>, m: SubJobs)
    requires Walked(walked, m.Keys)
    ensures (forall id :: id in walked ==> id in m) && SumOf(walked, m) == SumOfAll(m)
  {
    InOrderIsDistinct(SortedIDs(m.Keys));
    SumOrderFree(walked, SortedIDs(m.Keys), m);
  }

  /** Inserting by job ID. */
  function InsertRow(row: SubJobSnapshot, rows: seq<SubJobSnapshot>): seq<SubJobSnapshot> {
    if rows == [] || Less(row.jobID, rows[0].jobID) then [row] + rows
    else [rows[0]] + InsertRow(row, rows[1..])
  }

  /** `sort.Slice` by job ID. */
  function SortRows(rows: seq<SubJobSnapshot>): seq<SubJobSnapshot> {
    if rows == [] then [] else InsertRow(rows[|rows| - 1], SortRows(rows[..|rows| - 1]))
  }

  lemma {:induction false} InsertRowRows(id: string, ids: seq<string>, m: SubJobs)
    requires id in m && forall i :: i in ids ==> i in m
    ensures forall i :: i in InsertID(id, ids) ==> i in m
    ensures InsertRow(Row(id, m[id]), Rows(ids, m)) == Rows(InsertID(id, ids), m)
  {
    if ids != [] {
      assert ids[0] in ids && Rows(ids, m)[1..] == Rows(ids[1..], m);
      InsertRowRows(id, ids[1..], m);
    }
  }

  /** Rows collected in any order sort to the rows of the ordered IDs. */
  lemma {:induction false} SortRowsSorts(walked: seq<string>, m: SubJobs) returns (ids: seq<string>)
    requires Distinct(walked) && forall id :: id in walked ==> id in m
    ensures InOrder(ids) && (forall id :: id in ids <==> id in walked) && SortRows(Rows(walked, m)) == Rows(ids, m)
  {
    ids := [];
    if walked != [] {
      var front, last := walked[..|walked| - 1], walked[|walked| - 1];
      assert walked == front + [last];
      var rest := SortRowsSorts(front, m);
      assert Rows(walked, m)[..|walked| - 1] == Rows(front, m);
      InsertKeepsOrder(last, rest);
      InsertRowRows(last, rest, m);
      ids := InsertID(last, rest);
    }
  }

  lemma SortedRows(walked: seq<string>, m: SubJobs)
    requires Walked(walked, m.Keys)
    ensures (forall id :: id in walked ==> id in m) && SortRows(Rows(walked, m)) == Rows(SortedIDs(m.Keys), m)
  {
    var ids := SortRowsSorts(walked, m);
    ListingUnique(ids, SortedIDs(m.Keys));
  }

  function RowOf(id: string, sj: SubJobState): SubJobSnapshot {
    SubJobSnapshot(id, sj.requests, sj.errors, sj.rps, sj.p50, sj.p95, sj.p99, sj.done, sj.circuitBroken, sj.abandoned)
  }

  /** One turn of the loop of `buildSnapshot`. */
  function AddRow(snap: TestSnapshot, row: SubJobSnapshot): TestSnapshot {
    snap.(subJobs := snap.subJobs + [row],
          totalRequests := snap.totalRequests + row.requests,
          totalErrors := snap.totalErrors + row.errors,
          combinedRPS := snap.combinedRPS + row.rps,
          done := snap.done && row.done,
          circuitBroken := snap.circuitBroken || row.circuitBroken,
          abandoned := snap.abandoned || row.abandoned)
  }

  /** The snapshot has been built from the sub-jobs walked so far. */
  ghost predicate BuiltFrom(snap: TestSnapshot, walked: seq<string>, m: SubJobs) {
    && (forall id :: id in walked ==> id in m)
    && snap.totalRequests == SumOf(walked, m).requests
    && snap.totalErrors == SumOf(walked, m).errors
    && snap.combinedRPS == SumOf(walked, m).rps
    && snap.subJobs == Rows(walked, m)
    && (snap.done <==> forall id :: id in walked ==> m[id].done)
    && (snap.circuitBroken <==> exists id :: id in walked && m[id].circuitBroken)
    && (snap.abandoned <==> exists id :: id in walked && m[id].abandoned)
  }

  lemma AddRowKeeps(snap: TestSnapshot, walked: seq<string>, m: SubJobs, id: string)
    requires BuiltFrom(snap, walked, m) && id in m
    ensures BuiltFrom(AddRow(snap, Row(id, m[id])), walked + [id], m)
  {
    SumSnoc(walked, id, m);
    assert id in walked + [id];
    assert Rows(walked + [id], m) == Rows(walked, m) + [Row(id, m[id])];
    assert forall i :: i in walked ==> i in walked + [id];
  }

  lemma FullyBuilt(snap: TestSnapshot, walked: seq<string>, testID: string, v: Test)
    requires BuiltFrom(snap, walked, v.subJobs) && Walked(walked, v.subJobs.Keys)
    requires snap.testID == testID && snap.url == v.url
    ensures snap.(subJobs := SortRows(snap.subJobs),
                  p50MS := Percentile(v.subJobs, 0.50),
                  p95MS := Percentile(v.subJobs, 0.95),
                  p99MS := Percentile(v.subJobs, 0.99)) == SnapshotOf(testID, v)
  {
    SumOrderFreeSorted(walked, v.subJobs);
    SortedRows(walked, v.subJobs);
    assert forall id :: id in walked <==> id in v.subJobs;
  }

  lemma SameRow(t: TestState, v: Test, contents: Contents, id: string)
    requires TestOK(t, v, contents) && id in t.subJobs
    ensures id in v.subJobs && RowOf(id, t.subJobs[id]) == Row(id, v.subJobs[id])
  {
    assert SubJobOK(t.subJobs[id], v.subJobs[id], contents);
  }

  /** The loop of `buildSnapshot`: the map may be walked in any order. */
  method AddRows(t: TestState, ghost v: Test, ghost contents: Contents)
    returns (snap: TestSnapshot, ghost walked: seq<string>)
    requires TestOK(t, v, contents)
    ensures Walked(walked, v.subJobs.Keys) && BuiltFrom(snap, walked, v.subJobs)
    ensures snap.testID == t.testID && snap.url == t.url
  {
    snap := TestSnapshot(t.testID, t.url, true, false, false, 0, 0, 0.0, None, None, None, []);
    var rest := t.subJobs.Keys;
    walked := [];
    while rest != {}
      invariant rest <= t.subJobs.Keys && Walked(walked, t.subJobs.Keys - rest)
      invariant BuiltFrom(snap, walked, v.subJobs) && snap.testID == t.testID && snap.url == t.url
      decreases |rest|
    {
      var id := NextKey(rest);
      WalkOn(walked, t.subJobs.Keys, rest, id);
      SameRow(t, v, contents, id);
      AddRowKeeps(snap, walked, v.subJobs, id);
      snap := AddRow(snap, RowOf(id, t.subJobs[id]));
      rest, walked := rest - {id}, walked + [id];
    }
  }

  /** `buildSnapshot`. */
  method BuildSnapshot(t: TestState, ghost v: Test, ghost contents: Contents) returns (snap: TestSnapshot)
    requires TestOK(t, v, contents) && SketchesHold(contents)
    ensures snap == SnapshotOf(t.testID, v)
  {
    ghost var walked;
    snap, walked := AddRows(t, v, contents);
    FullyBuilt(snap, walked, t.testID, v);
    var p50, p95, p99 := CombinedPercentiles(t, v, contents);
    snap := snap.(subJobs := SortRows(snap.subJobs), p50MS := p50, p95MS := p95, p99MS := p99);
  }

  ghost predicate TestsOK(tests: map<string, TestState>, model: Tests, contents: Contents) {
    && tests.Keys == model.Keys
    && forall t :: t in tests ==> tests[t].testID == t && TestOK(tests[t], model[t], contents)
  }

  /** One more sketch does not change what is known of the others. */
  lemma MoreSketches(tests: map<string, TestState>, model: Tests, contents: Contents, s: LatencySketch, c: Counts)
    requires TestsOK(tests, model, contents) && s !in contents
    ensures TestsOK(tests, model, contents[s := c])
  {
    forall t | t in tests ensures TestOK(tests[t], model[t], contents[s := c]) {
      assert TestOK(tests[t], model[t], contents);
    }
  }

  /** The tests know a sub-job exactly when the log does, and hold what the log says of it. */
  lemma Lookup(tests: map<string, TestState>, model: Tests, contents: Contents, m: Message)
    requires TestsOK(tests, model, contents)
    ensures Known(model, m) <==> m.testID in tests && m.jobID in tests[m.testID].subJobs
    ensures Known(model, m) ==>
              SubJobOK(tests[m.testID].subJobs[m.jobID], model[m.testID].subJobs[m.jobID], contents)
  {
    if m.testID in tests {
      assert TestOK(tests[m.testID], model[m.testID], contents);
    }
  }

  /** A sub-job's state after a message about it. */
  function NextState(sj: SubJob, m: Message): SubJob {
    if m.Abandoned? then GaveUp(sj) else Reported(sj, m.u)
  }

  /** Replacing one sub-job's state by what the log says next. */
  lemma ReplaceSubJob(tests: map<string, TestState>, model: Tests, contents: Contents, m: Message, sj: SubJobState)
    requires TestsOK(tests, model, contents) && Known(model, m)
    requires SubJobOK(sj, NextState(model[m.testID].subJobs[m.jobID], m), contents)
    ensures m.testID in tests && m.testID in AfterMessage(model, m)
    ensures var t := tests[m.testID];
            var t' := t.(subJobs := t.subJobs[m.jobID := sj]);
            && t'.testID == m.testID && TestOK(t', AfterMessage(model, m)[m.testID], contents)
            && TestsOK(tests[m.testID := t'], AfterMessage(model, m), contents)
  {
    var t := tests[m.testID];
    assert TestOK(t, model[m.testID], contents);
    var t' := t.(subJobs := t.subJobs[m.jobID := sj]);
    var v' := AfterMessage(model, m)[m.testID];
    assert TestOK(t', v', contents);
    forall k | k in tests && k != m.testID ensures TestOK(tests[k], AfterMessage(model, m)[k], contents) {
      assert TestOK(tests[k], model[k], contents);
    }
  }

  lemma JustFinishedIs(model: Tests, m: Message)
    requires Known(model, m)
    ensures m.testID in AfterMessage(model, m)
    ensures JustFinished(model, m) == (!AllDone(model[m.testID]) && AllDone(AfterMessage(model, m)[m.testID]))
  {
  }

  /** Stores a sub-job's new state, and tells what to push and whether the test just finished. */
  method Put(tests: map<string, TestState>, testID: string, jobID: string, sj: SubJobState,
             ghost model: Tests, ghost contents: Contents, ghost m: Message)
    returns (updated: map<string, TestState>, justFinished: bool, snap: TestSnapshot)
    requires TestsOK(tests, model, contents) && SketchesHold(contents)
    requires Known(model, m) && m.testID == testID && m.jobID == jobID
    requires SubJobOK(sj, NextState(model[testID].subJobs[jobID], m), contents)
    ensures TestsOK(updated, AfterMessage(model, m), contents)
    ensures justFinished == JustFinished(model, m)
    ensures testID in AfterMessage(model, m) && snap == SnapshotOf(testID, AfterMessage(model, m)[testID])
  {
    ReplaceSubJob(tests, model, contents, m, sj);
    JustFinishedIs(model, m);
    var t := tests[testID];
    ghost var v, v' := model[testID], AfterMessage(model, m)[testID];
    var wasDone := AllSubJobsDone(t, v, contents);
    var t' := t.(subJobs := t.subJobs[jobID := sj]);
    updated := tests[testID := t'];
    snap := BuildSnapshot(t', v', contents);
    var isDone := AllSubJobsDone(t', v', contents);
    justFinished := !wasDone && isDone;
  }

  /** The decoded sketch of a report; one that is missing or does not decode is ignored. */
  method DecodeOptional(text: string, ghost tests: map<string, TestState>, ghost model: Tests, ghost before: Contents)
    returns (sketch: LatencySketch?, ghost contents: Contents)
    requires TestsOK(tests, model, before) && SketchesHold(before)
    ensures TestsOK(tests, model, contents) && SketchesHold(contents) && fresh(contents.Keys - before.Keys)
    ensures if sketch == null then SketchOf(text).None?
            else sketch in contents && SketchOf(text) == Some(contents[sketch])
  {
    sketch, contents := null, before;
    if text != "" {
      var decoded := LatencySketch.Decode(text);
      if decoded.Ok? {
        sketch := decoded.value;
        MoreSketches(tests, model, before, sketch, sketch.counts);
        contents := contents[sketch := sketch.counts];
      }
    }
  }

  /** The snapshot to push after a message: the test's new state, if the message changed anything. */
  ghost function PushOf(model: Tests, m: Message): Option<TestSnapshot> {
    if Known(model, m) then Some(SnapshotOf(m.testID, AfterMessage(model, m)[m.testID])) else None
  }

  /** What `Update` does to the tests: applies one report, and gives the snapshot to push. */
  method ApplyReport(tests: map<string, TestState>, testID: string, jobID: string, u: ResultUpdate,
                     ghost model: Tests, ghost before: Contents)
    returns (updated: map<string, TestState>, justFinished: bool, push: Option<TestSnapshot>, ghost contents: Contents)
    requires TestsOK(tests, model, before) && SketchesHold(before)
    ensures TestsOK(updated, AfterMessage(model, Report(testID, jobID, u)), contents) && SketchesHold(contents)
    ensures justFinished == JustFinished(model, Report(testID, jobID, u))
    ensures push == PushOf(model, Report(testID, jobID, u))
    ensures fresh(contents.Keys - before.Keys)
  {
    ghost var m := Report(testID, jobID, u);
    var sketch;
    sketch, contents := DecodeOptional(u.latencySketch, tests, model, before);
    updated, justFinished, push := tests, false, None;
    Lookup(tests, model, contents, m);
    if testID in tests && jobID in tests[testID].subJobs {
      var sj := tests[testID].subJobs[jobID];
      sj := SubJobState(u.requests, u.errors, u.rps, u.p50, u.p95, u.p99, u.done, u.circuitBroken, sj.abandoned,
                        sketch);
      var snap;
      updated, justFinished, snap := Put(tests, testID, jobID, sj, model, contents, m);
      push := Some(snap);
    }
  }

  /** What `MarkAbandoned` does to the tests. */
  method ApplyAbandonment(tests: map<string, TestState>, testID: string, jobID: string,
                          ghost model: Tests, ghost contents: Contents)
    returns (updated: map<string, TestState>, justFinished: bool, push: Option<TestSnapshot>)
    requires TestsOK(tests, model, contents) && SketchesHold(contents)
    ensures TestsOK(updated, AfterMessage(model, Messages.Abandoned(testID, jobID)), contents)
    ensures justFinished == JustFinished(model, Messages.Abandoned(testID, jobID))
    ensures push == PushOf(model, Messages.Abandoned(testID, jobID))
  {
    ghost var m := Messages.Abandoned(testID, jobID);
    updated, justFinished, push := tests, false, None;
    Lookup(tests, model, contents, m);
    if testID in tests && jobID in tests[testID].subJobs {
      var sj := tests[testID].subJobs[jobID];
      var snap;
      sj := sj.(done := true, abandoned := true);
      updated, justFinished, snap := Put(tests, testID, jobID, sj, model, contents, m);
      push := Some(snap);
    }
  }

  /** What each message of the results stream pushes. */
  ghost predicate PushesOf(tests: Tests, ms: seq<Message>, pushes: seq<Push>) {
    && |pushes| == |ms|
    && forall i: nat {:trigger Index(i)} ::
         Index(i) && i < |ms| ==> pushes[i] == Push(ms[i].testID, PushOf(AfterAll(tests, ms, i), ms[i]))
  }

  /** Names the positions at which `PushesOf` is needed. */
  ghost predicate Index(i: nat) {
    true
  }

  lemma SomePushes(tests: Tests, ms: seq<Message>) returns (pushes: seq<Push>)
    ensures PushesOf(tests, ms, pushes)
  {
    pushes := seq(|ms|, i requires 0 <= i < |ms| => Push(ms[i].testID, PushOf(AfterAll(tests, ms, i), ms[i])));
  }

  /** One more message of the stream. */
  lemma WatchNext(tests: Tests, ms: seq<Message>, pushes: seq<Push>, views: Views, a: nat, i: nat)
    requires a <= i < |ms| && PushesOf(tests, ms, pushes)
    ensures AfterAll(tests, ms, i + 1) == AfterMessage(AfterAll(tests, ms, i), ms[i])
    ensures Firings(tests, ms, a, i + 1)
         == Firings(tests, ms, a, i) + if JustFinished(AfterAll(tests, ms, i), ms[i]) then [ms[i].testID] else []
    ensures TellAll(views, pushes, a, i + 1)
         == Tell(TellAll(views, pushes, a, i), ms[i].testID, PushOf(AfterAll(tests, ms, i), ms[i]))
  {
    assert Index(i);
  }

  class TestStore {
    var tests: map<string, TestState>
    var lastSubmitted: map<string, nat>
    const subscribers: Registry
    ghost var model: Tests
    ghost var contents: Contents

    /** The tests are what the log says. */
    ghost predicate RecordOK()
      reads this, contents.Keys
    {
      TestsOK(tests, model, contents) && SketchesHold(contents)
    }

    ghost predicate Valid()
      reads this, subscribers, subscribers.views.Keys, contents.Keys
    {
      RecordOK() && subscribers.Valid()
    }

    constructor ()
      ensures Valid() && model == map[] && lastSubmitted == map[] && subscribers.issued == [] && fresh(subscribers)
    {
      lastSubmitted := map[];
      tests, model, contents := map[], map[], map[];
      subscribers := new Registry();
    }

    /** `Register`, at the given time. */
    method Register(testID: string, ownerID: string, url: string, jobIDs: seq<string>, createdAt: nat)
      requires RecordOK()
      modifies this
      ensures lastSubmitted == old(lastSubmitted)[ownerID := createdAt]
      ensures RecordOK() && model == After(old(model), Op.Register(testID, ownerID, url, jobIDs))
      ensures forall u :: SnapshotFor(model, testID, u).Some? <==> u == ownerID
      ensures SnapshotFor(model, testID, ownerID).Some? && SnapshotFor(model, testID, ownerID).value.url == url
      ensures contents == old(contents)
    {
      var subJobs: map<string, SubJobState> := map[];
      for i := 0 to |jobIDs|
        invariant subJobs.Keys == set id | id in jobIDs[..i]
        invariant forall id :: id in subJobs ==>
                    subJobs[id] == SubJobState(0, 0, 0.0, "", "", "", false, false, false, null)
      {
        subJobs := subJobs[jobIDs[i] := SubJobState(0, 0, 0.0, "", "", "", false, false, false, null)];
        assert jobIDs[..i + 1] == jobIDs[..i] + [jobIDs[i]];
      }
      assert jobIDs[..|jobIDs|] == jobIDs;
      var t := TestState(testID, ownerID, url, subJobs);
      assert TestOK(t, Test(ownerID, url, Fresh(jobIDs)), contents);
      tests := tests[testID := t];
      lastSubmitted := lastSubmitted[ownerID := createdAt];
      OwnerSeesNewTest(model, Op.Register(testID, ownerID, url, jobIDs), ownerID);
      model := After(model, Op.Register(testID, ownerID, url, jobIDs));
    }

    /** `CooldownRemaining`: what is missing until the cooldown has passed since the owner's last registration. */
    method CooldownRemaining(ownerID: string, cooldown: nat, now: nat) returns (remaining: nat)
      requires ownerID in lastSubmitted ==> lastSubmitted[ownerID] <= now
      ensures remaining == 0 <==> ownerID !in lastSubmitted || lastSubmitted[ownerID] + cooldown <= now
      ensures remaining > 0 ==> lastSubmitted[ownerID] + cooldown == now + remaining
    {
      if ownerID !in lastSubmitted {
        return 0;
      }
      var elapsed := now - lastSubmitted[ownerID];
      if elapsed >= cooldown {
        return 0;
      }
      return cooldown - elapsed;
    }

    /** `Snapshot`: someone else's test reads like one that does not exist. */
    method Snapshot(testID: string, ownerID: string) returns (snap: Option<TestSnapshot>)
      requires RecordOK()
      ensures snap == SnapshotFor(model, testID, ownerID)
    {
      if testID !in tests || tests[testID].ownerID != ownerID {
        return None;
      }
      var s := BuildSnapshot(tests[testID], model[testID], contents);
      return Some(s);
    }

    /** The record changes, and then the test's subscribers are told. */
    method Commit(updated: map<string, TestState>, testID: string, push: Option<TestSnapshot>,
                  ghost next: Tests, ghost held: Contents)
      requires subscribers.Valid() && TestsOK(updated, next, held) && SketchesHold(held)
      modifies this, subscribers`views, subscribers.views.Keys
      ensures Valid() && model == next && contents == held
      ensures subscribers.issued == old(subscribers.issued) && subscribers.open == old(subscribers.open)
      ensures subscribers.views == Tell(old(subscribers.views), testID, push)
    {
      tests, model, contents := updated, next, held;
      if push.Some? {
        subscribers.Notify(testID, push.value);
      }
    }

    /** The record took the message, and the test's open subscriptions were offered its new state. */
    twostate predicate Applied(m: Message, justFinished: bool)
      reads this, subscribers, subscribers.views.Keys
    {
      && model == AfterMessage(old(model), m)
      && justFinished == JustFinished(old(model), m)
      && subscribers.issued == old(subscribers.issued) && subscribers.open == old(subscribers.open)
      && fresh(contents.Keys - old(contents.Keys))
      && subscribers.views == Tell(old(subscribers.views), m.testID, PushOf(old(model), m))
    }

    /** `Update`. */
    method Update(testID: string, jobID: string, u: ResultUpdate) returns (justFinished: bool)
      requires Valid()
      modifies this, subscribers`views, subscribers.views.Keys
      ensures Valid() && Applied(Report(testID, jobID, u), justFinished)
    {
      var updated, push;
      ghost var held;
      updated, justFinished, push, held := ApplyReport(tests, testID, jobID, u, model, contents);
      Commit(updated, testID, push, AfterMessage(model, Report(testID, jobID, u)), held);
    }

    /** `MarkAbandoned`. */
    method MarkAbandoned(testID: string, jobID: string) returns (justFinished: bool)
      requires Valid()
      modifies this, subscribers`views, subscribers.views.Keys
      ensures Valid() && Applied(Messages.Abandoned(testID, jobID), justFinished)
    {
      var updated, push;
      updated, justFinished, push := ApplyAbandonment(tests, testID, jobID, model, contents);
      Commit(updated, testID, push, AfterMessage(model, Messages.Abandoned(testID, jobID)), contents);
    }

    /** `watchResults` on one message: an abandon report or a snapshot of a sub-job. */
    method Route(m: Message) returns (justFinished: bool)
      requires Valid()
      modifies this, subscribers`views, subscribers.views.Keys
      ensures Valid() && Applied(m, justFinished)
    {
      match m {
        case Abandoned(testID, jobID) => justFinished := MarkAbandoned(testID, jobID);
        case Report(testID, jobID, u) => justFinished := Update(testID, jobID, u);
      }
    }

    /** `Subscribe`. */
    method Subscribe(testID: string) returns (c: Subscription)
      requires Valid()
      modifies subscribers
      ensures Valid() && fresh(c)
      ensures subscribers.views == old(subscribers.views)[c := View(testID, false, [])]
      ensures subscribers.open == old(subscribers.open) + {c}
    {
      c := subscribers.Subscribe(testID);
    }

    method Unsubscribe(c: Subscription)
      requires Valid() && c in subscribers.views
      modifies subscribers, c
      ensures Valid() && subscribers.open == old(subscribers.open) - {c}
      ensures subscribers.views == old(subscribers.views)[c := old(subscribers.views)[c].(closed := true)]
    {
      subscribers.Unsubscribe(c);
    }

    /** The subscriber reads its channel. */
    method Receive(c: Subscription) returns (snap: Option<TestSnapshot>)
      requires Valid() && c in subscribers.views
      modifies subscribers`views, c
      ensures Valid() && snap == Front(History(old(subscribers.views)[c].events).queued)
      ensures var was := old(subscribers.views);
              subscribers.views == was[c := was[c].(events := was[c].events + [Taken])]
    {
      snap := subscribers.Receive(c);
    }

    /** `watchResults` reading messages a up to b of the results stream; `finished` lists the tests it reports to
        `onTestFinished`. */
    method WatchResults(ms: seq<Message>, a: nat, b: nat, ghost origin: Tests, ghost pushes: seq<Push>)
      returns (finished: seq<string>)
      requires Valid() && a <= b <= |ms| && model == AfterAll(origin, ms, a) && PushesOf(origin, ms, pushes)
      modifies this, subscribers`views, subscribers.views.Keys
      ensures Valid() && model == AfterAll(origin, ms, b) && finished == Firings(origin, ms, a, b)
      ensures subscribers.open == old(subscribers.open)
      ensures subscribers.views == TellAll(old(subscribers.views), pushes, a, b)
      ensures subscribers.views.Keys == old(subscribers.views.Keys)
    {
      finished := [];
      for i := a to b
        invariant Valid() && model == AfterAll(origin, ms, i) && finished == Firings(origin, ms, a, i)
        invariant subscribers.open == old(subscribers.open)
        invariant subscribers.views == TellAll(old(subscribers.views), pushes, a, i)
        invariant subscribers.views.Keys == old(subscribers.views.Keys)
      {
        WatchNext(origin, ms, pushes, old(subscribers.views), a, i);
        var justFinished := Route(ms[i]);
        if justFinished {
          finished := finished + [ms[i].testID];
        }
      }
    }
  }
}
