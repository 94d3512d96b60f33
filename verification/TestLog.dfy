/** The coordinator's view of tests as a function of what was registered and reported
    (coordinator/teststore.go, coordinator/resultwatcher.go). */
module TestLog {
  import opened Wrappers
  import opened Messages
  import opened Histograms
  import opened SketchWire

  /** The latest known state of one sub-job. */
  datatype SubJob = SubJob(
    requests: int,
    errors: int,
    rps: real,
    p50: string,
    p95: string,
    p99: string,
    done: bool,
    circuitBroken: bool,
    abandoned: bool,
    sketch: Option<Counts>)

  const NEW_SUB_JOB: SubJob := SubJob(0, 0, 0.0, "", "", "", false, false, false, None)

  datatype Test = Test(ownerID: string, url: string, subJobs: map<string, SubJob>)

  type Tests = map<string, Test>

  datatype Op =
    | Register(testID: string, ownerID: string, url: string, jobIDs: seq<string>)
    | Apply(m: Message)

  /** The sketch a report carries, if it carries one that decodes. */
  function SketchOf(text: string): Option<Counts> {
    if text == "" then None
    else
      match Decoded(text)
      case Ok(c) => Some(c)
      case Err(_) => None
  }

  function Reported(sj: SubJob, u: ResultUpdate): SubJob {
    SubJob(u.requests, u.errors, u.rps, u.p50, u.p95, u.p99, u.done, u.circuitBroken, sj.abandoned,
           SketchOf(u.latencySketch))
  }

  function GaveUp(sj: SubJob): SubJob {
    sj.(done := true, abandoned := true)
  }

  predicate Known(tests: Tests, m: Message) {
    m.testID in tests && m.jobID in tests[m.testID].subJobs
  }

  function AfterMessage(tests: Tests, m: Message): Tests {
    if !Known(tests, m) then tests
    else
      var t := tests[m.testID];
      var sj := t.subJobs[m.jobID];
      var sj' := if m.Abandoned? then GaveUp(sj) else Reported(sj, m.u);
      tests[m.testID := t.(subJobs := t.subJobs[m.jobID := sj'])]
  }

  function Fresh(jobIDs: seq<string>): map<string, SubJob> {
    map id | id in jobIDs :: NEW_SUB_JOB
  }

  function After(tests: Tests, op: Op): Tests {
    match op
    case Register(testID, ownerID, url, jobIDs) => tests[testID := Test(ownerID, url, Fresh(jobIDs))]
    case Apply(m) => AfterMessage(tests, m)
  }

  function Replay(ops: seq<Op>): Tests {
    if ops == [] then map[] else After(Replay(ops[..|ops| - 1]), ops[|ops| - 1])
  }

  predicate AllDone(t: Test) {
    forall id :: id in t.subJobs ==> t.subJobs[id].done
  }

  /** The messages about one sub-job since its test was last registered, in the order they were applied. */
  function MessagesAbout(ops: seq<Op>, testID: string, jobID: string): seq<Message> {
    if ops == [] then []
    else
      var before := MessagesAbout(ops[..|ops| - 1], testID, jobID);
      match ops[|ops| - 1]
      case Register(t, _, _, _) => if t == testID then [] else before
      case Apply(m) => if m.testID == testID && m.jobID == jobID then before + [m] else before
  }

  /** The numbers of the last report, whatever abandon messages came after it. */
  function LastReport(ms: seq<Message>): Option<ResultUpdate> {
    if ms == [] then None
    else if ms[|ms| - 1].Report? then Some(ms[|ms| - 1].u)
    else LastReport(ms[..|ms| - 1])
  }

  ghost predicate EverAbandoned(ms: seq<Message>) {
    exists i :: 0 <= i < |ms| && ms[i].Abandoned?
  }

  /** What a sub-job's state must be, given the messages about it. */
  ghost predicate Summarizes(sj: SubJob, ms: seq<Message>) {
    && (sj.done <==> ms != [] && Final(ms[|ms| - 1]))
    && (sj.abandoned <==> EverAbandoned(ms))
    && match LastReport(ms)
       case None => sj.(done := false, abandoned := false) == NEW_SUB_JOB
       case Some(u) =>
         && sj.requests == u.requests && sj.errors == u.errors && sj.rps == u.rps
         && sj.p50 == u.p50 && sj.p95 == u.p95 && sj.p99 == u.p99
         && sj.circuitBroken == u.circuitBroken && sj.sketch == SketchOf(u.latencySketch)
  }

  lemma SummaryGrows(sj: SubJob, ms: seq<Message>, m: Message)
    requires Summarizes(sj, ms)
    ensures Summarizes(if m.Abandoned? then GaveUp(sj) else Reported(sj, m.u), ms + [m])
  {
    assert (ms + [m])[..|ms|] == ms;
    if EverAbandoned(ms) {
      var i :| 0 <= i < |ms| && ms[i].Abandoned?;
      assert (ms + [m])[i].Abandoned?;
    }
    if m.Abandoned? { assert (ms + [m])[|ms|].Abandoned?; }
  }

  /** The store is a faithful summary of its log: after any operations, each sub-job's numbers are those of its
      last report, it is abandoned for good once abandoned, and it is done exactly when the last message about
      it said so. */
  lemma {:induction false} StoreSummarizesLog(ops: seq<Op>, testID: string, jobID: string)
    requires testID in Replay(ops) && jobID in Replay(ops)[testID].subJobs
    ensures Summarizes(Replay(ops)[testID].subJobs[jobID], MessagesAbout(ops, testID, jobID))
  {
    var front, op := ops[..|ops| - 1], ops[|ops| - 1];
    if !(op.Register? && op.testID == testID) {
      StoreSummarizesLog(front, testID, jobID);
      if op.Apply? && op.m.testID == testID && op.m.jobID == jobID {
        SummaryGrows(Replay(front)[testID].subJobs[jobID], MessagesAbout(front, testID, jobID), op.m);
      }
    }
  }

  /** The messages among the operations, in order. */
  function MessagesIn(ops: seq<Op>): seq<Message> {
    if ops == [] then []
    else
      var before, op := MessagesIn(ops[..|ops| - 1]), ops[|ops| - 1];
      if op.Apply? then before + [op.m] else before
  }

  /** Those about one sub-job. */
  function AboutIn(ms: seq<Message>, testID: string, jobID: string): seq<Message> {
    if ms == [] then []
    else
      var before, m := AboutIn(ms[..|ms| - 1], testID, jobID), ms[|ms| - 1];
      if m.testID == testID && m.jobID == jobID then before + [m] else before
  }

  /** Operation k registers the test, for the last time. */
  ghost predicate RegistersAt(ops: seq<Op>, op: Op, k: nat) {
    op.Register? && k < |ops| && ops[k] == op && forall i :: k < i < |ops| ==> !Registers(ops[i], op.testID)
  }

  /** No message about the test was applied before. */
  ghost predicate RegistersInTime(ops: seq<Op>, op: Op, k: nat) {
    RegistersAt(ops, op, k) && forall i :: 0 <= i < k && ops[i].Apply? ==> ops[i].m.testID != op.testID
  }

  /** What one operation adds to that. */
  function AboutOne(op: Op, testID: string, jobID: string): seq<Message> {
    if op.Apply? && op.m.testID == testID && op.m.jobID == jobID then [op.m] else []
  }

  lemma AboutNext(ops: seq<Op>, testID: string, jobID: string)
    requires ops != []
    ensures AboutIn(MessagesIn(ops), testID, jobID)
         == AboutIn(MessagesIn(ops[..|ops| - 1]), testID, jobID) + AboutOne(ops[|ops| - 1], testID, jobID)
  {
    var before, op := MessagesIn(ops[..|ops| - 1]), ops[|ops| - 1];
    if op.Apply? {
      assert (before + [op.m])[..|before|] == before;
    }
  }

  lemma {:induction false} NothingAbout(ops: seq<Op>, testID: string, jobID: string)
    requires forall i :: 0 <= i < |ops| && ops[i].Apply? ==> ops[i].m.testID != testID
    ensures AboutIn(MessagesIn(ops), testID, jobID) == []
  {
    if ops != [] {
      NothingAbout(ops[..|ops| - 1], testID, jobID);
      AboutNext(ops, testID, jobID);
    }
  }

  lemma {:induction false} AboutSplit(ops: seq<Op>, k: nat, testID: string, jobID: string)
    requires k <= |ops|
    ensures AboutIn(MessagesIn(ops), testID, jobID)
         == AboutIn(MessagesIn(ops[..k]), testID, jobID) + AboutIn(MessagesIn(ops[k..]), testID, jobID)
  {
    if k == |ops| {
      assert ops[..k] == ops && ops[k..] == [];
    } else {
      var front, rest := ops[..|ops| - 1], ops[k..];
      assert front[..k] == ops[..k] && rest[..|rest| - 1] == front[k..];
      AboutSplit(front, k, testID, jobID);
      AboutNext(ops, testID, jobID);
      AboutNext(rest, testID, jobID);
    }
  }

  /** A test is the one last registered under its ID: with that owner and URL, and those sub-jobs. */
  lemma {:induction false} KnowsTest(ops: seq<Op>, op: Op, k: nat)
    requires RegistersAt(ops, op, k)
    ensures var tests := Replay(ops);
            && op.testID in tests && tests[op.testID].subJobs.Keys == (set j | j in op.jobIDs)
            && tests[op.testID].ownerID == op.ownerID && tests[op.testID].url == op.url
  {
    if k < |ops| - 1 {
      KnowsTest(ops[..|ops| - 1], op, k);
    }
  }

  /** A store knows the sub-jobs of a test's last registration, and of the messages about them those that came after
      it, whatever else it registers and hears. */
  lemma {:induction false} HearsSince(ops: seq<Op>, op: Op, k: nat, jobID: string)
    requires RegistersAt(ops, op, k)
    ensures var tests := Replay(ops);
            op.testID in tests && tests[op.testID].subJobs.Keys == (set j | j in op.jobIDs)
    ensures MessagesAbout(ops, op.testID, jobID) == AboutIn(MessagesIn(ops[k + 1..]), op.testID, jobID)
  {
    KnowsTest(ops, op, k);
    if k < |ops| - 1 {
      var front, last := ops[..|ops| - 1], ops[|ops| - 1];
      HearsSince(front, op, k, jobID);
      assert ops[k + 1..][..|ops| - k - 2] == front[k + 1..];
      AboutNext(ops[k + 1..], op.testID, jobID);
    }
  }

  /** If it registered the test before any message about it, those are all. */
  lemma HearsAll(ops: seq<Op>, op: Op, k: nat, jobID: string)
    requires RegistersInTime(ops, op, k)
    ensures AboutIn(MessagesIn(ops[k + 1..]), op.testID, jobID) == AboutIn(MessagesIn(ops), op.testID, jobID)
  {
    AboutSplit(ops, k + 1, op.testID, jobID);
    NothingAbout(ops[..k + 1], op.testID, jobID);
  }

  /** Registering starts from nothing: whatever was reported about the test before is lost, and a test with
      sub-jobs is not done. */
  lemma EarlyReportsAreLost(ops: seq<Op>, testID: string, ownerID: string, url: string, jobIDs: seq<string>)
    ensures var tests := Replay(ops + [Register(testID, ownerID, url, jobIDs)]);
            && testID in tests && tests[testID].subJobs.Keys == (set j | j in jobIDs)
            && (forall j :: j in jobIDs ==> tests[testID].subJobs[j] == NEW_SUB_JOB)
            && (AllDone(tests[testID]) <==> jobIDs == [])
  {
    var all := ops + [Register(testID, ownerID, url, jobIDs)];
    assert all[..|all| - 1] == ops;
    if jobIDs != [] {
      assert jobIDs[0] in jobIDs;
    }
  }

  /** Messages change only the sub-job they name, and none if it is unknown; they register nothing. */
  lemma MessagesAreLocal(tests: Tests, m: Message, testID: string, jobID: string)
    requires testID in tests && jobID in tests[testID].subJobs
    requires m.testID != testID || m.jobID != jobID
    ensures AfterMessage(tests, m).Keys == tests.Keys
    ensures AfterMessage(tests, m)[testID].subJobs.Keys == tests[testID].subJobs.Keys
    ensures AfterMessage(tests, m)[testID].subJobs[jobID] == tests[testID].subJobs[jobID]
    ensures !Known(tests, m) ==> AfterMessage(tests, m) == tests
  {
  }

  /** The signal that a test has just finished: its last open sub-job was closed by this message. */
  predicate JustFinished(tests: Tests, m: Message) {
    Known(tests, m) && !AllDone(tests[m.testID]) && AllDone(AfterMessage(tests, m)[m.testID])
  }

  /** The operation reopens a sub-job of the test that was done. */
  predicate Reopens(tests: Tests, op: Op, testID: string) {
    && op.Apply? && op.m.Report? && !op.m.u.done && op.m.testID == testID
    && Known(tests, op.m) && tests[testID].subJobs[op.m.jobID].done
  }

  /** The signal fires at operation i for this test. */
  predicate FiresAt(ops: seq<Op>, i: nat, testID: string)
    requires i < |ops|
  {
    ops[i].Apply? && ops[i].m.testID == testID && JustFinished(Replay(ops[..i]), ops[i].m)
  }

  predicate Registers(op: Op, testID: string) {
    op.Register? && op.testID == testID
  }

  lemma ReplayNext(ops: seq<Op>, i: nat)
    requires i < |ops|
    ensures Replay(ops[..i + 1]) == After(Replay(ops[..i]), ops[i])
  {
    assert ops[..i + 1][..i] == ops[..i];
  }

  /** The tests after the first n messages of the results stream. */
  function AfterAll(tests: Tests, ms: seq<Message>, n: nat): Tests
    requires n <= |ms|
  {
    if n == 0 then tests else AfterMessage(AfterAll(tests, ms, n - 1), ms[n - 1])
  }

  /** The tests reported finished by messages a up to b, in order. */
  function Firings(tests: Tests, ms: seq<Message>, a: nat, b: nat): seq<string>
    requires a <= b <= |ms|
  {
    if a == b then []
    else
      var fires := JustFinished(AfterAll(tests, ms, b - 1), ms[b - 1]);
      Firings(tests, ms, a, b - 1) + if fires then [ms[b - 1].testID] else []
  }

  function AsOps(ms: seq<Message>, n: nat): seq<Op>
    requires n <= |ms|
  {
    seq(n, i requires 0 <= i < n => Apply(ms[i]))
  }

  /** Routing messages continues the log. */
  lemma {:induction false} ReplayAll(ops: seq<Op>, ms: seq<Message>, n: nat)
    requires n <= |ms|
    ensures Replay(ops + AsOps(ms, n)) == AfterAll(Replay(ops), ms, n)
  {
    if n == 0 {
      assert ops + AsOps(ms, n) == ops;
    } else {
      ReplayAll(ops, ms, n - 1);
      var all := ops + AsOps(ms, n);
      assert all[..|all| - 1] == ops + AsOps(ms, n - 1);
    }
  }

  /** Messages neither add tests nor change who owns them. */
  lemma {:induction false} OwnersStay(tests: Tests, ms: seq<Message>, n: nat)
    requires n <= |ms|
    ensures AfterAll(tests, ms, n).Keys == tests.Keys
    ensures forall t :: t in tests ==> AfterAll(tests, ms, n)[t].ownerID == tests[t].ownerID
  {
    if n != 0 {
      OwnersStay(tests, ms, n - 1);
    }
  }

  predicate DoneAfter(ops: seq<Op>, i: nat, testID: string)
    requires i <= |ops|
  {
    testID in Replay(ops[..i]) && AllDone(Replay(ops[..i])[testID])
  }

  lemma {:induction false} StaysDone(ops: seq<Op>, i: nat, k: nat, testID: string)
    requires i <= k <= |ops| && DoneAfter(ops, i, testID)
    requires forall j :: i <= j < k ==> !Registers(ops[j], testID) && !Reopens(Replay(ops[..j]), ops[j], testID)
    ensures DoneAfter(ops, k, testID)
  {
    if i < k {
      StaysDone(ops, i, k - 1, testID);
      DoneNext(ops, k - 1, testID);
    }
  }

  lemma DoneNext(ops: seq<Op>, i: nat, testID: string)
    requires i < |ops| && DoneAfter(ops, i, testID)
    requires !Registers(ops[i], testID) && !Reopens(Replay(ops[..i]), ops[i], testID)
    ensures DoneAfter(ops, i + 1, testID)
  {
    ReplayNext(ops, i);
    OnlyReopeningUndoes(Replay(ops[..i]), ops[i], testID);
  }

  lemma OnlyReopeningUndoes(tests: Tests, op: Op, testID: string)
    requires testID in tests && AllDone(tests[testID])
    requires !Registers(op, testID) && !Reopens(tests, op, testID)
    ensures testID in After(tests, op) && AllDone(After(tests, op)[testID])
  {
  }

  /** The signal fires once per completion: between two firings for the same registration of a test, some report
      reopened a sub-job of it that was done. */
  lemma FiringsNeedReopening(ops: seq<Op>, i: nat, k: nat, testID: string)
    requires i < k < |ops| && FiresAt(ops, i, testID) && FiresAt(ops, k, testID)
    requires forall j :: i < j < k ==> !Registers(ops[j], testID)
    ensures exists j :: i < j < k && Reopens(Replay(ops[..j]), ops[j], testID)
  {
    ReplayNext(ops, i);
    if forall j :: i < j < k ==> !Reopens(Replay(ops[..j]), ops[j], testID) {
      StaysDone(ops, i + 1, k, testID);
    }
  }

  /** The signal fires exactly on the edge: this message took the test from open to all done. */
  lemma FiresOnTheEdge(ops: seq<Op>, i: nat)
    requires i < |ops| && ops[i].Apply?
    ensures var t := ops[i].m.testID;
            FiresAt(ops, i, t) <==> t in Replay(ops[..i]) && !DoneAfter(ops, i, t) && DoneAfter(ops, i + 1, t)
  {
    ReplayNext(ops, i);
  }

  predicate IsDone(tests: Tests, testID: string) {
    testID in tests && AllDone(tests[testID])
  }

  function One(b: bool): nat {
    if b then 1 else 0
  }

  /** Whether the test is all done, before the first message and after each. */
  function DoneTrace(tests: Tests, ms: seq<Message>, testID: string): (d: seq<bool>)
    ensures |d| == |ms| + 1
    ensures forall i :: 0 <= i <= |ms| ==> d[i] == IsDone(AfterAll(tests, ms, i), testID)
  {
    seq(|ms| + 1, i requires 0 <= i <= |ms| => IsDone(AfterAll(tests, ms, i), testID))
  }

  predicate Opens(d: seq<bool>, i: nat)
    requires i + 1 < |d|
  {
    d[i] && !d[i + 1]
  }

  predicate Closes(d: seq<bool>, i: nat)
    requires i + 1 < |d|
  {
    !d[i] && d[i + 1]
  }

  function Openings(d: seq<bool>, a: nat, b: nat): nat
    requires a <= b < |d|
  {
    if a == b then 0 else Openings(d, a, b - 1) + One(Opens(d, b - 1))
  }

  function Closings(d: seq<bool>, a: nat, b: nat): nat
    requires a <= b < |d|
  {
    if a == b then 0 else Closings(d, a, b - 1) + One(Closes(d, b - 1))
  }

  /** Closings and openings alternate. */
  lemma {:induction false} Alternate(d: seq<bool>, a: nat, b: nat)
    requires a <= b < |d|
    ensures Closings(d, a, b) + One(d[a]) == Openings(d, a, b) + One(d[b])
  {
    if a < b {
      Alternate(d, a, b - 1);
    }
  }

  /** Opened after all was done, and closed again. */
  ghost predicate Reclosed(d: seq<bool>, a: nat, b: nat)
    requires a <= b < |d|
  {
    exists i, j :: a <= i < j <= b && Opens(d, i) && d[j]
  }

  lemma {:induction false} ClosingsGrow(d: seq<bool>, a: nat, b: nat, c: nat)
    requires a <= b <= c < |d|
    ensures Closings(d, a, b) <= Closings(d, a, c) && Openings(d, a, b) <= Openings(d, a, c)
  {
    if b < c {
      ClosingsGrow(d, a, b, c - 1);
    }
  }

  lemma {:induction false} NoOpening(d: seq<bool>, a: nat, b: nat, i: nat)
    requires a <= i <= b < |d| && !Reclosed(d, a, b)
    ensures Openings(d, a, i) <= 1
    ensures Openings(d, a, i) == 1 ==> !d[i] && exists k :: a <= k < i && Opens(d, k)
  {
    if a < i {
      NoOpening(d, a, b, i - 1);
      if Openings(d, a, i - 1) == 1 {
        var k :| a <= k < i - 1 && Opens(d, k);
        assert !d[i];
      } else if Opens(d, i - 1) {
        assert a <= i - 1 < i;
      }
    }
  }

  lemma ClosedAtMostOnce(d: seq<bool>, a: nat, b: nat)
    requires a <= b < |d| && !d[a]
    ensures Closings(d, a, b) <= 1 <==> !Reclosed(d, a, b)
  {
    Alternate(d, a, b);
    if Reclosed(d, a, b) {
      var i, j :| a <= i < j <= b && Opens(d, i) && d[j];
      Alternate(d, a, j);
      ClosingsGrow(d, a, i + 1, j);
      ClosingsGrow(d, a, j, b);
    } else {
      NoOpening(d, a, b, b);
    }
  }

  /** A message opens a test that is all done exactly if it is a not-done report about one of its sub-jobs. */
  lemma OpensExactly(tests: Tests, ms: seq<Message>, i: nat, testID: string)
    requires i < |ms|
    ensures Opens(DoneTrace(tests, ms, testID), i) <==>
              IsDone(AfterAll(tests, ms, i), testID) && Reopens(AfterAll(tests, ms, i), Apply(ms[i]), testID)
  {
    var before, m := AfterAll(tests, ms, i), ms[i];
    assert AfterAll(tests, ms, i + 1) == AfterMessage(before, m);
    if IsDone(before, testID) {
      if Reopens(before, Apply(m), testID) {
        assert !AfterMessage(before, m)[testID].subJobs[m.jobID].done;
      } else {
        OnlyReopeningUndoes(before, Apply(m), testID);
      }
    }
  }

  lemma FiresIsEdge(tests: Tests, m: Message, testID: string)
    ensures JustFinished(tests, m) && m.testID == testID <==>
              testID in tests && !IsDone(tests, testID) && IsDone(AfterMessage(tests, m), testID)
  {
  }

  lemma CountOne(fired: seq<string>, m: string, b: bool, t: string)
    ensures multiset(fired + if b then [m] else [])[t] == multiset(fired)[t] + One(b && m == t)
  {
  }

  lemma FiresExactly(tests: Tests, ms: seq<Message>, i: nat, testID: string)
    requires i < |ms| && testID in tests
    ensures Closes(DoneTrace(tests, ms, testID), i) <==>
              JustFinished(AfterAll(tests, ms, i), ms[i]) && ms[i].testID == testID
  {
    OwnersStay(tests, ms, i);
    FiresIsEdge(AfterAll(tests, ms, i), ms[i], testID);
    assert AfterAll(tests, ms, i + 1) == AfterMessage(AfterAll(tests, ms, i), ms[i]);
  }

  lemma NextFiring(tests: Tests, ms: seq<Message>, a: nat, i: nat, testID: string)
    requires a <= i < |ms|
    ensures multiset(Firings(tests, ms, a, i + 1))[testID]
         == multiset(Firings(tests, ms, a, i))[testID]
            + One(JustFinished(AfterAll(tests, ms, i), ms[i]) && ms[i].testID == testID)
  {
    CountOne(Firings(tests, ms, a, i), ms[i].testID, JustFinished(AfterAll(tests, ms, i), ms[i]), testID);
  }

  lemma {:induction false} CountsClosings(c: seq<nat>, d: seq<bool>, a: nat, b: nat)
    requires a <= b < |d| == |c| && c[a] == 0
    requires forall i :: a <= i < b ==> c[i + 1] == c[i] + One(Closes(d, i))
    ensures c[b] == Closings(d, a, b)
  {
    if a < b {
      CountsClosings(c, d, a, b - 1);
    }
  }

  ghost function FiringCounts(tests: Tests, ms: seq<Message>, a: nat, testID: string): (c: seq<nat>)
    ensures |c| == |ms| + 1
    ensures forall i :: a <= i <= |ms| ==> c[i] == multiset(Firings(tests, ms, a, i))[testID]
  {
    seq(|ms| + 1, i requires 0 <= i <= |ms| => if i < a then 0 else multiset(Firings(tests, ms, a, i))[testID])
  }

  /** The finished signals for a test are the closings of it, one each. */
  lemma FiringsAreClosings(tests: Tests, ms: seq<Message>, a: nat, b: nat, testID: string)
    requires a <= b <= |ms| && testID in tests
    ensures multiset(Firings(tests, ms, a, b))[testID] == Closings(DoneTrace(tests, ms, testID), a, b)
  {
    var c, d := FiringCounts(tests, ms, a, testID), DoneTrace(tests, ms, testID);
    forall i | a <= i < b ensures c[i + 1] == c[i] + One(Closes(d, i)) {
      NextFiring(tests, ms, a, i, testID);
      FiresExactly(tests, ms, i, testID);
    }
    CountsClosings(c, d, a, b);
  }

  /** The exact number of finished signals over any stretch of the stream: one for every opening, and one more if
      the test is done after the stretch but was not before. */
  lemma FiringsBalance(tests: Tests, ms: seq<Message>, a: nat, b: nat, testID: string)
    requires a <= b <= |ms| && testID in tests
    ensures var d := DoneTrace(tests, ms, testID);
            multiset(Firings(tests, ms, a, b))[testID] + One(d[a]) == Openings(d, a, b) + One(d[b])
  {
    FiringsAreClosings(tests, ms, a, b, testID);
    Alternate(DoneTrace(tests, ms, testID), a, b);
  }

  /** The watcher reports a test that was open at most once if and only if the test, once all done, is not opened
      and closed again. */
  lemma FinishedAtMostOnce(tests: Tests, ms: seq<Message>, a: nat, b: nat, testID: string)
    requires a <= b <= |ms| && testID in tests && !IsDone(AfterAll(tests, ms, a), testID)
    ensures multiset(Firings(tests, ms, a, b))[testID] <= 1 <==> !Reclosed(DoneTrace(tests, ms, testID), a, b)
  {
    FiringsAreClosings(tests, ms, a, b, testID);
    ClosedAtMostOnce(DoneTrace(tests, ms, testID), a, b);
  }

  /** Over a stretch that reopens no done sub-job of the test it is reported at most once; and once it has been,
      it is done from then on. */
  lemma {:induction false} NeverReopened(tests: Tests, ms: seq<Message>, a: nat, b: nat, testID: string)
    requires a <= b <= |ms|
    requires forall i :: a <= i < b ==> !Reopens(AfterAll(tests, ms, i), Apply(ms[i]), testID)
    ensures multiset(Firings(tests, ms, a, b))[testID] <= 1
    ensures testID in Firings(tests, ms, a, b) ==> IsDone(AfterAll(tests, ms, b), testID)
  {
    if a < b {
      NeverReopened(tests, ms, a, b - 1, testID);
      var before, m := AfterAll(tests, ms, b - 1), ms[b - 1];
      FiresIsEdge(before, m, testID);
      CountOne(Firings(tests, ms, a, b - 1), m.testID, JustFinished(before, m), testID);
      if IsDone(before, testID) {
        OnlyReopeningUndoes(before, Apply(m), testID);
      }
    }
  }

  /** A reopened test fires again: a done report, a not-done report and a done report signal twice. */
  lemma ReopenedTestFiresTwice(done: ResultUpdate, open: ResultUpdate)
    requires done.done && !open.done
    ensures var ops := [Register("t", "u", "url", ["j"]), Apply(Report("t", "j", done)),
                        Apply(Report("t", "j", open)), Apply(Report("t", "j", done))];
            FiresAt(ops, 1, "t") && FiresAt(ops, 3, "t")
  {
    var ops := [Register("t", "u", "url", ["j"]), Apply(Report("t", "j", done)),
                Apply(Report("t", "j", open)), Apply(Report("t", "j", done))];
    assert ops[..0] == [] && ops[..1] == [] + [ops[0]];
    EarlyReportsAreLost([], "t", "u", "url", ["j"]);
    ReplayNext(ops, 1);
    OnlyJobReported(Replay(ops[..1]), done);
    ReplayNext(ops, 2);
    OnlyJobReported(Replay(ops[..2]), open);
    OnlyJobReported(Replay(ops[..3]), done);
  }

  /** A report about the only sub-job of a test decides whether the test is done. */
  lemma OnlyJobReported(tests: Tests, u: ResultUpdate)
    requires "t" in tests && tests["t"].subJobs.Keys == {"j"}
    ensures var m := Report("t", "j", u);
            && Known(tests, m) && "t" in AfterMessage(tests, m)
            && AfterMessage(tests, m)["t"].subJobs.Keys == {"j"} && AllDone(AfterMessage(tests, m)["t"]) == u.done
  {
    assert "j" in tests["t"].subJobs.Keys;
    assert AfterMessage(tests, Report("t", "j", u))["t"].subJobs["j"].done == u.done;
  }
}
