/** From the queue to the dashboard: once a test's jobs are acked, every store that serves it has it as done. */
module Composition {
  import opened Messages
  import opened Lease
  import opened LeaseSafety
  import opened LeaseLimits
  import opened LeaseWords
  import opened LeaseLog
  import opened LeaseProgress
  import opened TestLog

  /** The entry of the jobs stream that carries one sub-job, and no other. */
  ghost predicate CarriedBy(s: State, testID: string, jobID: string, id: nat) {
    && id < |s.jobs| && s.jobs[id].testID == testID && s.jobs[id].jobID == jobID
    && forall i :: 0 <= i < |s.jobs| && s.jobs[i].testID == testID && s.jobs[i].jobID == jobID ==> i == id
  }

  /** The registration's sub-jobs are carried by these entries. */
  ghost predicate Registered(s: State, op: Op, entries: map<string, nat>) {
    && op.Register? && entries.Keys == (set j | j in op.jobIDs)
    && forall j :: j in entries ==> CarriedBy(s, op.testID, j, entries[j])
  }

  function Words(results: seq<Logged>): seq<Message> {
    seq(|results|, i requires 0 <= i < |results| => results[i].msg)
  }

  /** What a coordinator went through: it applied the whole results stream in order, and the last time that it
      registered the test was its k-th operation. It may have registered any other tests meanwhile. */
  ghost predicate Watches(ops: seq<Op>, results: seq<Logged>, op: Op, k: nat) {
    MessagesIn(ops) == Words(results) && RegistersAt(ops, op, k)
  }

  /** It registered the test before it applied a message about it. */
  ghost predicate Serves(ops: seq<Op>, results: seq<Logged>, op: Op) {
    MessagesIn(ops) == Words(results) && exists k: nat :: RegistersInTime(ops, op, k)
  }

  /** It applied some message about the sub-job since. */
  ghost predicate HeardSince(ops: seq<Op>, op: Op, k: nat, jobID: string)
    requires RegistersAt(ops, op, k)
  {
    AboutIn(MessagesIn(ops[k + 1..]), op.testID, jobID) != []
  }

  lemma {:induction false} WordsOfEntry(s: State, op: Op, jobID: string, id: nat, n: nat)
    requires WordsOK(s) && op.Register? && CarriedBy(s, op.testID, jobID, id) && n <= |s.results|
    ensures AboutIn(Words(s.results[..n]), op.testID, jobID) == MessagesOf(s.results[..n], id)
  {
    if n > 0 {
      WordsOfEntry(s, op, jobID, id, n - 1);
      assert s.results[..n][..n - 1] == s.results[..n - 1];
      assert Words(s.results[..n])[..n - 1] == Words(s.results[..n - 1]);
      assert LoggedOK(s, s.results[n - 1]);
    }
  }

  lemma AllWordsOfEntry(s: State, ops: seq<Op>, op: Op, jobID: string, id: nat)
    requires WordsOK(s) && op.Register? && CarriedBy(s, op.testID, jobID, id) && MessagesIn(ops) == Words(s.results)
    ensures AboutIn(MessagesIn(ops), op.testID, jobID) == MessagesOf(s.results, id)
  {
    WordsOfEntry(s, op, jobID, id, |s.results|);
    assert s.results[..|s.results|] == s.results;
  }

  /** A sub-job's state in any store that serves its test is decided by the messages its own entry caused. */
  lemma StoreFollowsEntry(s: State, ops: seq<Op>, op: Op, jobID: string, id: nat)
    requires WordsOK(s) && Serves(ops, s.results, op) && op.Register?
    requires jobID in op.jobIDs && CarriedBy(s, op.testID, jobID, id)
    ensures var tests := Replay(ops);
            && op.testID in tests && jobID in tests[op.testID].subJobs
            && Summarizes(tests[op.testID].subJobs[jobID], MessagesOf(s.results, id))
  {
    var k: nat :| RegistersInTime(ops, op, k);
    HearsSince(ops, op, k, jobID);
    HearsAll(ops, op, k, jobID);
    AllWordsOfEntry(s, ops, op, jobID, id);
    StoreSummarizesLog(ops, op.testID, jobID);
  }

  /** What was heard last ends the job exactly if the last word does and was heard. */
  lemma HeardEnd(s: State, ops: seq<Op>, op: Op, k: nat, jobID: string, id: nat)
    requires WordsOK(s) && Watches(ops, s.results, op, k) && CarriedBy(s, op.testID, jobID, id)
    ensures var heard := AboutIn(MessagesIn(ops[k + 1..]), op.testID, jobID);
            heard != [] && Final(heard[|heard| - 1]) <==> LastFinal(s.results, id) && HeardSince(ops, op, k, jobID)
  {
    AllWordsOfEntry(s, ops, op, jobID, id);
    AboutSplit(ops, k + 1, op.testID, jobID);
  }

  /** Whenever a store registered the test: it has it as done if and only if the last word about each of its jobs
      ends it, and was applied since. */
  lemma DoneIfHeard(s: State, ops: seq<Op>, op: Op, k: nat, entries: map<string, nat>)
    requires WordsOK(s) && Registered(s, op, entries) && Watches(ops, s.results, op, k)
    ensures IsDone(Replay(ops), op.testID) <==>
              forall j :: j in entries ==> LastFinal(s.results, entries[j]) && HeardSince(ops, op, k, j)
  {
    HearsSince(ops, op, k, "");
    var t := Replay(ops)[op.testID];
    forall j | j in entries
      ensures t.subJobs[j].done <==> LastFinal(s.results, entries[j]) && HeardSince(ops, op, k, j)
    {
      HearsSince(ops, op, k, j);
      StoreSummarizesLog(ops, op.testID, j);
      HeardEnd(s, ops, op, k, j, entries[j]);
    }
    assert forall j :: j in t.subJobs <==> j in entries;
  }

  /** Any store that serves the test has it as done if and only if the last word about each of its jobs ends it. */
  lemma DoneByLastWords(s: State, ops: seq<Op>, op: Op, entries: map<string, nat>)
    requires WordsOK(s) && Registered(s, op, entries) && Serves(ops, s.results, op)
    ensures IsDone(Replay(ops), op.testID) <==> forall j :: j in entries ==> LastFinal(s.results, entries[j])
  {
    var k: nat :| RegistersInTime(ops, op, k);
    DoneIfHeard(s, ops, op, k, entries);
    forall j | j in entries ensures LastFinal(s.results, entries[j]) ==> HeardSince(ops, op, k, j) {
      HearsAll(ops, op, k, j);
      AllWordsOfEntry(s, ops, op, j, entries[j]);
    }
  }

  /** Every store that serves the test has it as done. */
  ghost predicate ReportedDone(s: State, op: Op)
    requires op.Register?
  {
    forall ops :: Serves(ops, s.results, op) ==> IsDone(Replay(ops), op.testID)
  }

  /** Every store that serves the test has it as open. */
  ghost predicate ReportedOpen(s: State, op: Op)
    requires op.Register?
  {
    forall ops :: Serves(ops, s.results, op) ==> !IsDone(Replay(ops), op.testID)
  }

  /** One such store: it registers the test and then applies the stream. */
  lemma {:induction false} SomeStore(results: seq<Logged>, op: Op) returns (ops: seq<Op>)
    requires op.Register?
    ensures Serves(ops, results, op) && |ops| == |results| + 1 && RegistersInTime(ops, op, 0)
  {
    if results == [] {
      ops := [op];
      assert ops[..0] == [] && Words(results) == [];
    } else {
      var front, m := results[..|results| - 1], results[|results| - 1].msg;
      var before := SomeStore(front, op);
      ops := before + [Apply(m)];
      assert ops[..|before|] == before;
      assert Words(results) == Words(front) + [m];
    }
    assert RegistersInTime(ops, op, 0);
  }

  /** All stores that serve the test agree, on what the last words say. */
  lemma StoresAgree(s: State, op: Op, entries: map<string, nat>)
    requires WordsOK(s) && Registered(s, op, entries)
    ensures ReportedDone(s, op) <==> forall j :: j in entries ==> LastFinal(s.results, entries[j])
    ensures ReportedOpen(s, op) <==> !ReportedDone(s, op)
  {
    forall ops | Serves(ops, s.results, op)
      ensures IsDone(Replay(ops), op.testID) <==> forall j :: j in entries ==> LastFinal(s.results, entries[j])
    {
      DoneByLastWords(s, ops, op, entries);
    }
    var ops := SomeStore(s.results, op);
  }

  ghost predicate AllAcked(s: State, entries: map<string, nat>) {
    forall j :: j in entries ==> entries[j] in s.acked
  }

  /** The job could run or was abandoned, and no late tick has the last word about it. */
  ghost predicate WellEnded(s: State, id: nat)
    requires id < |s.jobs|
  {
    (s.jobs[id].runnable || MessagesOf(s.results, id) != []) && !LateLast(s.results, id)
  }

  /** End to end. In every reachable state in which all of a test's jobs are acked, a store that applied the results
      stream has the test as done, if and only if every job could run or was abandoned, no late metrics tick has the
      last word about any of them, and that word was applied since the test was registered. A malformed job is acked
      in silence, and its test never finishes; a late tick reopens a job that is over; and a word that came before
      the registration is lost. */
  lemma AckedTestIsDone(env: Env, s: State, ops: seq<Op>, op: Op, k: nat, entries: map<string, nat>)
    requires Prompt(env) && Reachable(env, s)
    requires Registered(s, op, entries) && AllAcked(s, entries) && Watches(ops, s.results, op, k)
    ensures IsDone(Replay(ops), op.testID) <==> EndedAndHeard(s, ops, op, k, entries)
  {
    ReachableLog(env, s);
    DoneIfHeard(s, ops, op, k, entries);
    forall j | j in entries ensures LastFinal(s.results, entries[j]) <==> WellEnded(s, entries[j]) {
      assert Settled(s, entries[j]);
      SettledWord(s, entries[j]);
    }
  }

  ghost predicate EndedAndHeard(s: State, ops: seq<Op>, op: Op, k: nat, entries: map<string, nat>)
    requires Registered(s, op, entries) && RegistersAt(ops, op, k)
  {
    forall j :: j in entries ==> WellEnded(s, entries[j]) && HeardSince(ops, op, k, j)
  }

  /** That holds of all runs only as long as leases hold: otherwise a second worker can reopen an acked job. */
  lemma AckedTestIsDoneExactlyWhenPrompt(env: Env)
    ensures (forall s, ops, op, k, entries ::
               && Reachable(env, s) && Registered(s, op, entries) && AllAcked(s, entries)
               && Watches(ops, s.results, op, k) ==>
                 (IsDone(Replay(ops), op.testID) <==> EndedAndHeard(s, ops, op, k, entries)))
       <==> Prompt(env)
  {
    if Prompt(env) {
      forall s, ops, op, k, entries |
        Reachable(env, s) && Registered(s, op, entries) && AllAcked(s, entries) && Watches(ops, s.results, op, k)
        ensures IsDone(Replay(ops), op.testID) <==> EndedAndHeard(s, ops, op, k, entries)
      {
        AckedTestIsDone(env, s, ops, op, k, entries);
      }
    } else {
      var s, ops := Reopened(env);
      assert Watches(ops, s.results, TEST, 0);
    }
  }

  lemma Reopened(env: Env) returns (s: State, ops: seq<Op>)
    requires !Prompt(env)
    ensures Reachable(env, s) && Registered(s, TEST, map["j" := 0]) && AllAcked(s, map["j" := 0])
    ensures Watches(ops, s.results, TEST, 0) && !IsDone(Replay(ops), "t")
    ensures EndedAndHeard(s, ops, TEST, 0, map["j" := 0])
  {
    s := AckedWhileRunning(env);
    ReachableWords(env, s);
    TwoWords(s.results[0], s.results[1]);
    assert s.results == [s.results[0], s.results[1]];
    OneJobRegistered(s);
    ops := SomeStore(s.results, TEST);
    DoneByLastWords(s, ops, TEST, map["j" := 0]);
    HearsAll(ops, TEST, 0, "j");
    AllWordsOfEntry(s, ops, TEST, "j", 0);
    assert !LastFinal(s.results, map["j" := 0]["j"]);
  }

  const TEST: Op := Op.Register("t", "u", "url", ["j"])

  lemma OneJobRegistered(s: State)
    requires s.jobs == [JOB]
    ensures Registered(s, TEST, map["j" := 0])
  {
    assert "j" in TEST.jobIDs;
  }

  lemma AckedLater(env: Env, s: State, es: seq<Event>, entries: map<string, nat>)
    requires WordsOK(s) && AllAcked(s, entries)
    ensures AllAcked(Run(env, s, es), entries)
  {
    forall j | j in entries ensures entries[j] in Run(env, s, es).acked {
      AfterTheAck(env, s, es, entries[j]);
    }
  }

  /** A test whose jobs are all acked is reported done in every continuation of the run if and only if it is now,
      and no live worker can reopen any of its jobs: none still runs it, and no metrics ticker lingers for it. */
  lemma DoneForGood(env: Env, s: State, op: Op, entries: map<string, nat>)
    requires Reachable(env, s) && Registered(s, op, entries) && AllAcked(s, entries)
    ensures (forall es :: Registered(Run(env, s, es), op, entries) ==> ReportedDone(Run(env, s, es), op))
       <==> ReportedDone(s, op) && forall j :: j in entries ==> !CanReopen(s, entries[j])
  {
    ReachableWords(env, s);
    if ReportedDone(s, op) && forall j :: j in entries ==> !CanReopen(s, entries[j]) {
      forall es | Registered(Run(env, s, es), op, entries) ensures ReportedDone(Run(env, s, es), op) {
        StaysReported(env, s, es, op, entries);
      }
    } else {
      var es := CanBeOpen(env, s, op, entries);
    }
  }

  lemma StaysReported(env: Env, s: State, es: seq<Event>, op: Op, entries: map<string, nat>)
    requires WordsOK(s) && Registered(s, op, entries) && Registered(Run(env, s, es), op, entries)
    requires AllAcked(s, entries) && ReportedDone(s, op) && forall j :: j in entries ==> !CanReopen(s, entries[j])
    ensures ReportedDone(Run(env, s, es), op)
  {
    RunKeepsWords(env, s, es);
    StoresAgree(s, op, entries);
    forall j | j in entries ensures LastFinal(Run(env, s, es).results, entries[j]) {
      AfterTheAck(env, s, es, entries[j]);
    }
    StoresAgree(Run(env, s, es), op, entries);
  }

  /** A test that is open, or can be reopened, can be open later. */
  lemma CanBeOpen(env: Env, s: State, op: Op, entries: map<string, nat>) returns (es: seq<Event>)
    requires WordsOK(s) && Registered(s, op, entries)
    requires !ReportedDone(s, op) || exists j :: j in entries && CanReopen(s, entries[j])
    ensures Registered(Run(env, s, es), op, entries) && !ReportedDone(Run(env, s, es), op)
  {
    es := [];
    assert Run(env, s, []) == s;
    if ReportedDone(s, op) {
      var j :| j in entries && CanReopen(s, entries[j]);
      var e := Reopening(env, s, entries[j]);
      es := [e];
      StepKeepsWords(env, s, e);
      SameJobs(s, Step(env, s, e), op, entries);
      StoresAgree(Step(env, s, e), op, entries);
    }
  }

  lemma SameJobs(s: State, s': State, op: Op, entries: map<string, nat>)
    requires Registered(s, op, entries) && s'.jobs == s.jobs
    ensures Registered(s', op, entries)
  {
    forall j | j in entries ensures CarriedBy(s', op.testID, j, entries[j]) {
      assert CarriedBy(s, op.testID, j, entries[j]);
    }
  }

  /** An acked job whose last word does not end it, and which no live worker can end, leaves its test open in every
      continuation. Such a word is a late tick's, or an update of a worker that lost its lease, or none at all. */
  lemma StaysOpen(env: Env, s: State, es: seq<Event>, op: Op, entries: map<string, nat>, j: string)
    requires Reachable(env, s) && Registered(Run(env, s, es), op, entries)
    requires j in entries && entries[j] in s.acked && !LastFinal(s.results, entries[j]) && !CanEnd(s, entries[j])
    ensures ReportedOpen(Run(env, s, es), op)
  {
    ReachableWords(env, s);
    RunKeepsWords(env, s, es);
    AfterTheAck(env, s, es, entries[j]);
    StoresAgree(Run(env, s, es), op, entries);
  }

  /** A test can still finish if and only if, of each of its jobs that is acked already, the last word ends it or a
      live worker can end it. A job that is not acked is always recoverable, even if it can not run. */
  lemma CanStillFinish(env: Env, s: State, op: Op, entries: map<string, nat>)
    requires Reachable(env, s) && Registered(s, op, entries)
    ensures (exists s' :: Leads(env, s, s') && s'.jobs == s.jobs && AllAcked(s', entries) && ReportedDone(s', op))
       <==> forall j :: j in entries && entries[j] in s.acked ==>
              LastFinal(s.results, entries[j]) || CanEnd(s, entries[j])
  {
    ReachableWords(env, s);
    if forall j :: j in entries && entries[j] in s.acked ==> LastFinal(s.results, entries[j]) || CanEnd(s, entries[j]) {
      var s' := Finishes(env, s, op, entries);
    } else {
      var j :| j in entries && entries[j] in s.acked && !LastFinal(s.results, entries[j]) && !CanEnd(s, entries[j]);
      forall s' | Leads(env, s, s') && s'.jobs == s.jobs && AllAcked(s', entries) ensures !ReportedDone(s', op) {
        SameJobs(s, s', op, entries);
        var es :| Run(env, s, es) == s';
        StaysOpen(env, s, es, op, entries, j);
        RunKeepsWords(env, s, es);
        StoresAgree(s', op, entries);
      }
    }
  }

  /** First the live workers end what they can, then new ones work off the rest. */
  lemma Finishes(env: Env, s: State, op: Op, entries: map<string, nat>) returns (s': State)
    requires WordsOK(s) && Registered(s, op, entries)
    requires forall j :: j in entries && entries[j] in s.acked ==>
               LastFinal(s.results, entries[j]) || CanEnd(s, entries[j])
    ensures Leads(env, s, s') && s'.jobs == s.jobs && AllAcked(s', entries) && ReportedDone(s', op)
  {
    var held := set j | j in entries && CanEnd(s, entries[j]) :: entries[j];
    LeadsNowhere(env, s);
    var s1 := HoldersEnd(env, s, s, held);
    s' := AllEnd(env, s, s1);
    forall j | j in entries ensures LastFinal(s'.results, entries[j]) && entries[j] in s'.acked {
      var id := entries[j];
      assert CarriedBy(s, op.testID, j, id);
      assert if id in held then LastFinal(s1.results, id) else SameWords(s.results, s1.results, id);
      assert id in s1.acked ==> SameWords(s1.results, s'.results, id);
    }
    SameJobs(s, s', op, entries);
    StoresAgree(s', op, entries);
  }

  lemma OneJobDone(env: Env) returns (s: State)
    ensures Reachable(env, s) && s.jobs == [JOB] && 0 in s.acked
    ensures s.live == map[P1 := Idle] && Ticker(P1, 0) in s.lingering
    ensures s.results == [Logged(0, Report("t", "j", CLOSING_UPDATE), false)]
  {
    FirstDelivery(env);
    s := Then(env, Unrenewed(0), Finish(P1, CLOSING_UPDATE));
    s := Then(env, s, Ack(P1, true));
    assert s.live == map[P1 := Idle];
  }

  lemma OneJobReported(env: Env, s: State)
    requires Reachable(env, s) && s.jobs == [JOB]
    requires s.results == [Logged(0, Report("t", "j", CLOSING_UPDATE), false)]
    ensures Registered(s, TEST, map["j" := 0]) && ReportedDone(s, TEST)
  {
    ReachableWords(env, s);
    OneJobRegistered(s);
    FinalNext([], s.results[0], 0);
    assert [] + [s.results[0]] == s.results;
    StoresAgree(s, TEST, map["j" := 0]);
  }

  /** One worker runs the one job of a test, sends its final update and acks it; then its ticker fires once
      more. The test was reported done, and no continuation ever reports it done again. */
  lemma LateTickLeavesTestOpen(env: Env) returns (before: State, s: State)
    ensures Reachable(env, before) && ReportedDone(before, TEST) && 0 in before.acked
    ensures var e := LateTick(P1, 0, OPEN_UPDATE);
            Enabled(env, before, e) && s == Step(env, before, e) && Reachable(env, s)
    ensures forall es :: Registered(Run(env, s, es), TEST, map["j" := 0]) ==> ReportedOpen(Run(env, s, es), TEST)
  {
    before := OneJobDone(env);
    OneJobReported(env, before);
    s := Then(env, before, LateTick(P1, 0, OPEN_UPDATE));
    FinalNext(before.results, s.results[|before.results|], 0);
    forall es | Registered(Run(env, s, es), TEST, map["j" := 0]) ensures ReportedOpen(Run(env, s, es), TEST) {
      StaysOpen(env, s, es, TEST, map["j" := 0], "j");
    }
  }
}
