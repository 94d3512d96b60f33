/** A request's whole way: admitted, queued, run or abandoned, and shown as done. */
module Journey {
  import opened Messages
  import opened WorkerJobs
  import opened Admission
  import opened Lease
  import opened LeaseWords
  import opened LeaseSafety
  import opened TestLog
  import opened Snapshots
  import opened Composition

  /** The jobs stream holds an admitted test's records at these places, and no other record of that test. */
  ghost predicate Queued(s: State, added: seq<Fields>, testID: string, places: seq<nat>) {
    && |places| == |added|
    && (forall i :: 0 <= i < |places| ==> places[i] < |s.jobs| && s.jobs[places[i]] == JobOf(added[i]))
    && forall n: nat :: n < |s.jobs| && s.jobs[n].testID == testID ==> n in places
  }

  /** What the handler leaves on the stream is queued, whatever other requests added before, between and after. */
  lemma AddedIsQueued(s: State, before: seq<Fields>, after: seq<Fields>, added: seq<Fields>, places: seq<nat>,
                      others: seq<seq<Fields>>, testID: string)
    requires Interleaved(before, after, added, places, others) && |after| <= |s.jobs|
    requires forall n :: 0 <= n < |after| ==> s.jobs[n] == JobOf(after[n])
    requires forall n :: 0 <= n < |before| ==> JobOf(before[n]).testID != testID
    requires forall values :: FromOthers(others, values) ==> JobOf(values).testID != testID
    requires forall n :: |after| <= n < |s.jobs| ==> s.jobs[n].testID != testID
    ensures Queued(s, added, testID, places)
  {
    forall n: nat | n < |s.jobs| && n !in places ensures s.jobs[n].testID != testID {
      if n < |before| {
        assert after[n] == before[n];
      } else if n < |after| {
        assert FromOthers(others, after[n]);
      }
    }
  }

  ghost function PlaceOf(ids: seq<string>, j: string): (k: nat)
    requires j in ids
    ensures k < |ids| && ids[k] == j
  {
    var k :| 0 <= k < |ids| && ids[k] == j;
    k
  }

  /** Where each sub-job's entry is. */
  ghost function EntriesAt(ids: seq<string>, places: seq<nat>): map<string, nat>
    requires |ids| == |places|
  {
    map j | j in ids :: places[PlaceOf(ids, j)]
  }

  lemma EntryAt(ids: seq<string>, places: seq<nat>, i: nat)
    requires Distinct(ids) && i < |ids| == |places|
    ensures ids[i] in EntriesAt(ids, places) && EntriesAt(ids, places)[ids[i]] == places[i]
  {
    var k := PlaceOf(ids, ids[i]);
    assert !(i < k) && !(k < i);
  }

  /** These entries carry the given sub-jobs of the test, each ready to run, and no others carry any. */
  ghost predicate Carries(s: State, testID: string, ids: seq<string>, places: seq<nat>) {
    && |places| == |ids|
    && (forall i :: 0 <= i < |ids| ==>
          places[i] < |s.jobs| && s.jobs[places[i]] == Messages.Job(testID, ids[i], true))
    && forall n: nat :: n < |s.jobs| && s.jobs[n].testID == testID ==> n in places
  }

  lemma QueuedCarries(s: State, added: seq<Fields>, testID: string, ids: seq<string>, places: seq<nat>)
    requires ReadyJobs(added, testID, ids) && Queued(s, added, testID, places)
    ensures Carries(s, testID, ids, places)
  {
    forall i | 0 <= i < |ids| ensures places[i] < |s.jobs| && s.jobs[places[i]] == Messages.Job(testID, ids[i], true) {
      assert s.jobs[places[i]] == JobOf(added[i]);
    }
  }

  /** Each sub-job is carried by its own entry. */
  lemma EntriesCarried(s: State, testID: string, ids: seq<string>, places: seq<nat>)
    requires Carries(s, testID, ids, places) && Distinct(ids)
    ensures forall i :: 0 <= i < |ids| ==> CarriedBy(s, testID, ids[i], places[i]) && s.jobs[places[i]].runnable
  {
    forall i | 0 <= i < |ids| ensures CarriedBy(s, testID, ids[i], places[i]) && s.jobs[places[i]].runnable {
      forall n: nat | n < |s.jobs| && s.jobs[n].testID == testID && s.jobs[n].jobID == ids[i] ensures n == places[i] {
        assert n in places;
        var k :| 0 <= k < |places| && places[k] == n;
      }
    }
  }

  lemma EntriesRegistered(s: State, op: Op, places: seq<nat>)
    requires op.Register? && Distinct(op.jobIDs) && |op.jobIDs| == |places|
    requires forall i :: 0 <= i < |places| ==> CarriedBy(s, op.testID, op.jobIDs[i], places[i])
    ensures Registered(s, op, EntriesAt(op.jobIDs, places))
  {
    var entries := EntriesAt(op.jobIDs, places);
    forall j | j in entries ensures CarriedBy(s, op.testID, j, entries[j]) {
      var i := PlaceOf(op.jobIDs, j);
    }
  }

  /** What holds of each sub-job's entry holds at each place. */
  lemma EntriesAreWell(s: State, ops: seq<Op>, op: Op, k: nat, places: seq<nat>)
    requires RegistersAt(ops, op, k) && Distinct(op.jobIDs) && |op.jobIDs| == |places|
    requires forall i :: 0 <= i < |places| ==>
               CarriedBy(s, op.testID, op.jobIDs[i], places[i]) && s.jobs[places[i]].runnable
    ensures Registered(s, op, EntriesAt(op.jobIDs, places))
    ensures EndedAndHeard(s, ops, op, k, EntriesAt(op.jobIDs, places)) <==>
              forall i :: 0 <= i < |places| ==> Unspoilt(s, ops, op, k, op.jobIDs[i], places[i])
  {
    var entries := EntriesAt(op.jobIDs, places);
    EntriesRegistered(s, op, places);
    forall i | 0 <= i < |places| ensures op.jobIDs[i] in entries && entries[op.jobIDs[i]] == places[i] {
      EntryAt(op.jobIDs, places, i);
    }
    if forall i :: 0 <= i < |places| ==> Unspoilt(s, ops, op, k, op.jobIDs[i], places[i]) {
      forall j | j in entries ensures WellEnded(s, entries[j]) && HeardSince(ops, op, k, j) {
        assert Unspoilt(s, ops, op, k, op.jobIDs[PlaceOf(op.jobIDs, j)], places[PlaceOf(op.jobIDs, j)]);
      }
    }
  }

  /** No late tick has the last word about the sub-job, and that word came after the registration. */
  ghost predicate Unspoilt(s: State, ops: seq<Op>, op: Op, k: nat, jobID: string, id: nat)
    requires RegistersAt(ops, op, k)
  {
    !LateLast(s.results, id) && HeardSince(ops, op, k, jobID)
  }

  /** The promise of the whole system. If a request was accepted, so that its records are ready jobs, then in every
      reachable state of the worker fleet in which the test's entries are all acked, a coordinator that applied the
      results stream reports the test as done, crashes, reclaims and abandonment and any other tests notwithstanding,
      if and only if no late metrics tick has the last word about any of its jobs and each job's last word came after
      the registration. */
  lemma AcceptedTestFinishes(env: Env, s: State, ops: seq<Op>, op: Op, k: nat, added: seq<Fields>, places: seq<nat>)
    requires Prompt(env) && Reachable(env, s) && Watches(ops, s.results, op, k)
    requires ReadyJobs(added, op.testID, op.jobIDs) && Distinct(op.jobIDs) && Queued(s, added, op.testID, places)
    requires forall i :: 0 <= i < |places| ==> places[i] in s.acked
    ensures IsDone(Replay(ops), op.testID) <==>
              forall i :: 0 <= i < |places| ==> Unspoilt(s, ops, op, k, op.jobIDs[i], places[i])
  {
    QueuedCarries(s, added, op.testID, op.jobIDs, places);
    EntriesCarried(s, op.testID, op.jobIDs, places);
    EntriesAreWell(s, ops, op, k, places);
    AckedTestIsDone(env, s, ops, op, k, EntriesAt(op.jobIDs, places));
  }
}
