/** The limits of the protocol's timing constants, shown by runs that overstep them. */
module LeaseLimits {
  import opened Messages
  import opened Lease
  import opened LeaseSafety
  import opened LeaseRetries
  import opened LeaseWords
  import opened LeaseLog

  const P1: Proc := Proc("worker-1", 0)
  const P2: Proc := Proc("worker-2", 0)
  const P3: Proc := Proc("worker-3", 0)
  const P4: Proc := Proc("worker-4", 0)
  const JOB: Job := Job("t", "j", true)

  /** P1 runs the job and has failed to renew its lease this many times, once every ten seconds. */
  function Unrenewed(failed: nat): State {
    State(failed * 10_000, [JOB], 1, map[0 := Delivery("worker-1", 0, 1)], {}, [],
          map[P1 := Running(0, failed * 10_000 + 10_000, failed)], {}, multiset{0}, {})
  }

  lemma FirstDelivery(env: Env)
    ensures Reachable(env, Unrenewed(0))
  {
    InitialReachable(env);
    var s := Then(env, INITIAL, Enqueue(JOB));
    s := Then(env, s, Start(P1));
    s := Then(env, s, ListStale(P1));
    s := Then(env, s, GiveUp(P1));
    s := Then(env, s, Deliver(P1, false));
    assert s.live == Unrenewed(0).live;
  }

  lemma Then(env: Env, s: State, e: Event) returns (s': State)
    requires Reachable(env, s) && Enabled(env, s, e)
    ensures Reachable(env, s') && s' == Step(env, s, e)
  {
    ReachableStep(env, s, e);
    s' := Step(env, s, e);
  }

  lemma TenSecondsLater(env: Env, failed: nat)
    ensures Enabled(env, Unrenewed(failed), Advance(10_000))
    ensures Step(env, Unrenewed(failed), Advance(10_000))
            == Unrenewed(failed).(now := failed * 10_000 + 10_000)
  {
  }

  lemma FailOnce(env: Env, failed: nat)
    requires failed < env.maxFailures
    ensures var s := Unrenewed(failed).(now := failed * 10_000 + 10_000);
            Enabled(env, s, Renew(P1, false)) && Step(env, s, Renew(P1, false)) == Unrenewed(failed + 1)
  {
    var live := Unrenewed(failed).live;
    assert live[P1 := Running(0, failed * 10_000 + 20_000, failed + 1)] == Unrenewed(failed + 1).live;
  }

  lemma FailAgain(env: Env, failed: nat)
    requires failed < env.maxFailures && Reachable(env, Unrenewed(failed))
    ensures Reachable(env, Unrenewed(failed + 1))
  {
    TenSecondsLater(env, failed);
    FailOnce(env, failed);
    var s := Then(env, Unrenewed(failed), Advance(10_000));
    s := Then(env, s, Renew(P1, false));
  }

  lemma {:induction false} FailTimes(env: Env, n: nat)
    requires n <= env.maxFailures
    ensures Reachable(env, Unrenewed(n))
  {
    if n == 0 {
      FirstDelivery(env);
    } else {
      FailTimes(env, n - 1);
      FailAgain(env, n - 1);
    }
  }

  /** Four failed renewals in a row are too many: 45s after the delivery another worker takes the job over
      while the first still runs it. */
  lemma FourFailedRenewals(env: Env) returns (s: State)
    requires env.maxFailures >= 4
    ensures Reachable(env, s) && Holds(s, P1, 0) && Holds(s, P2, 0)
  {
    FailTimes(env, 4);
    s := Then(env, Unrenewed(4), Advance(5_000));
    s := ListsIt(env, s, P2);
    s := Then(env, s, Claim(P2, false));
  }

  /** P1 is through with the job at the given time, and only the ack is missing. */
  function Unacked(at: nat, now: nat): State {
    State(now, [JOB], 1, map[0 := Delivery("worker-1", 0, 1)], {},
          [Logged(0, Report("t", "j", CLOSING_UPDATE), false)], map[P1 := Acking(0, at)], {}, multiset{0},
          {Ticker(P1, 0)})
  }

  const CLOSING_UPDATE: ResultUpdate := ResultUpdate(1, 0, 1.0, "1", "1", "1", true, false, "")

  lemma LateRenewal(env: Env, failed: nat)
    ensures Enabled(env, Unrenewed(failed), Advance(10_000 + env.jitter))
    ensures Step(env, Unrenewed(failed), Advance(10_000 + env.jitter))
            == Unrenewed(failed).(now := failed * 10_000 + 10_000 + env.jitter)
  {
  }

  lemma FinishesAt(env: Env, failed: nat, now: nat)
    ensures var s := Unrenewed(failed).(now := now);
            Enabled(env, s, Finish(P1, CLOSING_UPDATE)) && Step(env, s, Finish(P1, CLOSING_UPDATE)) == Unacked(now, now)
  {
    assert Unrenewed(failed).live[P1 := Acking(0, now)] == Unacked(now, now).live;
  }

  lemma WaitsForAck(env: Env, at: nat)
    ensures Enabled(env, Unacked(at, at), Advance(env.ackGrace))
    ensures Step(env, Unacked(at, at), Advance(env.ackGrace)) == Unacked(at, at + env.ackGrace)
  {
  }

  /** P1 takes as long as the delays allow. */
  lemma SlowestWorker(env: Env) returns (at: nat)
    ensures at == env.maxFailures * 10_000 + 10_000 + env.jitter && Reachable(env, Unacked(at, at + env.ackGrace))
  {
    at := env.maxFailures * 10_000 + 10_000 + env.jitter;
    FailTimes(env, env.maxFailures);
    LateRenewal(env, env.maxFailures);
    FinishesAt(env, env.maxFailures, at);
    WaitsForAck(env, at);
    ReachableStep(env, Unrenewed(env.maxFailures), Advance(10_000 + env.jitter));
    ReachableStep(env, Unrenewed(env.maxFailures).(now := at), Finish(P1, CLOSING_UPDATE));
    ReachableStep(env, Unacked(at, at), Advance(env.ackGrace));
  }

  /** If those delays reach 45s, another worker takes over a job that a live one still holds. */
  lemma TakenOver(env: Env) returns (s: State)
    requires !Prompt(env)
    ensures Reachable(env, s) && Holds(s, P1, 0) && Holds(s, P2, 0)
    ensures s.live[P1].Acking? && s.live[P2].Running? && s.jobs == [JOB] && 0 in s.pending
    ensures s.results == [Logged(0, Report("t", "j", CLOSING_UPDATE), false)]
  {
    var at := SlowestWorker(env);
    s := ListsIt(env, Unacked(at, at + env.ackGrace), P2);
    s := Then(env, s, Claim(P2, false));
  }

  /** The timing assumption, exactly: every reachable state is safe if and only if the longest a worker may go
      without touching its entry, all failures, jitter and delays included, is less than 45s. The same holds of
      exclusion alone. */
  lemma SafeExactlyWhenPrompt(env: Env)
    ensures Prompt(env) <==> (env.maxFailures + 1) * 10_000 + env.jitter + env.ackGrace < 45_000
    ensures (forall s :: Reachable(env, s) ==> Safe(s)) <==> Prompt(env)
    ensures (forall s :: Reachable(env, s) ==> Exclusive(s)) <==> Prompt(env)
  {
    if Prompt(env) {
      forall s | Reachable(env, s) ensures Safe(s) {
        ReachableIsSafe(env, s);
      }
    } else {
      var s := TakenOver(env);
      assert P1 != P2;
      assert !Exclusive(s);
    }
  }

  /** The last worker to hold the job reports it as not done, and the first one acks it. */
  lemma AckedWhileRunning(env: Env) returns (s: State)
    requires !Prompt(env)
    ensures Reachable(env, s) && s.jobs == [JOB] && 0 in s.acked
    ensures s.results == [Logged(0, Report("t", "j", CLOSING_UPDATE), false),
                          Logged(0, Report("t", "j", OPEN_UPDATE), false)]
  {
    s := TakenOver(env);
    s := Then(env, s, Publish(P2, OPEN_UPDATE));
    s := Then(env, s, Ack(P1, true));
  }

  /** The last timely word on every acked job that could run is done or abandoned, in every reachable state, if and
      only if leases hold. */
  lemma LastTimelyWordExactlyWhenPrompt(env: Env)
    ensures (forall s, id :: Reachable(env, s) && id in s.acked && id < |s.jobs| && s.jobs[id].runnable ==>
               TimelyEnd(s, id))
       <==> Prompt(env)
  {
    if Prompt(env) {
      forall s, id | Reachable(env, s) && id in s.acked && id < |s.jobs| && s.jobs[id].runnable
        ensures TimelyEnd(s, id)
      {
        LastTimelyWord(env, s, id);
      }
    } else {
      var s := AckedWhileRunning(env);
      TwoWords(s.results[0], s.results[1]);
      assert s.results == [s.results[0], s.results[1]];
      assert !TimelyEnd(s, 0);
    }
  }

  lemma TwoWords(a: Logged, b: Logged)
    requires a.entry == b.entry && !a.late && !b.late
    ensures MessagesOf([a, b], a.entry) == TimelyOf([a, b], a.entry) == [a.msg, b.msg] && !LateLast([a, b], a.entry)
  {
    MessagesOfNext([], a, a.entry);
    MessagesOfNext([] + [a], b, a.entry);
    assert [] + [a] + [b] == [a, b];
  }

  /** With less than 5s of delay in all, three failed renewals in a row are survived and four are not. */
  lemma SafeExactlyUpToThreeFailures(env: Env)
    requires env.jitter + env.ackGrace < 5_000
    ensures (forall s :: Reachable(env, s) ==> Safe(s)) <==> env.maxFailures <= 3
  {
    SafeExactlyWhenPrompt(env);
  }

  /** One worker holds an old listing of the job, after as many workers died running it. */
  function OldListing(p: Proc, retryCount: nat, at: nat, last: Delivery, crashed: set<Proc>,
                      starts: multiset<nat>): State {
    State(at + STALE_JOB_AFTER, [JOB], 1, map[0 := last], {}, [],
          map[p := Listing([Candidate(0, retryCount)], at)], crashed, starts, {})
  }

  lemma OneDied(env: Env) returns (s: State)
    ensures Reachable(env, s)
    ensures s == State(STALE_JOB_AFTER, [JOB], 1, map[0 := Delivery("worker-1", 0, 1)], {}, [], map[], {P1},
                       multiset{0}, {})
  {
    FirstDelivery(env);
    s := Then(env, Unrenewed(0), Crash(P1));
    assert s.live == map[];
    s := Then(env, s, Advance(STALE_JOB_AFTER));
  }

  /** Two workers have the job on their listings; one claims it and dies while the other is still busy. */
  lemma ClaimsAndDies(env: Env, s: State, p: Proc, q: Proc) returns (s': State)
    requires env.listGrace >= STALE_JOB_AFTER && Reachable(env, s) && p != q
    requires s.live.Keys == {p, q} && s.live[p].Listing? && |s.live[p].candidates| == 1
    requires s.live[p].candidates[0].id == 0 && s.live[p].candidates[0].retryCount < MAX_DELIVERIES && IsStale(s, 0)
    requires s.live[q].Listing? && s.live[q].listedAt == s.now
    ensures Reachable(env, s')
    ensures s' == s.(now := s.now + STALE_JOB_AFTER, live := map[q := s.live[q]], crashed := s.crashed + {p},
                     pending := s.pending[0 := Delivery(p.consumer, s.now, s.pending[0].deliveries + 1)],
                     started := s.started + multiset{0})
  {
    s' := Then(env, s, Claim(p, false));
    s' := Then(env, s', Crash(p));
    assert s'.live == map[q := s.live[q]];
    s' := Then(env, s', Advance(STALE_JOB_AFTER));
  }

  /** P2 and P3 list the job together; P2 claims it and dies while P3 is still busy with its listing. */
  lemma TwoDied(env: Env) returns (s: State)
    requires env.listGrace >= STALE_JOB_AFTER
    ensures Reachable(env, s)
    ensures s == OldListing(P3, 1, STALE_JOB_AFTER, Delivery("worker-2", STALE_JOB_AFTER, 2), {P1, P2}, multiset{0, 0})
  {
    s := OneDied(env);
    s := ListsIt(env, s, P2);
    s := ListsIt(env, s, P3);
    s := ClaimsAndDies(env, s, P2, P3);
  }

  lemma ListsIt(env: Env, s: State, p: Proc) returns (s': State)
    requires Reachable(env, s) && p !in s.live && p !in s.crashed && s.cursor == 1 && IsStale(s, 0)
    ensures Reachable(env, s')
    ensures s' == s.(live := s.live[p := Listing([Candidate(0, s.pending[0].deliveries)], s.now)])
  {
    s' := Then(env, s, Start(p));
    assert StaleBelow(s', 0) == [] && StaleBelow(s', 1) == [Candidate(0, s.pending[0].deliveries)];
    s' := Then(env, s', ListStale(p));
    assert s'.live == s.live[p := Listing([Candidate(0, s.pending[0].deliveries)], s.now)];
  }

  lemma ThreeDied(env: Env) returns (s: State)
    requires env.listGrace >= STALE_JOB_AFTER
    ensures Reachable(env, s)
    ensures s.live == map[P4 := Listing([Candidate(0, 2)], 2 * STALE_JOB_AFTER)] && IsStale(s, 0) && s.started[0] == 3
  {
    s := TwoDied(env);
    s := ListsIt(env, s, P4);
    s := ClaimsAndDies(env, s, P3, P4);
  }

  /** The bound on starts, exactly: it holds in every reachable state if and only if claiming follows listing
      within less than 45s. A slower worker starts a job a fourth time on an outdated count. */
  lemma StartsBoundedExactlyByListGrace(env: Env)
    ensures (forall s, id :: Reachable(env, s) ==> s.started[id] <= 3) <==> env.listGrace < 45_000
  {
    if env.listGrace < 45_000 {
      forall s, id | Reachable(env, s) ensures s.started[id] <= 3 {
        StartsAreBounded(env, s, id);
      }
    } else {
      var s := ThreeDied(env);
      s := Then(env, s, Claim(P4, false));
      assert s.started[0] == 4;
    }
  }

  /** The job of a fleet without live workers, after so many deliveries that all started it, has gone stale. */
  ghost predicate Orphaned(s: State, n: nat) {
    && s.live == map[] && s.jobs == [JOB] && s.cursor == 1 && s.acked == {}
    && 0 in s.pending && s.pending[0].deliveries == n && s.started == Starts(n) && IdleFor(s, 0, 45_000)
  }

  function Starts(n: nat): multiset<nat> {
    multiset{}[0 := n]
  }

  lemma AlsoDies(env: Env, s: State, p: Proc, n: nat) returns (s': State)
    requires Reachable(env, s) && Orphaned(s, n) && n < 3 && p !in s.crashed
    ensures Reachable(env, s') && Orphaned(s', n + 1) && s'.crashed == s.crashed + {p}
  {
    s' := ListsIt(env, s, p);
    s' := Then(env, s', Claim(p, false));
    s' := Then(env, s', Crash(p));
    assert s'.live == map[];
    s' := Then(env, s', Advance(45_000));
  }

  /** The bound is reached, under any delays: a job can be started three times, and the claim after that abandons
      it. */
  lemma ThreeStartsAreReached(env: Env) returns (s: State)
    ensures Reachable(env, s) && s.started[0] == 3 && IdleFor(s, 0, 45_000)
    ensures Enabled(env, s, Claim(P4, false)) && s.live[P4].candidates[0].id == 0
    ensures AbandonsNow(Step(env, s, Claim(P4, false)), P4, 0) && Step(env, s, Claim(P4, false)).started[0] == 3
  {
    s := OneDied(env);
    s := AlsoDies(env, s, P2, 1);
    s := AlsoDies(env, s, P3, 2);
    s := ListsIt(env, s, P4);
  }
}
