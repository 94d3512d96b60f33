/** What the results stream says about a job once it is acked, as long as leases hold. */
module LeaseLog {
  import opened Messages
  import opened Lease
  import opened LeaseSafety
  import opened LeaseWords

  /** The last timely word on an entry ends its job. */
  ghost predicate TimelyEnd(s: State, id: nat) {
    var ms := TimelyOf(s.results, id);
    ms != [] && Final(ms[|ms| - 1])
  }

  /** A job that ran has a last timely message that ends it; one that was rejected has only abandon messages. */
  ghost predicate Settled(s: State, id: nat) {
    id < |s.jobs| &&
    if s.jobs[id].runnable then TimelyEnd(s, id)
    else forall i :: 0 <= i < |TimelyOf(s.results, id)| ==> TimelyOf(s.results, id)[i].Abandoned?
  }

  ghost predicate LogInv(s: State) {
    && WordsOK(s)
    && (forall id :: id in s.acked ==> Settled(s, id))
    && forall p :: p in s.live && s.live[p].Acking? ==> Settled(s, s.live[p].id)
  }

  /** Of a settled entry, the last word is final exactly if it is no late tick and there is one at all. */
  lemma SettledWord(s: State, id: nat)
    requires LogInv(s) && Settled(s, id)
    ensures var ms := MessagesOf(s.results, id);
            && (LastFinal(s.results, id) <==> (s.jobs[id].runnable || ms != []) && !LateLast(s.results, id))
            && (s.jobs[id].runnable ==> ms != [])
  {
    assert s.results <= s.results;
    LastWord(s.results, id);
    if !s.jobs[id].runnable {
      RejectedHaveOnlyAbandons(s, s.results, id);
    } else if LateLast(s.results, id) {
      LateWordIsNotFinal(s, s.results, id);
    }
  }

  /** A message that is late, or about another entry, leaves what is settled. */
  lemma OtherStaysSettled(s: State, s': State, id: nat, l: Logged)
    requires Settled(s, id) && (l.entry != id || l.late)
    requires s.jobs <= s'.jobs && s'.results == s.results + [l]
    ensures Settled(s', id)
  {
    MessagesOfNext(s.results, l, id);
  }

  lemma SpeakerSettles(env: Env, s: State, e: Event)
    requires LogInv(s) && Enabled(env, s, e)
    requires e.Finish? || e.ReportAbandoned?
    ensures Settled(Step(env, s, e), s.live[e.p].id)
  {
    var s' := Step(env, s, e);
    var id := s.live[e.p].id;
    assert Holds(s, e.p, id);
    MessagesOfNext(s.results, s'.results[|s.results|], id);
    if !s.jobs[id].runnable {
      RejectedHaveOnlyAbandons(s, s.results, id);
    }
  }

  lemma SpeakKeeps(env: Env, s: State, e: Event)
    requires LeaseInv(env, s) && LogInv(s) && Enabled(env, s, e) && Speaks(e)
    ensures LogInv(Step(env, s, e))
  {
    var s' := Step(env, s, e);
    StepKeepsWords(env, s, e);
    StepLogs(env, s, e);
    var id, l := s.live[e.p].id, s'.results[|s.results|];
    assert Holds(s, e.p, id) && PhaseOK(env, s, s.live[e.p]);
    forall i | i in s'.acked ensures Settled(s', i) {
      OtherStaysSettled(s, s', i, l);
    }
    forall q | q in s'.live && s'.live[q].Acking? ensures Settled(s', s'.live[q].id) {
      if q == e.p {
        SpeakerSettles(env, s, e);
      } else {
        assert Holds(s, q, s.live[q].id);
        OtherStaysSettled(s, s', s.live[q].id, l);
      }
    }
  }

  lemma LateTickKeeps(env: Env, s: State, e: Event)
    requires LogInv(s) && Enabled(env, s, e) && e.LateTick?
    ensures LogInv(Step(env, s, e))
  {
    var s' := Step(env, s, e);
    StepKeepsWords(env, s, e);
    StepLogs(env, s, e);
    forall i | i in s'.acked ensures Settled(s', i) {
      OtherStaysSettled(s, s', i, s'.results[|s.results|]);
    }
    forall q | q in s'.live && s'.live[q].Acking? ensures Settled(s', s'.live[q].id) {
      OtherStaysSettled(s, s', s.live[q].id, s'.results[|s.results|]);
    }
  }

  lemma SettledStays(s: State, s': State, id: nat)
    requires Settled(s, id) && s'.results == s.results && s.jobs <= s'.jobs
    ensures Settled(s', id)
  {
  }

  /** A step that says nothing acks only what is settled, and only a rejected job becomes due for its ack. */
  lemma QuietKeeps(env: Env, s: State, e: Event)
    requires LogInv(s) && Enabled(env, s, e) && !Speaks(e) && !e.LateTick?
    ensures LogInv(Step(env, s, e))
  {
    var s' := Step(env, s, e);
    StepKeepsWords(env, s, e);
    StepLogs(env, s, e);
    if e.Reject? {
      RejectedHaveOnlyAbandons(s, s.results, s.live[e.p].id);
    }
    forall id | id in s'.acked ensures Settled(s', id) {
      NewlyAcked(env, s, e, id);
      SettledStays(s, s', id);
    }
    forall q | q in s'.live && s'.live[q].Acking? ensures Settled(s', s'.live[q].id) {
      NewlyDue(env, s, e, q);
      SettledStays(s, s', s'.live[q].id);
    }
  }

  lemma StepKeepsLogInv(env: Env, s: State, e: Event)
    requires LeaseInv(env, s) && LogInv(s) && Enabled(env, s, e)
    ensures LogInv(Step(env, s, e))
  {
    if Speaks(e) {
      SpeakKeeps(env, s, e);
    } else if e.LateTick? {
      LateTickKeeps(env, s, e);
    } else {
      QuietKeeps(env, s, e);
    }
  }

  lemma {:induction false} RunKeepsLogInv(env: Env, s: State, es: seq<Event>)
    requires Prompt(env) && LeaseInv(env, s) && LogInv(s)
    ensures LeaseInv(env, Run(env, s, es)) && LogInv(Run(env, s, es))
  {
    RunKeepsLeaseInv(env, s, es);
    if es != [] {
      var front := es[..|es| - 1];
      RunKeepsLogInv(env, s, front);
      if Enabled(env, Run(env, s, front), es[|es| - 1]) {
        StepKeepsLogInv(env, Run(env, s, front), es[|es| - 1]);
      }
    }
  }

  lemma ReachableLog(env: Env, s: State)
    requires Prompt(env) && Reachable(env, s)
    ensures LeaseInv(env, s) && LogInv(s)
  {
    var es :| Run(env, INITIAL, es) == s;
    RunKeepsLogInv(env, INITIAL, es);
  }

  /** The last timely word on an acked job that could run is done or abandoned. */
  lemma LastTimelyWord(env: Env, s: State, id: nat)
    requires Prompt(env) && Reachable(env, s) && id in s.acked
    ensures id < |s.jobs| && (s.jobs[id].runnable ==> TimelyEnd(s, id))
  {
    ReachableLog(env, s);
    assert Settled(s, id);
  }

  /** As long as leases hold, nobody is at an acked job. */
  lemma AckedIsLeft(env: Env, s: State, id: nat)
    requires LeaseInv(env, s) && id in s.acked
    ensures !CanEnd(s, id)
  {
    forall p | p in s.live ensures !RunsIt(s, p, id) && !AbandonsIt(s, p, id) {
      assert PhaseOK(env, s, s.live[p]);
    }
  }

  /** As long as leases hold, only a lingering metrics ticker speaks of an acked job. */
  lemma OnlyTickersFollowTheAck(env: Env, s: State, id: nat)
    requires Prompt(env) && Reachable(env, s) && id in s.acked
    ensures (forall es :: MessagesOf(Run(env, s, es).results, id) == MessagesOf(s.results, id)) <==> !Lingers(s, id)
  {
    ReachableInv(env, s);
    AckedIsLeft(env, s, id);
    NothingFollowsTheAck(env, s, id);
  }
}
