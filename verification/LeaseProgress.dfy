/** Progress: a job is never beyond recovery, whatever became of the leases. From every reachable state the fleet can
    still end and ack every entry, for instance by replacing all its workers by one that works the queue off. */
module LeaseProgress {
  import opened Messages
  import opened Lease
  import opened LeaseSafety
  import opened LeaseRetries
  import opened LeaseLimits
  import opened LeaseWords

  /** Some continuation of the run leads from one state to the other. */
  ghost predicate Leads(env: Env, s0: State, s: State) {
    exists es :: Run(env, s0, es) == s
  }

  lemma LeadsNowhere(env: Env, s: State)
    ensures Leads(env, s, s)
  {
    assert Run(env, s, []) == s;
  }

  lemma ThenLeads(env: Env, s0: State, s: State, e: Event) returns (s': State)
    requires Leads(env, s0, s) && Enabled(env, s, e)
    ensures Leads(env, s0, s') && s' == Step(env, s, e)
  {
    var es :| Run(env, s0, es) == s;
    assert (es + [e])[..|es|] == es;
    s' := Step(env, s, e);
    assert Run(env, s0, es + [e]) == s';
  }

  lemma LeadsWords(env: Env, s0: State, s: State)
    requires WordsOK(s0) && Leads(env, s0, s)
    ensures WordsOK(s)
  {
    var es :| Run(env, s0, es) == s;
    RunKeepsWords(env, s0, es);
  }

  lemma {:induction false} AllCrash(env: Env, s0: State, s: State) returns (s': State)
    requires Leads(env, s0, s)
    ensures Leads(env, s0, s') && s'.live == map[]
    ensures s' == s.(live := map[], crashed := s'.crashed)
    decreases s.live.Keys
  {
    if s.live == map[] {
      s' := s;
    } else {
      var p :| p in s.live;
      s' := ThenLeads(env, s0, s, Crash(p));
      s' := AllCrash(env, s0, s');
    }
  }

  lemma {:induction false} FreshAbove(crashed: set<Proc>) returns (n: nat)
    ensures forall p :: p in crashed ==> p.incarnation < n
  {
    n := 0;
    if crashed != {} {
      var p :| p in crashed;
      n := FreshAbove(crashed - {p});
      if n <= p.incarnation {
        n := p.incarnation + 1;
      }
    }
  }

  /** The only live process is idle at the top of its main loop. */
  ghost predicate Alone(s: State, p: Proc) {
    s.live == map[p := Idle]
  }

  ghost predicate AckedBelow(s: State, k: nat) {
    forall id: nat :: id < k ==> id in s.acked
  }

  lemma StartsAlone(env: Env, s0: State, s: State) returns (s': State, p: Proc)
    requires Leads(env, s0, s) && s.live == map[]
    ensures Leads(env, s0, s') && Alone(s', p) && s' == s.(live := s'.live)
  {
    var n := FreshAbove(s.crashed);
    p := Proc("worker", n);
    s' := ThenLeads(env, s0, s, Start(p));
    assert s'.live == map[p := Idle];
  }

  /** The lowest entry that is stale heads the listing. */
  lemma FirstListed(s: State, k: nat)
    requires k < s.cursor && IsStale(s, k) && forall id: nat :: id < k ==> id !in s.pending
    ensures ListedCandidates(s) != [] && ListedCandidates(s)[0].id == k
  {
    var all := StaleBelow(s, s.cursor);
    AllStaleListed(s, s.cursor);
    assert Lists(all, k);
    var i :| 0 <= i < |all| && all[i].id == k;
    assert IsStale(s, all[0].id);
    assert all[0].id <= all[i].id;
  }

  /** Entry k got a message that ends it, and nothing was said about any other. */
  ghost predicate EndsOnly(before: seq<Logged>, after: seq<Logged>, k: nat) {
    LastFinal(after, k) && forall id: nat :: id != k ==> SameWords(before, after, id)
  }

  lemma LastSaid(s: State, s': State, k: nat, m: Message)
    requires s'.results == s.results + [Logged(k, m, false)] && Final(m)
    ensures EndsOnly(s.results, s'.results, k)
  {
    FinalNext(s.results, Logged(k, m, false), k);
    forall id: nat | id != k ensures SameWords(s.results, s'.results, id) {
      MessagesOfNext(s.results, Logged(k, m, false), id);
    }
  }

  /** How often an entry was delivered. */
  function Deliveries(s: State, k: nat): nat {
    if k in s.pending then s.pending[k].deliveries else 0
  }

  /** The worker has entry k in hand, as its next delivery, and nothing else has changed. */
  ghost predicate Took(s: State, s': State, p: Proc, k: nat) {
    && s'.live.Keys == {p} && Holds(s', p, k) && !s'.live[p].Acking?
    && s'.jobs == s.jobs && s'.acked == s.acked && s'.results == s.results
    && k in s'.pending && s'.pending[k].deliveries == Deliveries(s, k) + 1
    && (s'.live[p].Abandoning? <==> Deliveries(s, k) >= MAX_DELIVERIES)
  }

  lemma TakesDelivered(env: Env, s0: State, s: State, p: Proc, k: nat) returns (s': State)
    requires Leads(env, s0, s) && Alone(s, p) && Partitioned(s) && k < s.cursor && k !in s.acked && AckedBelow(s, k)
    ensures Leads(env, s0, s') && Took(s, s', p, k)
  {
    s' := ThenLeads(env, s0, s, Advance(STALE_JOB_AFTER));
    FirstListed(s', k);
    s' := ThenLeads(env, s0, s', ListStale(p));
    s' := ThenLeads(env, s0, s', Claim(p, false));
  }

  lemma TakesNew(env: Env, s0: State, s: State, p: Proc, k: nat) returns (s': State)
    requires Leads(env, s0, s) && Alone(s, p) && Partitioned(s) && s.cursor == k < |s.jobs|
    ensures Leads(env, s0, s') && Took(s, s', p, k)
  {
    s' := ThenLeads(env, s0, s, ListStale(p));
    s' := ThenLeads(env, s0, s', GiveUp(p));
    s' := ThenLeads(env, s0, s', Deliver(p, false));
  }

  /** The lone worker takes the lowest entry that is not acked. */
  lemma Takes(env: Env, s0: State, s: State, p: Proc, k: nat) returns (s': State)
    requires WordsOK(s0) && Leads(env, s0, s) && Alone(s, p) && AckedBelow(s, k) && k < |s.jobs| && k !in s.acked
    ensures Leads(env, s0, s') && Took(s, s', p, k)
  {
    LeadsWords(env, s0, s);
    if k < s.cursor {
      s' := TakesDelivered(env, s0, s, p, k);
    } else {
      assert s.cursor < k ==> s.cursor in s.acked;
      s' := TakesNew(env, s0, s, p, k);
    }
  }

  /** Workers take the entry and crash until one has to abandon it. */
  lemma {:induction false} TakesToAbandon(env: Env, s0: State, s: State, p: Proc, k: nat) returns (s': State, q: Proc)
    requires WordsOK(s0) && Leads(env, s0, s) && Alone(s, p) && AckedBelow(s, k) && k < |s.jobs| && k !in s.acked
    ensures Leads(env, s0, s') && s'.live.Keys == {q} && Holds(s', q, k) && s'.live[q].Abandoning?
    ensures s'.jobs == s.jobs && s'.acked == s.acked && s'.results == s.results && k in s'.pending
    decreases MAX_DELIVERIES - Deliveries(s, k)
  {
    q := p;
    s' := Takes(env, s0, s, p, k);
    if !s'.live[p].Abandoning? {
      s' := ThenLeads(env, s0, s', Crash(p));
      assert s'.live == map[];
      s', q := StartsAlone(env, s0, s');
      s', q := TakesToAbandon(env, s0, s', q, k);
    }
  }

  /** A worker that has a job in hand says the word that ends it. */
  lemma Ends(env: Env, s0: State, s: State, p: Proc, k: nat) returns (s': State)
    requires Leads(env, s0, s) && p in s.live && k < |s.jobs| && (RunsIt(s, p, k) || AbandonsIt(s, p, k))
    ensures Leads(env, s0, s') && p in s'.live && s'.live[p].Acking? && s'.live[p].id == k
    ensures s'.live == s.live[p := s'.live[p]] && s'.jobs == s.jobs && s'.acked == s.acked && s'.pending == s.pending
    ensures EndsOnly(s.results, s'.results, k)
  {
    if AbandonsIt(s, p, k) {
      s' := ThenLeads(env, s0, s, ReportAbandoned(p));
      LastSaid(s, s', k, Messages.Abandoned(s.jobs[k].testID, s.jobs[k].jobID));
    } else {
      s' := ThenLeads(env, s0, s, Finish(p, CLOSING_UPDATE));
      LastSaid(s, s', k, Report(s.jobs[k].testID, s.jobs[k].jobID, CLOSING_UPDATE));
    }
  }

  lemma EndsAndAcks(env: Env, s0: State, s: State, p: Proc, k: nat) returns (s': State)
    requires Leads(env, s0, s) && s.live.Keys == {p} && k < |s.jobs| && k in s.pending
    requires RunsIt(s, p, k) || AbandonsIt(s, p, k)
    ensures Leads(env, s0, s') && Alone(s', p) && s'.jobs == s.jobs && s'.acked == s.acked + {k}
    ensures EndsOnly(s.results, s'.results, k)
  {
    s' := Ends(env, s0, s, p, k);
    s' := ThenLeads(env, s0, s', Ack(p, true));
    assert s'.live == map[p := Idle];
  }

  /** One more entry: a job that can run is run, any other is abandoned. */
  lemma WorksOff(env: Env, s0: State, s: State, p: Proc, k: nat) returns (s': State, q: Proc)
    requires WordsOK(s0) && Leads(env, s0, s) && Alone(s, p) && AckedBelow(s, k) && k < |s.jobs| && k !in s.acked
    ensures Leads(env, s0, s') && Alone(s', q) && s'.jobs == s.jobs && s'.acked == s.acked + {k}
    ensures EndsOnly(s.results, s'.results, k)
  {
    if s.jobs[k].runnable {
      q := p;
      s' := Takes(env, s0, s, p, k);
    } else {
      s', q := TakesToAbandon(env, s0, s, p, k);
    }
    s' := EndsAndAcks(env, s0, s', q, k);
  }

  /** The entries from k on: those not acked got a message that ends them, and nothing was said about the acked. */
  ghost predicate Ended(s: State, s': State, k: nat) {
    forall id: nat ::
      && (id < k || id in s.acked || id >= |s.jobs| ==> SameWords(s.results, s'.results, id))
      && (k <= id < |s.jobs| && id !in s.acked ==> LastFinal(s'.results, id))
  }

  lemma EndedMore(s: State, s1: State, s': State, k: nat)
    requires k < |s.jobs| && k !in s.acked && s1.acked == s.acked + {k} && s1.jobs == s.jobs
    requires EndsOnly(s.results, s1.results, k)
    requires Ended(s1, s', k + 1)
    ensures Ended(s, s', k)
  {
    forall id: nat
      ensures id < k || id in s.acked || id >= |s.jobs| ==> SameWords(s.results, s'.results, id)
      ensures k <= id < |s.jobs| && id !in s.acked ==> LastFinal(s'.results, id)
    {
      assert id != k ==> SameWords(s.results, s1.results, id);
      assert id <= k || id in s1.acked || id >= |s.jobs| ==> SameWords(s1.results, s'.results, id);
    }
  }

  lemma {:induction false} WorksOffAll(env: Env, s0: State, s: State, p: Proc, k: nat) returns (s': State)
    requires WordsOK(s0) && Leads(env, s0, s) && Alone(s, p) && AckedBelow(s, k) && k <= |s.jobs|
    ensures Leads(env, s0, s') && s'.jobs == s.jobs && AckedBelow(s', |s.jobs|)
    ensures Ended(s, s', k)
    decreases |s.jobs| - k
  {
    s' := s;
    if k < |s.jobs| {
      if k in s.acked {
        s' := WorksOffAll(env, s0, s, p, k + 1);
      } else {
        var s1, q := WorksOff(env, s0, s, p, k);
        s' := WorksOffAll(env, s0, s1, q, k + 1);
        EndedMore(s, s1, s', k);
      }
    }
  }

  /** Late ticks keep the last word only about entries acked before. */
  ghost predicate OnlyOldTicks(s: State, s': State) {
    forall id: nat :: id < |s.jobs| && LateLast(s'.results, id) ==> id in s.acked && LateLast(s.results, id)
  }

  lemma AllEnd(env: Env, s0: State, s: State) returns (s': State)
    requires WordsOK(s0) && Leads(env, s0, s)
    ensures Leads(env, s0, s') && WordsOK(s') && s'.jobs == s.jobs && AckedBelow(s', |s.jobs|) && Ended(s, s', 0)
  {
    var s1 := AllCrash(env, s0, s);
    var s2, p := StartsAlone(env, s0, s1);
    s' := WorksOffAll(env, s0, s2, p, 0);
    assert Ended(s2, s', 0) && s2.results == s.results;
    forall id: nat
      ensures id in s.acked || id >= |s.jobs| ==> SameWords(s.results, s'.results, id)
      ensures id < |s.jobs| && id !in s.acked ==> LastFinal(s'.results, id)
    {
      assert id in s2.acked || id >= |s2.jobs| ==> SameWords(s2.results, s'.results, id);
    }
    LeadsWords(env, s0, s');
  }

  /** From every reachable state some continuation acks every entry of the stream. Every entry that was not acked,
      whether its job can run or not, gets a last word that ends it, and nothing is said about those that were, so
      late ticks keep the last word only about them. */
  lemma EveryEntryCanBeAcked(env: Env, s: State) returns (s': State)
    requires Reachable(env, s)
    ensures Leads(env, s, s') && s'.jobs == s.jobs && AckedBelow(s', |s.jobs|)
    ensures Ended(s, s', 0) && OnlyOldTicks(s, s')
  {
    ReachableWords(env, s);
    LeadsNowhere(env, s);
    s' := AllEnd(env, s, s);
    forall id: nat | id < |s.jobs| && LateLast(s'.results, id) ensures id in s.acked && LateLast(s.results, id) {
      LateWordIsNotFinal(s', s'.results, id);
    }
  }

  /** Live processes that can end these entries end them, one after the other. */
  lemma {:induction false} HoldersEnd(env: Env, s0: State, s: State, ids: set<nat>) returns (s': State)
    requires WordsOK(s0) && Leads(env, s0, s) && forall id :: id in ids ==> CanEnd(s, id)
    ensures Leads(env, s0, s') && s'.jobs == s.jobs && s'.acked == s.acked
    ensures forall id: nat :: if id in ids then LastFinal(s'.results, id) else SameWords(s.results, s'.results, id)
    decreases ids
  {
    s' := s;
    if ids != {} {
      var k :| k in ids;
      var p :| RunsIt(s, p, k) || AbandonsIt(s, p, k);
      LeadsWords(env, s0, s);
      assert Holds(s, p, k);
      var s1 := Ends(env, s0, s, p, k);
      OthersStillEnd(s, s1, p, k, ids - {k});
      s' := HoldersEnd(env, s0, s1, ids - {k});
      BothSaid(s, s1, s', k, ids);
    }
  }

  lemma OthersStillEnd(s: State, s1: State, p: Proc, k: nat, rest: set<nat>)
    requires p in s1.live && s1.live == s.live[p := s1.live[p]] && s1.jobs == s.jobs && Holds(s, p, k) && k !in rest
    requires forall id :: id in rest ==> CanEnd(s, id)
    ensures forall id :: id in rest ==> CanEnd(s1, id)
  {
    forall id | id in rest ensures CanEnd(s1, id) {
      var q :| RunsIt(s, q, id) || AbandonsIt(s, q, id);
      assert RunsIt(s1, q, id) || AbandonsIt(s1, q, id);
    }
  }

  lemma BothSaid(s: State, s1: State, s': State, k: nat, ids: set<nat>)
    requires k in ids && EndsOnly(s.results, s1.results, k)
    requires forall id: nat ::
               if id in ids - {k} then LastFinal(s'.results, id) else SameWords(s1.results, s'.results, id)
    ensures forall id: nat :: if id in ids then LastFinal(s'.results, id) else SameWords(s.results, s'.results, id)
  {
    forall id: nat
      ensures if id in ids then LastFinal(s'.results, id) else SameWords(s.results, s'.results, id)
    {
      assert id !in ids - {k} ==> SameWords(s1.results, s'.results, id);
      assert id != k ==> SameWords(s.results, s1.results, id);
    }
  }
}
