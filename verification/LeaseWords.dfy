/** What the results stream says about the entries of the jobs stream, whatever the delays and failures: leases may
    be lost, and two workers may be at one job. */
module LeaseWords {
  import opened Messages
  import opened Lease
  import opened LeaseSafety

  /** The messages about one entry, in stream order. */
  ghost function MessagesOf(results: seq<Logged>, id: nat): seq<Message> {
    if results == [] then []
    else
      var last := results[|results| - 1];
      MessagesOf(results[..|results| - 1], id) + if last.entry == id then [last.msg] else []
  }

  /** Those among them that are no late ticks. */
  ghost function TimelyOf(results: seq<Logged>, id: nat): seq<Message> {
    if results == [] then []
    else
      var last := results[|results| - 1];
      TimelyOf(results[..|results| - 1], id) + if last.entry == id && !last.late then [last.msg] else []
  }

  /** The last word about an entry is a late tick. */
  ghost predicate LateLast(results: seq<Logged>, id: nat) {
    results != [] &&
    var last := results[|results| - 1];
    if last.entry == id then last.late else LateLast(results[..|results| - 1], id)
  }

  lemma MessagesOfNext(results: seq<Logged>, l: Logged, id: nat)
    ensures MessagesOf(results + [l], id) == MessagesOf(results, id) + if l.entry == id then [l.msg] else []
    ensures TimelyOf(results + [l], id) == TimelyOf(results, id) + if l.entry == id && !l.late then [l.msg] else []
    ensures LateLast(results + [l], id) <==> if l.entry == id then l.late else LateLast(results, id)
  {
    assert (results + [l])[..|results|] == results;
  }

  /** Unless a late tick has the last word, it is the last timely one. */
  lemma {:induction false} LastWord(results: seq<Logged>, id: nat)
    ensures MessagesOf(results, id) == [] ==> TimelyOf(results, id) == [] && !LateLast(results, id)
    ensures MessagesOf(results, id) != [] && !LateLast(results, id) ==>
              var all, timely := MessagesOf(results, id), TimelyOf(results, id);
              timely != [] && all[|all| - 1] == timely[|timely| - 1]
  {
    if results != [] {
      LastWord(results[..|results| - 1], id);
    }
  }

  /** The last word about an entry says that its job is over. */
  ghost predicate LastFinal(results: seq<Logged>, id: nat) {
    var ms := MessagesOf(results, id);
    ms != [] && Final(ms[|ms| - 1])
  }

  /** Some word about an entry said so. */
  ghost predicate EverFinal(results: seq<Logged>, id: nat) {
    results != [] &&
    var last := results[|results| - 1];
    (last.entry == id && Final(last.msg)) || EverFinal(results[..|results| - 1], id)
  }

  lemma FinalNext(results: seq<Logged>, l: Logged, id: nat)
    ensures LastFinal(results + [l], id) <==> if l.entry == id then Final(l.msg) else LastFinal(results, id)
    ensures EverFinal(results + [l], id) <==> (l.entry == id && Final(l.msg)) || EverFinal(results, id)
  {
    MessagesOfNext(results, l, id);
    assert (results + [l])[..|results|] == results;
  }

  /** A message names its entry's sub-job; a rejected job is only ever abandoned; a late tick is not done. */
  ghost predicate LoggedOK(s: State, l: Logged) {
    && l.entry < s.cursor <= |s.jobs|
    && l.msg.testID == s.jobs[l.entry].testID && l.msg.jobID == s.jobs[l.entry].jobID
    && (s.jobs[l.entry].runnable || l.msg.Abandoned?)
    && (l.late ==> !Final(l.msg))
  }

  /** A ticker lingers only for a job that ran, and only with its process. */
  ghost predicate TickersOK(s: State) {
    forall t :: t in s.lingering ==>
      && t.id < s.cursor <= |s.jobs| && s.jobs[t.id].runnable
      && (t.p in s.live || t.p in s.crashed)
  }

  /** What a process is at was delivered. */
  ghost predicate HeldKnown(s: State) {
    forall p, id: nat :: Holds(s, p, id) ==> id < s.cursor
  }

  ghost predicate WordsOK(s: State) {
    && Partitioned(s) && HeldKnown(s) && TickersOK(s)
    && forall i :: 0 <= i < |s.results| ==> LoggedOK(s, s.results[i])
  }

  predicate Speaks(e: Event) {
    e.Publish? || e.Finish? || e.ReportAbandoned?
  }

  lemma StepKeepsHeldKnown(env: Env, s: State, e: Event)
    requires Partitioned(s) && HeldKnown(s) && Enabled(env, s, e)
    ensures HeldKnown(Step(env, s, e))
  {
    var s' := Step(env, s, e);
    forall p, id: nat | Holds(s', p, id) ensures id < s'.cursor {
      assert Holds(s, p, id) ==> id < s.cursor;
    }
  }

  lemma StepKeepsTickers(env: Env, s: State, e: Event)
    requires WordsOK(s) && Enabled(env, s, e)
    ensures TickersOK(Step(env, s, e))
  {
    var s' := Step(env, s, e);
    if e.Finish? {
      assert Holds(s, e.p, s.live[e.p].id);
    }
    forall t | t in s'.lingering
      ensures t.id < s'.cursor <= |s'.jobs| && s'.jobs[t.id].runnable && (t.p in s'.live || t.p in s'.crashed)
    {
      assert t in s.lingering || (e.Finish? && t == Ticker(e.p, s.live[e.p].id));
    }
  }

  /** What a step adds to the stream. */
  lemma StepLogs(env: Env, s: State, e: Event)
    requires WordsOK(s) && Enabled(env, s, e)
    ensures var s' := Step(env, s, e);
            && s.jobs <= s'.jobs && s.cursor <= s'.cursor
            && if Speaks(e) || e.LateTick? then
                 && |s'.results| == |s.results| + 1 && s'.results == s.results + [s'.results[|s.results|]]
                 && LoggedOK(s, s'.results[|s.results|])
               else s'.results == s.results
  {
    if Speaks(e) {
      assert Holds(s, e.p, s.live[e.p].id);
    } else if e.LateTick? {
      assert Ticker(e.p, e.id) in s.lingering;
    }
  }

  lemma StepKeepsWords(env: Env, s: State, e: Event)
    requires WordsOK(s) && Enabled(env, s, e)
    ensures WordsOK(Step(env, s, e))
  {
    var s' := Step(env, s, e);
    StepKeepsPartitioned(env, s, e);
    StepKeepsHeldKnown(env, s, e);
    StepKeepsTickers(env, s, e);
    StepLogs(env, s, e);
    forall i | 0 <= i < |s'.results| ensures LoggedOK(s', s'.results[i]) {
      assert i < |s.results| ==> s'.results[i] == s.results[i] && LoggedOK(s, s.results[i]);
    }
  }

  lemma {:induction false} RunKeepsWords(env: Env, s: State, es: seq<Event>)
    requires WordsOK(s)
    ensures WordsOK(Run(env, s, es))
  {
    if es != [] {
      var before, e := Run(env, s, es[..|es| - 1]), es[|es| - 1];
      RunKeepsWords(env, s, es[..|es| - 1]);
      if Enabled(env, before, e) {
        StepKeepsWords(env, before, e);
      }
    }
  }

  lemma ReachableWords(env: Env, s: State)
    requires Reachable(env, s)
    ensures WordsOK(s)
  {
    var es :| Run(env, INITIAL, es) == s;
    RunKeepsWords(env, INITIAL, es);
  }

  lemma {:induction false} RejectedHaveOnlyAbandons(s: State, results: seq<Logged>, id: nat)
    requires results <= s.results && WordsOK(s) && id < |s.jobs| && !s.jobs[id].runnable
    ensures forall i :: 0 <= i < |MessagesOf(results, id)| ==> MessagesOf(results, id)[i].Abandoned?
    ensures TimelyOf(results, id) == MessagesOf(results, id) && !LateLast(results, id)
  {
    if results != [] {
      RejectedHaveOnlyAbandons(s, results[..|results| - 1], id);
      assert s.results[|results| - 1] == results[|results| - 1];
      assert LoggedOK(s, s.results[|results| - 1]);
    }
  }

  lemma {:induction false} LateWordIsNotFinal(s: State, results: seq<Logged>, id: nat)
    requires results <= s.results && WordsOK(s) && LateLast(results, id)
    ensures MessagesOf(results, id) != [] && !LastFinal(results, id)
  {
    var n := |results| - 1;
    assert s.results[n] == results[n] && LoggedOK(s, s.results[n]);
    if results[n].entry != id {
      LateWordIsNotFinal(s, results[..n], id);
    }
  }

  /** A job that could run, and is acked or about to be, had a message that ends it. */
  ghost predicate EndsOK(s: State) {
    && (forall id :: id in s.acked && id < |s.jobs| && s.jobs[id].runnable ==> EverFinal(s.results, id))
    && forall p :: p in s.live && s.live[p].Acking? && s.live[p].id < |s.jobs| && s.jobs[s.live[p].id].runnable ==>
         EverFinal(s.results, s.live[p].id)
  }

  lemma NewlyAcked(env: Env, s: State, e: Event, id: nat)
    requires Enabled(env, s, e) && id in Step(env, s, e).acked
    ensures id in s.acked || (e.Ack? && s.live[e.p].id == id)
  {
  }

  lemma NewlyDue(env: Env, s: State, e: Event, q: Proc)
    requires Enabled(env, s, e) && q in Step(env, s, e).live && Step(env, s, e).live[q].Acking?
    ensures q in s.live
    ensures if (e.Reject? || e.Finish? || e.ReportAbandoned?) && q == e.p
            then Step(env, s, e).live[q].id == s.live[q].id && (s.live[q].Running? || s.live[q].Abandoning?)
            else s.live[q] == Step(env, s, e).live[q]
  {
  }

  lemma EverFinalStays(env: Env, s: State, e: Event, id: nat)
    requires WordsOK(s) && Enabled(env, s, e) && EverFinal(s.results, id)
    ensures EverFinal(Step(env, s, e).results, id)
  {
    var s' := Step(env, s, e);
    StepLogs(env, s, e);
    if s'.results != s.results {
      FinalNext(s.results, s'.results[|s.results|], id);
    }
  }

  lemma StepKeepsEnds(env: Env, s: State, e: Event)
    requires WordsOK(s) && EndsOK(s) && Enabled(env, s, e)
    ensures EndsOK(Step(env, s, e))
  {
    var s' := Step(env, s, e);
    StepLogs(env, s, e);
    forall id | id in s'.acked && id < |s'.jobs| && s'.jobs[id].runnable ensures EverFinal(s'.results, id) {
      NewlyAcked(env, s, e, id);
      EverFinalStays(env, s, e, id);
    }
    forall q | q in s'.live && s'.live[q].Acking? && s'.live[q].id < |s'.jobs| && s'.jobs[s'.live[q].id].runnable
      ensures EverFinal(s'.results, s'.live[q].id)
    {
      NewlyDue(env, s, e, q);
      assert Holds(s, q, s'.live[q].id);
      if (e.Finish? || e.ReportAbandoned?) && q == e.p {
        FinalNext(s.results, s'.results[|s.results|], s'.live[q].id);
      } else {
        EverFinalStays(env, s, e, s'.live[q].id);
      }
    }
  }

  lemma {:induction false} RunKeepsEnds(env: Env, es: seq<Event>)
    ensures EndsOK(Run(env, INITIAL, es))
  {
    if es != [] {
      var before, e := Run(env, INITIAL, es[..|es| - 1]), es[|es| - 1];
      RunKeepsEnds(env, es[..|es| - 1]);
      RunKeepsWords(env, INITIAL, es[..|es| - 1]);
      if Enabled(env, before, e) {
        StepKeepsEnds(env, before, e);
      }
    }
  }

  /** A job is acked only after a message that ends it: of an acked job that could run some message was done or
      abandoned. */
  lemma AckedOnlyAfterFinal(env: Env, s: State, id: nat)
    requires Reachable(env, s) && id in s.acked
    ensures id < |s.jobs|
    ensures s.jobs[id].runnable ==> EverFinal(s.results, id)
  {
    var es :| Run(env, INITIAL, es) == s;
    RunKeepsEnds(env, es);
    ReachableWords(env, s);
  }

  /** A live process's ticker for this entry may still fire. */
  ghost predicate Lingers(s: State, id: nat) {
    exists t :: t in s.lingering && t.id == id && t.p in s.live
  }

  ghost predicate RunsIt(s: State, p: Proc, id: nat) {
    p in s.live && s.live[p].Running? && s.live[p].id == id && id < |s.jobs| && s.jobs[id].runnable
  }

  ghost predicate AbandonsIt(s: State, p: Proc, id: nat) {
    p in s.live && s.live[p].Abandoning? && s.live[p].id == id
  }

  /** A live process is still to end the job. */
  ghost predicate CanEnd(s: State, id: nat) {
    exists p :: RunsIt(s, p, id) || AbandonsIt(s, p, id)
  }

  /** A live process may still report the job as not done. */
  ghost predicate CanReopen(s: State, id: nat) {
    Lingers(s, id) || exists p :: RunsIt(s, p, id)
  }

  /** Who is at an acked entry was so before: it is not handed out again. */
  lemma NobodyNew(env: Env, s: State, e: Event, id: nat, q: Proc)
    requires WordsOK(s) && Enabled(env, s, e) && id in s.acked
    ensures id in Step(env, s, e).acked
    ensures RunsIt(Step(env, s, e), q, id) ==> RunsIt(s, q, id)
    ensures AbandonsIt(Step(env, s, e), q, id) ==> AbandonsIt(s, q, id)
  {
    StepLogs(env, s, e);
  }

  lemma NoNewTicker(env: Env, s: State, e: Event, id: nat)
    requires WordsOK(s) && Enabled(env, s, e) && id in s.acked && Lingers(Step(env, s, e), id)
    ensures CanReopen(s, id)
  {
    var s' := Step(env, s, e);
    var t :| t in s'.lingering && t.id == id && t.p in s'.live;
    if t !in s.lingering {
      assert RunsIt(s, e.p, id);
    }
  }

  /** Nothing more was said about the entry. */
  ghost predicate SameWords(before: seq<Logged>, after: seq<Logged>, id: nat) {
    && MessagesOf(after, id) == MessagesOf(before, id) && TimelyOf(after, id) == TimelyOf(before, id)
    && (LateLast(after, id) <==> LateLast(before, id))
  }

  /** One more message, a late tick or not. */
  ghost predicate SaidMore(before: seq<Logged>, after: seq<Logged>, id: nat, late: bool) {
    && |MessagesOf(after, id)| == |MessagesOf(before, id)| + 1
    && (LateLast(after, id) <==> late)
    && (late ==> TimelyOf(after, id) == TimelyOf(before, id) && !LastFinal(after, id))
  }

  lemma NobodyComes(env: Env, s: State, e: Event, id: nat)
    requires WordsOK(s) && Enabled(env, s, e) && id in s.acked
    ensures var s' := Step(env, s, e);
            id in s'.acked && (CanEnd(s', id) ==> CanEnd(s, id)) && (CanReopen(s', id) ==> CanReopen(s, id))
  {
    var s' := Step(env, s, e);
    NobodyNew(env, s, e, id, LEAST);
    if CanEnd(s', id) {
      var p :| RunsIt(s', p, id) || AbandonsIt(s', p, id);
      NobodyNew(env, s, e, id, p);
    }
    if CanReopen(s', id) {
      if Lingers(s', id) {
        NoNewTicker(env, s, e, id);
      } else {
        var p :| RunsIt(s', p, id);
        NobodyNew(env, s, e, id, p);
      }
    }
  }

  const LEAST: Proc := Proc("", 0)

  /** Who speaks of an entry. */
  lemma Speaker(env: Env, s: State, e: Event, id: nat)
    requires WordsOK(s) && Enabled(env, s, e) && (Speaks(e) || e.LateTick?)
    requires |Step(env, s, e).results| > |s.results| && Step(env, s, e).results[|s.results|].entry == id
    ensures var l := Step(env, s, e).results[|s.results|];
            if e.LateTick? then l.late && !Final(l.msg) && Lingers(s, id)
            else !l.late && if e.ReportAbandoned? then Final(l.msg) && AbandonsIt(s, e.p, id) else RunsIt(s, e.p, id)
  {
    if e.LateTick? {
      assert Ticker(e.p, e.id) in s.lingering;
    }
  }

  /** What one step can say about an acked entry. */
  lemma AckedStep(env: Env, s: State, e: Event, id: nat)
    requires WordsOK(s) && Enabled(env, s, e) && id in s.acked
    ensures var s' := Step(env, s, e);
            || SameWords(s.results, s'.results, id)
            || (SaidMore(s.results, s'.results, id, true) && Lingers(s, id))
            || (SaidMore(s.results, s'.results, id, false) && CanEnd(s, id)
                && (CanReopen(s, id) || LastFinal(s'.results, id)))
  {
    var s' := Step(env, s, e);
    StepLogs(env, s, e);
    if Speaks(e) || e.LateTick? {
      var l := s'.results[|s.results|];
      MessagesOfNext(s.results, l, id);
      if l.entry == id {
        Speaker(env, s, e, id);
      }
    }
  }

  /** After its ack, however the run goes on, the ack stands and nobody new comes to a job. If nobody is at it, only
      late ticks speak of it, none at all unless a live process's ticker lingers, and it is not ended any more. If
      nobody can reopen it, a last word that ends it stays one. */
  lemma {:induction false} AfterTheAck(env: Env, s: State, es: seq<Event>, id: nat)
    requires WordsOK(s) && id in s.acked
    ensures var s' := Run(env, s, es);
            && WordsOK(s') && id in s'.acked && s.jobs <= s'.jobs
            && (CanEnd(s', id) ==> CanEnd(s, id)) && (CanReopen(s', id) ==> CanReopen(s, id))
            && (!CanEnd(s, id) ==> OnlyLateTicks(s.results, s'.results, id))
            && (!CanEnd(s, id) && !Lingers(s, id) ==> SameWords(s.results, s'.results, id))
            && (!CanReopen(s, id) && LastFinal(s.results, id) ==> LastFinal(s'.results, id))
  {
    if es != [] {
      var front := es[..|es| - 1];
      var s1, e := Run(env, s, front), es[|es| - 1];
      AfterTheAck(env, s, front, id);
      if Enabled(env, s1, e) {
        StepKeepsWords(env, s1, e);
        StepLogs(env, s1, e);
        NobodyComes(env, s1, e, id);
        AckedStep(env, s1, e, id);
      }
    }
  }

  /** No timely message was added, and a late tick keeps the last word. */
  ghost predicate OnlyLateTicks(before: seq<Logged>, after: seq<Logged>, id: nat) {
    && TimelyOf(after, id) == TimelyOf(before, id)
    && (LateLast(before, id) ==> LateLast(after, id))
    && (LastFinal(after, id) ==> LastFinal(before, id))
  }

  lemma OneStepRun(env: Env, s: State, e: Event)
    requires Enabled(env, s, e)
    ensures Run(env, s, []) == s && Run(env, s, [e]) == Step(env, s, e)
  {
    assert [e][..0] == [];
  }

  /** An update that does not close its sub-job. */
  const OPEN_UPDATE: ResultUpdate := ResultUpdate(1, 0, 1.0, "1", "1", "1", false, false, "")

  /** Who can reopen a job can have the last word at once. */
  lemma Reopening(env: Env, s: State, id: nat) returns (e: Event)
    requires WordsOK(s) && CanReopen(s, id)
    ensures Enabled(env, s, e) && Run(env, s, [e]) == Step(env, s, e) && Step(env, s, e).jobs == s.jobs
    ensures !LastFinal(Step(env, s, e).results, id)
    ensures MessagesOf(Step(env, s, e).results, id) != MessagesOf(s.results, id)
  {
    if Lingers(s, id) {
      var t :| t in s.lingering && t.id == id && t.p in s.live;
      e := LateTick(t.p, id, OPEN_UPDATE);
    } else {
      var p :| RunsIt(s, p, id);
      e := Publish(p, OPEN_UPDATE);
    }
    OneStepRun(env, s, e);
    MessagesOfNext(s.results, Step(env, s, e).results[|s.results|], id);
  }

  lemma Abandoning(env: Env, s: State, p: Proc, id: nat)
    requires WordsOK(s) && AbandonsIt(s, p, id)
    ensures Enabled(env, s, ReportAbandoned(p))
    ensures MessagesOf(Run(env, s, [ReportAbandoned(p)]).results, id) != MessagesOf(s.results, id)
  {
    assert Holds(s, p, id);
    OneStepRun(env, s, ReportAbandoned(p));
    MessagesOfNext(s.results, Step(env, s, ReportAbandoned(p)).results[|s.results|], id);
  }

  /** Nothing follows the ack of a job in any continuation of a run if and only if no live process's metrics ticker
      lingers for it, and none still runs or abandons it. */
  lemma NothingFollowsTheAck(env: Env, s: State, id: nat)
    requires Reachable(env, s) && id in s.acked
    ensures (forall es :: MessagesOf(Run(env, s, es).results, id) == MessagesOf(s.results, id))
       <==> !Lingers(s, id) && !CanEnd(s, id)
  {
    ReachableWords(env, s);
    if CanReopen(s, id) {
      var e := Reopening(env, s, id);
      assert MessagesOf(Run(env, s, [e]).results, id) != MessagesOf(s.results, id);
    } else if CanEnd(s, id) {
      var p :| RunsIt(s, p, id) || AbandonsIt(s, p, id);
      Abandoning(env, s, p, id);
    } else {
      forall es ensures MessagesOf(Run(env, s, es).results, id) == MessagesOf(s.results, id) {
        AfterTheAck(env, s, es, id);
      }
    }
  }
}
