/** One load run as its requests, its metrics ticks and its end interleave (worker/loadgen.go, worker/main.go).

    A tick samples the results, marks a trip if it saw one, and publishes, in steps of their own, and so does the end
    of the run: it takes the results and the mark, and publishes the final update later. The ticker stops after
    publishing a trip, or when the run's time is over, but it is not waited for, so a tick may come in between, and
    may still sample, mark or publish after the final update. */
module LoadRun {
  import opened Wrappers
  import opened Metrics

  datatype Step =
    | Record(r: RequestResult)
    | Sample(elapsed: nat)
    | Mark
    | Emit
    | Stop
    | Close(elapsed: nat)
    | Final

  /** The part of a published update that the properties of a run are about. */
  datatype Update = Update(requests: nat, errors: nat, done: bool, circuitBroken: bool)

  function UpdateOf(m: Metrics): Update {
    Update(m.requests, m.errors, m.done, m.circuitBroken)
  }

  function UpdateIn(m: Option<Metrics>): Option<Update> {
    if m.None? then None else Some(UpdateOf(m.value))
  }

  function UpdatesOf(ms: seq<Metrics>): seq<Update> {
    seq(|ms|, i requires 0 <= i < |ms| => UpdateOf(ms[i]))
  }

  /** At least 20 requests, at least half of them errors. */
  predicate Trips(u: Update) {
    u.requests >= MIN_SAMPLES && 2 * u.errors >= u.requests
  }

  lemma TripsIs(m: Metrics)
    ensures TripsCircuitBreaker(m) <==> Trips(UpdateOf(m))
  {
    if m.requests > 0 {
      HalfOf(m.errors, m.requests);
    }
  }

  /** A tick has sampled and has a trip to mark. */
  predicate MarksTrip(s: State) {
    s.inFlight.Some? && Trips(s.inFlight.value) && !s.inFlight.value.circuitBroken
  }

  /** A tick has only to publish. */
  predicate Emits(s: State) {
    s.inFlight.Some? && !MarksTrip(s)
  }

  /** The run: its results, its ticker with the update it is about to publish, the final update once it is made up,
      the updates published, the counters of `publish` and the Prometheus totals they feed. */
  datatype State = State(
    results: seq<RequestResult>,
    aborted: bool,
    ticking: bool,
    inFlight: Option<Update>,
    closing: Option<Update>,
    finished: bool,
    published: seq<Update>,
    countedRequests: nat,
    countedErrors: nat,
    requestsTotal: nat,
    errorsTotal: nat)

  const START: State := State([], false, true, None, None, false, [], 0, 0, 0, 0)

  /** `publish`: the totals advance by what was not counted yet. */
  function Publish(s: State, u: Update): State {
    var newRequests := if u.requests > s.countedRequests then u.requests - s.countedRequests else 0;
    var newErrors := if u.errors > s.countedErrors then u.errors - s.countedErrors else 0;
    s.(published := s.published + [u],
       countedRequests := s.countedRequests + newRequests,
       countedErrors := s.countedErrors + newErrors,
       requestsTotal := s.requestsTotal + newRequests,
       errorsTotal := s.errorsTotal + newErrors)
  }

  /** The final update is made up and has only to be published. */
  predicate Ending(s: State) {
    s.closing.Some? && !s.finished
  }

  function Counts(s: State, done: bool, circuitBroken: bool): Update {
    Update(|s.results|, ErrorCount(s.results), done, circuitBroken)
  }

  /** One step; a step that can not happen any more does nothing. A ticker that published a trip stops. */
  function After(s: State, step: Step): State {
    match step
    case Record(r) => if s.closing.Some? then s else s.(results := s.results + [r])
    case Sample(_) => if !s.ticking || s.inFlight.Some? then s else s.(inFlight := Some(Counts(s, false, false)))
    case Mark =>
      if !MarksTrip(s) then s else s.(aborted := true, inFlight := Some(s.inFlight.value.(circuitBroken := true)))
    case Emit =>
      if !Emits(s) then s
      else Publish(s.(inFlight := None, ticking := s.ticking && !s.inFlight.value.circuitBroken), s.inFlight.value)
    case Stop => if s.inFlight.Some? then s else s.(ticking := false)
    case Close(_) => if s.closing.Some? then s else s.(closing := Some(Counts(s, true, s.aborted)))
    case Final => if !Ending(s) then s else Publish(s.(finished := true), s.closing.value)
  }

  function Run(steps: seq<Step>): State {
    if steps == [] then START else After(Run(steps[..|steps| - 1]), steps[|steps| - 1])
  }

  predicate AtMost(u: Update, v: Update) {
    u.requests <= v.requests && u.errors <= v.errors
  }

  /** Counts of the results so far, of an earlier time perhaps. */
  predicate Plausible(u: Update, s: State) {
    u.errors <= u.requests <= |s.results| && u.errors <= ErrorCount(s.results)
  }

  /** Published counts grow, except that a tick which sampled before the final update may publish less after it;
      errors are requests; and the totals are the most that was ever published. */
  ghost predicate CountsOK(s: State) {
    && (forall i, j :: 0 <= i < j < |s.published| ==>
          AtMost(s.published[i], s.published[j]) || (s.published[i].done && !s.published[j].done))
    && (forall i :: 0 <= i < |s.published| ==> Plausible(s.published[i], s))
    && (s.inFlight.Some? ==>
          && Plausible(s.inFlight.value, s) && !s.inFlight.value.done
          && forall i :: 0 <= i < |s.published| && !s.published[i].done ==> AtMost(s.published[i], s.inFlight.value))
    && (s.closing.Some? ==> s.closing.value.done && UpToDate(s, s.closing))
    && (s.finished ==> s.closing.Some?)
    && TotalsOK(s)
  }

  /** The update, if there is one, has the counts of all the results. */
  ghost predicate UpToDate(s: State, u: Option<Update>) {
    u.Some? ==> u.value.requests == |s.results| && u.value.errors == ErrorCount(s.results)
  }

  /** The totals are what the counters say: nothing before the first update, the last one's counts before the end,
      and the run's own counts after it. */
  ghost predicate TotalsOK(s: State) {
    && s.requestsTotal == s.countedRequests && s.errorsTotal == s.countedErrors
    && (s.published == [] ==> s.countedRequests == 0 && s.countedErrors == 0)
    && (s.published != [] && !s.finished ==>
          var last := s.published[|s.published| - 1];
          !last.done && s.countedRequests == last.requests && s.countedErrors == last.errors)
    && (s.finished ==> s.countedRequests == |s.results| && s.countedErrors == ErrorCount(s.results))
    && (!s.finished ==> forall i :: 0 <= i < |s.published| ==> !s.published[i].done)
  }

  lemma FinalKeepsCounts(s: State)
    requires CountsOK(s) && Ending(s)
    ensures CountsOK(After(s, Final))
  {
    var s' := After(s, Final);
    assert forall i :: 0 <= i < |s.published| ==> s'.published[i] == s.published[i] && Plausible(s.published[i], s);
  }

  lemma EmitKeepsCounts(s: State)
    requires CountsOK(s) && Emits(s)
    ensures CountsOK(After(s, Emit))
  {
    var s', u := After(s, Emit), s.inFlight.value;
    assert s'.published == s.published + [u];
    assert forall i :: 0 <= i < |s.published| ==> s'.published[i] == s.published[i] && Plausible(s.published[i], s);
    if !s.finished && s.published != [] {
      assert AtMost(s.published[|s.published| - 1], u);
    }
  }

  lemma TickKeepsCounts(s: State, step: Step)
    requires CountsOK(s) && (step.Sample? || step.Mark? || step.Stop? || step.Close?)
    ensures CountsOK(After(s, step))
  {
    assert forall i :: 0 <= i < |s.published| ==> Plausible(s.published[i], s);
  }

  lemma RecordKeepsCounts(s: State, r: RequestResult)
    requires CountsOK(s) && s.closing.None?
    ensures CountsOK(s.(results := s.results + [r]))
  {
    assert (s.results + [r])[..|s.results|] == s.results;
    assert forall i :: 0 <= i < |s.published| ==> Plausible(s.published[i], s);
  }

  lemma StepKeepsCounts(s: State, step: Step)
    requires CountsOK(s)
    ensures CountsOK(After(s, step))
  {
    match step {
      case Record(r) => if s.closing.None? { RecordKeepsCounts(s, r); }
      case Emit => if Emits(s) { EmitKeepsCounts(s); }
      case Final => if Ending(s) { FinalKeepsCounts(s); }
      case _ => TickKeepsCounts(s, step);
    }
  }

  /** Over every interleaving: errors never exceed requests; published counts never decrease but for a tick that
      straddles the final update; and the Prometheus totals are the counts last published, and after the final
      update the run's own counts. */
  lemma {:induction false} CountsOverEveryRun(steps: seq<Step>)
    ensures CountsOK(Run(steps))
  {
    if steps != [] {
      CountsOverEveryRun(steps[..|steps| - 1]);
      StepKeepsCounts(Run(steps[..|steps| - 1]), steps[|steps| - 1]);
    }
  }

  lemma RunNext(steps: seq<Step>, step: Step)
    ensures Run(steps + [step]) == After(Run(steps), step)
  {
    assert (steps + [step])[..|steps|] == steps;
  }

  /** A tick that straddles the final update takes the published counts back. */
  lemma StraddlingTickGoesBack(r: RequestResult)
    ensures var p := Run([] + [Sample(1)] + [Record(r)] + [Close(2)] + [Final] + [Emit]).published;
            |p| == 2 && p[0].done && !p[1].done && p[1].requests < p[0].requests
  {
    RunNext([], Sample(1));
    RunNext([] + [Sample(1)], Record(r));
    RunNext([] + [Sample(1)] + [Record(r)], Close(2));
    RunNext([] + [Sample(1)] + [Record(r)] + [Close(2)], Final);
    RunNext([] + [Sample(1)] + [Record(r)] + [Close(2)] + [Final], Emit);
  }

  /** Published counts never go back. */
  ghost predicate Rising(published: seq<Update>) {
    forall i, j :: 0 <= i < j < |published| ==> AtMost(published[i], published[j])
  }

  /** After the final update, with nothing outdated on its way. */
  ghost predicate Settled(s: State) {
    && s.finished && s.closing.Some? && Rising(s.published) && UpToDate(s, s.inFlight)
    && forall i :: 0 <= i < |s.published| ==> AtMost(s.published[i], Counts(s, true, true))
  }

  lemma StepKeepsSettled(s: State, step: Step)
    requires Settled(s)
    ensures Settled(After(s, step))
  {
    if step.Emit? && Emits(s) {
      assert After(s, step).published == s.published + [s.inFlight.value];
    }
  }

  lemma {:induction false} RunKeepsSettled(steps: seq<Step>, more: seq<Step>)
    requires Settled(Run(steps))
    ensures Settled(Run(steps + more))
  {
    if more == [] {
      assert steps + more == steps;
    } else {
      RunKeepsSettled(steps, more[..|more| - 1]);
      RunNext(steps + more[..|more| - 1], more[|more| - 1]);
      assert steps + more == steps + more[..|more| - 1] + [more[|more| - 1]];
      StepKeepsSettled(Run(steps + more[..|more| - 1]), more[|more| - 1]);
    }
  }

  /** Published counts never decrease, in any continuation of a run from its final update on, if and only if no tick
      is then on its way with counts that are outdated. */
  lemma CountsNeverGoBack(steps: seq<Step>)
    requires Ending(Run(steps))
    ensures (forall more :: Rising(Run(steps + [Final] + more).published))
       <==> UpToDate(Run(steps), Run(steps).inFlight)
  {
    var s := Run(steps);
    CountsOverEveryRun(steps);
    RunNext(steps, Final);
    if UpToDate(s, s.inFlight) {
      assert Settled(After(s, Final));
      forall more ensures Rising(Run(steps + [Final] + more).published) {
        RunKeepsSettled(steps + [Final], more);
      }
    } else {
      OutdatedTickGoesBack(steps);
    }
  }

  lemma OutdatedTickGoesBack(steps: seq<Step>)
    requires Ending(Run(steps)) && !UpToDate(Run(steps), Run(steps).inFlight)
    ensures !Rising(Run(steps + [Final] + [Mark, Emit]).published)
  {
    var s := Run(steps);
    CountsOverEveryRun(steps);
    RunNext(steps, Final);
    RunNext(steps + [Final], Mark);
    RunNext(steps + [Final] + [Mark], Emit);
    assert steps + [Final] + [Mark] + [Emit] == steps + [Final] + [Mark, Emit];
    var n := |s.published|;
    var p := Run(steps + [Final] + [Mark, Emit]).published;
    assert p[n] == s.closing.value && !AtMost(p[n], p[n + 1]);
  }

  /** Some tick marked a trip within the first n steps: it had sampled at least 20 requests of which at least half
      were errors. */
  ghost predicate BreakerMarked(steps: seq<Step>, n: nat)
    requires n <= |steps|
  {
    exists i :: 0 <= i < n && TrippingTick(steps, i)
  }

  ghost predicate TrippingTick(steps: seq<Step>, i: nat)
    requires i < |steps|
  {
    steps[i].Mark? && MarksTrip(Run(steps[..i]))
  }

  lemma {:induction false} AbortedMeansTripped(steps: seq<Step>, n: nat)
    requires n <= |steps|
    ensures Run(steps[..n]).aborted <==> BreakerMarked(steps, n)
  {
    if n > 0 {
      AbortedMeansTripped(steps, n - 1);
      assert steps[..n][..n - 1] == steps[..n - 1];
      MarkedNext(steps, n);
      OnlyMarksAbort(Run(steps[..n - 1]), steps[n - 1]);
    }
  }

  lemma MarkedNext(steps: seq<Step>, n: nat)
    requires 0 < n <= |steps|
    ensures BreakerMarked(steps, n) <==> BreakerMarked(steps, n - 1) || TrippingTick(steps, n - 1)
  {
  }

  lemma OnlyMarksAbort(s: State, step: Step)
    ensures After(s, step).aborted <==> s.aborted || (step.Mark? && MarksTrip(s))
  {
  }

  ghost predicate DoneAt(s: State, k: nat) {
    k < |s.published| && s.published[k].done && forall i :: 0 <= i < |s.published| && s.published[i].done ==> i == k
  }

  /** Step i publishes the final update of the run. */
  ghost predicate FinalStep(steps: seq<Step>, i: nat)
    requires i < |steps|
  {
    steps[i].Final? && Ending(Run(steps[..i]))
  }

  /** Step c makes the final update up. */
  ghost predicate CloseStep(steps: seq<Step>, c: nat)
    requires c < |steps|
  {
    steps[c].Close? && Run(steps[..c]).closing.None?
  }

  lemma ClosingNext(s: State, step: Step)
    ensures After(s, step).closing ==
              if s.closing.None? && step.Close? then Some(Counts(s, true, s.aborted)) else s.closing
  {
  }

  lemma RunUpTo(steps: seq<Step>, n: nat)
    requires 0 < n <= |steps|
    ensures Run(steps[..n]) == After(Run(steps[..n - 1]), steps[n - 1])
  {
    assert steps[..n][..n - 1] == steps[..n - 1];
  }

  /** The final update is made up once. */
  lemma {:induction false} ClosingStays(steps: seq<Step>, c: nat, n: nat)
    requires c < n <= |steps| && CloseStep(steps, c)
    ensures Run(steps[..n]).closing == Some(Counts(Run(steps[..c]), true, Run(steps[..c]).aborted))
  {
    RunUpTo(steps, n);
    ClosingNext(Run(steps[..n - 1]), steps[n - 1]);
    if c < n - 1 {
      ClosingStays(steps, c, n - 1);
    }
  }

  /** The results of the requests that ended, in order. */
  function Recorded(steps: seq<Step>): seq<RequestResult> {
    if steps == [] then []
    else
      var before, step := Recorded(steps[..|steps| - 1]), steps[|steps| - 1];
      if step.Record? then before + [step.r] else before
  }

  /** Until the final update is made up, every request that ends counts. */
  lemma {:induction false} ResultsAreRecorded(steps: seq<Step>)
    ensures Run(steps).closing.None? ==> Run(steps).results == Recorded(steps)
  {
    if steps != [] {
      ResultsAreRecorded(steps[..|steps| - 1]);
    }
  }

  /** The counts of some results: all of them, and those that failed outright or got a 5xx. */
  ghost predicate CountsResults(u: Update, results: seq<RequestResult>) {
    && u.requests == |results|
    && u.errors == |set i: nat | i < |results| && (results[i].failed || results[i].statusCode >= 500)|
  }

  lemma CountsAreOfResults(s: State, done: bool, circuitBroken: bool)
    ensures CountsResults(Counts(s, done, circuitBroken), s.results)
  {
    ErrorsAreFailures(s.results);
  }

  /** At step i a tick sampled what the update says; it says that the circuit broke if it saw at least 20 requests, at
      least half of them errors, unless it has yet to mark that. */
  ghost predicate SampledAt(steps: seq<Step>, i: nat, u: Update, marked: bool) {
    && i < |steps| && steps[i].Sample? && !u.done && CountsResults(u, Run(steps[..i]).results)
    && (u.circuitBroken ==> u.requests >= 20 && 2 * u.errors >= u.requests)
    && (marked && u.requests >= 20 && 2 * u.errors >= u.requests ==> u.circuitBroken)
  }

  ghost predicate Sampled(steps: seq<Step>, u: Update, marked: bool) {
    exists i: nat :: SampledAt(steps, i, u, marked)
  }

  ghost predicate OnlySamples(steps: seq<Step>, published: seq<Update>) {
    forall k :: 0 <= k < |published| && !published[k].done ==> Sampled(steps, published[k], true)
  }

  ghost predicate AllSampled(steps: seq<Step>) {
    && OnlySamples(steps, Run(steps).published)
    && (Run(steps).inFlight.Some? ==> Sampled(steps, Run(steps).inFlight.value, false))
  }

  lemma SampledBefore(steps: seq<Step>, front: seq<Step>, u: Update, marked: bool)
    requires front <= steps && Sampled(front, u, marked)
    ensures Sampled(steps, u, marked)
  {
    var i: nat :| SampledAt(front, i, u, marked);
    assert front[..i] == steps[..i];
    assert SampledAt(steps, i, u, marked);
  }

  /** A tick that has only to publish has marked its trip, and marking leaves the rest as it was. */
  lemma MarkedSample(steps: seq<Step>, s: State)
    requires s.inFlight.Some? && Sampled(steps, s.inFlight.value, false)
    ensures Emits(s) ==> Sampled(steps, s.inFlight.value, true)
    ensures MarksTrip(s) ==> Sampled(steps, s.inFlight.value.(circuitBroken := true), false)
  {
    var u := s.inFlight.value;
    var i: nat :| SampledAt(steps, i, u, false);
    assert Emits(s) ==> SampledAt(steps, i, u, true);
    assert MarksTrip(s) ==> SampledAt(steps, i, u.(circuitBroken := true), false);
  }

  lemma NewSample(steps: seq<Step>, s: State)
    requires steps != [] && s == Run(steps[..|steps| - 1]) && steps[|steps| - 1].Sample?
    ensures Sampled(steps, Counts(s, false, false), false)
  {
    CountsAreOfResults(s, false, false);
    assert SampledAt(steps, |steps| - 1, Counts(s, false, false), false);
  }

  /** Every update but the final one is what some tick sampled: the counts of the results at that time, and whether
      they trip the breaker. */
  lemma {:induction false} UpdatesAreSamples(steps: seq<Step>)
    ensures AllSampled(steps)
  {
    if steps != [] {
      var front, step := steps[..|steps| - 1], steps[|steps| - 1];
      var s, s' := Run(front), Run(steps);
      UpdatesAreSamples(front);
      if s.inFlight.Some? {
        SampledBefore(steps, front, s.inFlight.value, false);
        MarkedSample(steps, s);
      }
      if step.Sample? {
        NewSample(steps, s);
      }
      CountsOverEveryRun(front);
      PublishedNext(s, step);
      OnlySamplesNext(steps, front, s, s'.published);
    }
  }

  lemma OnlySamplesNext(steps: seq<Step>, front: seq<Step>, s: State, published: seq<Update>)
    requires front <= steps && OnlySamples(front, s.published)
    requires Emits(s) ==> Sampled(steps, s.inFlight.value, true)
    requires || published == s.published
             || (Emits(s) && published == s.published + [s.inFlight.value])
             || (|published| == |s.published| + 1 && s.published <= published && published[|s.published|].done)
    ensures OnlySamples(steps, published)
  {
    forall k | 0 <= k < |published| && !published[k].done ensures Sampled(steps, published[k], true) {
      if k < |s.published| {
        assert published[k] == s.published[k];
        SampledBefore(steps, front, s.published[k], true);
      }
    }
  }

  /** What a step publishes. */
  lemma PublishedNext(s: State, step: Step)
    requires CountsOK(s)
    ensures var p := After(s, step).published;
            || p == s.published
            || (Emits(s) && p == s.published + [s.inFlight.value])
            || (|p| == |s.published| + 1 && s.published <= p && p[|s.published|].done)
    ensures var inFlight := After(s, step).inFlight;
            || inFlight == s.inFlight || inFlight.None?
            || (step.Sample? && inFlight == Some(Counts(s, false, false)))
            || (MarksTrip(s) && inFlight == Some(s.inFlight.value.(circuitBroken := true)))
  {
  }

  /** Exactly one update is marked done: the final one, in the place it was published. It has the counts of all the
      requests that ended before it was made up, and it says the circuit broke if and only if some tick marked a trip
      before that. */
  lemma {:induction false} OneDoneUpdate(steps: seq<Step>, c: nat, i: nat)
    requires c < |steps| && i < |steps| && CloseStep(steps, c) && FinalStep(steps, i)
    ensures var k := |Run(steps[..i]).published|;
            && DoneAt(Run(steps), k)
            && UpToDate(Run(steps), Some(Run(steps).published[k]))
            && CountsResults(Run(steps).published[k], Recorded(steps[..c]))
            && (Run(steps).published[k].circuitBroken <==> BreakerMarked(steps, c))
  {
    ClosedBefore(steps, c, i);
    DoneOnce(steps, i);
    AbortedMeansTripped(steps, c);
    CountsOverEveryRun(steps);
    ClosingStays(steps, c, |steps|);
    assert steps[..|steps|] == steps;
    ResultsAreRecorded(steps[..c]);
    CountsAreOfResults(Run(steps[..c]), true, Run(steps[..c]).aborted);
  }

  lemma ClosedBefore(steps: seq<Step>, c: nat, i: nat)
    requires c < |steps| && i < |steps| && CloseStep(steps, c) && FinalStep(steps, i)
    ensures c < i && Run(steps[..i]).closing == Some(Counts(Run(steps[..c]), true, Run(steps[..c]).aborted))
  {
    if c < i {
      ClosingStays(steps, c, i);
    } else if i < c {
      ClosedForGood(steps, i, c);
    }
  }

  lemma {:induction false} ClosedForGood(steps: seq<Step>, i: nat, n: nat)
    requires i <= n <= |steps| && Run(steps[..i]).closing.Some?
    ensures Run(steps[..n]).closing == Run(steps[..i]).closing
  {
    if i < n {
      assert steps[..n][..n - 1] == steps[..n - 1];
      ClosedForGood(steps, i, n - 1);
    }
  }

  lemma {:induction false} DoneOnce(steps: seq<Step>, i: nat)
    requires i < |steps| && FinalStep(steps, i)
    ensures var k := |Run(steps[..i]).published|;
            DoneAt(Run(steps), k) && Run(steps).published[k] == Run(steps[..i]).closing.value
  {
    var n := |steps| - 1;
    var front := steps[..n];
    CountsOverEveryRun(front);
    if i < n {
      assert front[..i] == steps[..i];
      DoneOnce(front, i);
      FinishedStays(front, i);
    }
  }

  lemma {:induction false} FinishedStays(steps: seq<Step>, i: nat)
    requires i < |steps| && FinalStep(steps, i)
    ensures Run(steps).finished
  {
    var n := |steps| - 1;
    if i == n {
      assert steps[..i] == steps[..n];
    } else {
      assert steps[..n][..i] == steps[..i];
      FinishedStays(steps[..n], i);
    }
  }

  /** A tick that publishes after the final update. */
  ghost predicate LateTick(steps: seq<Step>, i: nat, j: nat)
    requires i < |steps|
  {
    i < j < |steps| && steps[j].Emit? && Emits(Run(steps[..j]))
  }

  ghost predicate TicksLate(steps: seq<Step>, i: nat)
    requires i < |steps|
  {
    exists j :: LateTick(steps, i, j)
  }

  /** A late tick is the last step, or one of the shorter run. */
  lemma LateTickNext(steps: seq<Step>, front: seq<Step>, i: nat)
    requires i + 1 < |steps| && front == steps[..|steps| - 1]
    ensures TicksLate(steps, i) <==> TicksLate(front, i) || LateTick(steps, i, |steps| - 1)
  {
    assert forall j :: 0 <= j < |front| ==> steps[..j] == front[..j];
    forall j: nat | j < |front| ensures LateTick(steps, i, j) <==> LateTick(front, i, j) {
    }
    if TicksLate(front, i) {
      var j: nat :| LateTick(front, i, j);
      assert LateTick(steps, i, j);
    }
  }

  /** After the final update only ticks publish. */
  lemma OnlyTicksPublish(s: State, step: Step)
    requires s.finished
    ensures |After(s, step).published| == |s.published| + if step.Emit? && Emits(s) then 1 else 0
  {
  }

  /** The done update is the last one published if and only if no tick publishes after it. */
  lemma {:induction false} DoneIsLastExactlyWithoutLateTick(steps: seq<Step>, i: nat)
    requires i < |steps| && FinalStep(steps, i)
    ensures |Run(steps).published| == |Run(steps[..i]).published| + 1 <==> !TicksLate(steps, i)
    ensures |Run(steps).published| >= |Run(steps[..i]).published| + 1
  {
    var n := |steps| - 1;
    var front := steps[..n];
    assert steps[..n] == front;
    if i < n {
      assert front[..i] == steps[..i];
      DoneIsLastExactlyWithoutLateTick(front, i);
      FinishedStays(front, i);
      LateTickNext(steps, front, i);
      OnlyTicksPublish(Run(front), steps[n]);
    } else {
      assert !TicksLate(steps, i);
    }
  }

  /** Only a ticker that has not stopped has an update in flight. */
  lemma {:induction false} InFlightMeansTicking(steps: seq<Step>)
    ensures Run(steps).inFlight.Some? ==> Run(steps).ticking
  {
    if steps != [] {
      InFlightMeansTicking(steps[..|steps| - 1]);
    }
  }

  lemma {:induction false} SilentOnceStopped(steps: seq<Step>, more: seq<Step>)
    requires Run(steps).finished && !Run(steps).ticking && Run(steps).inFlight.None? && Run(steps).closing.Some?
    ensures Run(steps + more) == Run(steps)
  {
    if more == [] {
      assert steps + more == steps;
    } else {
      SilentOnceStopped(steps, more[..|more| - 1]);
      RunNext(steps + more[..|more| - 1], more[|more| - 1]);
      assert steps + more == steps + more[..|more| - 1] + [more[|more| - 1]];
    }
  }

  /** One tick, if nothing comes in between: it publishes the counts of the results so far, says whether they trip the
      breaker, and stops ticking if so. */
  lemma UndisturbedTick(steps: seq<Step>)
    requires Run(steps).ticking && Run(steps).inFlight.None?
    ensures var s, s' := Run(steps), Run(steps + [Sample(0)] + [Mark] + [Emit]);
            |s'.published| == |s.published| + 1 &&
            var u := s'.published[|s.published|];
            && s'.published == s.published + [u] && CountsResults(u, s.results) && !u.done
            && (u.circuitBroken <==> u.requests >= 20 && 2 * u.errors >= u.requests)
            && s'.ticking == !u.circuitBroken && s'.aborted == (s.aborted || u.circuitBroken)
            && s'.results == s.results && s'.inFlight.None?
  {
    CountsAreOfResults(Run(steps), false, false);
    RunNext(steps, Sample(0));
    RunNext(steps + [Sample(0)], Mark);
    RunNext(steps + [Sample(0)] + [Mark], Emit);
  }

  /** A ticker that has not stopped can publish once more. */
  lemma TickAfter(steps: seq<Step>)
    requires Run(steps).ticking
    ensures |Run(steps + [Sample(0), Mark, Emit]).published| == |Run(steps).published| + 1
  {
    RunNext(steps, Sample(0));
    RunNext(steps + [Sample(0)], Mark);
    RunNext(steps + [Sample(0)] + [Mark], Emit);
    assert steps + [Sample(0)] + [Mark] + [Emit] == steps + [Sample(0), Mark, Emit];
  }

  /** The final update is the last one in every continuation of a run if and only if the ticker has stopped by
      then. */
  lemma DoneStaysLast(steps: seq<Step>)
    requires Ending(Run(steps))
    ensures (forall more :: |Run(steps + [Final] + more).published| == |Run(steps).published| + 1)
       <==> !Run(steps).ticking
  {
    RunNext(steps, Final);
    InFlightMeansTicking(steps);
    if Run(steps).ticking {
      TickAfter(steps + [Final]);
      assert |Run(steps + [Final] + [Sample(0), Mark, Emit]).published| == |Run(steps).published| + 2;
    } else {
      forall more ensures |Run(steps + [Final] + more).published| == |Run(steps).published| + 1 {
        SilentOnceStopped(steps + [Final], more);
      }
    }
  }

  /** A late tick sends a not-done update after the done one. */
  lemma LateTickReopens()
    ensures var p := Run([] + [Close(1)] + [Final] + [Sample(2)] + [Emit]).published;
            |p| == 2 && p[0].done && !p[1].done
  {
    RunNext([], Close(1));
    RunNext([] + [Close(1)], Final);
    RunNext([] + [Close(1)] + [Final], Sample(2));
    RunNext([] + [Close(1)] + [Final] + [Sample(2)], Emit);
  }

  /** A trip that was sampled but not marked when the final update was made up: its tick says that the circuit broke,
      and the final update, the last one, takes it back. */
  lemma TripMissed(steps: seq<Step>)
    requires var s := Run(steps);
             && s.ticking && s.inFlight.None? && s.closing.None? && !s.finished && !s.aborted
             && Trips(Counts(s, false, false))
    ensures var n := |Run(steps).published|;
            var p := Run(steps + [Sample(0)] + [Close(0)] + [Mark] + [Emit] + [Final]).published;
            && |p| == n + 2
            && !p[n].done && p[n].circuitBroken
            && p[n + 1].done && !p[n + 1].circuitBroken
  {
    RunNext(steps, Sample(0));
    RunNext(steps + [Sample(0)], Close(0));
    RunNext(steps + [Sample(0)] + [Close(0)], Mark);
    RunNext(steps + [Sample(0)] + [Close(0)] + [Mark], Emit);
    RunNext(steps + [Sample(0)] + [Close(0)] + [Mark] + [Emit], Final);
  }

  /** The shared state of one run in place: VU loops record, the ticker and the end publish. */
  class Runner {
    var results: seq<RequestResult>
    var aborted: bool
    var ticking: bool
    var inFlight: Option<Metrics>
    var closing: Option<Metrics>
    var finished: bool
    var published: seq<Metrics>
    var countedRequests: nat
    var countedErrors: nat
    var requestsTotal: nat
    var errorsTotal: nat

    ghost function Abs(): State
      reads this
    {
      State(results, aborted, ticking, UpdateIn(inFlight), UpdateIn(closing), finished, UpdatesOf(published),
            countedRequests, countedErrors, requestsTotal, errorsTotal)
    }

    constructor ()
      ensures Abs() == START
    {
      results, aborted, ticking, inFlight, closing, finished, published := [], false, true, None, None, false, [];
      countedRequests, countedErrors, requestsTotal, errorsTotal := 0, 0, 0, 0;
    }

    method Record(r: RequestResult)
      requires closing.None?
      modifies `results
      ensures Abs() == After(old(Abs()), Step.Record(r))
    {
      results := results + [r];
    }

    method PublishMetrics(m: Metrics)
      modifies `published, `countedRequests, `countedErrors, `requestsTotal, `errorsTotal
      ensures Abs() == Publish(old(Abs()), UpdateOf(m))
    {
      if m.requests > countedRequests {
        requestsTotal := requestsTotal + (m.requests - countedRequests);
        countedRequests := m.requests;
      }
      if m.errors > countedErrors {
        errorsTotal := errorsTotal + (m.errors - countedErrors);
        countedErrors := m.errors;
      }
      published := published + [m];
    }

    method MetricsNow(elapsed: nat, done: bool) returns (m: Metrics)
      ensures UpdateOf(m) == Counts(Abs(), done, false)
    {
      m := ComputeMetrics(results, elapsed, done);
    }

    /** One tick begins: it samples the results and computes its metrics. */
    method OnTick(elapsed: nat)
      requires ticking && inFlight.None?
      modifies `inFlight
      ensures Abs() == After(old(Abs()), Sample(elapsed))
    {
      var m := MetricsNow(elapsed, false);
      inFlight := Some(m);
    }

    /** The tick marks a trip, if it saw one. */
    method MarkTrip()
      requires inFlight.Some? && !inFlight.value.circuitBroken
      modifies `aborted, `inFlight
      ensures Abs() == After(old(Abs()), Mark) && Emits(Abs())
    {
      TripsIs(inFlight.value);
      if TripsCircuitBreaker(inFlight.value) {
        aborted := true;
        inFlight := Some(inFlight.value.(circuitBroken := true));
      }
    }

    /** The rest of the tick: publish, and stop after a trip. */
    method EndTick()
      requires Emits(Abs())
      modifies this
      ensures Abs() == After(old(Abs()), Emit)
    {
      var m := inFlight.value;
      inFlight := None;
      PublishMetrics(m);
      if m.circuitBroken {
        ticking := false;
      }
    }

    /** The ticker notices that the run's time is over. */
    method StopTicking()
      requires ticking && inFlight.None?
      modifies `ticking
      ensures Abs() == After(old(Abs()), Stop)
    {
      ticking := false;
    }

    /** The run is over: the final update takes all the results and the mark. */
    method MakeFinal(elapsed: nat)
      requires closing.None?
      modifies `closing
      ensures Abs() == After(old(Abs()), Close(elapsed))
    {
      var m := MetricsNow(elapsed, true);
      closing := Some(m.(circuitBroken := aborted));
    }

    /** The final update is published. */
    method Finish()
      requires Ending(Abs())
      modifies this
      ensures Abs() == After(old(Abs()), Final)
    {
      finished := true;
      PublishMetrics(closing.value);
    }
  }
}
