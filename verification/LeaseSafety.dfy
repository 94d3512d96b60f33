/** Lease safety: while live workers stay within the assumed delays, a job held by one is never handed to
    another, whatever the interleaving of listings, claims, renewals, crashes and restarts. */
module LeaseSafety {
  import opened Lease

  /** Every entry of the jobs stream is in exactly one place: not yet delivered, pending, or acked. */
  ghost predicate Partitioned(s: State) {
    && s.cursor <= |s.jobs|
    && (forall id :: id in s.pending ==> id < s.cursor && id !in s.acked)
    && (forall id :: id in s.acked ==> id < s.cursor)
    && (forall id: nat :: id < s.cursor ==> id in s.pending || id in s.acked)
    && (forall id :: id in s.pending ==> s.pending[id].lastTouch <= s.now && s.pending[id].deliveries >= 1)
  }

  /** What a candidate still tells: its entry was touched after the listing, or is as it was listed. */
  ghost predicate CandidateOK(s: State, c: Candidate, listedAt: nat) {
    c.id in s.pending ==> s.pending[c.id].lastTouch >= listedAt || s.pending[c.id].deliveries == c.retryCount
  }

  /** A live process is within its deadlines, and the entry it holds was touched recently enough. */
  ghost predicate PhaseOK(env: Env, s: State, phase: Phase) {
    Punctual(env, phase, s.now) &&
    match phase
    case Running(id, nextTick, failures) =>
      && id in s.pending && failures <= env.maxFailures
      && nextTick <= s.pending[id].lastTouch + (failures + 1) * LEASE_RENEW_INTERVAL
    case Abandoning(id, since) => id in s.pending && since <= s.pending[id].lastTouch
    case Acking(id, since) =>
      && id in s.pending
      && since <= s.pending[id].lastTouch + (env.maxFailures + 1) * LEASE_RENEW_INTERVAL + env.jitter
    case Listing(cs, listedAt) =>
      listedAt <= s.now && forall i :: 0 <= i < |cs| ==> CandidateOK(s, cs[i], listedAt)
    case _ => true
  }

  ghost predicate PhasesOK(env: Env, s: State) {
    forall p :: p in s.live ==> PhaseOK(env, s, s.live[p])
  }

  /** At most one live process holds an entry. */
  ghost predicate Exclusive(s: State) {
    forall p, q, id :: Holds(s, p, id) && Holds(s, q, id) ==> p == q
  }

  ghost predicate LeaseInv(env: Env, s: State) {
    Partitioned(s) && PhasesOK(env, s) && Exclusive(s)
  }

  /** A held entry is pending, delivered, and never looks stale. */
  lemma HeldIsFresh(env: Env, s: State, p: Proc, id: nat)
    requires Prompt(env) && PhasesOK(env, s) && Holds(s, p, id)
    ensures id in s.pending && !IsStale(s, id)
  {
    assert PhaseOK(env, s, s.live[p]);
    var phase := s.live[p];
    if phase.Running? {
      assert (phase.failures + 1) * LEASE_RENEW_INTERVAL <= (env.maxFailures + 1) * LEASE_RENEW_INTERVAL;
    }
  }

  /** Entering a phase keeps everyone else's. */
  lemma EnterKeeps(env: Env, s: State, s': State, p: Proc, phase: Phase)
    requires LeaseInv(env, s) && Partitioned(s')
    requires s'.live == s.live[p := phase] && s'.now == s.now
    requires PhaseOK(env, s', phase)
    requires forall q :: q in s.live && q != p ==> PhaseOK(env, s', s.live[q])
    requires forall q, id :: q != p && Holds(s, q, id) ==> !Holds(s', p, id)
    ensures LeaseInv(env, s')
  {
    forall q, r, id | Holds(s', q, id) && Holds(s', r, id) ensures q == r {
      assert q != p ==> Holds(s, q, id);
      assert r != p ==> Holds(s, r, id);
    }
  }

  /** Touching an entry that another process does not hold leaves that process's phase in order. */
  lemma TouchKeeps(env: Env, s: State, s': State, q: Proc, id: nat)
    requires PhasesOK(env, s) && q in s.live && !Holds(s, q, id)
    requires s'.now == s.now && id in s'.pending && s'.pending[id].lastTouch == s.now
    requires forall i :: i in s.pending && i != id ==> i in s'.pending && s'.pending[i] == s.pending[i]
    requires forall i :: i in s'.pending && i != id ==> i in s.pending
    ensures PhaseOK(env, s', s.live[q])
  {
    assert PhaseOK(env, s, s.live[q]);
  }

  lemma ClaimKeeps(env: Env, s: State, p: Proc, replyLost: bool)
    requires Prompt(env) && LeaseInv(env, s) && Enabled(env, s, Claim(p, replyLost))
    ensures LeaseInv(env, Step(env, s, Claim(p, replyLost)))
  {
    var s' := Step(env, s, Claim(p, replyLost));
    var id := s.live[p].candidates[0].id;
    assert PhaseOK(env, s, s.live[p]);
    if IsStale(s, id) {
      forall q | q in s.live && q != p ensures PhaseOK(env, s', s.live[q]) && !Holds(s, q, id) {
        if Holds(s, q, id) { HeldIsFresh(env, s, q, id); }
        TouchKeeps(env, s, s', q, id);
      }
    }
    EnterKeeps(env, s, s', p, s'.live[p]);
  }

  lemma DeliverKeeps(env: Env, s: State, p: Proc, replyLost: bool)
    requires Prompt(env) && LeaseInv(env, s) && Enabled(env, s, Deliver(p, replyLost))
    ensures LeaseInv(env, Step(env, s, Deliver(p, replyLost)))
  {
    var s' := Step(env, s, Deliver(p, replyLost));
    var id := s.cursor;
    forall q | q in s.live && q != p ensures PhaseOK(env, s', s.live[q]) && !Holds(s, q, id) {
      assert PhaseOK(env, s, s.live[q]);
      TouchKeeps(env, s, s', q, id);
    }
    EnterKeeps(env, s, s', p, s'.live[p]);
  }

  lemma RenewKeeps(env: Env, s: State, p: Proc, ok: bool)
    requires Prompt(env) && LeaseInv(env, s) && Enabled(env, s, Renew(p, ok))
    ensures LeaseInv(env, Step(env, s, Renew(p, ok)))
  {
    var s' := Step(env, s, Renew(p, ok));
    var id := s.live[p].id;
    assert Holds(s, p, id) && PhaseOK(env, s, s.live[p]);
    forall q | q in s.live && q != p ensures PhaseOK(env, s', s.live[q]) {
      assert !Holds(s, q, id);
      if ok { TouchKeeps(env, s, s', q, id); }
    }
    EnterKeeps(env, s, s', p, s'.live[p]);
  }

  lemma AckKeeps(env: Env, s: State, p: Proc, ok: bool)
    requires Prompt(env) && LeaseInv(env, s) && Enabled(env, s, Ack(p, ok))
    ensures LeaseInv(env, Step(env, s, Ack(p, ok)))
  {
    var s' := Step(env, s, Ack(p, ok));
    var id := s.live[p].id;
    assert Holds(s, p, id) && PhaseOK(env, s, s.live[p]);
    forall q | q in s.live && q != p ensures PhaseOK(env, s', s.live[q]) {
      assert !Holds(s, q, id) && PhaseOK(env, s, s.live[q]);
    }
    EnterKeeps(env, s, s', p, s'.live[p]);
  }

  lemma CrashKeeps(env: Env, s: State, p: Proc)
    requires LeaseInv(env, s) && Enabled(env, s, Crash(p))
    ensures LeaseInv(env, Step(env, s, Crash(p)))
  {
    var s' := Step(env, s, Crash(p));
    forall q, r, id | Holds(s', q, id) && Holds(s', r, id) ensures q == r {
      assert Holds(s, q, id) && Holds(s, r, id);
    }
    forall q | q in s'.live ensures PhaseOK(env, s', s'.live[q]) {
      assert PhaseOK(env, s, s.live[q]);
    }
  }

  /** Steps that move nobody and no entry. */
  lemma StillStepsKeep(env: Env, s: State, e: Event)
    requires LeaseInv(env, s) && Enabled(env, s, e)
    requires e.Enqueue? || e.Publish? || e.LateTick? || e.TickerStops? || e.Advance?
    ensures LeaseInv(env, Step(env, s, e))
  {
    var s' := Step(env, s, e);
    assert s'.live == s.live && s'.pending == s.pending;
    forall q | q in s'.live ensures PhaseOK(env, s', s'.live[q]) {
      assert PhaseOK(env, s, s.live[q]);
    }
    forall q, r, id | Holds(s', q, id) && Holds(s', r, id) ensures q == r {
      assert Holds(s, q, id) && Holds(s, r, id);
    }
  }

  /** Steps by which a process moves on within its main loop without touching an entry. */
  lemma MovingStepsKeep(env: Env, s: State, e: Event)
    requires LeaseInv(env, s) && Enabled(env, s, e)
    requires e.Start? || e.ListStale? || e.GiveUp? || e.ReadTimeout? || e.Finish? || e.Reject? || e.ReportAbandoned?
    ensures LeaseInv(env, Step(env, s, e))
  {
    var s' := Step(env, s, e);
    assert s'.pending == s.pending;
    forall q | q in s.live ensures PhaseOK(env, s', s.live[q]) {
      assert PhaseOK(env, s, s.live[q]);
    }
    assert forall id :: Holds(s', e.p, id) ==> Holds(s, e.p, id);
    EnterPhaseOK(env, s, e);
    EnterKeeps(env, s, s', e.p, s'.live[e.p]);
  }

  lemma EnterPhaseOK(env: Env, s: State, e: Event)
    requires LeaseInv(env, s) && Enabled(env, s, e)
    requires e.Start? || e.ListStale? || e.GiveUp? || e.ReadTimeout? || e.Finish? || e.Reject? || e.ReportAbandoned?
    ensures PhaseOK(env, Step(env, s, e), Step(env, s, e).live[e.p])
  {
    if e.p in s.live {
      assert PhaseOK(env, s, s.live[e.p]);
      var ph := s.live[e.p];
      if ph.Running? {
        assert (ph.failures + 1) * LEASE_RENEW_INTERVAL <= (env.maxFailures + 1) * LEASE_RENEW_INTERVAL;
      }
    }
  }

  lemma StepKeepsLeaseInv(env: Env, s: State, e: Event)
    requires Prompt(env) && LeaseInv(env, s) && Enabled(env, s, e)
    ensures LeaseInv(env, Step(env, s, e))
  {
    match e {
      case Claim(p, replyLost) => ClaimKeeps(env, s, p, replyLost);
      case Deliver(p, replyLost) => DeliverKeeps(env, s, p, replyLost);
      case Renew(p, ok) => RenewKeeps(env, s, p, ok);
      case Ack(p, ok) => AckKeeps(env, s, p, ok);
      case Crash(p) => CrashKeeps(env, s, p);
      case Enqueue(_) => StillStepsKeep(env, s, e);
      case Publish(_, _) => StillStepsKeep(env, s, e);
      case LateTick(_, _, _) => StillStepsKeep(env, s, e);
      case TickerStops(_, _) => StillStepsKeep(env, s, e);
      case Advance(_) => StillStepsKeep(env, s, e);
      case _ => MovingStepsKeep(env, s, e);
    }
  }

  lemma {:induction false} RunKeepsLeaseInv(env: Env, s: State, es: seq<Event>)
    requires Prompt(env) && LeaseInv(env, s)
    ensures LeaseInv(env, Run(env, s, es))
  {
    if es != [] {
      var before, e := Run(env, s, es[..|es| - 1]), es[|es| - 1];
      RunKeepsLeaseInv(env, s, es[..|es| - 1]);
      if Enabled(env, before, e) {
        StepKeepsLeaseInv(env, before, e);
      }
    }
  }

  ghost predicate Reachable(env: Env, s: State) {
    exists es :: Run(env, INITIAL, es) == s
  }

  lemma ReachableInv(env: Env, s: State)
    requires Prompt(env) && Reachable(env, s)
    ensures LeaseInv(env, s)
  {
    var es :| Run(env, INITIAL, es) == s;
    RunKeepsLeaseInv(env, INITIAL, es);
  }

  lemma ReachableStep(env: Env, s: State, e: Event)
    requires Reachable(env, s) && Enabled(env, s, e)
    ensures Reachable(env, Step(env, s, e))
  {
    var es :| Run(env, INITIAL, es) == s;
    assert (es + [e])[..|es|] == es;
    assert Run(env, INITIAL, es + [e]) == Step(env, s, e);
  }

  lemma InitialReachable(env: Env)
    ensures Reachable(env, INITIAL)
  {
    assert Run(env, INITIAL, []) == INITIAL;
  }

  lemma ClaimKeepsPartitioned(env: Env, s: State, p: Proc, replyLost: bool)
    requires Partitioned(s) && Enabled(env, s, Claim(p, replyLost))
    ensures Partitioned(Step(env, s, Claim(p, replyLost)))
  {
    assert Step(env, s, Claim(p, replyLost)).pending.Keys == s.pending.Keys;
  }

  lemma DeliverKeepsPartitioned(env: Env, s: State, p: Proc, replyLost: bool)
    requires Partitioned(s) && Enabled(env, s, Deliver(p, replyLost))
    ensures Partitioned(Step(env, s, Deliver(p, replyLost)))
  {
    assert Step(env, s, Deliver(p, replyLost)).pending.Keys == s.pending.Keys + {s.cursor};
  }

  lemma StepKeepsPartitioned(env: Env, s: State, e: Event)
    requires Partitioned(s) && Enabled(env, s, e)
    ensures Partitioned(Step(env, s, e))
  {
    var s' := Step(env, s, e);
    match e {
      case Claim(p, replyLost) => ClaimKeepsPartitioned(env, s, p, replyLost);
      case Deliver(p, replyLost) => DeliverKeepsPartitioned(env, s, p, replyLost);
      case Renew(p, _) => assert s'.pending.Keys == s.pending.Keys;
      case Ack(p, _) => assert s'.cursor == s.cursor;
      case _ => assert s'.pending == s.pending && s'.acked == s.acked && s'.cursor == s.cursor;
    }
  }

  lemma {:induction false} RunKeepsPartitioned(env: Env, es: seq<Event>)
    ensures Partitioned(Run(env, INITIAL, es))
  {
    if es != [] {
      var before, e := Run(env, INITIAL, es[..|es| - 1]), es[|es| - 1];
      RunKeepsPartitioned(env, es[..|es| - 1]);
      if Enabled(env, before, e) {
        StepKeepsPartitioned(env, before, e);
      }
    }
  }

  /** Every entry of the jobs stream is in exactly one place, whatever the delays and failures. */
  lemma NoEntryIsLost(env: Env, s: State)
    requires Reachable(env, s)
    ensures Partitioned(s)
  {
    var es :| Run(env, INITIAL, es) == s;
    RunKeepsPartitioned(env, es);
  }

  /** At most one live worker holds an entry, and an entry so held can not be claimed by anyone. */
  ghost predicate Safe(s: State) {
    && Exclusive(s)
    && forall p, id :: Holds(s, p, id) ==> id in s.pending && !IsStale(s, id)
  }

  /** Safety of every reachable state: every entry is in exactly one place, at most one live worker holds
      each, and no claim of a held entry can succeed. */
  lemma ReachableIsSafe(env: Env, s: State)
    requires Prompt(env) && Reachable(env, s)
    ensures Partitioned(s) && Safe(s)
  {
    ReachableInv(env, s);
    forall p, id | Holds(s, p, id) ensures id in s.pending && !IsStale(s, id) {
      HeldIsFresh(env, s, p, id);
    }
  }
}
