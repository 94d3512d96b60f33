/** Bounded retries: no job is started more than three times, because a claim decides on a delivery
    count that is still current. That holds whatever becomes of the leases. */
module LeaseRetries {
  import opened Lease
  import opened LeaseSafety

  ghost predicate Ascending(cs: seq<Candidate>) {
    forall i, j :: 0 <= i < j < |cs| ==> cs[i].id < cs[j].id
  }

  ghost predicate Lists(cs: seq<Candidate>, id: nat) {
    exists i :: 0 <= i < |cs| && cs[i].id == id
  }

  lemma {:induction false} AllStaleListed(s: State, n: nat)
    ensures Ascending(StaleBelow(s, n))
    ensures forall id: nat :: Lists(StaleBelow(s, n), id) <==> id < n && IsStale(s, id)
  {
    if n > 0 {
      AllStaleListed(s, n - 1);
      var before, cs := StaleBelow(s, n - 1), StaleBelow(s, n);
      assert forall i :: 0 <= i < |before| ==> cs[i] == before[i];
      forall id: nat ensures Lists(cs, id) <==> id < n && IsStale(s, id) {
        assert Lists(before, id) <==> id < n - 1 && IsStale(s, id);
        if id == n - 1 && IsStale(s, id) {
          assert cs[|before|].id == id;
        }
      }
    }
  }

  /** Nobody has touched the pending entry for so many milliseconds. */
  predicate IdleFor(s: State, id: nat, millis: nat) {
    id in s.pending && s.now >= s.pending[id].lastTouch + millis
  }

  /** What a worker lists: stale entries only, in id order with their current counts, at most ten, and none is
      passed over for a later one. */
  lemma ListingIsFirstTen(s: State)
    ensures var cs := ListedCandidates(s);
            && |cs| <= 10 && Ascending(cs)
            && (forall i :: 0 <= i < |cs| ==>
                  && cs[i].id < s.cursor && IdleFor(s, cs[i].id, 45_000)
                  && cs[i].retryCount == s.pending[cs[i].id].deliveries)
            && forall id: nat :: id < s.cursor && IdleFor(s, id, 45_000) ==>
                 Lists(cs, id) || (|cs| == 10 && cs[9].id < id)
  {
    AllStaleListed(s, s.cursor);
    var all, cs := StaleBelow(s, s.cursor), ListedCandidates(s);
    forall id: nat | id < s.cursor && IdleFor(s, id, 45_000) ensures Lists(cs, id) || (|cs| == 10 && cs[9].id < id) {
      assert Lists(all, id);
      var k :| 0 <= k < |all| && all[k].id == id;
      if k < 10 {
        assert cs[k].id == id;
      } else {
        assert all[9].id < all[k].id;
      }
    }
  }

  /** No job was started more often than its entry was delivered, and none more than three times. */
  ghost predicate StartsOK(s: State) {
    forall id: nat ::
      && s.started[id] <= 3
      && (id in s.pending ==> s.started[id] <= s.pending[id].deliveries)
      && (id >= s.cursor ==> s.started[id] == 0)
  }

  /** A listing is not too old, and what it says of an entry holds unless the entry was touched since. */
  ghost predicate ListingOK(env: Env, s: State, phase: Phase) {
    phase.Listing? ==>
      && phase.listedAt <= s.now <= phase.listedAt + env.listGrace
      && forall i :: 0 <= i < |phase.candidates| ==> CandidateOK(s, phase.candidates[i], phase.listedAt)
  }

  ghost predicate ListingsOK(env: Env, s: State) {
    forall p :: p in s.live ==> ListingOK(env, s, s.live[p])
  }

  /** What bounds the retries. It says nothing of leases, so it is kept even if they are lost and two workers run
      one job. */
  ghost predicate RetryInv(env: Env, s: State) {
    Partitioned(s) && ListingsOK(env, s) && StartsOK(s)
  }

  /** A claim that succeeds finds the delivery count that was listed: an entry touched in between could not
      have become stale again before the worker's listing is used up. */
  lemma ListedCountIsCurrent(env: Env, s: State, p: Proc)
    requires env.listGrace < 45_000 && p in s.live && ListingOK(env, s, s.live[p])
    requires s.live[p].Listing? && s.live[p].candidates != [] && IdleFor(s, s.live[p].candidates[0].id, 45_000)
    ensures s.pending[s.live[p].candidates[0].id].deliveries == s.live[p].candidates[0].retryCount
  {
    assert CandidateOK(s, s.live[p].candidates[0], s.live[p].listedAt);
  }

  /** What a claim does. It succeeds exactly if nobody has touched the entry for 45s, and then runs the job if it was
      delivered fewer than three times, and abandons it otherwise. One that does not succeed touches no entry. */
  lemma ClaimDecision(env: Env, s: State, p: Proc)
    requires env.listGrace < 45_000 && Reachable(env, s) && Enabled(env, s, Claim(p, false))
    ensures var id := s.live[p].candidates[0].id;
            var s' := Step(env, s, Claim(p, false));
            if IdleFor(s, id, 45_000) then
              && id in s'.pending && s'.pending == s.pending[id := s'.pending[id]]
              && s'.pending[id] == Delivery(p.consumer, s.now, s.pending[id].deliveries + 1)
              && (if s.pending[id].deliveries < 3 then RunsNow(s', p, id) else AbandonsNow(s', p, id))
              && s'.started[id] == s.started[id] + if s.pending[id].deliveries < 3 then 1 else 0
            else
              && s'.pending == s.pending && s'.started == s.started
              && s'.live == s.live[p := Listing(s.live[p].candidates[1..], s.live[p].listedAt)]
  {
    ReachableRetryInv(env, s);
    assert ListingOK(env, s, s.live[p]);
    if IsStale(s, s.live[p].candidates[0].id) {
      ListedCountIsCurrent(env, s, p);
    }
  }

  ghost predicate RunsNow(s: State, p: Proc, id: nat) {
    p in s.live && s.live[p].Running? && s.live[p].id == id
  }

  ghost predicate AbandonsNow(s: State, p: Proc, id: nat) {
    p in s.live && s.live[p].Abandoning? && s.live[p].id == id
  }

  /** A new job goes, in stream order, to a worker that runs it, as its first delivery. */
  lemma NewJobsInOrder(env: Env, s: State, p: Proc)
    requires Enabled(env, s, Deliver(p, false))
    ensures var s' := Step(env, s, Deliver(p, false));
            && s'.cursor == s.cursor + 1 && RunsNow(s', p, s.cursor)
            && s'.pending == s.pending[s.cursor := Delivery(p.consumer, s.now, 1)]
            && s'.started == s.started + multiset{s.cursor}
  {
  }

  /** A reply that is lost leaves the entry delivered, to nobody who works on it. */
  lemma LostRepliesCount(env: Env, s: State, p: Proc)
    ensures Enabled(env, s, Deliver(p, true)) ==>
              var s' := Step(env, s, Deliver(p, true));
              && s'.pending == s.pending[s.cursor := Delivery(p.consumer, s.now, 1)] && s'.cursor == s.cursor + 1
              && s'.started == s.started && s'.live == s.live[p := Phase.Idle]
    ensures Enabled(env, s, Claim(p, true)) && IdleFor(s, s.live[p].candidates[0].id, 45_000) ==>
              var id, s' := s.live[p].candidates[0].id, Step(env, s, Claim(p, true));
              && s'.pending == s.pending[id := Delivery(p.consumer, s.now, s.pending[id].deliveries + 1)]
              && s'.started == s.started && s'.live == s.live[p := Reading]
  {
  }

  /** Steps that touch entries, if any, at the current time, and take some away, keep a listing in order. */
  lemma ListingStays(env: Env, s: State, s': State, phase: Phase)
    requires ListingOK(env, s, phase) && s'.now == s.now
    requires forall id :: id in s'.pending ==>
               s'.pending[id].lastTouch == s.now || (id in s.pending && s'.pending[id] == s.pending[id])
    ensures ListingOK(env, s', phase)
  {
    if phase.Listing? {
      forall i | 0 <= i < |phase.candidates| ensures CandidateOK(s', phase.candidates[i], phase.listedAt) {
        assert CandidateOK(s, phase.candidates[i], phase.listedAt);
      }
    }
  }

  lemma StepKeepsListings(env: Env, s: State, e: Event)
    requires ListingsOK(env, s) && Enabled(env, s, e)
    ensures ListingsOK(env, Step(env, s, e))
  {
    var s' := Step(env, s, e);
    forall p | p in s'.live ensures ListingOK(env, s', s'.live[p]) {
      if p in s.live {
        assert ListingOK(env, s, s.live[p]);
      }
      if e.Advance? {
        assert Punctual(env, s.live[p], s'.now);
      } else if p in s.live && s.live[p] == s'.live[p] {
        ListingStays(env, s, s', s.live[p]);
      } else if s'.live[p].Listing? {
        NewListing(env, s, e, p);
      }
    }
  }

  /** A listing that was just made, or is one candidate shorter. */
  lemma NewListing(env: Env, s: State, e: Event, p: Proc)
    requires ListingsOK(env, s) && Enabled(env, s, e) && !e.Advance?
    requires p in Step(env, s, e).live && Step(env, s, e).live[p].Listing?
    requires p !in s.live || s.live[p] != Step(env, s, e).live[p]
    ensures ListingOK(env, Step(env, s, e), Step(env, s, e).live[p])
  {
    var s' := Step(env, s, e);
    if p in s.live {
      assert ListingOK(env, s, s.live[p]);
    }
    assert e.ListStale? || e.Claim?;
    forall i | 0 <= i < |s'.live[p].candidates| ensures CandidateOK(s', s'.live[p].candidates[i], s'.live[p].listedAt) {
      if e.Claim? {
        assert CandidateOK(s, s.live[p].candidates[i + 1], s.live[p].listedAt);
      }
    }
  }

  lemma StepKeepsStarts(env: Env, s: State, e: Event)
    requires env.listGrace < 45_000 && RetryInv(env, s) && Enabled(env, s, e)
    ensures StartsOK(Step(env, s, e))
  {
    var s' := Step(env, s, e);
    if e.Claim? && IsStale(s, s.live[e.p].candidates[0].id) {
      assert ListingOK(env, s, s.live[e.p]);
      ListedCountIsCurrent(env, s, e.p);
      var id := s.live[e.p].candidates[0].id;
      assert s.started[id] <= s.pending[id].deliveries;
    }
    forall id: nat ensures s'.started[id] <= 3
                        && (id in s'.pending ==> s'.started[id] <= s'.pending[id].deliveries)
                        && (id >= s'.cursor ==> s'.started[id] == 0) {
      assert s.started[id] <= 3;
    }
  }

  lemma StepKeepsRetryInv(env: Env, s: State, e: Event)
    requires env.listGrace < 45_000 && RetryInv(env, s) && Enabled(env, s, e)
    ensures RetryInv(env, Step(env, s, e))
  {
    StepKeepsPartitioned(env, s, e);
    StepKeepsListings(env, s, e);
    StepKeepsStarts(env, s, e);
  }

  lemma {:induction false} RunKeepsRetryInv(env: Env, es: seq<Event>)
    requires env.listGrace < 45_000
    ensures RetryInv(env, Run(env, INITIAL, es))
  {
    if es != [] {
      var front := es[..|es| - 1];
      RunKeepsRetryInv(env, front);
      if Enabled(env, Run(env, INITIAL, front), es[|es| - 1]) {
        StepKeepsRetryInv(env, Run(env, INITIAL, front), es[|es| - 1]);
      }
    }
  }

  lemma ReachableRetryInv(env: Env, s: State)
    requires env.listGrace < 45_000 && Reachable(env, s)
    ensures RetryInv(env, s)
  {
    var es :| Run(env, INITIAL, es) == s;
    RunKeepsRetryInv(env, es);
  }

  /** In every reachable state every job was started at most three times, and never more often than it was
      delivered. Leases need not hold for this, only listings must be used in time. */
  lemma StartsAreBounded(env: Env, s: State, id: nat)
    requires env.listGrace < 45_000 && Reachable(env, s)
    ensures s.started[id] <= 3
    ensures id in s.pending ==> s.started[id] <= s.pending[id].deliveries
  {
    ReachableRetryInv(env, s);
  }
}
