/** One worker's code (worker/reclaim.go, worker/main.go) over the shared consumer group, with the other
    processes and the clock moving between any two of its Redis calls. */
module JobQueue {
  import opened Wrappers
  import opened Messages
  import opened Lease
  import opened LeaseSafety
  import opened LeaseRetries
  import opened LeaseWords
  import opened LeaseLog

  /** The event is something this process's main loop does, or its crash; its old tickers go their own way. */
  predicate Concerns(e: Event, p: Proc) {
    !e.Enqueue? && !e.Advance? && !e.LateTick? && !e.TickerStops? && e.p == p
  }

  /** Events of other processes and of the clock only. */
  predicate Foreign(events: seq<Event>, p: Proc) {
    forall i :: 0 <= i < |events| ==> !Concerns(events[i], p)
  }

  class Cluster {
    const env: Env
    var s: State
    ghost var trace: seq<Event>

    /** The state is the outcome of the run recorded so far. */
    ghost predicate Valid()
      reads this
    {
      Tolerable(env) && s == Run(env, INITIAL, trace)
    }

    constructor (env: Env)
      requires Tolerable(env)
      ensures Valid() && s == INITIAL && this.env == env
    {
      this.env := env;
      s := INITIAL;
      trace := [];
    }

    method Apply(e: Event)
      requires Valid() && Enabled(env, s, e)
      modifies this
      ensures Valid() && s == Step(env, old(s), e) && trace == old(trace) + [e]
    {
      assert (trace + [e])[..|trace|] == trace;
      s := Step(env, s, e);
      trace := trace + [e];
    }

    /** One thing that others do, if it is possible. */
    method InterfereOnce(ghost p: Proc, e: Event)
      requires Valid() && p in s.live && !Concerns(e, p)
      modifies this
      ensures Valid() && p in s.live && s.live[p] == old(s.live[p]) && old(trace) <= trace
      ensures old(s.jobs) <= s.jobs && old(s.results) <= s.results
    {
      if Enabled(env, s, e) {
        Facts();
        StepLogs(env, s, e);
        Apply(e);
      }
    }

    /** Whatever the other processes and the clock do meanwhile; impossible events do not happen. */
    method Interfere(ghost p: Proc, events: seq<Event>)
      requires Valid() && p in s.live
      requires Foreign(events, p)
      modifies this
      ensures Valid() && p in s.live && s.live[p] == old(s.live[p]) && old(trace) <= trace
      ensures old(s.jobs) <= s.jobs && old(s.results) <= s.results
      ensures events == [] ==> s == old(s)
    {
      for i := 0 to |events|
        invariant Valid() && p in s.live && s.live[p] == old(s.live[p]) && old(trace) <= trace
        invariant old(s.jobs) <= s.jobs && old(s.results) <= s.results
        invariant i == 0 ==> s == old(s)
      {
        InterfereOnce(p, events[i]);
      }
    }

    lemma Facts()
      requires Valid()
      ensures LeaseInv(env, s) && LogInv(s) && Reachable(env, s)
    {
      assert Reachable(env, s);
      ReachableLog(env, s);
    }

    /** What this process is due to ack is settled, and still pending. */
    lemma DueForAck(p: Proc)
      requires Valid() && p in s.live && s.live[p].Acking?
      ensures Settled(s, s.live[p].id) && s.live[p].id in s.pending
    {
      Facts();
      assert PhaseOK(env, s, s.live[p]);
    }

    /** `renewLease`: resets the idle time of an entry and nothing else about it. */
    method RenewLease(p: Proc, ok: bool)
      requires Valid() && Enabled(env, s, Renew(p, ok))
      modifies this
      ensures Valid() && p in s.live && s.live[p].Running? && s.live[p].id == old(s.live[p].id)
      ensures var id := s.live[p].id;
              && id in s.pending && id in old(s.pending)
              && s.pending[id].deliveries == old(s.pending)[id].deliveries
              && (ok ==> s.pending[id].lastTouch == s.now && s.pending[id].owner == p.consumer)
              && (!ok ==> s.pending[id] == old(s.pending)[id])
      ensures forall id :: id != s.live[p].id ==>
                (id in s.pending <==> id in old(s.pending)) && (id in s.pending ==> s.pending[id] == old(s.pending)[id])
    {
      Facts();
      assert PhaseOK(env, s, s.live[p]);
      Apply(Renew(p, ok));
    }

    /** XACK of the job this process is through with. */
    method Acknowledge(p: Proc, ok: bool)
      requires Valid() && p in s.live && s.live[p].Acking?
      modifies this
      ensures Valid() && old(trace) <= trace && p in s.live && s.live[p].Idle?
      ensures Settled(s, old(s.live[p].id))
      ensures s.acked == if ok then old(s.acked) + {old(s.live[p].id)} else old(s.acked)
      ensures s.results == old(s.results)
    {
      DueForAck(p);
      ghost var before := s;
      Apply(Ack(p, ok));
      SettledStays(before, s, before.live[p].id);
    }

    /** The worker is the only one that holds the entry, it is pending under its name, and `exhausted` says
        exactly that it had been delivered three times before. */
    ghost predicate Claimed(p: Proc, id: nat, exhausted: bool)
      reads this
    {
      && Holds(s, p, id) && (forall q :: Holds(s, q, id) ==> q == p)
      && id in s.pending && s.pending[id].owner == p.consumer && s.pending[id].lastTouch == s.now
      && (exhausted <==> s.pending[id].deliveries > 3)
      && (if exhausted then s.live[p].Abandoning? else s.live[p].Running?)
    }

    /** The last thing the worker did was to give up its listing with no candidate left to claim. */
    ghost predicate TriedAll(p: Proc)
      reads this
    {
      && trace != [] && trace[|trace| - 1] == GiveUp(p)
      && var before := Run(env, INITIAL, trace[..|trace| - 1]);
         p in before.live && before.live[p].Listing? && before.live[p].candidates == []
    }

    /** XCLAIM of the next candidate, which has gone stale. */
    method Take(p: Proc) returns (msg: nat, exhausted: bool)
      requires Valid() && p in s.live && s.live[p].Listing? && s.live[p].candidates != []
      requires IsStale(s, s.live[p].candidates[0].id)
      modifies this
      ensures Valid() && old(trace) <= trace && p in s.live
      ensures msg == old(s.live[p].candidates[0].id) && Claimed(p, msg, exhausted)
    {
      var c := s.live[p].candidates[0];
      Facts();
      assert PhaseOK(env, s, s.live[p]);
      ListedCountIsCurrent(env, s, p);
      Apply(Claim(p, false));
      Facts();
      return c.id, c.retryCount >= MAX_DELIVERIES;
    }

    /** `claimStale`: lists stale entries, then tries to claim them one by one while the others interfere. The listing
        may fail, and `errorAt` is the candidate whose claim fails with a Redis error, if any. Undisturbed, it gets
        the first. */
    method ClaimStale(p: Proc, listed: bool, others: seq<seq<Event>>, errorAt: nat, landed: bool)
      returns (msg: Option<nat>, exhausted: bool)
      requires Valid() && p in s.live && s.live[p].Idle?
      requires forall i, j :: 0 <= i < |others| && 0 <= j < |others[i]| ==> !Concerns(others[i][j], p)
      modifies this
      ensures Valid() && old(trace) <= trace && p in s.live
      ensures msg.None? ==> s.live[p] == Reading && !exhausted
      ensures msg.Some? ==> Claimed(p, msg.value, exhausted)
      ensures msg.None? && listed && errorAt >= |ListedCandidates(old(s))| ==> TriedAll(p)
      ensures !listed ==> msg.None? && s == old(s).(live := old(s).live[p := Reading])
      ensures listed && others == [] && errorAt > 0 && ListedCandidates(old(s)) != [] ==>
                msg == Some(ListedCandidates(old(s))[0].id)
    {
      msg, exhausted := None, false;
      Apply(ListStale(p));
      if listed {
        msg, exhausted := TryCandidates(p, others, errorAt, landed);
      } else {
        Apply(GiveUp(p));
        assert old(s).live[p := Listing(ListedCandidates(old(s)), old(s).now)][p := Reading]
            == old(s).live[p := Reading];
      }
    }

    /** The loop of `claimStale`. */
    method TryCandidates(p: Proc, others: seq<seq<Event>>, errorAt: nat, landed: bool)
      returns (msg: Option<nat>, exhausted: bool)
      requires Valid() && p in s.live && s.live[p].Listing?
      requires forall i, j :: 0 <= i < |others| && 0 <= j < |others[i]| ==> !Concerns(others[i][j], p)
      modifies this
      ensures Valid() && old(trace) <= trace && p in s.live
      ensures msg.None? ==> s.live[p] == Reading && !exhausted
      ensures msg.Some? ==> Claimed(p, msg.value, exhausted)
      ensures msg.None? && errorAt >= |old(s.live[p].candidates)| ==> TriedAll(p)
      ensures var cs := old(s.live[p].candidates);
              others == [] && errorAt > 0 && cs != [] && IsStale(old(s), cs[0].id) ==> msg == Some(cs[0].id)
    {
      msg, exhausted := None, false;
      var pending := s.live[p].candidates;
      var listedAt := s.live[p].listedAt;
      for i := 0 to |pending|
        invariant Valid() && old(trace) <= trace && p in s.live && s.live[p] == Listing(pending[i..], listedAt)
        invariant i == 0 ==> s == old(s)
        invariant i > 0 && others == [] && errorAt > 0 ==> !IsStale(old(s), pending[0].id)
      {
        if i < |others| {
          Interfere(p, others[i]);
        }
        if i == errorAt {
          if landed && IsStale(s, pending[i].id) {
            Apply(Claim(p, true));
          } else {
            Apply(GiveUp(p));
          }
          return;
        }
        if IsStale(s, pending[i].id) {
          var claimed;
          claimed, exhausted := Take(p);
          return Some(claimed), exhausted;
        }
        Apply(Claim(p, false));
        assert pending[i..][1..] == pending[i + 1..];
      }
      ghost var tried := trace;
      Apply(GiveUp(p));
      assert trace[..|tried|] == tried;
    }

    /** `abandonJob`: one abandon message for the job, and nothing else in the stream. */
    method AbandonJob(p: Proc)
      requires Valid() && p in s.live && s.live[p].Abandoning?
      modifies this
      ensures Valid() && old(trace) <= trace && p in s.live && s.live[p].Acking? && s.live[p].id == old(s.live[p].id)
      ensures var id := s.live[p].id;
              && id < |s.jobs|
              && s.results
              == old(s.results) + [Logged(id, Messages.Abandoned(s.jobs[id].testID, s.jobs[id].jobID), false)]
    {
      Facts();
      assert PhaseOK(env, s, s.live[p]);
      Apply(ReportAbandoned(p));
    }

    /** The job of entry id reported this update, by a run that leases hold for. */
    ghost predicate Said(id: nat, u: ResultUpdate)
      reads this
    {
      id < |s.jobs| && Logged(id, Report(s.jobs[id].testID, s.jobs[id].jobID, u), false) in s.results
    }

    /** One renewal tick or metrics update, if it is possible. */
    method DoOne(p: Proc, e: Event)
      requires Valid() && p in s.live && s.live[p].Running? && (e.Renew? || e.Publish?) && e.p == p
      modifies this
      ensures Valid() && old(trace) <= trace && p in s.live && s.live[p].Running? && s.live[p].id == old(s.live[p].id)
      ensures s.jobs == old(s.jobs) && old(s.results) <= s.results
      ensures var id := s.live[p].id;
              id < |s.jobs| && (e.Publish? && !e.u.done && s.jobs[id].runnable ==> Said(id, e.u))
    {
      Facts();
      assert PhaseOK(env, s, s.live[p]);
      if Enabled(env, s, e) {
        StepLogs(env, s, e);
        Apply(e);
        if e.Publish? {
          assert s.results[|s.results| - 1] in s.results;
        }
      }
    }

    /** `runLeased`: renewal ticks and metrics updates in any order while the others interfere, then the final
        update. A job that does not parse or validate is rejected without a message. */
    method RunLeased(p: Proc, others: seq<Event>, own: seq<Event>, final: ResultUpdate)
      requires Valid() && p in s.live && s.live[p].Running? && final.done
      requires Foreign(others, p)
      requires forall i :: 0 <= i < |own| ==> own[i].Renew? || own[i].Publish?
      requires forall i :: 0 <= i < |own| ==> own[i].p == p
      modifies this
      ensures Valid() && old(trace) <= trace && p in s.live && s.live[p].Acking? && s.live[p].id == old(s.live[p].id)
      ensures Settled(s, s.live[p].id)
      ensures var id := s.live[p].id;
              s.jobs[id].runnable ==>
                && (forall i :: 0 <= i < |own| && own[i].Publish? && !own[i].u.done ==> Said(id, own[i].u))
                && s.results != []
                && s.results[|s.results| - 1] == Logged(id, Report(s.jobs[id].testID, s.jobs[id].jobID, final), false)
    {
      ghost var id := s.live[p].id;
      Facts();
      assert PhaseOK(env, s, s.live[p]);
      for i := 0 to |own|
        invariant Valid() && old(trace) <= trace && p in s.live && s.live[p].Running? && s.live[p].id == id < |s.jobs|
        invariant s.jobs[id].runnable ==>
                    forall k :: 0 <= k < i && own[k].Publish? && !own[k].u.done ==> Said(id, own[k].u)
      {
        if i < |others| {
          Interfere(p, [others[i]]);
        }
        DoOne(p, own[i]);
      }
      if |own| < |others| {
        Interfere(p, others[|own|..]);
      }
      EndRun(p, final);
    }

    /** The final update, or the silent rejection. */
    method EndRun(p: Proc, final: ResultUpdate)
      requires Valid() && p in s.live && s.live[p].Running? && final.done
      modifies this
      ensures Valid() && old(trace) <= trace && p in s.live && s.live[p].Acking? && s.live[p].id == old(s.live[p].id)
      ensures Settled(s, s.live[p].id) && s.jobs == old(s.jobs)
      ensures var id := s.live[p].id;
              s.results == old(s.results) +
                if s.jobs[id].runnable then [Logged(id, Report(s.jobs[id].testID, s.jobs[id].jobID, final), false)]
                else []
    {
      Facts();
      assert PhaseOK(env, s, s.live[p]);
      if s.jobs[s.live[p].id].runnable {
        Apply(Finish(p, final));
      } else {
        Apply(Reject(p));
      }
      DueForAck(p);
    }

    /** One pass of the worker's main loop: a stale job first, else a new one; run or abandon it, then ack. The
        others interfere before each of its Redis calls: during the claims and the run, and as `reading`,
        `abandoning` and `acking` say before those. A read whose reply is lost ends the pass.
        Whatever job the pass worked on has its last word in the results stream, and it is idle only if there is
        no new job either or the reply was lost. */
    method Pass(p: Proc, listed: bool, claiming: seq<seq<Event>>, errorAt: nat, landed: bool, reading: seq<Event>,
                replyLost: bool, abandoning: seq<Event>, running: seq<Event>, own: seq<Event>,
                final: ResultUpdate, acking: seq<Event>, ackOk: bool)
      returns (worked: Option<nat>)
      requires Valid() && p in s.live && s.live[p].Idle? && final.done
      requires forall i, j :: 0 <= i < |claiming| && 0 <= j < |claiming[i]| ==> !Concerns(claiming[i][j], p)
      requires Foreign(reading, p) && Foreign(abandoning, p) && Foreign(running, p) && Foreign(acking, p)
      requires forall i :: 0 <= i < |own| ==> own[i].Renew? || own[i].Publish?
      requires forall i :: 0 <= i < |own| ==> own[i].p == p
      modifies this
      ensures Valid() && old(trace) <= trace && p in s.live && s.live[p].Idle?
      ensures worked.Some? ==> Settled(s, worked.value) && (ackOk ==> worked.value in s.acked)
      ensures worked.None? && !replyLost ==> s.cursor >= |s.jobs|
      ensures listed && claiming == [] && errorAt > 0 && ListedCandidates(old(s)) != [] ==>
                worked == Some(ListedCandidates(old(s))[0].id)
    {
      var msg, exhausted := ClaimStale(p, listed, claiming, errorAt, landed);
      worked := msg;
      if msg.None? {
        Interfere(p, reading);
        if s.cursor >= |s.jobs| {
          Apply(ReadTimeout(p));
          return;
        }
        if replyLost {
          Apply(Deliver(p, true));
          return;
        }
        worked := Some(s.cursor);
        Apply(Deliver(p, false));
      }
      Work(p, exhausted, abandoning, running, own, final);
      Interfere(p, acking);
      Acknowledge(p, ackOk);
    }

    /** What is done with a job in hand. */
    method Work(p: Proc, exhausted: bool, abandoning: seq<Event>, running: seq<Event>, own: seq<Event>,
                final: ResultUpdate)
      requires Valid() && p in s.live && final.done
      requires if exhausted then s.live[p].Abandoning? else s.live[p].Running?
      requires Foreign(abandoning, p) && Foreign(running, p)
      requires forall i :: 0 <= i < |own| ==> own[i].Renew? || own[i].Publish?
      requires forall i :: 0 <= i < |own| ==> own[i].p == p
      modifies this
      ensures Valid() && old(trace) <= trace && p in s.live && s.live[p].Acking? && s.live[p].id == old(s.live[p].id)
    {
      if exhausted {
        Interfere(p, abandoning);
        AbandonJob(p);
      } else {
        RunLeased(p, running, own, final);
      }
    }
  }
}
