/** The lease, reclaim and abandon protocol (worker/reclaim.go, worker/main.go) as steps over the Redis
    consumer group, with every worker's place in its main loop. Times are in milliseconds.

    Workers are crash-stop: a process stops for good and another one may start under the same consumer name. The
    ticker that publishes a run's metrics is told to stop before the final update but not waited for, so it may
    linger and publish after it, for as long as its process lives. */
module Lease {
  import opened Messages

  const LEASE_RENEW_INTERVAL: nat := 10_000
  const STALE_JOB_AFTER: nat := 45_000
  const MAX_DELIVERIES: nat := 3
  const LIST_COUNT: nat := 10

  /** One process. Processes may share a consumer name (WORKER_ID). */
  datatype Proc = Proc(consumer: string, incarnation: nat)

  /** A row of the group's pending entries list. */
  datatype Delivery = Delivery(owner: string, lastTouch: nat, deliveries: nat)

  /** An entry listed by XPENDING, with the delivery count it had then. */
  datatype Candidate = Candidate(id: nat, retryCount: nat)

  /** Where a process is in its main loop. */
  datatype Phase =
    | Idle
    | Listing(candidates: seq<Candidate>, listedAt: nat)
    | Reading
    | Running(id: nat, nextTick: nat, failures: nat)
    | Abandoning(id: nat, since: nat)
    | Acking(id: nat, since: nat)

  /** A message of the results stream, and the entry it is about. `late` marks an update by a metrics ticker that
      outlived the final update of its run. */
  datatype Logged = Logged(entry: nat, msg: Message, late: bool)

  /** The metrics ticker of one process's run of an entry. */
  datatype Ticker = Ticker(p: Proc, id: nat)

  datatype State = State(
    now: nat,
    jobs: seq<Job>,
    cursor: nat,
    pending: map<nat, Delivery>,
    acked: set<nat>,
    results: seq<Logged>,
    live: map<Proc, Phase>,
    crashed: set<Proc>,
    started: multiset<nat>,
    lingering: set<Ticker>)

  const INITIAL: State := State(0, [], 0, map[], {}, [], map[], {}, multiset{}, {})

  /** What is assumed of a live worker: how late a renewal tick fires, how many renewals in a row may fail,
      how long claiming takes after listing, and how long abandoning and acking take. */
  datatype Env = Env(jitter: nat, maxFailures: nat, listGrace: nat, ackGrace: nat)

  /** A live worker is through with an entry before the entry looks stale. */
  ghost predicate Prompt(env: Env) {
    (env.maxFailures + 1) * LEASE_RENEW_INTERVAL + env.jitter + env.ackGrace < STALE_JOB_AFTER
  }

  /** The assumptions the protocol's constants are chosen for. */
  ghost predicate Tolerable(env: Env) {
    Prompt(env) && env.listGrace < STALE_JOB_AFTER
  }

  datatype Event =
    | Enqueue(job: Job)
    | Start(p: Proc)
    | Crash(p: Proc)
    | ListStale(p: Proc)
    | Claim(p: Proc, replyLost: bool)
    | GiveUp(p: Proc)
    | Deliver(p: Proc, replyLost: bool)
    | ReadTimeout(p: Proc)
    | Renew(p: Proc, ok: bool)
    | Publish(p: Proc, u: ResultUpdate)
    | Finish(p: Proc, u: ResultUpdate)
    | Reject(p: Proc)
    | ReportAbandoned(p: Proc)
    | Ack(p: Proc, ok: bool)
    | LateTick(p: Proc, id: nat, u: ResultUpdate)
    | TickerStops(p: Proc, id: nat)
    | Advance(dt: nat)

  predicate IsStale(s: State, id: nat) {
    id in s.pending && s.pending[id].lastTouch + STALE_JOB_AFTER <= s.now
  }

  /** XPENDING with an idle filter: the stale entries below id n, in id order. */
  function StaleBelow(s: State, n: nat): (cs: seq<Candidate>)
    ensures forall i :: 0 <= i < |cs| ==>
              cs[i].id < n && IsStale(s, cs[i].id) && cs[i].retryCount == s.pending[cs[i].id].deliveries
  {
    if n == 0 then []
    else StaleBelow(s, n - 1) + if IsStale(s, n - 1) then [Candidate(n - 1, s.pending[n - 1].deliveries)] else []
  }

  function ListedCandidates(s: State): (cs: seq<Candidate>)
    ensures forall i :: 0 <= i < |cs| ==>
              cs[i].id < s.cursor && IsStale(s, cs[i].id) && cs[i].retryCount == s.pending[cs[i].id].deliveries
  {
    var all := StaleBelow(s, s.cursor);
    if |all| <= LIST_COUNT then all else all[..LIST_COUNT]
  }

  predicate InPhase(s: State, p: Proc, check: Phase -> bool) {
    p in s.live && check(s.live[p])
  }

  /** Time may not pass a live worker's deadline. */
  predicate Punctual(env: Env, phase: Phase, now: nat) {
    match phase
    case Running(_, nextTick, _) => now <= nextTick + env.jitter
    case Listing(_, listedAt) => now <= listedAt + env.listGrace
    case Abandoning(_, since) => now <= since + env.ackGrace
    case Acking(_, since) => now <= since + env.ackGrace
    case _ => true
  }

  predicate Enabled(env: Env, s: State, e: Event) {
    match e
    case Enqueue(_) => true
    case Start(p) => p !in s.live && p !in s.crashed
    case Crash(p) => p in s.live
    case ListStale(p) => InPhase(s, p, (ph: Phase) => ph.Idle?)
    case Claim(p, _) => InPhase(s, p, (ph: Phase) => ph.Listing? && ph.candidates != [])
    case GiveUp(p) => InPhase(s, p, (ph: Phase) => ph.Listing?)
    case Deliver(p, _) => InPhase(s, p, (ph: Phase) => ph.Reading?) && s.cursor < |s.jobs|
    case ReadTimeout(p) => InPhase(s, p, (ph: Phase) => ph.Reading?)
    case Renew(p, ok) =>
      InPhase(s, p, (ph: Phase) => ph.Running? && ph.nextTick <= s.now && (ok || ph.failures < env.maxFailures))
    case Publish(p, u) =>
      InPhase(s, p, (ph: Phase) => ph.Running? && ph.id < |s.jobs| && s.jobs[ph.id].runnable) && !u.done
    case Finish(p, u) =>
      InPhase(s, p, (ph: Phase) => ph.Running? && ph.id < |s.jobs| && s.jobs[ph.id].runnable) && u.done
    case Reject(p) =>
      InPhase(s, p, (ph: Phase) => ph.Running? && ph.id < |s.jobs| && !s.jobs[ph.id].runnable)
    case ReportAbandoned(p) => InPhase(s, p, (ph: Phase) => ph.Abandoning? && ph.id < |s.jobs|)
    case Ack(p, _) => InPhase(s, p, (ph: Phase) => ph.Acking?)
    case LateTick(p, id, u) => p in s.live && Ticker(p, id) in s.lingering && id < |s.jobs| && !u.done
    case TickerStops(p, id) => Ticker(p, id) in s.lingering
    case Advance(dt) => forall p | p in s.live :: Punctual(env, s.live[p], s.now + dt)
  }

  function Enter(s: State, p: Proc, phase: Phase): State {
    s.(live := s.live[p := phase])
  }

  /** A runnable delivery: the worker starts the job and its renewal ticker. */
  function Begin(s: State, p: Proc, id: nat): State {
    Enter(s, p, Running(id, s.now + LEASE_RENEW_INTERVAL, 0)).(started := s.started + multiset{id})
  }

  function Touch(s: State, p: Proc, id: nat, more: nat): State
    requires id in s.pending
  {
    s.(pending := s.pending[id := Delivery(p.consumer, s.now, s.pending[id].deliveries + more)])
  }

  function Log(s: State, id: nat, m: Message): State {
    s.(results := s.results + [Logged(id, m, false)])
  }

  function LogLate(s: State, id: nat, m: Message): State {
    s.(results := s.results + [Logged(id, m, true)])
  }

  function ClaimStep(s: State, p: Proc, cs: seq<Candidate>, listedAt: nat, replyLost: bool): State
    requires cs != []
  {
    var c := cs[0];
    if !IsStale(s, c.id) then Enter(s, p, Listing(cs[1..], listedAt))
    else
      var s' := Touch(s, p, c.id, 1);
      if replyLost then Enter(s', p, Reading)
      else if c.retryCount >= MAX_DELIVERIES then Enter(s', p, Abandoning(c.id, s.now))
      else Begin(s', p, c.id)
  }

  function DeliverStep(s: State, p: Proc, replyLost: bool): State {
    var id := s.cursor;
    var s' := s.(cursor := id + 1, pending := s.pending[id := Delivery(p.consumer, s.now, 1)]);
    if replyLost then Enter(s', p, Idle) else Begin(s', p, id)
  }

  function RenewStep(s: State, p: Proc, phase: Phase, ok: bool): State
    requires phase.Running?
  {
    var next := phase.nextTick + LEASE_RENEW_INTERVAL;
    if !ok then Enter(s, p, Running(phase.id, next, phase.failures + 1))
    else
      var s' := if phase.id in s.pending then Touch(s, p, phase.id, 0) else s;
      Enter(s', p, Running(phase.id, next, 0))
  }

  function Step(env: Env, s: State, e: Event): State
    requires Enabled(env, s, e)
  {
    match e
    case Enqueue(job) => s.(jobs := s.jobs + [job])
    case Start(p) => Enter(s, p, Idle)
    case Crash(p) => s.(live := s.live - {p}, crashed := s.crashed + {p})
    case ListStale(p) => Enter(s, p, Listing(ListedCandidates(s), s.now))
    case Claim(p, replyLost) => ClaimStep(s, p, s.live[p].candidates, s.live[p].listedAt, replyLost)
    case GiveUp(p) => Enter(s, p, Reading)
    case Deliver(p, replyLost) => DeliverStep(s, p, replyLost)
    case ReadTimeout(p) => Enter(s, p, Idle)
    case Renew(p, ok) => RenewStep(s, p, s.live[p], ok)
    case Publish(p, u) =>
      var id := s.live[p].id;
      Log(s, id, Report(s.jobs[id].testID, s.jobs[id].jobID, u))
    case Finish(p, u) =>
      var id := s.live[p].id;
      Enter(Log(s, id, Report(s.jobs[id].testID, s.jobs[id].jobID, u)), p, Acking(id, s.now))
        .(lingering := s.lingering + {Ticker(p, id)})
    case Reject(p) => Enter(s, p, Acking(s.live[p].id, s.now))
    case ReportAbandoned(p) =>
      var id := s.live[p].id;
      Enter(Log(s, id, Messages.Abandoned(s.jobs[id].testID, s.jobs[id].jobID)), p, Acking(id, s.live[p].since))
    case Ack(p, ok) =>
      var id := s.live[p].id;
      var s' := if ok && id in s.pending then s.(pending := s.pending - {id}, acked := s.acked + {id}) else s;
      Enter(s', p, Idle)
    case LateTick(_, id, u) => LogLate(s, id, Report(s.jobs[id].testID, s.jobs[id].jobID, u))
    case TickerStops(p, id) => s.(lingering := s.lingering - {Ticker(p, id)})
    case Advance(dt) => s.(now := s.now + dt)
  }

  /** A run: events that are not possible where they occur do nothing, so every sequence of events is a run. */
  function Run(env: Env, s: State, es: seq<Event>): State {
    if es == [] then s
    else
      var s' := Run(env, s, es[..|es| - 1]);
      var e := es[|es| - 1];
      if Enabled(env, s', e) then Step(env, s', e) else s'
  }

  /** The entry a live process is responsible for. */
  ghost predicate Holds(s: State, p: Proc, id: nat) {
    p in s.live &&
    match s.live[p]
    case Running(i, _, _) => i == id
    case Abandoning(i, _) => i == id
    case Acking(i, _) => i == id
    case _ => false
  }
}
