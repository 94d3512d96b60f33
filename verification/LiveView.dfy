/** The live view of one test (coordinator/live.go): subscribe, look again, then stream. */
module LiveView {
  import opened Wrappers
  import opened Messages
  import opened TestLog
  import opened Snapshots
  import opened Subscribers
  import opened TestStores
  import opened OtherHandlers

  datatype Outcome = NotFound | Finished | WriteFailed | ClientClosed

  /** What a viewer of test `id` has been sent, and what happened on its channel, when n messages were applied.
      The viewer subscribed after `joined` of them and looked again after `looked`, seeing `first`. */
  ghost predicate Watching(id: string, pushes: seq<Push>, joined: nat, looked: nat, n: nat, first: TestSnapshot,
                           sent: seq<TestSnapshot>, events: seq<ChannelEvent>) {
    && joined <= looked <= n <= |pushes|
    && sent == [first] + Reads(events)
    && Offers(events) == PushedFor(pushes, id, joined, n)
  }

  lemma StartWatching(id: string, pushes: seq<Push>, joined: nat, looked: nat, first: TestSnapshot)
    requires joined <= looked <= |pushes|
    ensures Watching(id, pushes, joined, looked, looked, first, [first],
                     AsOffers(PushedFor(pushes, id, joined, looked)))
  {
    var offered := PushedFor(pushes, id, joined, looked);
    OffersConcat([], offered);
    OffersAreNotReads([], offered);
    assert [] + AsOffers(offered) == AsOffers(offered);
  }

  /** More messages are applied, and then the handler receives from its channel. */
  lemma KeepWatching(id: string, pushes: seq<Push>, joined: nat, looked: nat, n: nat, next: nat, first: TestSnapshot,
                     sent: seq<TestSnapshot>, events: seq<ChannelEvent>)
    requires Watching(id, pushes, joined, looked, n, first, sent, events) && n <= next <= |pushes|
    ensures var offered := events + AsOffers(PushedFor(pushes, id, n, next));
            var snap := Front(History(offered).queued);
            Watching(id, pushes, joined, looked, next, first,
                     sent + if snap.Some? then [snap.value] else [], offered + [Taken])
  {
    var offered := events + AsOffers(PushedFor(pushes, id, n, next));
    PushedForConcat(pushes, id, joined, n, next);
    OffersConcat(events, PushedFor(pushes, id, n, next));
    OffersAreNotReads(events, PushedFor(pushes, id, n, next));
    HistoryNext(offered, Taken);
    ReadsNext(offered, Taken);
  }

  predicate Visible(tests: Tests, id: string, userID: string) {
    id in tests && tests[id].ownerID == userID
  }

  /** The handler's subscription is open and is what the viewer watches; n messages have been applied. */
  ghost predicate Serving(store: TestStore, c: Subscription, id: string, origin: Tests, ms: seq<Message>,
                          pushes: seq<Push>, joined: nat, looked: nat, n: nat, first: TestSnapshot,
                          sent: seq<TestSnapshot>)
    reads store, store.subscribers, store.subscribers.views.Keys, store.contents.Keys
  {
    var views := store.subscribers.views;
    && store.Valid() && n <= |ms| && UpTo(store.model, id, origin, ms, n)
    && c in views && views[c].testID == id && !views[c].closed
    && Watching(id, pushes, joined, looked, n, first, sent, views[c].events)
  }

  /** One turn of the select loop: messages a up to b are applied, then the handler receives from its channel. */
  method Turn(store: TestStore, c: Subscription, id: string, ms: seq<Message>, a: nat, b: nat,
              others: seq<seq<Deed>>, first: TestSnapshot, sent: seq<TestSnapshot>, ghost origin: Tests,
              ghost pushes: seq<Push>, ghost joined: nat, ghost looked: nat)
    returns (more: Option<TestSnapshot>)
    requires a <= b <= |ms| == |others| && PushesOf(origin, ms, pushes) && AllSpare(others, id)
    requires Serving(store, c, id, origin, ms, pushes, joined, looked, a, first, sent)
    modifies store, store.subscribers, store.subscribers.views.Keys
    ensures forall d :: d in store.subscribers.views && d !in old(store.subscribers.views) ==> fresh(d)
    ensures Quiet(others) ==> store.subscribers.open == old(store.subscribers.open)
    ensures Quiet(others) && old(store.model) == AfterAll(origin, ms, a) ==> store.model == AfterAll(origin, ms, b)
    ensures Serving(store, c, id, origin, ms, pushes, joined, looked, b, first,
                    sent + if more.Some? then [more.value] else [])
  {
    ghost var before := store.subscribers.views;
    Meanwhile(store, c, id, ms, a, b, others, origin, pushes);
    KeepWatching(id, pushes, joined, looked, a, b, first, sent, before[c].events);
    more := store.Receive(c);
  }

  /** The handler has gone; what the viewer was sent is what `Watching` says. */
  ghost predicate Served(store: TestStore, c: Subscription, id: string, origin: Tests, ms: seq<Message>,
                         pushes: seq<Push>, joined: nat, looked: nat, n: nat, sent: seq<TestSnapshot>)
    reads store.subscribers
  {
    var views := store.subscribers.views;
    && joined <= looked <= n <= |ms| && id in AfterAll(origin, ms, looked)
    && c in views && views[c].closed
    && Watching(id, pushes, joined, looked, n, SnapshotOf(id, AfterAll(origin, ms, looked)[id]), sent, views[c].events)
  }

  /** Subscribes, and then more messages are applied. */
  method Join(store: TestStore, id: string, ms: seq<Message>, joined: nat, looked: nat, others: seq<seq<Deed>>,
              ghost origin: Tests, ghost pushes: seq<Push>) returns (c: Subscription)
    requires store.Valid() && joined <= looked <= |ms| == |others| && PushesOf(origin, ms, pushes)
    requires AllSpare(others, id) && UpTo(store.model, id, origin, ms, joined)
    modifies store, store.subscribers, store.subscribers.views.Keys
    ensures fresh(c)
    ensures forall d :: d in store.subscribers.views && d !in old(store.subscribers.views) ==> fresh(d)
    ensures store.Valid() && UpTo(store.model, id, origin, ms, looked) && c in store.subscribers.views
    ensures store.subscribers.views[c] == View(id, false, AsOffers(PushedFor(pushes, id, joined, looked)))
    ensures Quiet(others) ==> store.subscribers.open == old(store.subscribers.open) + {c}
    ensures Quiet(others) && old(store.model) == AfterAll(origin, ms, joined) ==>
              store.model == AfterAll(origin, ms, looked)
  {
    c := store.Subscribe(id);
    Meanwhile(store, c, id, ms, joined, looked, others, origin, pushes);
    NothingBefore(PushedFor(pushes, id, joined, looked));
  }

  lemma NothingBefore(snaps: seq<TestSnapshot>)
    ensures [] + AsOffers(snaps) == AsOffers(snaps)
  {
  }

  predicate NoneDone(sent: seq<TestSnapshot>) {
    forall s :: s in sent ==> !s.done
  }

  /** How the handler ends: after the write that fails, after a done snapshot, or when the client has gone; it
      goes on after every other write and through every turn. */
  predicate Ended(outcome: Outcome, sent: seq<TestSnapshot>, broken: nat, n: nat, looked: nat, turns: seq<nat>) {
    && 0 < |sent| <= broken + 1 && NoneDone(sent[..|sent| - 1])
    && outcome == (if |sent| == broken + 1 then WriteFailed
                   else if sent[|sent| - 1].done then Finished
                   else ClientClosed)
    && (outcome == ClientClosed ==> n == LastTurn(looked, turns))
  }

  function LastTurn(looked: nat, turns: seq<nat>): nat {
    if turns == [] then looked else turns[|turns| - 1]
  }

  predicate InOrder(turns: seq<nat>, low: nat, high: nat) {
    && (forall k :: 0 <= k < |turns| ==> low <= turns[k] <= high)
    && forall j, k :: 0 <= j < k < |turns| ==> turns[j] <= turns[k]
  }

  /** The select loop: `turns[k]` messages have been applied when the handler waits for the k-th time. When the
      turns run out, the client has gone. The write of the snapshot number `broken` fails. */
  method Stream(store: TestStore, c: Subscription, id: string, ms: seq<Message>, looked: nat, turns: seq<nat>,
                others: seq<seq<Deed>>, first: TestSnapshot, broken: nat, ghost origin: Tests,
                ghost pushes: seq<Push>, ghost joined: nat)
    returns (outcome: Outcome, sent: seq<TestSnapshot>, n: nat)
    requires PushesOf(origin, ms, pushes) && !first.done && broken > 0 && |others| == |ms| && AllSpare(others, id)
    requires Serving(store, c, id, origin, ms, pushes, joined, looked, looked, first, [first])
    requires InOrder(turns, looked, |ms|)
    modifies store, store.subscribers, store.subscribers.views.Keys
    ensures forall d :: d in store.subscribers.views && d !in old(store.subscribers.views) ==> fresh(d)
    ensures Serving(store, c, id, origin, ms, pushes, joined, looked, n, first, sent)
    ensures Ended(outcome, sent, broken, n, looked, turns)
    ensures Quiet(others) ==> store.subscribers.open == old(store.subscribers.open)
    ensures Quiet(others) && old(store.model) == AfterAll(origin, ms, looked) ==> store.model == AfterAll(origin, ms, n)
  {
    sent, n := [first], looked;
    for k := 0 to |turns|
      invariant forall d :: d in store.subscribers.views && d !in old(store.subscribers.views) ==> fresh(d)
      invariant n == LastTurn(looked, turns[..k]) && forall j :: k <= j < |turns| ==> n <= turns[j]
      invariant Serving(store, c, id, origin, ms, pushes, joined, looked, n, first, sent)
      invariant 0 < |sent| <= broken && NoneDone(sent)
      invariant Quiet(others) ==> store.subscribers.open == old(store.subscribers.open)
      invariant Quiet(others) && old(store.model) == AfterAll(origin, ms, looked) ==>
                store.model == AfterAll(origin, ms, n)
    {
      var more := Turn(store, c, id, ms, n, turns[k], others, first, sent, origin, pushes, joined, looked);
      n := turns[k];
      assert turns[..k + 1][k] == n;
      if more.Some? {
        sent := sent + [more.value];
        if |sent| == broken + 1 {
          return WriteFailed, sent, n;
        }
        if more.value.done {
          return Finished, sent, n;
        }
      }
    }
    assert turns[..|turns|] == turns;
    return ClientClosed, sent, n;
  }

  /** Looks again, and streams unless the test is done already or the write fails. */
  method Follow(store: TestStore, c: Subscription, id: string, userID: string, ms: seq<Message>, looked: nat,
                turns: seq<nat>, others: seq<seq<Deed>>, broken: nat, ghost origin: Tests, ghost pushes: seq<Push>,
                ghost joined: nat)
    returns (outcome: Outcome, sent: seq<TestSnapshot>, n: nat)
    requires store.Valid() && Visible(origin, id, userID) && |others| == |ms| && AllSpare(others, id)
    requires joined <= looked <= |ms| && PushesOf(origin, ms, pushes) && InOrder(turns, looked, |ms|)
    requires c in store.subscribers.views && UpTo(store.model, id, origin, ms, looked)
    requires store.subscribers.views[c] == View(id, false, AsOffers(PushedFor(pushes, id, joined, looked)))
    modifies store, store.subscribers, store.subscribers.views.Keys
    ensures id in AfterAll(origin, ms, looked)
    ensures Serving(store, c, id, origin, ms, pushes, joined, looked, n,
                    SnapshotOf(id, AfterAll(origin, ms, looked)[id]), sent)
    ensures Ended(outcome, sent, broken, n, looked, turns)
    ensures forall d :: d in store.subscribers.views && d !in old(store.subscribers.views) ==> fresh(d)
    ensures Quiet(others) ==> store.subscribers.open == old(store.subscribers.open)
    ensures Quiet(others) && old(store.model) == AfterAll(origin, ms, looked) ==> store.model == AfterAll(origin, ms, n)
  {
    OwnersStay(origin, ms, looked);
    StartWatching(id, pushes, joined, looked, SnapshotOf(id, store.model[id]));
    var initial := store.Snapshot(id, userID);
    sent, n := [initial.value], looked;
    if broken == 0 {
      return WriteFailed, sent, n;
    }
    outcome := Finished;
    if !initial.value.done {
      outcome, sent, n :=
        Stream(store, c, id, ms, looked, turns, others, initial.value, broken, origin, pushes, joined);
    }
  }

  /** The deferred unsubscribe. */
  method Leave(store: TestStore, c: Subscription, id: string, ghost ms: seq<Message>, ghost origin: Tests,
               ghost pushes: seq<Push>, ghost joined: nat, ghost looked: nat, ghost n: nat,
               ghost sent: seq<TestSnapshot>)
    requires looked <= |ms| && id in AfterAll(origin, ms, looked)
    requires Serving(store, c, id, origin, ms, pushes, joined, looked, n,
                     SnapshotOf(id, AfterAll(origin, ms, looked)[id]), sent)
    modifies store.subscribers, c
    ensures store.Valid() && n <= |ms| && store.model == old(store.model)
    ensures Served(store, c, id, origin, ms, pushes, joined, looked, n, sent)
    ensures store.subscribers.open == old(store.subscribers.open) - {c}
  {
    store.Unsubscribe(c);
  }

  lemma AddAndRemove(open: set<Subscription>, c: Subscription)
    requires c !in open
    ensures open + {c} - {c} == open
  {
  }

  /** The handler from the upgrade to its end. */
  method Attend(store: TestStore, id: string, userID: string, ms: seq<Message>, joined: nat, looked: nat,
                turns: seq<nat>, others: seq<seq<Deed>>, broken: nat, ghost pushes: seq<Push>)
    returns (outcome: Outcome, sent: seq<TestSnapshot>, n: nat, ghost c: Subscription)
    requires store.Valid() && joined <= looked <= |ms| == |others| && PushesOf(store.model, ms, pushes)
    requires InOrder(turns, looked, |ms|) && Visible(store.model, id, userID) && AllSpare(others, id)
    modifies store, store.subscribers, store.subscribers.views.Keys
    ensures store.Valid() && n <= |ms| && UpTo(store.model, id, old(store.model), ms, n)
    ensures Served(store, c, id, old(store.model), ms, pushes, joined, looked, n, sent)
    ensures Ended(outcome, sent, broken, n, looked, turns)
    ensures c !in store.subscribers.open
    ensures Quiet(others) ==>
              store.model == AfterAll(old(store.model), ms, n) && store.subscribers.open == old(store.subscribers.open)
  {
    ghost var origin := store.model;
    Meanwhile(store, null, id, ms, 0, joined, others, origin, pushes);
    ghost var open := store.subscribers.open;
    var updates := Join(store, id, ms, joined, looked, others, origin, pushes);
    AddAndRemove(open, updates);
    outcome, sent, n := Follow(store, updates, id, userID, ms, looked, turns, others, broken, origin, pushes, joined);
    Leave(store, updates, id, ms, origin, pushes, joined, looked, n, sent);
    c := updates;
  }

  /** `handleTestLive` once the user is known. While it runs, the watcher goes on applying messages: `joined` of
      them before it subscribes, `looked` before it looks again, `turns[k]` before it waits for the k-th time; and
      before each message i other handlers do what `others[i]` says. `sent` lists what it writes; the write number
      `broken` fails, if it gets that far. */
  method HandleTestLive(store: TestStore, id: string, userID: string, ms: seq<Message>, joined: nat, looked: nat,
                        turns: seq<nat>, others: seq<seq<Deed>>, broken: nat)
    returns (outcome: Outcome, sent: seq<TestSnapshot>, n: nat, ghost c: Option<Subscription>, ghost pushes: seq<Push>)
    requires store.Valid() && joined <= looked <= |ms| == |others| && InOrder(turns, looked, |ms|)
    requires AllSpare(others, id)
    modifies store, store.subscribers, store.subscribers.views.Keys
    ensures store.Valid() && n <= |ms| && PushesOf(old(store.model), ms, pushes)
    ensures outcome == NotFound <==> !Visible(old(store.model), id, userID)
    ensures outcome == NotFound ==> sent == [] && c.None? && n == 0
    ensures outcome != NotFound ==>
              && c.Some? && Served(store, c.value, id, old(store.model), ms, pushes, joined, looked, n, sent)
              && Ended(outcome, sent, broken, n, looked, turns) && c.value !in store.subscribers.open
              && UpTo(store.model, id, old(store.model), ms, n)
    ensures outcome == NotFound || Quiet(others) ==>
              store.model == AfterAll(old(store.model), ms, n) && store.subscribers.open == old(store.subscribers.open)
  {
    pushes := SomePushes(store.model, ms);
    var initial := store.Snapshot(id, userID);
    if initial.None? {
      return NotFound, [], 0, None, pushes;
    }
    ghost var updates;
    outcome, sent, n, updates := Attend(store, id, userID, ms, joined, looked, turns, others, broken, pushes);
    c := Some(updates);
  }
}
