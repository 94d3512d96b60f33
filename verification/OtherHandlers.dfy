/** What goes on in the coordinator while one handler of the live view is at work: the watcher applies messages, and
    other handlers register tests, subscribe, read and unsubscribe (coordinator/teststore.go). */
module OtherHandlers {
  import opened Wrappers
  import opened Messages
  import opened TestLog
  import opened Snapshots
  import opened Subscribers
  import opened TestStores

  /** The test stands as the first n messages left it. */
  ghost predicate UpTo(model: Tests, id: string, origin: Tests, ms: seq<Message>, n: nat)
    requires n <= |ms|
  {
    id in model && id in AfterAll(origin, ms, n) && model[id] == AfterAll(origin, ms, n)[id]
  }

  /** What another handler does: it registers a test, subscribes, ends the k-th open subscription of a test, or
      receives from it. */
  datatype Deed =
    | Registering(testID: string, ownerID: string, url: string, jobIDs: seq<string>, at: nat)
    | Joining(testID: string)
    | Leaving(testID: string, k: nat)
    | Reading(testID: string, k: nat)

  /** Test IDs are fresh: nobody registers this one again. */
  predicate Spares(deeds: seq<Deed>, id: string) {
    forall d :: d in deeds && d.Registering? ==> d.testID != id
  }

  predicate AllSpare(others: seq<seq<Deed>>, id: string) {
    forall i :: 0 <= i < |others| ==> Spares(others[i], id)
  }

  predicate Quiet(others: seq<seq<Deed>>) {
    forall i :: 0 <= i < |others| ==> others[i] == []
  }

  /** Another handler's subscription, if there is one in that place. */
  method Someone(store: TestStore, c: Subscription?, testID: string, k: nat) returns (d: Subscription?)
    requires store.Valid()
    ensures d != null ==> d != c && d in store.subscribers.views
  {
    var registry := store.subscribers;
    var subs := ListIn(registry.lists, testID);
    ListMembers(registry.lists, registry.issued, registry.open, registry.views, testID);
    d := null;
    if k < |subs| && subs[k] != c {
      d := subs[k];
    }
  }

  /** One deed leaves the test, and the channel that is watched, alone. */
  method Perform(store: TestStore, c: Subscription?, id: string, deed: Deed)
    requires store.Valid() && id in store.model && (c != null ==> c in store.subscribers.views)
    requires deed.Registering? ==> deed.testID != id
    modifies store, store.subscribers, store.subscribers.views.Keys
    ensures store.Valid() && id in store.model && store.model[id] == old(store.model)[id]
    ensures forall d :: d in store.subscribers.views && d !in old(store.subscribers.views) ==> fresh(d)
    ensures c != null ==> c in store.subscribers.views && store.subscribers.views[c] == old(store.subscribers.views)[c]
  {
    match deed {
      case Registering(testID, ownerID, url, jobIDs, at) => store.Register(testID, ownerID, url, jobIDs, at);
      case Joining(testID) => var _ := store.Subscribe(testID);
      case Leaving(testID, k) =>
        var d := Someone(store, c, testID, k);
        if d != null {
          store.Unsubscribe(d);
        }
      case Reading(testID, k) =>
        var d := Someone(store, c, testID, k);
        if d != null {
          var _ := store.Receive(d);
        }
    }
  }

  method PerformAll(store: TestStore, c: Subscription?, id: string, deeds: seq<Deed>)
    requires store.Valid() && id in store.model && (c != null ==> c in store.subscribers.views)
    requires Spares(deeds, id)
    modifies store, store.subscribers, store.subscribers.views.Keys
    ensures store.Valid() && id in store.model && store.model[id] == old(store.model)[id]
    ensures forall d :: d in store.subscribers.views && d !in old(store.subscribers.views) ==> fresh(d)
    ensures c != null ==> c in store.subscribers.views && store.subscribers.views[c] == old(store.subscribers.views)[c]
    ensures deeds == [] ==> store.model == old(store.model) && store.subscribers.open == old(store.subscribers.open)
  {
    for i := 0 to |deeds|
      invariant store.Valid() && id in store.model && store.model[id] == old(store.model)[id]
      invariant forall d :: d in store.subscribers.views && d !in old(store.subscribers.views) ==> fresh(d)
      invariant c != null ==>
                  c in store.subscribers.views && store.subscribers.views[c] == old(store.subscribers.views)[c]
      invariant i == 0 ==> store.model == old(store.model) && store.subscribers.open == old(store.subscribers.open)
    {
      Perform(store, c, id, deeds[i]);
    }
  }

  /** A message does to one test what it does to it among others. */
  lemma SameForTest(model: Tests, tests: Tests, id: string, m: Message)
    requires id in model && id in tests && model[id] == tests[id]
    ensures id in AfterMessage(model, m) && id in AfterMessage(tests, m)
    ensures AfterMessage(model, m)[id] == AfterMessage(tests, m)[id]
    ensures m.testID == id ==> PushOf(model, m) == PushOf(tests, m)
  {
  }

  /** What a channel was offered since it had the given view. */
  ghost predicate WasOffered(views: Views, c: Subscription?, before: Views, snaps: seq<TestSnapshot>) {
    c != null ==> c in views && c in before && views[c] == before[c].(events := before[c].events + AsOffers(snaps))
  }

  /** What one message adds to the offers of a channel of the test. */
  ghost function OfferedBy(model: Tests, m: Message, id: string): seq<TestSnapshot> {
    var push := PushOf(model, m);
    if push.Some? && m.testID == id then [push.value] else []
  }

  /** The other handlers do what they do, and then one message is applied. */
  method OneMessage(store: TestStore, c: Subscription?, id: string, m: Message, deeds: seq<Deed>)
    requires store.Valid() && id in store.model && Spares(deeds, id) && Watched(store.subscribers.views, c, id)
    modifies store, store.subscribers, store.subscribers.views.Keys
    ensures store.Valid() && id in store.model && id in AfterMessage(old(store.model), m)
    ensures store.model[id] == AfterMessage(old(store.model), m)[id]
    ensures forall d :: d in store.subscribers.views && d !in old(store.subscribers.views) ==> fresh(d)
    ensures WasOffered(store.subscribers.views, c, old(store.subscribers.views), OfferedBy(old(store.model), m, id))
    ensures deeds == [] ==>
              store.model == AfterMessage(old(store.model), m) && store.subscribers.open == old(store.subscribers.open)
  {
    PerformAll(store, c, id, deeds);
    ghost var views, model := store.subscribers.views, store.model;
    SameForTest(model, old(store.model), id, m);
    var _ := store.Route(m);
    if c != null {
      TellOne(views, m.testID, PushOf(model, m), c);
    }
  }

  /** The channel, if there is one, is an open one of this test. */
  ghost predicate Watched(views: Views, c: Subscription?, id: string) {
    c != null ==> c in views && views[c].testID == id && !views[c].closed
  }

  /** Where the test and its channel are when messages a up to i have been applied. */
  ghost predicate Progress(model: Tests, views: Views, before: Views, c: Subscription?, id: string, origin: Tests,
                           ms: seq<Message>, pushes: seq<Push>, a: nat, i: nat) {
    && a <= i <= |ms| == |pushes|
    && UpTo(model, id, origin, ms, i)
    && WasOffered(views, c, before, PushedFor(pushes, id, a, i))
  }

  lemma ProgressNext(model: Tests, views: Views, model': Tests, views': Views, before: Views, c: Subscription?,
                     id: string, origin: Tests, ms: seq<Message>, pushes: seq<Push>, a: nat, i: nat)
    requires i < |ms| && PushesOf(origin, ms, pushes)
    requires Progress(model, views, before, c, id, origin, ms, pushes, a, i)
    requires id in model' && id in AfterMessage(model, ms[i]) && model'[id] == AfterMessage(model, ms[i])[id]
    requires WasOffered(views', c, views, OfferedBy(model, ms[i], id))
    ensures Progress(model', views', before, c, id, origin, ms, pushes, a, i + 1)
  {
    SameForTest(model, AfterAll(origin, ms, i), id, ms[i]);
    assert Index(i);
    if c != null {
      OffersAppend(before[c].events, PushedFor(pushes, id, a, i), OfferedBy(model, ms[i], id));
    }
  }

  /** Messages a up to b are applied, and before each of them the other handlers do what they do. */
  method Meanwhile(store: TestStore, c: Subscription?, id: string, ms: seq<Message>, a: nat, b: nat,
                   others: seq<seq<Deed>>, ghost origin: Tests, ghost pushes: seq<Push>)
    requires store.Valid() && a <= b <= |ms| == |others| && PushesOf(origin, ms, pushes) && AllSpare(others, id)
    requires UpTo(store.model, id, origin, ms, a)
    requires Watched(store.subscribers.views, c, id)
    modifies store, store.subscribers, store.subscribers.views.Keys
    ensures store.Valid() && UpTo(store.model, id, origin, ms, b)
    ensures forall d :: d in store.subscribers.views && d !in old(store.subscribers.views) ==> fresh(d)
    ensures WasOffered(store.subscribers.views, c, old(store.subscribers.views), PushedFor(pushes, id, a, b))
    ensures Quiet(others) ==> store.subscribers.open == old(store.subscribers.open)
    ensures Quiet(others) && old(store.model) == AfterAll(origin, ms, a) ==> store.model == AfterAll(origin, ms, b)
  {
    ghost var before, quiet, alone := store.subscribers.views, Quiet(others), store.model == AfterAll(origin, ms, a);
    NothingOffered(before, c);
    for i := a to b
      invariant store.Valid() && Progress(store.model, store.subscribers.views, before, c, id, origin, ms, pushes, a, i)
      invariant forall d :: d in store.subscribers.views && d !in before ==> fresh(d)
      invariant quiet ==> store.subscribers.open == old(store.subscribers.open)
      invariant quiet && alone ==> store.model == AfterAll(origin, ms, i)
    {
      ghost var views, model := store.subscribers.views, store.model;
      OneMessage(store, c, id, ms[i], others[i]);
      ProgressNext(model, views, store.model, store.subscribers.views, before, c, id, origin, ms, pushes, a, i);
    }
  }

  lemma NothingOffered(views: Views, c: Subscription?)
    requires c != null ==> c in views
    ensures WasOffered(views, c, views, [])
  {
    if c != null {
      assert views[c].events + AsOffers([]) == views[c].events;
    }
  }
}
