/** Live subscribers of a test: bounded channels and the per-test lists of them
    (coordinator/teststore.go, `Subscribe` and `notifySubscribers`). */
module Subscribers {
  import opened Wrappers
  import opened Snapshots

  const CHANNEL_CAPACITY: nat := 4

  /** What happens to one channel: a snapshot is offered to it, or its reader takes one. */
  datatype ChannelEvent = Offered(snap: TestSnapshot) | Taken

  /** A channel's queue, and all it ever accepted. */
  datatype ChannelState = ChannelState(queued: seq<TestSnapshot>, accepted: seq<TestSnapshot>)

  function AfterEvent(c: ChannelState, e: ChannelEvent): ChannelState {
    match e
    case Offered(snap) =>
      if |c.queued| < CHANNEL_CAPACITY then ChannelState(c.queued + [snap], c.accepted + [snap]) else c
    case Taken => if c.queued == [] then c else c.(queued := c.queued[1..])
  }

  function History(events: seq<ChannelEvent>): ChannelState {
    if events == [] then ChannelState([], []) else AfterEvent(History(events[..|events| - 1]), events[|events| - 1])
  }

  function Offers(events: seq<ChannelEvent>): seq<TestSnapshot> {
    if events == [] then []
    else
      var before := Offers(events[..|events| - 1]);
      match events[|events| - 1]
      case Offered(snap) => before + [snap]
      case Taken => before
  }

  function AsOffers(snaps: seq<TestSnapshot>): seq<ChannelEvent> {
    seq(|snaps|, i requires 0 <= i < |snaps| => Offered(snaps[i]))
  }

  lemma {:induction false} OffersConcat(events: seq<ChannelEvent>, snaps: seq<TestSnapshot>)
    ensures Offers(events + AsOffers(snaps)) == Offers(events) + snaps
  {
    if snaps == [] {
      assert events + AsOffers(snaps) == events;
    } else {
      var front := snaps[..|snaps| - 1];
      OffersConcat(events, front);
      var all := events + AsOffers(snaps);
      assert all[..|all| - 1] == events + AsOffers(front);
      assert Offers(events) + snaps == Offers(events) + front + [snaps[|snaps| - 1]];
    }
  }

  /** `a` is `b` with some elements left out. */
  ghost predicate IsSubsequence(a: seq<TestSnapshot>, b: seq<TestSnapshot>) {
    if a == [] then true
    else if b == [] then false
    else
      || (a[|a| - 1] == b[|b| - 1] && IsSubsequence(a[..|a| - 1], b[..|b| - 1]))
      || IsSubsequence(a, b[..|b| - 1])
  }

  lemma HistoryNext(events: seq<ChannelEvent>, e: ChannelEvent)
    ensures History(events + [e]) == AfterEvent(History(events), e)
    ensures Offers(events + [e]) == Offers(events) + if e.Offered? then [e.snap] else []
  {
    assert (events + [e])[..|events|] == events;
  }

  /** What is not yet read is the end of what was accepted, and never more than four are queued. */
  lemma {:induction false} QueueIsSuffix(events: seq<ChannelEvent>)
    ensures var c := History(events);
            && |c.queued| <= 4
            && |c.queued| <= |c.accepted| && c.queued == c.accepted[|c.accepted| - |c.queued|..]
  {
    if events != [] {
      QueueIsSuffix(events[..|events| - 1]);
    }
  }

  /** What a channel accepts is its test's updates in order, with some left out. */
  lemma {:induction false} AcceptedInOrder(events: seq<ChannelEvent>)
    ensures IsSubsequence(History(events).accepted, Offers(events))
  {
    if events != [] {
      var front, e := events[..|events| - 1], events[|events| - 1];
      AcceptedInOrder(front);
      if e.Offered? {
        SubsequenceGrows(History(front).accepted, Offers(front), e.snap);
      }
    }
  }

  lemma SubsequenceGrows(a: seq<TestSnapshot>, b: seq<TestSnapshot>, x: TestSnapshot)
    requires IsSubsequence(a, b)
    ensures IsSubsequence(a, b + [x]) && IsSubsequence(a + [x], b + [x])
  {
    assert (b + [x])[..|b|] == b && (a + [x])[..|a|] == a;
  }

  /** What the channel's reader has taken. */
  function Reads(events: seq<ChannelEvent>): seq<TestSnapshot> {
    if events == [] then []
    else
      var front, e := events[..|events| - 1], events[|events| - 1];
      Reads(front) + if e.Taken? && History(front).queued != [] then [History(front).queued[0]] else []
  }

  /** Every accepted snapshot was read, in order, or is still queued. */
  lemma {:induction false} AcceptedIsReadOrQueued(events: seq<ChannelEvent>)
    ensures History(events).accepted == Reads(events) + History(events).queued
  {
    if events != [] {
      AcceptedIsReadOrQueued(events[..|events| - 1]);
    }
  }

  lemma ReadsNext(events: seq<ChannelEvent>, e: ChannelEvent)
    ensures Reads(events + [e])
         == Reads(events) + if e.Taken? && History(events).queued != [] then [History(events).queued[0]] else []
  {
    assert (events + [e])[..|events|] == events;
  }

  lemma {:induction false} OffersAreNotReads(events: seq<ChannelEvent>, snaps: seq<TestSnapshot>)
    ensures Reads(events + AsOffers(snaps)) == Reads(events)
  {
    if snaps == [] {
      assert events + AsOffers(snaps) == events;
    } else {
      var front := snaps[..|snaps| - 1];
      OffersAreNotReads(events, front);
      assert events + AsOffers(snaps) == events + AsOffers(front) + [Offered(snaps[|snaps| - 1])];
      ReadsNext(events + AsOffers(front), Offered(snaps[|snaps| - 1]));
    }
  }

  /** The i-th event is an update that found the channel full. */
  predicate DropsAt(events: seq<ChannelEvent>, i: nat)
    requires i < |events|
  {
    events[i].Offered? && |History(events[..i]).queued| == 4
  }

  /** Updates are lost exactly when offered to a channel that already holds four. */
  lemma {:induction false} NothingElseIsDropped(events: seq<ChannelEvent>)
    ensures History(events).accepted == Offers(events) <==> forall i :: 0 <= i < |events| ==> !DropsAt(events, i)
    ensures |History(events).accepted| <= |Offers(events)|
  {
    if events != [] {
      var n := |events| - 1;
      var front := events[..n];
      NothingElseIsDropped(front);
      QueueIsSuffix(front);
      DropsBefore(events, n);
      assert (forall i :: 0 <= i < |events| ==> !DropsAt(events, i))
        <==> (forall i :: 0 <= i < n ==> !DropsAt(front, i)) && !DropsAt(events, n);
      if events[n].Offered? {
        SameExtension(History(front).accepted, Offers(front), events[n].snap);
      }
    }
  }

  /** The i-th event puts this snapshot into the channel. */
  predicate Accepts(events: seq<ChannelEvent>, i: nat, snap: TestSnapshot)
    requires i < |events|
  {
    events[i] == Offered(snap) && !DropsAt(events, i)
  }

  lemma DropsBefore(events: seq<ChannelEvent>, n: nat)
    requires n <= |events|
    ensures forall i :: 0 <= i < n ==> events[..n][i] == events[i] && (DropsAt(events, i) <==> DropsAt(events[..n], i))
  {
    assert forall i :: 0 <= i < n ==> events[..i] == events[..n][..i];
  }

  lemma {:induction false} AcceptanceStays(events: seq<ChannelEvent>, i: nat, snap: TestSnapshot)
    requires i < |events| && Accepts(events, i, snap)
    ensures snap in History(events).accepted
  {
    var n := |events| - 1;
    QueueIsSuffix(events[..n]);
    if i < n {
      DropsBefore(events, n);
      AcceptanceStays(events[..n], i, snap);
    }
  }

  lemma {:induction false} WhenAccepted(events: seq<ChannelEvent>, snap: TestSnapshot) returns (i: nat)
    requires snap in History(events).accepted
    ensures i < |events| && Accepts(events, i, snap)
  {
    var n := |events| - 1;
    QueueIsSuffix(events[..n]);
    if snap in History(events[..n]).accepted {
      i := WhenAccepted(events[..n], snap);
      DropsBefore(events, n);
    } else {
      i := n;
    }
  }

  /** A snapshot gets through exactly if it was offered, at least once, while the channel had room. */
  lemma GetsThrough(events: seq<ChannelEvent>, snap: TestSnapshot)
    ensures snap in History(events).accepted <==> exists i :: 0 <= i < |events| && Accepts(events, i, snap)
  {
    if snap in History(events).accepted {
      var i := WhenAccepted(events, snap);
    }
    forall i | 0 <= i < |events| && Accepts(events, i, snap) ensures snap in History(events).accepted {
      AcceptanceStays(events, i, snap);
    }
  }

  lemma SameExtension(a: seq<TestSnapshot>, b: seq<TestSnapshot>, x: TestSnapshot)
    ensures a + [x] == b + [x] <==> a == b
  {
    assert (a + [x])[..|a|] == a && (b + [x])[..|b|] == b;
  }

  function Front(queue: seq<TestSnapshot>): Option<TestSnapshot> {
    if queue == [] then None else Some(queue[0])
  }

  /** One subscription: the channel, and the once flag of its unsubscribe function. */
  class Subscription {
    const testID: string
    var queue: seq<TestSnapshot>
    var closed: bool
    var unsubscribed: bool
    ghost var events: seq<ChannelEvent>

    constructor (testID: string)
      ensures this.testID == testID && Valid() && !closed && events == []
    {
      this.testID := testID;
      queue, closed, unsubscribed, events := [], false, false, [];
    }

    /** The channel is what its history says, and it is closed exactly once its unsubscribe function ran. */
    ghost predicate Valid()
      reads this
    {
      queue == History(events).queued && (closed <==> unsubscribed)
    }

    /** A non-blocking send. Sending on a closed channel would panic, so it must not be closed. */
    method Offer(snap: TestSnapshot)
      requires Valid() && !closed
      modifies this`queue, this`events
      ensures Valid() && events == old(events) + [Offered(snap)]
    {
      HistoryNext(events, Offered(snap));
      if |queue| < CHANNEL_CAPACITY {
        queue := queue + [snap];
      }
      events := events + [Offered(snap)];
    }

    /** A receive that finds the queue non-empty takes its oldest snapshot; otherwise there is none yet. */
    method Take() returns (snap: Option<TestSnapshot>)
      requires Valid()
      modifies this`queue, this`events
      ensures Valid() && events == old(events) + [Taken]
      ensures snap == Front(old(queue))
    {
      HistoryNext(events, Taken);
      snap := if queue == [] then None else Some(queue[0]);
      queue := if queue == [] then [] else queue[1..];
      events := events + [Taken];
    }
  }

  /** The open subscriptions of one test among all those ever made, in the order they subscribed. */
  ghost function StillOpen(all: seq<Subscription>, open: set<Subscription>, t: string): seq<Subscription> {
    if all == [] then []
    else
      var last := all[|all| - 1];
      StillOpen(all[..|all| - 1], open, t) + if last in open && last.testID == t then [last] else []
  }

  ghost predicate NoDuplicates(s: seq<Subscription>) {
    forall i, j :: 0 <= i < j < |s| ==> s[i] != s[j]
  }

  /** A test's list holds its open subscriptions and no others, none twice. */
  lemma {:induction false} StillOpenMembers(all: seq<Subscription>, open: set<Subscription>, t: string)
    requires NoDuplicates(all)
    ensures NoDuplicates(StillOpen(all, open, t))
    ensures forall c :: c in StillOpen(all, open, t) <==> c in all && c in open && c.testID == t
  {
    if all != [] {
      var front, last := all[..|all| - 1], all[|all| - 1];
      assert all == front + [last];
      StillOpenMembers(front, open, t);
    }
  }

  lemma {:induction false} StillOpenSame(all: seq<Subscription>, a: set<Subscription>, b: set<Subscription>, t: string)
    requires forall c :: c in all && c.testID == t ==> (c in a <==> c in b)
    ensures StillOpen(all, a, t) == StillOpen(all, b, t)
  {
    if all != [] {
      assert all[|all| - 1] in all;
      StillOpenSame(all[..|all| - 1], a, b, t);
    }
  }

  lemma StillOpenNext(front: seq<Subscription>, last: Subscription, open: set<Subscription>, t: string)
    ensures StillOpen(front + [last], open, t)
         == StillOpen(front, open, t) + if last in open && last.testID == t then [last] else []
  {
    assert (front + [last])[..|front|] == front;
  }

  lemma NotAgain(front: seq<Subscription>, last: Subscription)
    requires NoDuplicates(front + [last])
    ensures NoDuplicates(front) && last !in front
  {
    var all := front + [last];
    forall i | 0 <= i < |front| ensures front[i] != last {
      assert all[i] != all[|front|];
    }
    assert forall i :: 0 <= i < |front| ==> all[i] == front[i];
  }

  /** Cutting the one occurrence of a closed channel out of the list leaves the open ones. */
  lemma {:induction false} StillOpenWithout(all: seq<Subscription>, open: set<Subscription>, t: string, i: nat)
    requires NoDuplicates(all) && i < |StillOpen(all, open, t)|
    ensures var list := StillOpen(all, open, t);
            StillOpen(all, open - {list[i]}, t) == list[..i] + list[i + 1..]
  {
    var list := StillOpen(all, open, t);
    var front, last := all[..|all| - 1], all[|all| - 1];
    assert all == front + [last];
    var before := StillOpen(front, open, t);
    StillOpenNext(front, last, open, t);
    StillOpenNext(front, last, open - {list[i]}, t);
    NotAgain(front, last);
    StillOpenMembers(front, open, t);
    if i < |before| {
      StillOpenWithout(front, open, t, i);
      assert list[i] == before[i] && before[i] in before;
      assert list[i + 1..] == before[i + 1..] + list[|before|..];
    } else {
      StillOpenSame(front, open - {last}, open, t);
      assert list[..i] == before && list[i + 1..] == [];
    }
  }

  type Lists = map<string, seq<Subscription>>

  function ListIn(lists: Lists, testID: string): seq<Subscription> {
    if testID in lists then lists[testID] else []
  }

  /** Each test's list is exactly its open subscriptions, in the order they subscribed. */
  ghost predicate ListsOK(lists: Lists, issued: seq<Subscription>, open: set<Subscription>) {
    forall t :: ListIn(lists, t) == StillOpen(issued, open, t)
  }

  lemma SubscribeLists(lists: Lists, issued: seq<Subscription>, open: set<Subscription>, c: Subscription)
    requires c !in issued && ListsOK(lists, issued, open)
    ensures ListsOK(lists[c.testID := ListIn(lists, c.testID) + [c]], issued + [c], open + {c})
  {
    var lists' := lists[c.testID := ListIn(lists, c.testID) + [c]];
    forall t ensures ListIn(lists', t) == StillOpen(issued + [c], open + {c}, t) {
      StillOpenNext(issued, c, open + {c}, t);
      StillOpenSame(issued, open + {c}, open, t);
      assert ListIn(lists, t) == StillOpen(issued, open, t);
    }
  }

  lemma CloseLists(lists: Lists, issued: seq<Subscription>, open: set<Subscription>, c: Subscription, i: nat)
    requires NoDuplicates(issued) && ListsOK(lists, issued, open)
    requires i < |ListIn(lists, c.testID)| && ListIn(lists, c.testID)[i] == c
    ensures var list := ListIn(lists, c.testID);
            ListsOK(lists[c.testID := list[..i] + list[i + 1..]], issued, open - {c})
  {
    var list := ListIn(lists, c.testID);
    var lists' := lists[c.testID := list[..i] + list[i + 1..]];
    assert list == StillOpen(issued, open, c.testID);
    StillOpenWithout(issued, open, c.testID, i);
    forall t ensures ListIn(lists', t) == StillOpen(issued, open - {c}, t) {
      if t != c.testID {
        StillOpenSame(issued, open - {c}, open, t);
        assert ListIn(lists, t) == StillOpen(issued, open, t);
      }
    }
  }

  /** What can be seen of one subscription. */
  datatype View = View(testID: string, closed: bool, events: seq<ChannelEvent>)

  type Views = map<Subscription, View>

  /** Every open subscription of the test is offered the snapshot to push, if there is one. */
  ghost function Tell(views: Views, testID: string, push: Option<TestSnapshot>): Views {
    match push
    case None => views
    case Some(snap) =>
      map c | c in views ::
        if views[c].testID == testID && !views[c].closed then views[c].(events := views[c].events + [Offered(snap)])
        else views[c]
  }

  lemma TellOne(views: Views, testID: string, push: Option<TestSnapshot>, c: Subscription)
    requires c in views
    ensures Tell(views, testID, push).Keys == views.Keys
    ensures var pushed := if push.Some? && testID == views[c].testID then [push.value] else [];
            var events := if views[c].closed then views[c].events else views[c].events + AsOffers(pushed);
            Tell(views, testID, push)[c] == views[c].(events := events)
  {
    assert forall snap :: AsOffers([snap]) == [Offered(snap)];
    assert views[c].events + AsOffers([]) == views[c].events;
  }

  lemma OffersAppend(events: seq<ChannelEvent>, a: seq<TestSnapshot>, b: seq<TestSnapshot>)
    ensures events + AsOffers(a) + AsOffers(b) == events + AsOffers(a + b)
  {
  }

  /** What one applied message pushes: a snapshot of its test, or nothing. */
  datatype Push = Push(testID: string, snap: Option<TestSnapshot>)

  /** The snapshots among pushes a up to b that are about one test. */
  ghost function PushedFor(pushes: seq<Push>, testID: string, a: nat, b: nat): seq<TestSnapshot>
    requires a <= b <= |pushes|
  {
    if a == b then []
    else
      var p := pushes[b - 1];
      PushedFor(pushes, testID, a, b - 1) + if p.snap.Some? && p.testID == testID then [p.snap.value] else []
  }

  lemma {:induction false} PushedForConcat(pushes: seq<Push>, testID: string, a: nat, b: nat, c: nat)
    requires a <= b <= c <= |pushes|
    ensures PushedFor(pushes, testID, a, c) == PushedFor(pushes, testID, a, b) + PushedFor(pushes, testID, b, c)
  {
    if b < c {
      PushedForConcat(pushes, testID, a, b, c - 1);
    }
  }

  /** The subscriptions after those pushes. */
  ghost function TellAll(views: Views, pushes: seq<Push>, a: nat, b: nat): Views
    requires a <= b <= |pushes|
  {
    if a == b then views else Tell(TellAll(views, pushes, a, b - 1), pushes[b - 1].testID, pushes[b - 1].snap)
  }

  /** An open subscription is offered all that is pushed for its test; a closed one nothing. */
  lemma {:induction false} ToldAll(views: Views, pushes: seq<Push>, a: nat, b: nat, c: Subscription)
    requires a <= b <= |pushes| && c in views
    ensures TellAll(views, pushes, a, b).Keys == views.Keys
    ensures var offered := if views[c].closed then [] else AsOffers(PushedFor(pushes, views[c].testID, a, b));
            TellAll(views, pushes, a, b)[c] == views[c].(events := views[c].events + offered)
  {
    if a == b {
      assert views[c].events + AsOffers([]) == views[c].events;
    } else {
      ToldAll(views, pushes, a, b - 1, c);
      var p := pushes[b - 1];
      TellOne(TellAll(views, pushes, a, b - 1), p.testID, p.snap, c);
      OffersAppend(views[c].events, PushedFor(pushes, views[c].testID, a, b - 1),
                   if p.snap.Some? && p.testID == views[c].testID then [p.snap.value] else []);
    }
  }

  /** The registry's lists and what is known of its channels agree. */
  ghost predicate Consistent(lists: Lists, issued: seq<Subscription>, open: set<Subscription>, views: Views) {
    && NoDuplicates(issued) && ListsOK(lists, issued, open)
    && views.Keys == (set c | c in issued)
    && forall c :: c in views ==> views[c].testID == c.testID && (views[c].closed <==> c !in open)
  }

  ghost predicate Seen(views: Views)
    reads views.Keys
  {
    forall c :: c in views ==> c.Valid() && views[c] == View(c.testID, c.closed, c.events)
  }

  lemma SubscribeKeeps(lists: Lists, issued: seq<Subscription>, open: set<Subscription>, views: Views, c: Subscription)
    requires Consistent(lists, issued, open, views) && c !in views
    ensures Consistent(lists[c.testID := ListIn(lists, c.testID) + [c]], issued + [c], open + {c},
                       views[c := View(c.testID, false, [])])
  {
    SubscribeLists(lists, issued, open, c);
  }

  lemma CloseKeeps(lists: Lists, issued: seq<Subscription>, open: set<Subscription>, views: Views,
                   c: Subscription, i: nat)
    requires Consistent(lists, issued, open, views) && c in views && !views[c].closed
    requires i < |ListIn(lists, c.testID)| && ListIn(lists, c.testID)[i] == c
    ensures var list := ListIn(lists, c.testID);
            Consistent(lists[c.testID := list[..i] + list[i + 1..]], issued, open - {c},
                       views[c := views[c].(closed := true)])
  {
    CloseLists(lists, issued, open, c, i);
  }

  lemma TellKeeps(lists: Lists, issued: seq<Subscription>, open: set<Subscription>, views: Views,
                  testID: string, push: Option<TestSnapshot>)
    requires Consistent(lists, issued, open, views)
    ensures Consistent(lists, issued, open, Tell(views, testID, push))
  {
  }

  lemma TakeKeeps(lists: Lists, issued: seq<Subscription>, open: set<Subscription>, views: Views, c: Subscription)
    requires Consistent(lists, issued, open, views) && c in views
    ensures Consistent(lists, issued, open, views[c := views[c].(events := views[c].events + [Taken])])
  {
  }

  /** The list of a test holds its open channels, each once. */
  lemma ListMembers(lists: Lists, issued: seq<Subscription>, open: set<Subscription>, views: Views, testID: string)
    requires Consistent(lists, issued, open, views)
    ensures NoDuplicates(ListIn(lists, testID))
    ensures forall c :: c in ListIn(lists, testID) <==> c in views && !views[c].closed && views[c].testID == testID
  {
    StillOpenMembers(issued, open, testID);
    assert ListIn(lists, testID) == StillOpen(issued, open, testID);
  }

  /** The views after the given channels were offered a snapshot. */
  ghost function OfferedTo(views: Views, subs: seq<Subscription>, snap: TestSnapshot): Views {
    map c | c in views ::
      if c in subs then views[c].(events := views[c].events + [Offered(snap)]) else views[c]
  }

  lemma OfferNext(views: Views, subs: seq<Subscription>, i: nat, snap: TestSnapshot)
    requires NoDuplicates(subs) && i < |subs| && subs[i] in views
    ensures var before := OfferedTo(views, subs[..i], snap);
            && before[subs[i]] == views[subs[i]]
            && OfferedTo(views, subs[..i + 1], snap)
            == before[subs[i] := before[subs[i]].(events := before[subs[i]].events + [Offered(snap)])]
  {
    assert subs[..i + 1] == subs[..i] + [subs[i]];
  }

  /** Offers a snapshot to each of some open channels. */
  method OfferToEach(subs: seq<Subscription>, snap: TestSnapshot, ghost views: Views)
    requires Seen(views) && NoDuplicates(subs) && forall c :: c in subs ==> c in views && !views[c].closed
    modifies views.Keys
    ensures Seen(OfferedTo(views, subs, snap))
  {
    assert OfferedTo(views, [], snap) == views;
    for i := 0 to |subs|
      invariant Seen(OfferedTo(views, subs[..i], snap))
    {
      OfferNext(views, subs, i, snap);
      subs[i].Offer(snap);
    }
    assert subs[..|subs|] == subs;
  }

  method NewChannel(testID: string, ghost views: Views) returns (c: Subscription)
    requires Seen(views)
    ensures fresh(c) && c.testID == testID && c !in views && Seen(views[c := View(testID, false, [])])
  {
    c := new Subscription(testID);
  }

  /** A receive, as the registry sees it. */
  method TakeFrom(c: Subscription, ghost views: Views) returns (snap: Option<TestSnapshot>)
    requires Seen(views) && c in views
    modifies c`queue, c`events
    ensures Seen(views[c := views[c].(events := views[c].events + [Taken])])
    ensures snap == Front(History(views[c].events).queued)
  {
    snap := c.Take();
  }

  /** Closes a channel for good. */
  method CloseChannel(c: Subscription, ghost views: Views)
    requires Seen(views) && c in views && !views[c].closed
    modifies c`closed, c`unsubscribed
    ensures Seen(views[c := views[c].(closed := true)])
  {
    c.closed, c.unsubscribed := true, true;
  }

  /** Where a channel stands in a list. */
  method IndexOf(subs: seq<Subscription>, c: Subscription) returns (i: nat)
    requires c in subs
    ensures i < |subs| && subs[i] == c
  {
    i := 0;
    while subs[i] != c
      invariant i < |subs| && c in subs[i..]
      decreases |subs| - i
    {
      i := i + 1;
    }
  }

  class Registry {
    var lists: Lists
    ghost var issued: seq<Subscription>
    ghost var open: set<Subscription>
    ghost var views: Views

    ghost predicate Valid()
      reads this, views.Keys
    {
      Consistent(lists, issued, open, views) && Seen(views)
    }

    constructor ()
      ensures Valid() && issued == [] && views == map[]
    {
      lists, issued, open, views := map[], [], {}, map[];
    }

    /** `Subscribe`. */
    method Subscribe(testID: string) returns (c: Subscription)
      requires Valid()
      modifies this
      ensures Valid() && fresh(c) && issued == old(issued) + [c] && open == old(open) + {c}
      ensures views == old(views)[c := View(testID, false, [])]
      ensures lists == old(lists)[testID := ListIn(old(lists), testID) + [c]]
    {
      c := NewChannel(testID, views);
      SubscribeKeeps(lists, issued, open, views, c);
      ghost var views' := views[c := View(testID, false, [])];
      lists := lists[testID := ListIn(lists, testID) + [c]];
      issued, open, views := issued + [c], open + {c}, views';
      assert Seen(views');
    }

    /** The function `Subscribe` hands out to end the subscription. Only its first call does anything. */
    method Unsubscribe(c: Subscription)
      requires Valid() && c in views
      modifies this`lists, this`open, this`views, c`closed, c`unsubscribed
      ensures Valid() && open == old(open) - {c} && views == old(views)[c := old(views)[c].(closed := true)]
      ensures old(views)[c].closed ==> lists == old(lists)
      ensures !old(views)[c].closed ==>
                var list := ListIn(old(lists), c.testID);
                exists i ::
                  0 <= i < |list| && list[i] == c && lists == old(lists)[c.testID := list[..i] + list[i + 1..]]
    {
      if c.unsubscribed {
        assert views[c].closed;
        return;
      }
      var subs := ListIn(lists, c.testID);
      ListMembers(lists, issued, open, views, c.testID);
      var i := IndexOf(subs, c);
      CloseKeeps(lists, issued, open, views, c, i);
      lists := lists[c.testID := subs[..i] + subs[i + 1..]];
      CloseChannel(c, views);
      open, views := open - {c}, views[c := views[c].(closed := true)];
    }

    /** A receive on a channel. */
    method Receive(c: Subscription) returns (snap: Option<TestSnapshot>)
      requires Valid() && c in views
      modifies this`views, c`queue, c`events
      ensures Valid() && views == old(views)[c := old(views)[c].(events := old(views)[c].events + [Taken])]
      ensures snap == Front(History(old(views)[c].events).queued)
    {
      TakeKeeps(lists, issued, open, views, c);
      snap := TakeFrom(c, views);
      views := views[c := views[c].(events := views[c].events + [Taken])];
    }

    /** `notifySubscribers`: offers the snapshot to every open subscription of the test, and to no closed one. */
    method Notify(testID: string, snap: TestSnapshot)
      requires Valid()
      modifies this`views, views.Keys
      ensures Valid() && views == Tell(old(views), testID, Some(snap))
    {
      var subs := ListIn(lists, testID);
      ListMembers(lists, issued, open, views, testID);
      TellKeeps(lists, issued, open, views, testID, Some(snap));
      assert OfferedTo(views, subs, snap) == Tell(views, testID, Some(snap));
      OfferToEach(subs, snap, views);
      views := Tell(views, testID, Some(snap));
    }
  }
}
