/** What the live view guarantees its viewer, and what it does not (coordinator/live.go). */
module LiveDelivery {
  import opened Wrappers
  import opened Messages
  import opened TestLog
  import opened Snapshots
  import opened Subscribers
  import opened TestStores
  import opened LiveView

  /** What message i pushes to a viewer who subscribed in time stands at its place among the offers. */
  lemma {:induction false} PushedAt(pushes: seq<Push>, id: string, a: nat, i: nat, b: nat)
    requires a <= i < b <= |pushes| && pushes[i].testID == id && pushes[i].snap.Some?
    ensures |PushedFor(pushes, id, a, i)| < |PushedFor(pushes, id, a, b)|
    ensures PushedFor(pushes, id, a, b)[|PushedFor(pushes, id, a, i)|] == pushes[i].snap.value
  {
    if i < b - 1 {
      PushedAt(pushes, id, a, i, b - 1);
    }
  }

  /** No gap: an update of the test is reflected in the snapshot of the second look, or its snapshot was offered
      to the viewer's channel, in the order of the updates. */
  lemma NoUpdateIsMissed(tests: Tests, id: string, ms: seq<Message>, pushes: seq<Push>, joined: nat, looked: nat,
                         n: nat, sent: seq<TestSnapshot>, events: seq<ChannelEvent>, i: nat)
    requires PushesOf(tests, ms, pushes) && looked <= |ms| && id in AfterAll(tests, ms, looked)
    requires Watching(id, pushes, joined, looked, n, SnapshotOf(id, AfterAll(tests, ms, looked)[id]), sent, events)
    requires i < n && ms[i].testID == id && Known(AfterAll(tests, ms, i), ms[i])
    ensures i < looked ==> sent[0] == SnapshotOf(id, AfterAll(tests, ms, looked)[id])
    ensures joined <= i ==>
              var k := |PushedFor(pushes, id, joined, i)|;
              k < |Offers(events)| && Offers(events)[k] == SnapshotOf(id, AfterAll(tests, ms, i + 1)[id])
    ensures i < looked || joined <= i
  {
    assert Index(i);
    if joined <= i {
      PushedAt(pushes, id, joined, i, n);
    }
  }

  /** A message pushes a test's new state, or does not change the test. */
  lemma PushOrUnchanged(tests: Tests, m: Message, id: string)
    requires id in tests
    ensures id in AfterMessage(tests, m)
    ensures PushOf(tests, m).Some? && m.testID == id ==>
              PushOf(tests, m).value == SnapshotOf(id, AfterMessage(tests, m)[id])
    ensures !(PushOf(tests, m).Some? && m.testID == id) ==> AfterMessage(tests, m)[id] == tests[id]
  {
  }

  lemma PushNext(pushes: seq<Push>, id: string, a: nat, i: nat)
    requires a <= i < |pushes|
    ensures var p := pushes[i];
            PushedFor(pushes, id, a, i + 1)
            == PushedFor(pushes, id, a, i) + if p.snap.Some? && p.testID == id then [p.snap.value] else []
  {
  }

  lemma PushedIsCurrent(tests: Tests, id: string, ms: seq<Message>, pushes: seq<Push>, i: nat)
    requires PushesOf(tests, ms, pushes) && i < |ms| && id in AfterAll(tests, ms, i)
    ensures id in AfterAll(tests, ms, i + 1)
    ensures if pushes[i].snap.Some? && pushes[i].testID == id
            then pushes[i].snap.value == SnapshotOf(id, AfterAll(tests, ms, i + 1)[id])
            else AfterAll(tests, ms, i + 1)[id] == AfterAll(tests, ms, i)[id]
  {
    PushOrUnchanged(AfterAll(tests, ms, i), ms[i], id);
    assert Index(i);
  }

  predicate IsFor(p: Push, id: string) {
    p.testID == id && p.snap.Some?
  }

  /** Where the last push for a test came from, if only its pushes come with changes of its state. */
  lemma {:induction false} SinceLastPush(states: seq<Test>, id: string, pushes: seq<Push>, a: nat, b: nat)
    returns (k: nat)
    requires a <= b <= |pushes| && |states| == |pushes| + 1
    requires forall i :: a <= i < b && !IsFor(pushes[i], id) ==> states[i + 1] == states[i]
    ensures a <= k <= b && states[b] == states[k]
    ensures var p := PushedFor(pushes, id, a, b);
            if p == [] then k == a
            else k > a && IsFor(pushes[k - 1], id) && pushes[k - 1].snap == Some(p[|p| - 1])
  {
    k := a;
    if a < b {
      k := SinceLastPush(states, id, pushes, a, b - 1);
      if IsFor(pushes[b - 1], id) {
        k := b;
      }
    }
  }

  ghost function StatesOf(tests: Tests, id: string, ms: seq<Message>): (states: seq<Test>)
    requires id in tests
    ensures |states| == |ms| + 1
    ensures forall i :: 0 <= i <= |ms| ==> id in AfterAll(tests, ms, i) && states[i] == AfterAll(tests, ms, i)[id]
  {
    assert forall i :: 0 <= i <= |ms| ==> id in AfterAll(tests, ms, i) by {
      forall i | 0 <= i <= |ms| ensures id in AfterAll(tests, ms, i) { OwnersStay(tests, ms, i); }
    }
    seq(|ms| + 1, i requires 0 <= i <= |ms| => AfterAll(tests, ms, i)[id])
  }

  lemma StatesFollowPushes(tests: Tests, id: string, ms: seq<Message>, pushes: seq<Push>)
    requires PushesOf(tests, ms, pushes) && id in tests
    ensures var states := StatesOf(tests, id, ms);
            forall i :: 0 <= i < |ms| ==>
              if IsFor(pushes[i], id) then pushes[i].snap.value == SnapshotOf(id, states[i + 1])
              else states[i + 1] == states[i]
  {
    var states := StatesOf(tests, id, ms);
    forall i | 0 <= i < |ms|
      ensures if IsFor(pushes[i], id) then pushes[i].snap.value == SnapshotOf(id, states[i + 1])
              else states[i + 1] == states[i]
    {
      PushedIsCurrent(tests, id, ms, pushes, i);
    }
  }

  /** The last snapshot pushed for a test is its current state. */
  lemma LastPushIsCurrent(tests: Tests, id: string, ms: seq<Message>, pushes: seq<Push>, a: nat, b: nat)
    requires PushesOf(tests, ms, pushes) && a <= b <= |ms| && id in tests
    ensures id in AfterAll(tests, ms, a) && id in AfterAll(tests, ms, b)
    ensures var p := PushedFor(pushes, id, a, b);
            if p == [] then AfterAll(tests, ms, b)[id] == AfterAll(tests, ms, a)[id]
            else p[|p| - 1] == SnapshotOf(id, AfterAll(tests, ms, b)[id])
  {
    StatesFollowPushes(tests, id, ms, pushes);
    var k := SinceLastPush(StatesOf(tests, id, ms), id, pushes, a, b);
  }

  /** The latest offer was accepted. */
  ghost predicate LatestAccepted(events: seq<ChannelEvent>) {
    if events == [] then true
    else
      var n := |events| - 1;
      if events[n].Offered? then !DropsAt(events, n) else LatestAccepted(events[..n])
  }

  lemma {:induction false} LatestIsLast(events: seq<ChannelEvent>)
    requires LatestAccepted(events) && Offers(events) != []
    ensures var accepted, offers := History(events).accepted, Offers(events);
            accepted != [] && accepted[|accepted| - 1] == offers[|offers| - 1]
  {
    var n := |events| - 1;
    QueueIsSuffix(events[..n]);
    if events[n].Taken? {
      LatestIsLast(events[..n]);
    }
  }

  /** A viewer who has read everything queued, and whose latest update found room, sees the test as it is now,
      whatever was dropped before. */
  lemma CaughtUp(tests: Tests, id: string, ms: seq<Message>, pushes: seq<Push>, joined: nat, looked: nat,
                 n: nat, sent: seq<TestSnapshot>, events: seq<ChannelEvent>)
    requires PushesOf(tests, ms, pushes) && looked <= |ms| && id in AfterAll(tests, ms, looked) && id in tests
    requires Watching(id, pushes, joined, looked, n, SnapshotOf(id, AfterAll(tests, ms, looked)[id]), sent, events)
    requires History(events).queued == [] && LatestAccepted(events)
    ensures id in AfterAll(tests, ms, n) && sent != []
    ensures sent[|sent| - 1] == SnapshotOf(id, AfterAll(tests, ms, n)[id])
  {
    AcceptedIsReadOrQueued(events);
    OwnersStay(tests, ms, joined);
    LastPushIsCurrent(tests, id, ms, pushes, joined, n);
    if Offers(events) == [] {
      PushedForConcat(pushes, id, joined, looked, n);
      LastPushIsCurrent(tests, id, ms, pushes, looked, n);
      NothingWithoutOffers(events);
    } else {
      LatestIsLast(events);
    }
  }

  lemma NothingWithoutOffers(events: seq<ChannelEvent>)
    requires Offers(events) == []
    ensures History(events).accepted == []
  {
    NothingElseIsDropped(events);
  }

  /** The viewer of a live test learns that it is done if and only if some done snapshot was offered while the
      channel had room: a viewer who has read everything queued was sent one exactly then. */
  lemma DoneReachesTheViewer(id: string, pushes: seq<Push>, joined: nat, looked: nat, n: nat, first: TestSnapshot,
                             sent: seq<TestSnapshot>, events: seq<ChannelEvent>)
    requires Watching(id, pushes, joined, looked, n, first, sent, events) && !first.done
    requires History(events).queued == []
    ensures NoneDone(sent) <==>
              forall i :: 0 <= i < |events| && events[i].Offered? && events[i].snap.done ==> DropsAt(events, i)
  {
    AcceptedIsReadOrQueued(events);
    if NoneDone(sent) {
      forall i | 0 <= i < |events| && events[i].Offered? && events[i].snap.done ensures DropsAt(events, i) {
        if !DropsAt(events, i) {
          AcceptanceStays(events, i, events[i].snap);
        }
      }
    } else {
      var s :| s in sent && s.done;
      var i := WhenAccepted(events, s);
    }
  }

  /** Filling a channel by four offers. */
  lemma {:induction false} FirstFourQueue(p: seq<TestSnapshot>)
    requires |p| <= 4
    ensures History(AsOffers(p)) == ChannelState(p, p)
  {
    if p != [] {
      var front := p[..|p| - 1];
      FirstFourQueue(front);
      HistoryNext(AsOffers(front), Offered(p[|p| - 1]));
      assert AsOffers(p) == AsOffers(front) + [Offered(p[|p| - 1])];
    }
  }

  ghost function Takes(k: nat): seq<ChannelEvent> {
    seq(k, _ => Taken)
  }

  /** Reading a channel empty. */
  lemma {:induction false} ReadOut(events: seq<ChannelEvent>, k: nat)
    requires k <= |History(events).queued|
    ensures Offers(events + Takes(k)) == Offers(events)
    ensures History(events + Takes(k)).queued == History(events).queued[k..]
    ensures Reads(events + Takes(k)) == Reads(events) + History(events).queued[..k]
  {
    if k == 0 {
      assert events + Takes(0) == events;
    } else {
      ReadOut(events, k - 1);
      var queued := History(events).queued;
      assert events + Takes(k) == events + Takes(k - 1) + [Taken];
      assert queued[k - 1..][1..] == queued[k..] && queued[..k] == queued[..k - 1] + [queued[k - 1]];
      HistoryNext(events + Takes(k - 1), Taken);
      ReadsNext(events + Takes(k - 1), Taken);
    }
  }

  lemma FiveOffers(p: seq<TestSnapshot>)
    requires |p| == 5
    ensures var events := AsOffers(p) + Takes(4);
            Offers(events) == p && Reads(events) == p[..4] && History(events).queued == []
  {
    var four := AsOffers(p[..4]);
    FirstFourQueue(p[..4]);
    assert AsOffers(p) == four + [Offered(p[4])];
    HistoryNext(four, Offered(p[4]));
    OffersConcat([], p);
    OffersAreNotReads([], p);
    assert [] + AsOffers(p) == AsOffers(p);
    ReadOut(AsOffers(p), 4);
  }

  /** Of five snapshots offered before the first read, the fifth never reaches the viewer. */
  lemma FifthIsLost(id: string, pushes: seq<Push>, joined: nat, looked: nat, n: nat, first: TestSnapshot,
                    p: seq<TestSnapshot>) returns (sent: seq<TestSnapshot>, events: seq<ChannelEvent>)
    requires joined <= looked <= n <= |pushes| && PushedFor(pushes, id, joined, n) == p && |p| == 5
    ensures Watching(id, pushes, joined, looked, n, first, sent, events)
    ensures sent == [first] + p[..4] && History(events).queued == []
  {
    FiveOffers(p);
    events := AsOffers(p) + Takes(4);
    sent := [first] + p[..4];
  }

  const ONE_JOB: Tests := map["t" := Test("u", "url", map["j" := NEW_SUB_JOB])]

  lemma {:induction false} ReportsPushed(ms: seq<Message>, pushes: seq<Push>, n: nat)
    requires PushesOf(ONE_JOB, ms, pushes) && n <= |ms|
    requires forall i :: 0 <= i < |ms| ==> ms[i].Report? && ms[i].testID == "t" && ms[i].jobID == "j"
    ensures var tests := AfterAll(ONE_JOB, ms, n);
            "t" in tests && tests["t"].subJobs.Keys == {"j"} && (n > 0 ==> AllDone(tests["t"]) == ms[n - 1].u.done)
    ensures var p := PushedFor(pushes, "t", 0, n);
            |p| == n && forall i :: 0 <= i < n ==> p[i].done == ms[i].u.done
  {
    if n > 0 {
      ReportsPushed(ms, pushes, n - 1);
      var tests := AfterAll(ONE_JOB, ms, n - 1);
      assert ms[n - 1] == Report("t", "j", ms[n - 1].u);
      OnlyJobReported(tests, ms[n - 1].u);
      assert Index(n - 1);
      PushNext(pushes, "t", 0, n - 1);
    }
  }

  /** The last word can be lost: five updates of a one-job test arrive before the handler reads its channel, the
      fifth closes the test, and the viewer who reads all that is queued is never told. */
  lemma DoneCanBeLost(open: ResultUpdate, done: ResultUpdate)
    requires !open.done && done.done
    ensures var report := Report("t", "j", open);
            var ms := [report, report, report, report, Report("t", "j", done)];
            && "t" in AfterAll(ONE_JOB, ms, 5) && AllDone(AfterAll(ONE_JOB, ms, 5)["t"])
            && exists pushes, sent, events ::
                 && PushesOf(ONE_JOB, ms, pushes)
                 && Watching("t", pushes, 0, 0, 5, SnapshotOf("t", ONE_JOB["t"]), sent, events)
                 && History(events).queued == [] && NoneDone(sent)
  {
    var report := Report("t", "j", open);
    var ms := [report, report, report, report, Report("t", "j", done)];
    var pushes := FiveReports(open, done);
    var first := SnapshotOf("t", ONE_JOB["t"]);
    assert !ONE_JOB["t"].subJobs["j"].done;
    var sent, events := FifthIsLost("t", pushes, 0, 0, 5, first, PushedFor(pushes, "t", 0, 5));
  }

  lemma FiveReports(open: ResultUpdate, done: ResultUpdate) returns (pushes: seq<Push>)
    requires !open.done && done.done
    ensures var report := Report("t", "j", open);
            var ms := [report, report, report, report, Report("t", "j", done)];
            && PushesOf(ONE_JOB, ms, pushes)
            && "t" in AfterAll(ONE_JOB, ms, 5) && AllDone(AfterAll(ONE_JOB, ms, 5)["t"])
    ensures |PushedFor(pushes, "t", 0, 5)| == 5 && NoneDone(PushedFor(pushes, "t", 0, 5)[..4])
  {
    var report := Report("t", "j", open);
    var ms := [report, report, report, report, Report("t", "j", done)];
    pushes := SomePushes(ONE_JOB, ms);
    ReportsPushed(ms, pushes, 5);
  }
}
