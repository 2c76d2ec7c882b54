/** What the messages of one relay pair do to the counters of its server when they are
    processed in the order in which they were posted. */
module RelayAccounting {
  import opened Statuses
  import opened Records
  import opened Directories
  import opened Accounting
  import Runs = AccountingRuns
  import Relay
  import RelayRuns

  // ----- what a sequence of messages makes of a record -----

  /** The kind of a record, in progress at first, after these messages. */
  function KindAfter(posts: seq<Status>): Kind {
    if posts == [] then InProgress else Becomes(KindAfter(posts[..|posts| - 1]), posts[|posts| - 1])
  }

  /** Each message finds the record in the state it is taken to be leaving, or finds it
      already dropped. */
  predicate AllFit(posts: seq<Status>, dropped: bool) {
    posts == [] ||
    (var init, last := posts[..|posts| - 1], posts[|posts| - 1];
     && AllFit(init, dropped)
     && ((dropped && RelayRuns.Terminals(init) > 0) || Ignored(last) || KindAfter(init) == Leaves(last)))
  }

  /** The connection was established or failed, if it ended. */
  predicate EndsProperly(posts: seq<Status>) {
    || RelayRuns.Terminals(posts) == 0
    || RelayRuns.CountOf(posts, Established) == 1 || RelayRuns.CountOf(posts, Failed) == 1
  }

  /** It did, and either it ended once or its record is dropped when it ends. */
  predicate EndsOnce(posts: seq<Status>, dropped: bool) {
    EndsProperly(posts) && (RelayRuns.Terminals(posts) <= 1 || dropped)
  }

  lemma {:induction false} KindsInOrder(posts: seq<Status>)
    requires RelayRuns.InOrder(posts)
    ensures RelayRuns.CountOf(posts, Established) <= 1
    ensures RelayRuns.Terminals(posts) == 0 ==>
              RelayRuns.CountOf(posts, Failed) == 0 &&
              KindAfter(posts) == if RelayRuns.CountOf(posts, Established) == 1 then Live else InProgress
    ensures RelayRuns.Terminals(posts) > 0 ==> KindAfter(posts) == Broken || KindAfter(posts) == Over
  {
    if posts != [] {
      KindsInOrder(posts[..|posts| - 1]);
    }
  }

  lemma {:induction false} FitsExactly(posts: seq<Status>, dropped: bool)
    requires RelayRuns.InOrder(posts)
    ensures AllFit(posts, dropped) <==> EndsOnce(posts, dropped)
  {
    if posts != [] {
      var init := posts[..|posts| - 1];
      FitsExactly(init, dropped);
      KindsInOrder(init);
    }
  }

  // ----- delivering them -----

  /** The messages about record `id`, the i-th one processed at time `when(i)`. */
  function Messages(id: nat, posts: seq<Status>, when: nat -> int): seq<Runs.Event> {
    if posts == [] then [] else
      var n := |posts| - 1;
      Messages(id, posts[..n], when) + [Runs.Message(id, posts[n], when(n))]
  }

  /** Record `k` is the only one with its identity, and its connection is being made. */
  ghost predicate Pending(d: Directory, k: nat) {
    && k < |d.peers| && d.peers[k].status == ConnectingServer
    && forall j :: 0 <= j < |d.peers| && j != k ==> d.peers[j].id != d.peers[k].id
  }

  /** The record is dropped as soon as it ends. */
  predicate DropsAtEnd(d: Directory, k: nat)
    requires k < |d.peers|
  {
    OtherConnected(d.peers, k) || d.peers[k].created < d.lastCleanup
  }

  /** `e` differs from `d` in the counters, and in record `k` being of this kind, or gone. */
  ghost predicate Reached(d: Directory, k: nat, e: Directory, gone: bool, kind: Kind)
    requires k < |d.peers|
  {
    && SameAddresses(d.servers, e.servers) && e.lastCleanup == d.lastCleanup
    && if gone then e.peers == Without(d.peers, k)
       else exists st: Status, m: int ::
         e.peers == d.peers[k := d.peers[k].(status := st, modified := m)] && KindOf(st) == kind
  }

  lemma FoundAt(peers: seq<Peer>, k: nat, id: nat)
    requires k < |peers| && peers[k].id == id && forall j :: 0 <= j < |peers| && j != k ==> peers[j].id != id
    ensures FindPeer(peers, id) == k && FindPeer(Without(peers, k), id) == -1
  {
    var rest := Without(peers, k);
    forall j | 0 <= j < |rest| ensures rest[j].id != id {
      assert rest[j] == peers[if j < k then j else j + 1];
    }
  }

  /** A message found by record `k` changes it, or drops it. */
  lemma DeliveredAt(d: Directory, k: nat, e: Directory, was: Status, m: int, st: Status, now: int)
    requires Pending(d, k) && Listed(d.peers[k], e.servers) && e.lastCleanup == d.lastCleanup
    requires e.peers == d.peers[k := d.peers[k].(status := was, modified := m)] && KindOf(was) != Outside
    ensures var f := Deliver(e, d.peers[k].id, st, now);
            && f.lastCleanup == d.lastCleanup
            && f.peers == if IsNotConnected(st) && DropsAtEnd(d, k) then Without(d.peers, k)
                          else e.peers[k := Marked(e.peers[k], st, now)]
    ensures DeliverFits(e, d.peers[k].id, st) <==> Ignored(st) || KindOf(was) == Leaves(st)
  {
    var p := d.peers[k];
    FoundAt(e.peers, k, p.id);
    SameOthers(d.peers, k, was, m);
    assert FindServer(e.servers, p.dstIp, p.dstPort) >= 0;
  }

  lemma ReachedNext(d: Directory, k: nat, e: Directory, gone: bool, kind: Kind, st: Status, now: int)
    requires WellFormed(d) && Pending(d, k) && Reached(d, k, e, gone, kind)
    requires kind != Outside
    ensures var f := Deliver(e, d.peers[k].id, st, now);
            Reached(d, k, f, gone || (IsNotConnected(st) && DropsAtEnd(d, k)), Becomes(kind, st))
    ensures DeliverFits(e, d.peers[k].id, st) <==> gone || Ignored(st) || kind == Leaves(st)
  {
    if gone {
      FoundAt(d.peers, k, d.peers[k].id);
    } else {
      var was, m :| e.peers == d.peers[k := d.peers[k].(status := was, modified := m)] && KindOf(was) == kind;
      ReachedHere(d, k, e, was, m, st, now);
    }
  }

  lemma ReachedHere(d: Directory, k: nat, e: Directory, was: Status, m: int, st: Status, now: int)
    requires WellFormed(d) && Pending(d, k) && SameAddresses(d.servers, e.servers) && e.lastCleanup == d.lastCleanup
    requires e.peers == d.peers[k := d.peers[k].(status := was, modified := m)] && KindOf(was) != Outside
    ensures var f := Deliver(e, d.peers[k].id, st, now);
            Reached(d, k, f, IsNotConnected(st) && DropsAtEnd(d, k), Becomes(KindOf(was), st))
    ensures DeliverFits(e, d.peers[k].id, st) <==> Ignored(st) || KindOf(was) == Leaves(st)
  {
    var p := d.peers[k];
    DeliveredAddresses(d, e, p.id, st, now);
    assert Listed(p, e.servers) by {
      assert Listed(p, d.servers);
    }
    DeliveredAt(d, k, e, was, m, st, now);
    var q := Marked(e.peers[k], st, now);
    assert KindOf(q.status) == Becomes(KindOf(was), st);
    assert e.peers[k := q] == d.peers[k := p.(status := q.status, modified := q.modified)];
  }

  lemma DeliveredAddresses(d: Directory, e: Directory, id: nat, st: Status, now: int)
    requires SameAddresses(d.servers, e.servers)
    ensures SameAddresses(d.servers, Deliver(e, id, st, now).servers)
  {
    Runs.KeepsAddresses(e, Runs.Message(id, st, now));
  }

  lemma SameOthers(peers: seq<Peer>, k: nat, st: Status, m: int)
    requires k < |peers|
    ensures var marked := peers[k := peers[k].(status := st, modified := m)];
            && (OtherConnected(marked, k) <==> OtherConnected(peers, k))
            && Without(marked, k) == Without(peers, k)
  {
    var marked := peers[k := peers[k].(status := st, modified := m)];
    assert forall j :: 0 <= j < |peers| && j != k ==> marked[j] == peers[j];
  }

  lemma {:induction false} OneMoreEvent(d: Directory, es: seq<Runs.Event>, e: Runs.Event)
    ensures Runs.After(d, es + [e]) == Runs.Apply(Runs.After(d, es), e)
    ensures Runs.AllKeep(d, es + [e]) <==> Runs.AllKeep(d, es) && Runs.Keeps(Runs.After(d, es), e)
    ensures Runs.IsRun(d, es + [e]) <==> Runs.IsRun(d, es) && Runs.Enabled(Runs.After(d, es), e)
    decreases |es|
  {
    if es == [] {
      assert [e][1..] == [] && es + [e] == [e];
    } else {
      assert (es + [e])[1..] == es[1..] + [e];
      OneMoreEvent(Runs.Apply(d, es[0]), es[1..], e);
    }
  }

  lemma {:induction false} MessagesReach(d: Directory, k: nat, posts: seq<Status>, when: nat -> int)
    requires WellFormed(d) && Pending(d, k) && RelayRuns.InOrder(posts)
    ensures var es := Messages(d.peers[k].id, posts, when);
            && Runs.IsRun(d, es)
            && Reached(d, k, Runs.After(d, es), DropsAtEnd(d, k) && RelayRuns.Terminals(posts) > 0, KindAfter(posts))
            && (Runs.AllKeep(d, es) <==> AllFit(posts, DropsAtEnd(d, k)))
  {
    var id := d.peers[k].id;
    if posts == [] {
      assert d.peers == d.peers[k := d.peers[k].(status := ConnectingServer, modified := d.peers[k].modified)];
    } else {
      var n := |posts| - 1;
      var init, st := posts[..n], posts[n];
      MessagesReach(d, k, init, when);
      var es := Messages(id, init, when);
      OneMoreEvent(d, es, Runs.Message(id, st, when(n)));
      KindsInOrder(init);
      var gone := DropsAtEnd(d, k) && RelayRuns.Terminals(init) > 0;
      ReachedNext(d, k, Runs.After(d, es), gone, KindAfter(init), st, when(n));
    }
  }

  /** From exact counters, processing the messages of a pair in order keeps them exact
      throughout if and only if the pair was established or failed before it ended and,
      unless its record is dropped when it ends, it reported only one end. */
  lemma PairCountedExactly(d: Directory, k: nat, run: seq<RelayRuns.Event>, when: nat -> int)
    requires WellFormed(d) && Exact(d) && Pending(d, k)
    ensures var posts := RelayRuns.Run(RelayRuns.BORN, run).pair.posts;
            Runs.AlwaysExact(d, Messages(d.peers[k].id, posts, when)) <==> EndsOnce(posts, DropsAtEnd(d, k))
  {
    var posts := RelayRuns.Run(RelayRuns.BORN, run).pair.posts;
    RelayRuns.NotificationProtocol(run);
    MessagesReach(d, k, posts, when);
    Runs.CountersStayExact(d, Messages(d.peers[k].id, posts, when));
    FitsExactly(posts, DropsAtEnd(d, k));
  }

  const QUIET :=
    Relay.Io(false, false, false, false, Relay.ReceiveAgain, Relay.ReceiveAgain, Relay.SendAgain, Relay.SendAgain)

  const CONNECT := RelayRuns.Manage(QUIET.(serverWritable := true))

  const ONE_BYTE := RelayRuns.Manage(QUIET.(serverReadable := true, fromServer := Relay.Received([65])))

  const SERVER_CLOSES := RelayRuns.Manage(QUIET.(serverReadable := true, fromServer := Relay.ReceiveClosed))

  const CLIENT_FAILS := RelayRuns.Manage(QUIET.(clientWritable := true, toClient := Relay.SendError))

  const HALF_OPEN_RUN := [CONNECT, ONE_BYTE, SERVER_CLOSES, CLIENT_FAILS]

  lemma RunFirst(x: RelayRuns.Life, e: RelayRuns.Event, rest: seq<RelayRuns.Event>)
    ensures RelayRuns.Run(x, [e] + rest) == RelayRuns.Run(RelayRuns.Step(x, e), rest)
  {
    assert ([e] + rest)[1..] == rest;
  }

  lemma RunOfFour(e1: RelayRuns.Event, e2: RelayRuns.Event, e3: RelayRuns.Event, e4: RelayRuns.Event, x: RelayRuns.Life)
    ensures RelayRuns.Run(x, [e1] + ([e2] + ([e3] + ([e4] + [])))) ==
            RelayRuns.Step(RelayRuns.Step(RelayRuns.Step(RelayRuns.Step(x, e1), e2), e3), e4)
  {
    var x1 := RelayRuns.Step(x, e1);
    var x2 := RelayRuns.Step(x1, e2);
    var x3 := RelayRuns.Step(x2, e3);
    RunFirst(x, e1, [e2] + ([e3] + ([e4] + [])));
    RunFirst(x1, e2, [e3] + ([e4] + []));
    RunFirst(x2, e3, [e4] + []);
    RunFirst(x3, e4, []);
  }

  lemma HalfOpened() returns (x: RelayRuns.Life)
    ensures x == RelayRuns.Step(RelayRuns.Step(RelayRuns.BORN, CONNECT), ONE_BYTE)
    ensures x.pair.posts == [Established] && x.pair.down.queue == [65] && x.pair.client && x.pair.server
    ensures x.relaying && !x.crashed
  {
    x := RelayRuns.Step(RelayRuns.BORN, CONNECT);
    assert x.pair == Relay.FRESH.(established := true, posts := [Established]);
    x := RelayRuns.Step(x, ONE_BYTE);
  }

  /** A half-open pair reports two ends: the server closes with a byte unsent, and then the
      client is found lost. */
  lemma TwoEndsReported()
    ensures !EndsOnce(RelayRuns.Run(RelayRuns.BORN, HALF_OPEN_RUN).pair.posts, false)
  {
    assert [CONNECT] + ([ONE_BYTE] + ([SERVER_CLOSES] + ([CLIENT_FAILS] + []))) == HALF_OPEN_RUN;
    RunOfFour(CONNECT, ONE_BYTE, SERVER_CLOSES, CLIENT_FAILS, RelayRuns.BORN);
    var x := HalfOpened();
    var y := RelayRuns.Step(x, SERVER_CLOSES);
    assert y.pair.posts == [Established, ServerClosed] && y.pair.client && !y.pair.server && y.pair.down.queue == [65];
    var z := RelayRuns.Step(y, CLIENT_FAILS);
    assert z.pair.posts == [Established, ServerClosed, ClientLost, Cancelled];
    TwoEnds();
  }

  /** A pair that is kicked while it is connecting reports an end that it never established or
      failed to reach. */
  lemma ConnectingEndReported()
    ensures !EndsOnce(RelayRuns.Run(RelayRuns.BORN, [RelayRuns.KickRequest]).pair.posts, false)
  {
    var x := RelayRuns.Step(RelayRuns.BORN, RelayRuns.KickRequest);
    RunFirst(RelayRuns.BORN, RelayRuns.KickRequest, []);
    assert [RelayRuns.KickRequest] + [] == [RelayRuns.KickRequest];
    assert x.pair.posts == [ServerClosed];
    OneEnd();
  }

  lemma OneEnd()
    ensures RelayRuns.Terminals([ServerClosed]) == 1
    ensures RelayRuns.CountOf([ServerClosed], Established) == 0 && RelayRuns.CountOf([ServerClosed], Failed) == 0
  {
    var posts := [ServerClosed];
    assert posts[..0] == [];
  }

  lemma TwoEnds()
    ensures RelayRuns.Terminals([Established, ServerClosed, ClientLost, Cancelled]) == 2
  {
    var posts := [Established, ServerClosed, ClientLost, Cancelled];
    var three, two := [Established, ServerClosed, ClientLost], [Established, ServerClosed];
    assert posts[..3] == three && three[..2] == two && two[..1] == [Established] && [Established][..0] == [];
    assert RelayRuns.Terminals([Established]) == 0;
    assert RelayRuns.Terminals(two) == 1;
    assert RelayRuns.Terminals(three) == 2;
  }

}
