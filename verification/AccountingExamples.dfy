/** Short runs from a new list that lead into the cases where the counters drift from the
    records, or a client is refused although a server is allowed. */
module AccountingExamples {
  import opened Lists
  import opened Statuses
  import opened Filters
  import opened Records
  import opened Selection
  import opened Directories
  import opened Accounting
  import opened AccountingRuns
  import RelayAccounting
  import RelayRuns

  const RETRY := 30000

  function IdleServer(ip: Ip): Server { Server(ip, 80, 0, 0, 0, 0, 1, 0, false, 0) }

  function NewList(ips: seq<Ip>, rules: seq<Rule>): Directory {
    Directory(seq(|ips|, i requires 0 <= i < |ips| => IdleServer(ips[i])), [], rules, 9999, RETRY, 0, 0)
  }

  lemma RunFirst(d: Directory, e: Event, rest: seq<Event>)
    ensures IsRun(d, [e] + rest) <==> Enabled(d, e) && IsRun(Apply(d, e), rest)
    ensures AllKeep(d, [e] + rest) <==> Keeps(d, e) && AllKeep(Apply(d, e), rest)
    ensures After(d, [e] + rest) == After(Apply(d, e), rest)
  {
    assert ([e] + rest)[1..] == rest;
  }

  // ----- continuing a session on the same port -----

  function Assigned(client: Ip, port: int, now: int, place: nat): Event { Assigning(client, port, now, 0, true, place) }

  lemma OneServerPick(d: Directory, client: Ip, now: int)
    requires |d.servers| == 1 && d.rules == []
    ensures IsPick(d, client, now, true, 0)
  {
    ScanStart(Candidates(d, client, now));
  }

  /** A client connects and is established, and connects again from the same port. */
  function SamePort(client: Ip): seq<Event> {
    [Assigned(client, 5000, 1, 0)] + ([Message(0, Established, 2)] + ([Search(client, 5000, 3, 0, Reuse(0, 0))] + []))
  }

  lemma SamePortDrifts(ip: Ip, client: Ip)
    ensures var d := NewList([ip], []);
            IsNew(d) && IsRun(d, SamePort(client)) && !AlwaysExact(d, SamePort(client))
  {
    var d := NewList([ip], []);
    var e1, e2, e3 := Assigned(client, 5000, 1, 0), Message(0, Established, 2), Search(client, 5000, 3, 0, Reuse(0, 0));
    var p := NewPeer(0, client, 5000, ip, 80, 1, 0);
    var d1 := d.(cursor := 0, servers := [IdleServer(ip).(connecting := 1)], peers := [p], nextId := 1);
    var s2 := IdleServer(ip).(connected := 1, lastAttempt := 2);
    var d2 := d1.(servers := [s2], peers := [p.(status := Established, modified := 2)]);
    OneServerPick(d, client, 1);
    assert Apply(d, e1) == d1;
    assert Apply(d1, e2) == d2;
    assert IsSession(d2, client, 5000, 3, Reuse(0, 0)) by {
      assert LastAt(d2.servers, ip) == 0;
      assert PortMatch(d2, client, 5000, 3, 0);
    }
    assert !Keeps(d2, e3);
    RunFirst(d2, e3, []);
    RunFirst(d1, e2, [e3] + []);
    RunFirst(d, e1, [e2] + ([e3] + []));
    NewListIsExact(d);
    CountersStayExact(d, SamePort(client));
  }

  // ----- a pair that does not report one end -----

  function FirstAssigned(ip: Ip, client: Ip): Directory {
    NewList([ip], []).(cursor := 0, nextId := 1, servers := [IdleServer(ip).(connecting := 1)],
                       peers := [NewPeer(0, client, 5000, ip, 80, 1, 0)])
  }

  /** From a new list with one server, the messages of the first client's relay pair put the
      counters off. */
  ghost predicate Drifts(ip: Ip, client: Ip, run: seq<RelayRuns.Event>, when: nat -> int) {
    var d, posts := NewList([ip], []), RelayRuns.Run(RelayRuns.BORN, run).pair.posts;
    var es := [Assigned(client, 5000, 1, 0)] + RelayAccounting.Messages(0, posts, when);
    IsNew(d) && IsRun(d, es) && !AlwaysExact(d, es)
  }

  /** They do whenever the pair does not end once, as reported. */
  lemma PairDrifts(ip: Ip, client: Ip, run: seq<RelayRuns.Event>, when: nat -> int)
    requires !RelayAccounting.EndsOnce(RelayRuns.Run(RelayRuns.BORN, run).pair.posts, false)
    ensures Drifts(ip, client, run, when)
  {
    var d, posts := NewList([ip], []), RelayRuns.Run(RelayRuns.BORN, run).pair.posts;
    var e, told := Assigned(client, 5000, 1, 0), RelayAccounting.Messages(0, posts, when);
    var d1 := FirstAssigned(ip, client);
    OneServerPick(d, client, 1);
    assert Apply(d, e) == d1;
    NewListIsExact(d);
    StepExact(d, e);
    StepWellFormed(d, e);
    RelayRuns.NotificationProtocol(run);
    RelayAccounting.MessagesReach(d1, 0, posts, when);
    RelayAccounting.PairCountedExactly(d1, 0, run, when);
    RunFirst(d, e, told);
    assert ([e] + told)[1..] == told;
  }

  /** Two such pairs: one kicked while it is connecting, and one that is half open when its
      second end fails. */
  lemma TwoPairsDrift(ip: Ip, client: Ip, when: nat -> int)
    ensures Drifts(ip, client, [RelayRuns.KickRequest], when)
    ensures Drifts(ip, client, RelayAccounting.HALF_OPEN_RUN, when)
  {
    RelayAccounting.ConnectingEndReported();
    RelayAccounting.TwoEndsReported();
    PairDrifts(ip, client, [RelayRuns.KickRequest], when);
    PairDrifts(ip, client, RelayAccounting.HALF_OPEN_RUN, when);
  }

  // ----- recreating a session -----

  lemma IdlePick(d: Directory, client: Ip, now: int)
    requires |d.servers| == 2 && d.rules == []
    requires d.servers[ScanStartAt(d)] == IdleServer(d.servers[ScanStartAt(d)].ip)
    requires forall i :: 0 <= i < 2 ==> HasCounts(d.servers[i]) && d.servers[i].weight == 1
    ensures IsPick(d, client, now, true, 0)
  {
    var v := Candidates(d, client, now);
    ScanStart(v);
    ScanStep(v, 1, true, 0);
  }

  /** A client's connection to the first server fails, the next one, to the second server,
      ends well, and then the client comes a third time. */
  function ThreeVisits(client: Ip): seq<Event> {
    [Assigned(client, 1, 10, 0)] + ([Message(0, Failed, 20)] +
    ([Assigned(client, 2, 30, 0)] + ([Message(1, Established, 40)] + ([Message(1, ServerClosed, 50)] +
    ([Search(client, 3, 60, 0, Recreate(1, 1))] + ([Recreating(client, 3, 1, 1, 60, 0)] + []))))))
  }

  function FirstFailed(x: Ip, y: Ip, client: Ip): Directory {
    NewList([x, y], []).(
      cursor := 0, nextId := 1,
      servers := [IdleServer(x).(disconnected := 1, lastFailed := true, lastAttempt := 20), IdleServer(y)],
      peers := [NewPeer(0, client, 1, x, 80, 10, 0).(status := Failed, modified := 20)])
  }

  lemma ReachFirstFailed(x: Ip, y: Ip, client: Ip)
    requires x != y
    ensures var d, e := NewList([x, y], []), Assigned(client, 1, 10, 0);
            Enabled(d, e) && Apply(Apply(d, e), Message(0, Failed, 20)) == FirstFailed(x, y, client)
  {
    var d, e := NewList([x, y], []), Assigned(client, 1, 10, 0);
    IdlePick(d, client, 10);
    var p := NewPeer(0, client, 1, x, 80, 10, 0);
    var d1 := d.(cursor := 0, nextId := 1, servers := [IdleServer(x).(connecting := 1), IdleServer(y)], peers := [p]);
    assert Apply(d, e) == d1;
    assert Apply(d1, Message(0, Failed, 20)) == FirstFailed(x, y, client);
  }

  function SecondEnded(x: Ip, y: Ip, client: Ip): Directory {
    var d := FirstFailed(x, y, client);
    d.(cursor := 1, nextId := 2,
       servers := [d.servers[0], IdleServer(y).(finished := 1, lastAttempt := 40)],
       peers := [d.peers[0], NewPeer(1, client, 2, y, 80, 30, 0).(status := ServerClosed, modified := 50)])
  }

  lemma ReachSecondEnded(x: Ip, y: Ip, client: Ip)
    requires x != y
    ensures var d, e := FirstFailed(x, y, client), Assigned(client, 2, 30, 0);
            && Enabled(d, e)
            && Apply(Apply(Apply(d, e), Message(1, Established, 40)), Message(1, ServerClosed, 50)) ==
               SecondEnded(x, y, client)
  {
    var d, e := FirstFailed(x, y, client), Assigned(client, 2, 30, 0);
    IdlePick(d, client, 30);
    var p := NewPeer(1, client, 2, y, 80, 30, 0);
    var d1 := d.(cursor := 1, nextId := 2, servers := [d.servers[0], IdleServer(y).(connecting := 1)],
                 peers := [d.peers[0], p]);
    assert Apply(d, e) == d1;
    var d2 := d1.(servers := [d.servers[0], IdleServer(y).(connected := 1, lastAttempt := 40)],
                  peers := [d.peers[0], p.(status := Established, modified := 40)]);
    SecondIsFound(d1, y);
    assert Apply(d1, Message(1, Established, 40)) == d2;
    SecondIsFound(d2, y);
    assert Apply(d2, Message(1, ServerClosed, 50)) == SecondEnded(x, y, client);
  }

  lemma SecondIsFound(d: Directory, y: Ip)
    requires |d.peers| == 2 && d.peers[0].id == 0 && d.peers[1].id == 1
    requires |d.servers| == 2 && d.servers[0].ip != y && d.servers[1].ip == y && d.servers[1].port == 80
    ensures FindPeer(d.peers, 1) == 1 && FindServer(d.servers, y, 80) == 1
  {
  }

  lemma RecreationMisfits(x: Ip, y: Ip, client: Ip)
    requires x != y
    ensures var d := SecondEnded(x, y, client);
            IsSession(d, client, 3, 60, Recreate(1, 1)) && !Keeps(d, Recreating(client, 3, 1, 1, 60, 0))
  {
    var d := SecondEnded(x, y, client);
    assert LastAt(d.servers, y) == 1;
    FreshAndStale(d.peers, client);
    assert d.peers[0] in Stale(d.peers, client);
  }

  lemma ThreeVisitsMisfit(x: Ip, y: Ip, client: Ip)
    requires x != y
    ensures var d := NewList([x, y], []); IsRun(d, ThreeVisits(client)) && !AllKeep(d, ThreeVisits(client))
  {
    ReachFirstFailed(x, y, client);
    ReachSecondEnded(x, y, client);
    RecreationMisfits(x, y, client);
    ThreeVisitsRun(NewList([x, y], []), FirstFailed(x, y, client), SecondEnded(x, y, client), client);
  }

  lemma ThreeVisitsDrift(x: Ip, y: Ip, client: Ip)
    requires x != y
    ensures var d := NewList([x, y], []);
            IsNew(d) && IsRun(d, ThreeVisits(client)) && !AlwaysExact(d, ThreeVisits(client))
  {
    ThreeVisitsMisfit(x, y, client);
    NewListIsExact(NewList([x, y], []));
    CountersStayExact(NewList([x, y], []), ThreeVisits(client));
  }

  lemma ThreeVisitsRun(d: Directory, f: Directory, g: Directory, client: Ip)
    requires Enabled(d, Assigned(client, 1, 10, 0))
    requires Apply(Apply(d, Assigned(client, 1, 10, 0)), Message(0, Failed, 20)) == f
    requires Enabled(f, Assigned(client, 2, 30, 0))
    requires Apply(Apply(Apply(f, Assigned(client, 2, 30, 0)), Message(1, Established, 40)),
                   Message(1, ServerClosed, 50)) == g
    requires |g.servers| > 0 && IsSession(g, client, 3, 60, Recreate(1, 1))
    requires !Keeps(g, Recreating(client, 3, 1, 1, 60, 0))
    ensures IsRun(d, ThreeVisits(client)) && !AllKeep(d, ThreeVisits(client))
  {
    var last := [Search(client, 3, 60, 0, Recreate(1, 1))] + ([Recreating(client, 3, 1, 1, 60, 0)] + []);
    var e4, e5 := Message(1, Established, 40), Message(1, ServerClosed, 50);
    LastVisitRuns(g, client);
    VisitRuns(f, Assigned(client, 2, 30, 0), e4, [e5] + last);
    RunFirst(Apply(Apply(f, Assigned(client, 2, 30, 0)), e4), e5, last);
    VisitRuns(d, Assigned(client, 1, 10, 0), Message(0, Failed, 20),
              [Assigned(client, 2, 30, 0)] + ([e4] + ([e5] + last)));
  }

  lemma LastVisitRuns(g: Directory, client: Ip)
    requires |g.servers| > 0 && IsSession(g, client, 3, 60, Recreate(1, 1))
    requires !Keeps(g, Recreating(client, 3, 1, 1, 60, 0))
    ensures var last := [Search(client, 3, 60, 0, Recreate(1, 1))] + ([Recreating(client, 3, 1, 1, 60, 0)] + []);
            IsRun(g, last) && !AllKeep(g, last)
  {
    var search, again := Search(client, 3, 60, 0, Recreate(1, 1)), Recreating(client, 3, 1, 1, 60, 0);
    RunFirst(g, again, []);
    RunFirst(g, search, [again] + []);
    assert Apply(g, search) == g;
  }

  /** Two events before the rest of a run. */
  lemma VisitRuns(d: Directory, e1: Event, m: Event, rest: seq<Event>)
    requires Enabled(d, e1) && m.Message?
    ensures IsRun(d, [e1] + ([m] + rest)) <==> IsRun(Apply(Apply(d, e1), m), rest)
    ensures !AllKeep(Apply(Apply(d, e1), m), rest) ==> !AllKeep(d, [e1] + ([m] + rest))
  {
    RunFirst(Apply(d, e1), m, rest);
    RunFirst(d, e1, [m] + rest);
  }

  // ----- a refusal -----

  const DENIED := Ip(128, 0, 0, 1)

  const PERMITTED := Ip(10, 0, 0, 1)

  /** Nobody may be sent to an address in the upper half. */
  const UPPER_HALF := Rule(DENIED, PrefixMask(0), DENIED, PrefixMask(1), false)

  lemma TopBits()
    ensures Bit(DENIED, 0) && !Bit(PERMITTED, 0)
  {
    assert BitOf(128, 7) by {
      assert BitOf(64, 6) && BitOf(32, 5);
    }
    assert !BitOf(10, 7) by {
      assert !BitOf(5, 6) && !BitOf(2, 5);
    }
  }

  /** The rule denies every client one of the servers and allows it the other. */
  lemma UpperHalfDenied(client: Ip)
    ensures DENIED != PERMITTED
    ensures !Allowed([UPPER_HALF], DENIED, client) && Allowed([UPPER_HALF], PERMITTED, client)
  {
    PrefixMatch(client, DENIED, 0);
    assert SameLeadingBits(client, DENIED, 0);
    PrefixMatch(PERMITTED, DENIED, 1);
    TopBits();
    assert !SameLeadingBits(PERMITTED, DENIED, 1);
    assert [UPPER_HALF][1..] == [];
  }

  /** A client's connection to the one server it may use fails, and its record is cleaned. */
  function FailedAndCleaned(client: Ip): seq<Event> {
    [Assigned(client, 1, 10, 1)] + ([Message(0, Failed, 20)] + ([CleanUp] + []))
  }

  function OneFailed(x: Ip, y: Ip, rules: seq<Rule>): Directory {
    NewList([x, y], rules).(
      cursor := 1, nextId := 1, servers := [IdleServer(x), IdleServer(y).(lastFailed := true, lastAttempt := 20)])
  }

  lemma SecondPick(x: Ip, y: Ip, rules: seq<Rule>, client: Ip)
    requires !Allowed(rules, x, client) && Allowed(rules, y, client)
    ensures IsPick(NewList([x, y], rules), client, 10, true, 1)
  {
    var v := Candidates(NewList([x, y], rules), client, 10);
    ScanStart(v);
    ScanStep(v, 1, false, 0);
  }

  lemma ReachOneFailed(x: Ip, y: Ip, rules: seq<Rule>, client: Ip)
    requires x != y && !Allowed(rules, x, client) && Allowed(rules, y, client)
    ensures var d := NewList([x, y], rules);
            IsRun(d, FailedAndCleaned(client)) && After(d, FailedAndCleaned(client)) == OneFailed(x, y, rules)
  {
    var d, e1, e2 := NewList([x, y], rules), Assigned(client, 1, 10, 1), Message(0, Failed, 20);
    SecondPick(x, y, rules, client);
    assert Enabled(d, e1);
    var p := NewPeer(0, client, 1, y, 80, 10, 0);
    var d1 := d.(cursor := 1, nextId := 1, peers := [p], servers := [IdleServer(x), IdleServer(y).(connecting := 1)]);
    assert Apply(d, e1) == d1;
    var failed := IdleServer(y).(disconnected := 1, lastFailed := true, lastAttempt := 20);
    var d2 := d1.(servers := [IdleServer(x), failed], peers := [p.(status := Failed, modified := 20)]);
    assert FindServer(d1.servers, y, 80) == 1;
    assert Apply(d1, e2) == d2;
    OneCleaned(d2, x, y);
    RunFirst(d2, CleanUp, []);
    RunFirst(d1, e2, [CleanUp] + []);
    RunFirst(d, e1, [e2] + ([CleanUp] + []));
  }

  lemma OneCleaned(d: Directory, x: Ip, y: Ip)
    requires |d.peers| == 1 && d.peers[0].status == Failed && d.peers[0].dstIp == y
    requires |d.servers| == 2 && d.servers[0].ip == x != y == d.servers[1].ip && d.servers[1].disconnected == 1
    ensures Clean(d) == d.(peers := [], servers := [d.servers[0], d.servers[1].(disconnected := 0)])
  {
    var p := d.peers[0];
    assert d.peers[..0] == [];
    assert UncountAll(d.servers, d.peers[..0]) == d.servers;
    assert FirstAt(d.servers, y) == 1;
    assert UncountAll(d.servers, d.peers) == Uncount(d.servers, p);
    assert Uncount(d.servers, p) == [d.servers[0], d.servers[1].(disconnected := 0)];
    SelectNone(d.peers, IsKept);
  }

  /** From a new list the run leads to where the client's next connection is refused, while
      the failed server, which the rules allow it, is left alone: the scan starts from the
      other one, which is available but denied. */
  lemma RefusedThoughAllowed(x: Ip, y: Ip, rules: seq<Rule>, client: Ip, port: int, e: Directory, r: Option<Peer>)
    requires x != y && !Allowed(rules, x, client) && Allowed(rules, y, client)
    requires var d := NewList([x, y], rules);
             Serves(After(d, FailedAndCleaned(client)), client, port, 100, 0, e, r)
    ensures var d := NewList([x, y], rules); IsNew(d) && IsRun(d, FailedAndCleaned(client))
    ensures r == None
  {
    ReachOneFailed(x, y, rules, client);
    var d := OneFailed(x, y, rules);
    AssignmentExists(Candidates(d, client, 100));
    RefusedExactly(d, client, port, 100, 0, e, r);
  }

}
