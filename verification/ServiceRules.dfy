/** What a server's score counts, when it is available and how long it is left alone after a
    failure, said in terms of its records and of the messages about them. */
module ServiceRules {
  import opened Statuses
  import opened Filters
  import opened Records
  import opened Selection
  import opened Directories
  import opened Accounting
  import opened AccountingRuns

  // ----- scores -----

  /** With exact counters the start's score is the number of its records, whatever became of
      them, per weight; that of every other server counts those that ended well twice and
      those in progress not at all. */
  lemma ScoresCountRecords(d: Directory, i: nat)
    requires Exact(d) && i < |d.servers|
    ensures var s := d.servers[i];
            var live, broken := Count(d.peers, s.ip, Live), Count(d.peers, s.ip, Broken);
            var over := Count(d.peers, s.ip, Over);
            var weight := (if s.weight > 1 then s.weight else 1) as real;
            && StartLoad(s) == (Count(d.peers, s.ip, InProgress) + live + broken + over) as real / weight
            && ScanLoad(s) == (live + broken + 2 * over) as real / weight
  {
    assert Agrees(d.servers[i], d.peers);
  }

  // ----- availability -----

  /** With exact counters a server is available when it has fewer established connections
      than its limit, if it has one, and has not failed less than the retry time ago. */
  lemma AvailableMeans(d: Directory, client: Ip, now: int, place: nat)
    requires Exact(d) && place < |d.servers|
    ensures var i := At(ScanStartAt(d), place, |d.servers|);
            var s, v := d.servers[i], Candidates(d, client, now)[place];
            && (v.unavailable <==> || (s.maxConnections != 0 && Count(d.peers, s.ip, Live) >= s.maxConnections)
                                   || (s.lastFailed && now < s.lastAttempt + d.retry))
            && (v.allowed <==> Allowed(d.rules, s.ip, client)) && v.weight == s.weight
            && v.load == (if place == 0 then StartLoad(s) else ScanLoad(s))
  {
    assert Agrees(d.servers[At(ScanStartAt(d), place, |d.servers|)], d.peers);
  }

  // ----- after a failure -----

  /** The event is a message of failure or establishment about a record of server `i`. */
  predicate Resets(d: Directory, e: Event, i: nat) {
    && e.Message? && (e.st.Failed? || e.st.Established?)
    && var k := FindPeer(d.peers, e.id);
       k >= 0 && FindServer(d.servers, d.peers[k].dstIp, d.peers[k].dstPort) == i
  }

  predicate NeverResets(d: Directory, es: seq<Event>, i: nat)
    decreases |es|
  {
    es == [] || (!Resets(d, es[0], i) && NeverResets(Apply(d, es[0]), es[1..], i))
  }

  predicate SameFailure(s: Server, t: Server) { s.lastFailed == t.lastFailed && s.lastAttempt == t.lastAttempt }

  lemma {:induction false} UncountKeepsFailures(servers: seq<Server>, ps: seq<Peer>, i: nat)
    requires i < |servers|
    ensures SameFailure(UncountAll(servers, ps)[i], servers[i])
    decreases |ps|
  {
    if ps != [] {
      UncountKeepsFailures(servers, ps[..|ps| - 1], i);
    }
  }

  lemma StepKeepsFailure(d: Directory, e: Event, i: nat)
    requires i < |d.servers| && !Resets(d, e, i)
    ensures i < |Apply(d, e).servers| && SameFailure(Apply(d, e).servers[i], d.servers[i])
    ensures Apply(d, e).retry == d.retry
  {
    KeepsAddresses(d, e);
    if e.CleanUp? {
      UncountKeepsFailures(d.servers, d.peers, i);
    }
  }

  lemma {:induction false} RunKeepsFailure(d: Directory, es: seq<Event>, i: nat)
    requires i < |d.servers| && NeverResets(d, es, i)
    ensures var e := After(d, es); i < |e.servers| && SameFailure(e.servers[i], d.servers[i]) && e.retry == d.retry
    decreases |es|
  {
    if es != [] {
      StepKeepsFailure(d, es[0], i);
      RunKeepsFailure(Apply(d, es[0]), es[1..], i);
    }
  }

  /** The message about a listed record resets what is known of its server. */
  lemma MessageResets(d: Directory, id: nat, st: Status, now: int)
    requires WellFormed(d) && FindPeer(d.peers, id) >= 0
    ensures var p := d.peers[FindPeer(d.peers, id)];
            var i := FindServer(d.servers, p.dstIp, p.dstPort);
            && 0 <= i < |d.servers| == |Deliver(d, id, st, now).servers| && Deliver(d, id, st, now).retry == d.retry
            && var s := Deliver(d, id, st, now).servers[i];
               && (st.Failed? ==> s.lastFailed && s.lastAttempt == now)
               && (st.Established? ==> !s.lastFailed && s.lastAttempt == now)
  {
    var p := d.peers[FindPeer(d.peers, id)];
    assert p in d.peers && Listed(p, d.servers);
    var i := FindServer(d.servers, p.dstIp, p.dstPort);
    MovedResets(d.servers[i], st, Drops(d, FindPeer(d.peers, id), st), now);
  }

  lemma MovedResets(s: Server, st: Status, dropped: bool, now: int)
    ensures st.Failed? ==> Moved(s, st, dropped, now).lastFailed && Moved(s, st, dropped, now).lastAttempt == now
    ensures st.Established? ==> !Moved(s, st, dropped, now).lastFailed && Moved(s, st, dropped, now).lastAttempt == now
  {
  }

  /** A server whose connection failed is left alone for the retry time, whatever else
      happens, unless another of its connections fails or is established: until then it is
      not available and no session on it may be continued, and afterwards both end. */
  lemma FailedIsLeftAlone(d: Directory, id: nat, failed: int, es: seq<Event>, client: Ip, now: int, place: nat)
    requires WellFormed(d) && FindPeer(d.peers, id) >= 0 && place < |d.servers|
    requires var p := d.peers[FindPeer(d.peers, id)];
             var i := FindServer(d.servers, p.dstIp, p.dstPort);
             i >= 0 ==> NeverResets(Deliver(d, id, Failed, failed), es, i)
    ensures var p := d.peers[FindPeer(d.peers, id)];
            var i := FindServer(d.servers, p.dstIp, p.dstPort);
            var e := After(Deliver(d, id, Failed, failed), es);
            && 0 <= i < |e.servers| == |d.servers|
            && (now < failed + d.retry && At(ScanStartAt(e), place, |e.servers|) == i ==>
                  Candidates(e, client, now)[place].unavailable)
            && (now < failed + d.retry ==>
                  forall k :: 0 <= k < |e.peers| && LastAt(e.servers, e.peers[k].dstIp) == i ==>
                    !Eligible(e, client, now, k))
            && (now >= failed + d.retry ==> !InRetryWindow(e.servers[i], now, e.retry))
  {
    MessageResets(d, id, Failed, failed);
    var p := d.peers[FindPeer(d.peers, id)];
    var i := FindServer(d.servers, p.dstIp, p.dstPort);
    var d1 := Deliver(d, id, Failed, failed);
    RunKeepsFailure(d1, es, i);
    AfterKeepsAddresses(d1, es);
  }

  lemma {:induction false} AfterKeepsAddresses(d: Directory, es: seq<Event>)
    ensures SameAddresses(d.servers, After(d, es).servers)
    decreases |es|
  {
    if es != [] {
      KeepsAddresses(d, es[0]);
      AfterKeepsAddresses(Apply(d, es[0]), es[1..]);
    }
  }

}
