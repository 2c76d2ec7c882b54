/** Runs of the server list: messages, cleaning, purges and the separately locked steps of
    serving a client, interleaved in any order. */
module AccountingRuns {
  import opened Statuses
  import opened Filters
  import opened Records
  import opened Selection
  import opened Directories
  import opened Accounting

  /** `Search` and `Recreating` are the two locked sections of looking for a previous
      session; between them anything may happen, so the second takes any indices. */
  datatype Event =
    | Message(id: nat, st: Status, now: int)
    | CleanUp
    | PurgeAll(now: int)
    | Search(client: Ip, port: int, now: int, manager: nat, session: Session)
    | Recreating(client: Ip, port: int, index: int, server: int, now: int, manager: nat)
    | Assigning(client: Ip, port: int, now: int, manager: nat, found: bool, place: nat)

  ghost predicate Enabled(d: Directory, e: Event) {
    match e
    case Message(_, _, _) => true
    case CleanUp => true
    case PurgeAll(_) => true
    case Search(client, port, now, manager, session) => |d.servers| > 0 && IsSession(d, client, port, now, session)
    case Recreating(_, _, _, _, _, _) => |d.servers| > 0
    case Assigning(client, _, now, _, found, place) => IsPick(d, client, now, found, place)
  }

  function Apply(d: Directory, e: Event): Directory {
    match e
    case Message(id, st, now) => Deliver(d, id, st, now)
    case CleanUp => Clean(d)
    case PurgeAll(now) => d.(lastCleanup := now)
    case Search(_, port, now, manager, session) => AfterSearch(d, port, now, manager, session)
    case Recreating(client, port, index, server, now, manager) =>
      RecreateSession(d, client, port, index, server, now, manager)
    case Assigning(client, port, now, manager, found, place) =>
      if place < |d.servers| then Assign(d, client, port, now, manager, found, place) else d
  }

  /** Decidable before the step: it will keep exact counters exact. */
  predicate Keeps(d: Directory, e: Event) {
    match e
    case Message(id, st, _) => DeliverFits(d, id, st)
    case CleanUp => true
    case PurgeAll(_) => true
    case Search(_, _, _, _, session) => session.Reuse? ==> ReuseFits(d, session.index)
    case Recreating(client, _, index, server, _, _) => RecreateFits(d, client, index, server)
    case Assigning(_, _, _, _, _, _) => true
  }

  // ----- one step -----

  lemma ListedCarries(ps: seq<Peer>, s: seq<Server>, t: seq<Server>)
    requires AllListed(ps, s) && SameAddresses(s, t)
    ensures AllListed(ps, t)
  {
    forall p | p in ps ensures Listed(p, t) {
      assert Listed(p, s);
    }
  }

  lemma KeepsAddresses(d: Directory, e: Event)
    ensures SameAddresses(d.servers, Apply(d, e).servers) && Apply(d, e).rules == d.rules
  {
    if e.CleanUp? {
      UncountKeepsAddresses(d.servers, d.peers);
    }
  }

  lemma {:induction false} UncountKeepsAddresses(servers: seq<Server>, ps: seq<Peer>)
    ensures SameAddresses(servers, UncountAll(servers, ps))
    decreases |ps|
  {
    if ps != [] {
      UncountKeepsAddresses(servers, ps[..|ps| - 1]);
    }
  }

  /** Every record after a step is an old one, one with the addresses of an old one, or a
      new one with the addresses of an old one or of the server just chosen. */
  ghost predicate Descends(p: Peer, d: Directory, e: Event) {
    || (exists q :: q in d.peers && q.srcIp == p.srcIp && q.dstIp == p.dstIp && q.dstPort == p.dstPort)
    || (e.Assigning? && e.found && e.place < |d.servers| && p.srcIp == e.client
        && var s := d.servers[At(ScanStartAt(d), e.place, |d.servers|)]; p.dstIp == s.ip && p.dstPort == s.port)
  }

  lemma AllDescend(d: Directory, e: Event)
    ensures forall p :: p in Apply(d, e).peers ==>
              Descends(p, d, e) && (p.id < Apply(d, e).nextId || exists q :: q in d.peers && q.id == p.id)
    ensures d.nextId <= Apply(d, e).nextId
  {
    match e
    case Message(id, st, now) =>
    case CleanUp => KeptExactly(d.peers);
    case PurgeAll(_) =>
    case Search(_, _, _, _, _) =>
    case Recreating(client, _, _, _, _, _) => FreshAndStale(d.peers, client);
    case Assigning(_, _, _, _, _, _) =>
  }

  lemma StepWellFormed(d: Directory, e: Event)
    requires WellFormed(d)
    ensures WellFormed(Apply(d, e))
  {
    KeepsAddresses(d, e);
    AllDescend(d, e);
    var next := Apply(d, e);
    forall p | p in next.peers ensures Listed(p, d.servers) && p.id < next.nextId {
      if q :| q in d.peers && q.srcIp == p.srcIp && q.dstIp == p.dstIp && q.dstPort == p.dstPort {
        assert Listed(q, d.servers);
      }
    }
    ListedCarries(next.peers, d.servers, next.servers);
  }

  /** From exact counters a step leads to exact counters if and only if its guard holds. */
  lemma StepExact(d: Directory, e: Event)
    requires WellFormed(d) && Exact(d) && Enabled(d, e)
    ensures Exact(Apply(d, e)) <==> Keeps(d, e)
  {
    match e
    case Message(id, st, now) => DeliverExact(d, id, st, now);
    case CleanUp => CleanExact(d);
    case PurgeAll(_) =>
    case Search(client, port, now, manager, session) =>
      if session.Reuse? {
        ReuseExact(d, client, port, now, manager, session);
      }
    case Recreating(client, port, index, server, now, manager) =>
      if CanRecreate(d, client, index) {
        if RecreateFits(d, client, index, server) {
          RecreateSuffices(d, client, port, index, server, now, manager);
        } else if Exact(Apply(d, e)) {
          RecreateNeeds(d, client, port, index, server, now, manager);
        }
      }
    case Assigning(client, port, now, manager, found, place) =>
      AssignExact(d, client, port, now, manager, found, place);
  }

  // ----- runs -----

  ghost predicate IsRun(d: Directory, es: seq<Event>)
    decreases |es|
  {
    es == [] || (Enabled(d, es[0]) && IsRun(Apply(d, es[0]), es[1..]))
  }

  function After(d: Directory, es: seq<Event>): Directory
    decreases |es|
  {
    if es == [] then d else After(Apply(d, es[0]), es[1..])
  }

  /** Every guard along the run holds. */
  predicate AllKeep(d: Directory, es: seq<Event>)
    decreases |es|
  {
    es == [] || (Keeps(d, es[0]) && AllKeep(Apply(d, es[0]), es[1..]))
  }

  ghost predicate AlwaysExact(d: Directory, es: seq<Event>)
    decreases |es|
  {
    Exact(d) && (es != [] ==> AlwaysExact(Apply(d, es[0]), es[1..]))
  }

  lemma {:induction false} RunWellFormed(d: Directory, es: seq<Event>)
    requires WellFormed(d)
    ensures WellFormed(After(d, es)) && SameAddresses(d.servers, After(d, es).servers) && After(d, es).rules == d.rules
    decreases |es|
  {
    if es != [] {
      StepWellFormed(d, es[0]);
      KeepsAddresses(d, es[0]);
      RunWellFormed(Apply(d, es[0]), es[1..]);
    }
  }

  /** Counter conservation: over any run the four counters of every server stay equal to
      the number of its records of each kind exactly as long as every guard holds. */
  lemma {:induction false} CountersStayExact(d: Directory, es: seq<Event>)
    requires WellFormed(d) && Exact(d) && IsRun(d, es)
    ensures AlwaysExact(d, es) <==> AllKeep(d, es)
    decreases |es|
  {
    if es != [] {
      StepExact(d, es[0]);
      StepWellFormed(d, es[0]);
      if Keeps(d, es[0]) {
        CountersStayExact(Apply(d, es[0]), es[1..]);
      }
    }
  }

  /** A list to which servers were added, at different addresses, and nothing else done. */
  ghost predicate IsNew(d: Directory) {
    && d.peers == [] && d.nextId == 0 && DistinctAddresses(d.servers)
    && forall i :: 0 <= i < |d.servers| ==>
         var s := d.servers[i]; s.connecting == 0 && s.connected == 0 && s.finished == 0 && s.disconnected == 0
  }

  /** A new list meets what the theorems on runs start from. */
  lemma NewListIsExact(d: Directory)
    requires IsNew(d)
    ensures WellFormed(d) && Exact(d) && FilterSafe(d)
  {
  }

  // ----- filters -----

  /** Every record is a pair that the filter rules allow. */
  ghost predicate FilterSafe(d: Directory) {
    forall p :: p in d.peers ==> Allowed(d.rules, p.dstIp, p.srcIp)
  }

  lemma StepFilterSafe(d: Directory, e: Event)
    requires FilterSafe(d) && Enabled(d, e)
    ensures FilterSafe(Apply(d, e))
  {
    KeepsAddresses(d, e);
    AllDescend(d, e);
    forall p | p in Apply(d, e).peers ensures Allowed(d.rules, p.dstIp, p.srcIp) {
      if e.Assigning? && e.found {
        WinnerIsOptimal(Candidates(d, e.client, e.now), e.place);
      }
    }
  }

  /** No interleaving ever records a client on a server the rules deny it, although the
      sessions found are never checked against the rules again. */
  lemma {:induction false} FiltersHold(d: Directory, es: seq<Event>)
    requires FilterSafe(d) && IsRun(d, es)
    ensures FilterSafe(After(d, es))
    decreases |es|
  {
    if es != [] {
      StepFilterSafe(d, es[0]);
      FiltersHold(Apply(d, es[0]), es[1..]);
    }
  }

  // ----- sessions -----

  /** Recreating a session gives the client the server of the record chosen, and leaves
      none of its records that are not connected. */
  lemma SessionRecreated(d: Directory, client: Ip, port: int, now: int, manager: nat, s: Session)
    requires IsSession(d, client, port, now, s) && s.Recreate?
    ensures CanRecreate(d, client, s.index)
    ensures var e := RecreateSession(d, client, port, s.index, s.server, now, manager);
            && |e.peers| > 0
            && (var p := e.peers[|e.peers| - 1];
                && p.srcIp == client && p.srcPort == port && p.status == ConnectingServer
                && p.dstIp == d.peers[s.index].dstIp && p.dstPort == d.peers[s.index].dstPort)
            && (forall p :: p in e.peers && p.srcIp == client ==> !IsNotConnected(p.status))
            && (forall p :: p in d.peers && (p.srcIp != client || !IsNotConnected(p.status)) ==> p in e.peers)
  {
    FreshAndStale(d.peers, client);
    var e := RecreateSession(d, client, port, s.index, s.server, now, manager);
    forall p | p in d.peers && (p.srcIp != client || !IsNotConnected(p.status)) ensures p in e.peers {
      assert p in Fresh(d.peers, client);
    }
  }

  /** What a search finds is determined: there is only one outcome it may report. */
  lemma SessionIsUnique(d: Directory, client: Ip, port: int, now: int, s: Session, t: Session)
    requires IsSession(d, client, port, now, s) && IsSession(d, client, port, now, t)
    ensures s == t
  {
    if s.Reuse? && t.Reuse? {
      assert !(s.index < t.index) && !(t.index < s.index);
    }
  }

  // ----- serving a client is such a run -----

  ghost predicate IsShortRun(d: Directory, es: seq<Event>, e: Directory) {
    |es| <= 2 && IsRun(d, es) && After(d, es) == e
  }

  lemma RunOfOne(d: Directory, a: Event)
    requires Enabled(d, a)
    ensures IsShortRun(d, [a], Apply(d, a))
  {
    assert [a][1..] == [];
    assert After(d, [a]) == After(Apply(d, a), []);
  }

  lemma RunOfTwo(d: Directory, a: Event, b: Event)
    requires Enabled(d, a) && Enabled(Apply(d, a), b)
    ensures IsShortRun(d, [a, b], Apply(Apply(d, a), b))
  {
    var mid := Apply(d, a);
    assert [a, b][1..] == [b];
    RunOfOne(mid, b);
  }

  /** A search that takes nothing over, and a second step. */
  lemma SearchThen(d: Directory, search: Event, second: Event)
    requires search.Search? && !search.session.Reuse? && Enabled(d, search) && Enabled(d, second)
    ensures IsShortRun(d, [search, second], Apply(d, second))
  {
    assert Apply(d, search) == d;
    RunOfTwo(d, search, second);
  }

  /** Serving a client without interference is a run of the steps above, so what holds of
      every run holds of it. */
  lemma ServingIsARun(d: Directory, client: Ip, port: int, now: int, manager: nat, e: Directory, r: Option<Peer>)
    requires Serves(d, client, port, now, manager, e, r) && d.servers != []
    ensures exists es: seq<Event> :: IsShortRun(d, es, e)
  {
    var s: Session :| IsSession(d, client, port, now, s) && ServesAs(d, client, port, now, manager, e, r, s);
    var search := Search(client, port, now, manager, s);
    if s.Reuse? {
      RunOfOne(d, search);
    } else {
      var second := SecondStep(d, client, port, now, manager, e, r, s);
      SearchThen(d, search, second);
    }
  }

  lemma SecondStep(
    d: Directory, client: Ip, port: int, now: int, manager: nat, e: Directory, r: Option<Peer>, s: Session)
    returns (second: Event)
    requires d.servers != [] && ServesAs(d, client, port, now, manager, e, r, s) && !s.Reuse?
    ensures Enabled(d, second) && Apply(d, second) == e
  {
    match s
    case Recreate(k, i) => second := Recreating(client, port, k, i, now, manager);
    case NoSession =>
      var found: bool, place: nat :|
        IsPick(d, client, now, found, place) && e == Assign(d, client, port, now, manager, found, place)
        && (if found then |e.peers| > 0 && r == Some(e.peers[|e.peers| - 1]) else r == None);
      second := Assigning(client, port, now, manager, found, place);
  }

  /** A client with a session that may be continued is sent to that session's server: to
      the very same record, the first one, if any is on the same port; otherwise to that of
      the session modified last, the first of those on ties, in a new record that replaces
      all its ended ones. */
  lemma SessionsAreSticky(d: Directory, client: Ip, port: int, now: int, manager: nat, e: Directory, r: Option<Peer>)
    requires Serves(d, client, port, now, manager, e, r) && d.servers != []
    requires exists k :: 0 <= k < |d.peers| && Eligible(d, client, now, k)
    ensures r.Some? && r.value.srcIp == client && r.value.srcPort == port && r.value in e.peers
    ensures exists k :: 0 <= k < |d.peers| && Eligible(d, client, now, k)
              && r.value.dstIp == d.peers[k].dstIp && r.value.dstPort == d.peers[k].dstPort
              && (if exists j :: 0 <= j < |d.peers| && PortMatch(d, client, port, now, j)
                  then && PortMatch(d, client, port, now, k) && r.value.id == d.peers[k].id
                       && (forall j :: 0 <= j < k ==> !PortMatch(d, client, port, now, j))
                  else (forall j :: 0 <= j < |d.peers| && Eligible(d, client, now, j) ==>
                          && d.peers[j].modified <= d.peers[k].modified
                          && (j < k ==> d.peers[j].modified < d.peers[k].modified))
                       && (forall p :: p in e.peers && p.srcIp == client ==> !IsNotConnected(p.status)))
  {
    var s: Session :| IsSession(d, client, port, now, s) && ServesAs(d, client, port, now, manager, e, r, s);
    assert !s.NoSession?;
    if s.Recreate? {
      SessionRecreated(d, client, port, now, manager, s);
    }
    var k := s.index;
    assert Eligible(d, client, now, k) && r.value.dstIp == d.peers[k].dstIp;
  }

  /** A client is refused exactly when it has no session to continue and the scan finds
      no server that may be assigned. */
  lemma RefusedExactly(d: Directory, client: Ip, port: int, now: int, manager: nat, e: Directory, r: Option<Peer>)
    requires Serves(d, client, port, now, manager, e, r)
    ensures r == None <==>
            d.servers == [] ||
            ((forall k :: 0 <= k < |d.peers| ==> !Eligible(d, client, now, k))
             && !SomeEntrant(Candidates(d, client, now), |d.servers|))
  {
    if d.servers != [] {
      var s: Session :| IsSession(d, client, port, now, s) && ServesAs(d, client, port, now, manager, e, r, s);
    }
  }

  // ----- servers on one address -----

  /** Cleaning and sessions look a record's server up by address alone. They find the
      record's own server exactly when no server before it, or after it, has its address. */
  lemma AddressAlone(servers: seq<Server>, ip: Ip, port: int)
    requires FindServer(servers, ip, port) >= 0
    ensures var own := FindServer(servers, ip, port);
            && (FirstAt(servers, ip) == own <==> forall j :: 0 <= j < own ==> servers[j].ip != ip)
            && (LastAt(servers, ip) == own <==> forall j :: own < j < |servers| ==> servers[j].ip != ip)
            && (DistinctAddresses(servers) ==> FirstAt(servers, ip) == own == LastAt(servers, ip))
  {
    var own, first, last := FindServer(servers, ip, port), FirstAt(servers, ip), LastAt(servers, ip);
    assert first <= own <= last;
    if DistinctAddresses(servers) {
      assert servers[first].ip == servers[own].ip == servers[last].ip;
    }
  }

}
