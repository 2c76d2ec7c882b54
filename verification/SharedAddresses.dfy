/** Several servers on one address: which records cleaning takes from the wrong one, since it
    looks a record's server up by address alone. */
module SharedAddresses {
  import opened Lists
  import opened Statuses
  import opened Filters
  import opened Records
  import opened Directories
  import opened Accounting
  import opened AccountingRuns

  // ----- the counters of a server and its own records -----

  function AtPort(port: int): Peer -> bool { (p: Peer) => p.dstPort == port }

  /** The counters of a server equal the number of its own records of each kind, those with
      both its address and its port. */
  ghost predicate OwnAgrees(s: Server, ps: seq<Peer>) { Agrees(s, Select(ps, AtPort(s.port))) }

  ghost predicate AllOwnAgree(servers: seq<Server>, ps: seq<Peer>) {
    forall i :: 0 <= i < |servers| ==> OwnAgrees(servers[i], ps)
  }

  ghost predicate DistinctEndpoints(servers: seq<Server>) {
    forall i, j :: 0 <= i < j < |servers| ==> servers[i].ip != servers[j].ip || servers[i].port != servers[j].port
  }

  /** The first server at the record's address is the record's own. */
  predicate FoundByAddress(p: Peer, servers: seq<Server>) {
    FirstAt(servers, p.dstIp) == FindServer(servers, p.dstIp, p.dstPort)
  }

  // ----- one record -----

  lemma OwnAround(a: seq<Peer>, p: Peer, b: seq<Peer>, port: int, ip: Ip, kind: Kind)
    ensures Count(Select(a + [p] + b, AtPort(port)), ip, kind) ==
            Count(Select(a + b, AtPort(port)), ip, kind) + if p.dstPort == port then Hit(p, ip, kind) else 0
  {
    var f := AtPort(port);
    SelectAround(a, p, b, f);
    SelectConcat(a, b, f);
    if f(p) {
      CountAround(Select(a, f), p, Select(b, f), ip, kind);
    } else {
      assert Select(a, f) + [] == Select(a, f);
    }
  }

  predicate IsOwn(p: Peer, s: Server) { p.dstIp == s.ip && p.dstPort == s.port }

  lemma OwnTaken(s: Server, a: seq<Peer>, p: Peer, b: seq<Peer>)
    requires OwnAgrees(s, a + [p] + b) && IsNotConnected(p.status) && IsOwn(p, s)
    ensures OwnAgrees(Taken(s, p), a + b)
  {
    forall kind ensures Loses(Select(a + [p] + b, AtPort(s.port)), Select(a + b, AtPort(s.port)), s.ip, p, kind) {
      OwnAround(a, p, b, s.port, s.ip, kind);
    }
    TakenAgrees(s, p, Select(a + [p] + b, AtPort(s.port)), Select(a + b, AtPort(s.port)));
  }

  lemma OthersUntouched(s: Server, a: seq<Peer>, p: Peer, b: seq<Peer>)
    requires OwnAgrees(s, a + [p] + b) && !IsOwn(p, s)
    ensures OwnAgrees(s, a + b)
  {
    OwnAround(a, p, b, s.port, s.ip, InProgress);
    OwnAround(a, p, b, s.port, s.ip, Live);
    OwnAround(a, p, b, s.port, s.ip, Broken);
    OwnAround(a, p, b, s.port, s.ip, Over);
  }

  lemma UncountOwn(servers: seq<Server>, a: seq<Peer>, p: Peer, b: seq<Peer>)
    requires DistinctEndpoints(servers) && AllOwnAgree(servers, a + [p] + b)
    requires IsNotConnected(p.status) && Listed(p, servers) && FoundByAddress(p, servers)
    ensures AllOwnAgree(Uncount(servers, p), a + b)
  {
    var i, r := FirstAt(servers, p.dstIp), Uncount(servers, p);
    assert FindServer(servers, p.dstIp, p.dstPort) == i >= 0;
    forall j | 0 <= j < |servers| ensures OwnAgrees(r[j], a + b) {
      assert OwnAgrees(servers[j], a + [p] + b);
      assert IsOwn(p, servers[j]) <==> j == i;
      if j == i {
        OwnTaken(servers[j], a, p, b);
      } else {
        OthersUntouched(servers[j], a, p, b);
      }
    }
  }

  lemma SameLookups(s: seq<Server>, t: seq<Server>, p: Peer)
    requires SameAddresses(s, t)
    ensures FirstAt(s, p.dstIp) == FirstAt(t, p.dstIp)
    ensures FindServer(s, p.dstIp, p.dstPort) == FindServer(t, p.dstIp, p.dstPort)
    ensures Listed(p, s) ==> Listed(p, t)
  {
    var i, j := FirstAt(s, p.dstIp), FirstAt(t, p.dstIp);
    assert i >= 0 ==> t[i].ip == p.dstIp;
    assert j >= 0 ==> s[j].ip == p.dstIp;
    var k, m := FindServer(s, p.dstIp, p.dstPort), FindServer(t, p.dstIp, p.dstPort);
    assert k >= 0 ==> t[k].ip == p.dstIp && t[k].port == p.dstPort;
    assert m >= 0 ==> s[m].ip == p.dstIp && s[m].port == p.dstPort;
  }

  // ----- all records -----

  /** Every record that is dropped is found by its address. */
  ghost predicate DroppedAreFound(ps: seq<Peer>, servers: seq<Server>) {
    forall p :: p in ps && IsNotConnected(p.status) ==> FoundByAddress(p, servers)
  }

  lemma {:induction false} UncountAllOwn(servers: seq<Server>, ps: seq<Peer>, rest: seq<Peer>)
    requires DistinctEndpoints(servers) && AllListed(ps, servers) && AllOwnAgree(servers, ps + rest)
    requires DroppedAreFound(ps, servers)
    ensures AllOwnAgree(UncountAll(servers, ps), Kept(ps) + rest)
    decreases |ps|
  {
    if ps == [] {
      assert ps + rest == rest == Kept(ps) + rest;
    } else {
      var init, p := ps[..|ps| - 1], ps[|ps| - 1];
      assert init + ([p] + rest) == ps + rest && p in ps;
      UncountAllOwn(servers, init, [p] + rest);
      var r := UncountAll(servers, init);
      UncountKeepsAddresses(servers, init);
      SameLookups(servers, r, p);
      NextUncounted(r, Kept(init), p, rest);
      if IsNotConnected(p.status) {
        assert Kept(ps) == Kept(init);
      } else {
        assert Kept(ps) == Kept(init) + [p];
      }
    }
  }

  lemma NextUncounted(r: seq<Server>, kept: seq<Peer>, p: Peer, rest: seq<Peer>)
    requires DistinctEndpoints(r) && AllOwnAgree(r, kept + ([p] + rest)) && Listed(p, r)
    requires IsNotConnected(p.status) ==> FoundByAddress(p, r)
    ensures if IsNotConnected(p.status) then AllOwnAgree(Uncount(r, p), kept + rest)
            else AllOwnAgree(r, kept + [p] + rest)
  {
    assert kept + ([p] + rest) == kept + [p] + rest;
    if IsNotConnected(p.status) {
      UncountOwn(r, kept, p, rest);
    }
  }

  /** A server that is not the first at its address is never charged. */
  lemma {:induction false} OthersUncharged(servers: seq<Server>, ps: seq<Peer>, j: nat)
    requires j < |servers| && FirstAt(servers, servers[j].ip) != j
    ensures UncountAll(servers, ps)[j] == servers[j]
    decreases |ps|
  {
    if ps != [] {
      var init, p := ps[..|ps| - 1], ps[|ps| - 1];
      OthersUncharged(servers, init, j);
      UncountKeepsAddresses(servers, init);
      SameLookups(servers, UncountAll(servers, init), p);
    }
  }

  lemma {:induction false} OwnHit(ps: seq<Peer>, p: Peer)
    requires p in ps
    ensures Count(Select(ps, AtPort(p.dstPort)), p.dstIp, KindOf(p.status)) > 0
  {
    var init, last := ps[..|ps| - 1], ps[|ps| - 1];
    SelectedCount(ps, AtPort(p.dstPort), p.dstIp, KindOf(p.status));
    if p != last {
      assert ps == init + [last];
      OwnHit(init, p);
    }
  }

  /** A dropped record whose server is not the first at its address leaves that server's
      counters as they were. */
  lemma MissedSpoils(d: Directory, p: Peer)
    requires AllListed(d.peers, d.servers) && AllOwnAgree(d.servers, d.peers)
    requires p in d.peers && IsNotConnected(p.status) && !FoundByAddress(p, d.servers)
    ensures !AllOwnAgree(Clean(d).servers, Clean(d).peers)
  {
    var j := FindServer(d.servers, p.dstIp, p.dstPort);
    assert Listed(p, d.servers);
    OthersUncharged(d.servers, d.peers, j);
    KeptExactly(d.peers);
    assert OwnAgrees(d.servers[j], d.peers);
    StillCounted(d.servers[j], d.peers, Kept(d.peers), p);
  }

  lemma StillCounted(s: Server, ps: seq<Peer>, kept: seq<Peer>, p: Peer)
    requires OwnAgrees(s, ps) && p in ps && IsOwn(p, s) && IsNotConnected(p.status)
    requires forall q :: q in kept ==> !IsNotConnected(q.status)
    ensures !OwnAgrees(s, kept)
  {
    OwnHit(ps, p);
    SelectExactly(kept, AtPort(s.port));
    NoneOfKind(Select(kept, AtPort(s.port)), s.ip, KindOf(p.status));
  }

  /** With servers at different address and port pairs, cleaning keeps every server's counters
      equal to its own records if and only if each record dropped is on the first server at
      its address. */
  lemma CleanFindsOwn(d: Directory)
    requires DistinctEndpoints(d.servers) && AllListed(d.peers, d.servers) && AllOwnAgree(d.servers, d.peers)
    ensures AllOwnAgree(Clean(d).servers, Clean(d).peers) <==> DroppedAreFound(d.peers, d.servers)
  {
    if DroppedAreFound(d.peers, d.servers) {
      assert d.peers + [] == d.peers && Kept(d.peers) + [] == Kept(d.peers);
      UncountAllOwn(d.servers, d.peers, []);
    } else {
      var p :| p in d.peers && IsNotConnected(p.status) && !FoundByAddress(p, d.servers);
      MissedSpoils(d, p);
    }
  }

  // ----- one server on each address -----

  lemma {:induction false} OnePort(ps: seq<Peer>, port: int, ip: Ip, kind: Kind)
    requires forall p :: p in ps && p.dstIp == ip ==> p.dstPort == port
    ensures Count(Select(ps, AtPort(port)), ip, kind) == Count(ps, ip, kind)
  {
    if ps != [] {
      assert ps[|ps| - 1] in ps;
      OnePort(ps[..|ps| - 1], port, ip, kind);
      SelectedCount(ps, AtPort(port), ip, kind);
    }
  }

  /** With one server on each address, counting a server's own records is counting those at
      its address. */
  lemma OwnIsExact(d: Directory)
    requires WellFormed(d)
    ensures Exact(d) <==> AllOwnAgree(d.servers, d.peers)
  {
    forall i | 0 <= i < |d.servers| ensures Agrees(d.servers[i], d.peers) <==> OwnAgrees(d.servers[i], d.peers) {
      var s := d.servers[i];
      forall p | p in d.peers && p.dstIp == s.ip ensures p.dstPort == s.port {
        assert Listed(p, d.servers);
      }
      OnePort(d.peers, s.port, s.ip, InProgress);
      OnePort(d.peers, s.port, s.ip, Live);
      OnePort(d.peers, s.port, s.ip, Broken);
      OnePort(d.peers, s.port, s.ip, Over);
    }
  }

}
