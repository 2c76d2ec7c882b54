/** Where a scan starts and in which order it goes, and that equally good servers are given
    clients in turn. */
module Rotation {
  import opened Filters
  import opened Records
  import opened Selection
  import opened Directories
  import opened Accounting
  import opened AccountingRuns

  // ----- the order of a scan -----

  /** The scan starts behind the server found last, going round. */
  lemma ScanStartsBehind(d: Directory)
    requires |d.servers| > 0
    ensures ScanStartAt(d) == if d.cursor < |d.servers| then (d.cursor + 1) % |d.servers| else 0
  {
    var n := |d.servers|;
    if d.cursor + 1 == n {
      assert n % n == 0;
    }
  }

  /** The places of a scan are the servers after the start, one by one, going round. */
  lemma PlacesInOrder(start: nat, k: nat, n: nat)
    requires start < n && k < n
    ensures At(start, k, n) == (start + k) % n
  {
    RemainderOnce(start + k, n);
  }

  lemma RemainderOnce(x: nat, n: nat)
    requires x < 2 * n
    ensures x % n == if x < n then x else x - n
  {
    if x >= n {
      assert x / n == 1;
    }
  }

  /** The cursor is left at the server assigned or, if none is, at the start of the scan. */
  lemma CursorFollows(d: Directory, client: Ip, port: int, now: int, manager: nat, found: bool, place: nat)
    requires place < |d.servers|
    ensures Assign(d, client, port, now, manager, found, place).cursor ==
            (ScanStartAt(d) + if found then place else 0) % |d.servers|
  {
    PlacesInOrder(ScanStartAt(d), place, |d.servers|);
    PlacesInOrder(ScanStartAt(d), 0, |d.servers|);
  }

  // ----- equally good servers -----

  /** A server that may be assigned, with these past and present connections and weight. */
  predicate IsReady(s: Server, finished: nat, connected: nat, disconnected: nat, weight: int) {
    && s.finished == finished && s.connected == connected && s.disconnected == disconnected && s.weight == weight
    && s.connecting >= 0 && !s.lastFailed && (s.maxConnections == 0 || s.connected < s.maxConnections)
  }

  ghost predicate IsLevel(servers: seq<Server>, finished: nat, connected: nat, disconnected: nat, weight: int) {
    forall i :: 0 <= i < |servers| ==> IsReady(servers[i], finished, connected, disconnected, weight)
  }

  ghost predicate AllowedEverywhere(d: Directory, client: Ip) {
    forall i :: 0 <= i < |d.servers| ==> Allowed(d.rules, d.servers[i].ip, client)
  }

  /** The start's own score is no higher than that of an equally good server that is scanned. */
  lemma StartIsNoWorse(s: Server, t: Server, f: nat, c: nat, x: nat, w: int)
    requires IsReady(s, f, c, x, w) && IsReady(t, f, c, x, w) && s.connecting == 0
    ensures StartLoad(s) <= ScanLoad(t)
  {
    DivideOrder(c + f + f + x, c + f + x, Weight(s));
  }

  /** Among equally good servers the scan picks its start, if no connection to that is being
      made. */
  lemma StartIsPicked(d: Directory, client: Ip, now: int, found: bool, place: nat, f: nat, c: nat, x: nat, w: int)
    requires IsPick(d, client, now, found, place) && IsLevel(d.servers, f, c, x, w) && AllowedEverywhere(d, client)
    requires d.servers[ScanStartAt(d)].connecting == 0
    ensures found && place == 0
  {
    var v := Candidates(d, client, now);
    assert v[0].allowed && !v[0].unavailable;
    assert Entrant(v, 0);
    forall i | 0 < i < |v| ensures !Better(v[i], v[0]) {
      StartIsNoWorse(d.servers[ScanStartAt(d)], d.servers[At(ScanStartAt(d), i, |d.servers|)], f, c, x, w);
    }
    RoundRobin(v, place);
  }

  // ----- assignments in turn -----

  /** Assignments only, to clients that may use every server. */
  ghost predicate OnlyAssigns(d: Directory, es: seq<Event>) {
    forall i :: 0 <= i < |es| ==> es[i].Assigning? && AllowedEverywhere(d, es[i].client)
  }

  /** The places from the start on to which no connection is being made. */
  ghost predicate IdleFrom(servers: seq<Server>, start: nat, k: nat)
    requires start < |servers| && k <= |servers|
  {
    forall i :: 0 <= i < k ==> servers[At(start, i, |servers|)].connecting == 0
  }

  lemma NextPlace(start: nat, k: nat, n: nat)
    requires start < n && k + 1 < n
    ensures At(At(start, 1, n), k, n) == At(start, k + 1, n) && At(start, k + 1, n) != start
  {
  }

  lemma AssignedAtStart(d: Directory, e: Event, f: nat, c: nat, x: nat, w: int)
    requires e.Assigning? && e.found && e.place == 0 && |d.servers| > 0 && IsLevel(d.servers, f, c, x, w)
    ensures var start, d1 := ScanStartAt(d), Apply(d, e);
            && d1.servers == d.servers[start := Connecting(d.servers[start])] && d1.rules == d.rules
            && IsLevel(d1.servers, f, c, x, w)
            && (|d.servers| > 1 ==> ScanStartAt(d1) == At(start, 1, |d.servers|))
            && |d1.peers| == |d.peers| + 1 && d1.peers[..|d.peers|] == d.peers
            && d1.peers[|d.peers|].srcIp == e.client
            && d1.peers[|d.peers|].dstIp == d.servers[start].ip && d1.peers[|d.peers|].dstPort == d.servers[start].port
  {
  }

  /** The new records: one for each event, in order, on the servers from the start on. */
  ghost predicate InTurn(servers: seq<Server>, start: nat, es: seq<Event>, made: seq<Peer>)
    requires start < |servers| && |es| <= |servers|
  {
    && |made| == |es|
    && forall i :: 0 <= i < |es| ==>
         var s := servers[At(start, i, |servers|)];
         es[i].Assigning? && made[i].srcIp == es[i].client && made[i].dstIp == s.ip && made[i].dstPort == s.port
  }

  lemma FirstInTurn(servers: seq<Server>, next: seq<Server>, start: nat, es: seq<Event>, p: Peer, rest: seq<Peer>)
    requires start < |servers| && SameAddresses(servers, next) && 0 < |es| <= |servers| && es[0].Assigning?
    requires p.srcIp == es[0].client && p.dstIp == servers[start].ip && p.dstPort == servers[start].port
    requires if |servers| == 1 then rest == [] else InTurn(next, At(start, 1, |servers|), es[1..], rest)
    ensures InTurn(servers, start, es, [p] + rest)
  {
    var n, made := |servers|, [p] + rest;
    forall i | 0 <= i < |es|
      ensures var s := servers[At(start, i, n)];
              es[i].Assigning? && made[i].srcIp == es[i].client && made[i].dstIp == s.ip && made[i].dstPort == s.port
    {
      if i > 0 {
        NextPlace(start, i - 1, n);
        assert es[1..][i - 1] == es[i] && made[i] == rest[i - 1];
      }
    }
  }

  /** As many assignments as there are servers, or fewer, among equally good ones to which no
      connection is being made, go to the servers in turn, from the one after the last found:
      after a full round every server has got one client. */
  lemma {:induction false} ServersInTurn(d: Directory, es: seq<Event>, f: nat, c: nat, x: nat, w: int)
    requires 0 < |d.servers| && |es| <= |d.servers|
    requires IsRun(d, es) && OnlyAssigns(d, es) && IsLevel(d.servers, f, c, x, w)
    requires IdleFrom(d.servers, ScanStartAt(d), |es|)
    ensures Extends(d, es, After(d, es))
    decreases |es|
  {
    if es == [] {
      assert d.peers[|d.peers|..] == [];
    } else {
      var d1 := Apply(d, es[0]);
      FirstAssigned(d, es, f, c, x, w);
      if |d.servers| > 1 {
        RestIsIdle(d, d1, es);
        ServersInTurn(d1, es[1..], f, c, x, w);
      } else {
        assert es[1..] == [];
        assert After(d1, es[1..]) == d1;
      }
      OneMoreInTurn(d, d1, es, After(d1, es[1..]));
    }
  }

  /** The records that these assignments add are in turn. */
  ghost predicate Extends(d: Directory, es: seq<Event>, e: Directory)
    requires 0 < |d.servers| && |es| <= |d.servers|
  {
    && |e.peers| == |d.peers| + |es| && e.peers[..|d.peers|] == d.peers
    && InTurn(d.servers, ScanStartAt(d), es, e.peers[|d.peers|..])
  }

  /** The first of them goes to the start. */
  ghost predicate IsFirst(d: Directory, es: seq<Event>, d1: Directory)
    requires 0 < |d.servers|
  {
    var start := ScanStartAt(d);
    && es != [] && es[0].Assigning?
    && d1.servers == d.servers[start := Connecting(d.servers[start])] && d1.rules == d.rules
    && (|d.servers| > 1 ==> ScanStartAt(d1) == At(start, 1, |d.servers|))
    && |d1.peers| == |d.peers| + 1 && d1.peers[..|d.peers|] == d.peers
    && d1.peers[|d.peers|].srcIp == es[0].client
    && d1.peers[|d.peers|].dstIp == d.servers[start].ip && d1.peers[|d.peers|].dstPort == d.servers[start].port
  }

  lemma FirstAssigned(d: Directory, es: seq<Event>, f: nat, c: nat, x: nat, w: int)
    requires 0 < |d.servers| && 0 < |es| <= |d.servers|
    requires IsRun(d, es) && OnlyAssigns(d, es) && IsLevel(d.servers, f, c, x, w)
    requires IdleFrom(d.servers, ScanStartAt(d), |es|)
    ensures IsFirst(d, es, Apply(d, es[0])) && IsLevel(Apply(d, es[0]).servers, f, c, x, w)
  {
    var e := es[0];
    assert e.Assigning? && d.servers[At(ScanStartAt(d), 0, |d.servers|)].connecting == 0;
    StartIsPicked(d, e.client, e.now, e.found, e.place, f, c, x, w);
    AssignedAtStart(d, e, f, c, x, w);
  }

  lemma OneMoreInTurn(d: Directory, d1: Directory, es: seq<Event>, e: Directory)
    requires 0 < |d.servers| && 0 < |es| <= |d.servers| && IsFirst(d, es, d1)
    requires if |d.servers| == 1 then e == d1 else |es[1..]| <= |d1.servers| && Extends(d1, es[1..], e)
    ensures Extends(d, es, e)
  {
    var p := d1.peers[|d.peers|];
    assert d1.peers == d.peers + [p];
    var rest := e.peers[|d1.peers|..];
    FirstInTurn(d.servers, d1.servers, ScanStartAt(d), es, p, if |d.servers| == 1 then [] else rest);
    assert e.peers[|d.peers|..] == [p] + rest;
  }

  lemma RestIsIdle(d: Directory, d1: Directory, es: seq<Event>)
    requires 1 < |d.servers| && 0 < |es| <= |d.servers| && OnlyAssigns(d, es)
    requires IdleFrom(d.servers, ScanStartAt(d), |es|)
    requires var start := ScanStartAt(d);
             && d1.servers == d.servers[start := Connecting(d.servers[start])] && d1.rules == d.rules
             && ScanStartAt(d1) == At(start, 1, |d.servers|)
    ensures IdleFrom(d1.servers, ScanStartAt(d1), |es| - 1) && OnlyAssigns(d1, es[1..])
  {
    var n, start := |d.servers|, ScanStartAt(d);
    forall i | 0 <= i < |es| - 1 ensures d1.servers[At(ScanStartAt(d1), i, n)].connecting == 0 {
      NextPlace(start, i, n);
    }
    forall i | 0 <= i < |es[1..]| ensures es[1..][i].Assigning? && AllowedEverywhere(d1, es[1..][i].client) {
      assert es[1..][i] == es[i + 1] && AllowedEverywhere(d, es[i + 1].client);
    }
  }

}
