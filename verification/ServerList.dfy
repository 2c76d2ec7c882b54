/** The server list as an object: its loops over the servers and the records, each step
    proved to have the effect described by the directory operations. */
module ServerLists {
  import opened Numbers
  import opened Statuses
  import opened Filters
  import opened Records
  import opened Selection
  import opened Directories
  import opened Lists

  class ServerList {
    var servers: seq<Server>
    var peers: seq<Peer>
    var rules: seq<Rule>
    var lastServerAssigned: nat
    var retry: int
    var lastCleanup: int
    var nextId: nat

    function State(): Directory
      reads this
    {
      Directory(servers, peers, rules, lastServerAssigned, retry, lastCleanup, nextId)
    }

    constructor (now: int)
      ensures State() == Directory([], [], [], 9999, 30 * 1000, now, 0)
    {
      servers, peers, rules := [], [], [];
      lastServerAssigned, retry, lastCleanup, nextId := 9999, 30 * 1000, now, 0;
    }

    method AddServer(ip: Ip, port: int, weight: int, maxConnections: int, now: int)
      modifies this
      ensures var s := Server(ip, port, 0, 0, 0, 0, weight, maxConnections, false, now);
              State() == old(State()).(servers := old(servers) + [s])
    {
      servers := servers + [Server(ip, port, 0, 0, 0, 0, weight, maxConnections, false, now)];
    }

    // ----- messages -----

    method FindRecord(id: nat) returns (k: int)
      ensures k == FindPeer(peers, id)
    {
      k := 0;
      while k < |peers| && peers[k].id != id
        invariant 0 <= k <= |peers|
        invariant forall j :: 0 <= j < k ==> peers[j].id != id
      {
        k := k + 1;
      }
      if k == |peers| {
        k := -1;
      }
    }

    method FindOther(k: nat) returns (other: bool)
      requires k < |peers|
      ensures other <==> OtherConnected(peers, k)
    {
      other := false;
      var j := 0;
      while j < |peers| && !other
        invariant 0 <= j <= |peers|
        invariant other ==> OtherConnected(peers, k)
        invariant !other ==> forall i :: 0 <= i < j ==>
                    i == k || IsNotConnected(peers[i].status) || peers[i].srcIp != peers[k].srcIp
        decreases |peers| - j, !other
      {
        if j != k && !IsNotConnected(peers[j].status) && peers[j].srcIp == peers[k].srcIp {
          other := true;
        } else {
          j := j + 1;
        }
      }
    }

    method FindServerAt(ip: Ip, port: int) returns (i: int)
      ensures i == FindServer(servers, ip, port)
    {
      i := 0;
      while i < |servers| && (servers[i].ip != ip || servers[i].port != port)
        invariant 0 <= i <= |servers|
        invariant forall j :: 0 <= j < i ==> servers[j].ip != ip || servers[j].port != port
      {
        i := i + 1;
      }
      if i == |servers| {
        i := -1;
      }
    }

    /** The connection leaves the state it was counted in. */
    method EndConnection(i: nat, st: Status, now: int)
      requires i < |servers|
      modifies this`servers
      ensures servers == old(servers)[i := Ended(old(servers)[i], st, now)]
    {
      if st == Failed {
        servers := servers[i := servers[i].(lastFailed := true, lastAttempt := now)];
      }
      if st.Failed? {
        servers := servers[i := servers[i].(connecting := Max(servers[i].connecting - 1, 0))];
      } else {
        servers := servers[i := servers[i].(connected := Max(servers[i].connected - 1, 0))];
      }
    }

    method CountPast(i: nat, st: Status)
      requires i < |servers|
      modifies this`servers
      ensures servers == old(servers)[i := Past(old(servers)[i], st)]
    {
      if IsDisconnected(st) {
        servers := servers[i := servers[i].(disconnected := servers[i].disconnected + 1)];
      } else {
        servers := servers[i := servers[i].(finished := servers[i].finished + 1)];
      }
    }

    method CountConnected(i: nat, now: int)
      requires i < |servers|
      modifies this`servers
      ensures servers == old(servers)[i := Connected(old(servers)[i], now)]
    {
      servers := servers[i := servers[i].(connected := servers[i].connected + 1,
                                          connecting := Max(servers[i].connecting - 1, 0),
                                          lastFailed := false, lastAttempt := now)];
    }

    /** The marked record ended: it is dropped, or counted among the past ones. */
    method EndRecord(k: nat, i: nat, st: Status, now: int)
      requires k < |peers| && i < |servers| && IsNotConnected(st)
      modifies this`servers, this`peers
      ensures var drops := OtherConnected(old(peers), k) || old(peers)[k].created < lastCleanup;
              && servers == old(servers)[i := Moved(old(servers)[i], st, drops, now)]
              && peers == if drops then Without(old(peers), k) else old(peers)
    {
      var other := FindOther(k);
      EndConnection(i, st, now);
      if other || peers[k].created < lastCleanup {
        peers := peers[..k] + peers[k + 1..];
      } else {
        CountPast(i, st);
      }
    }

    method MarkRecord(k: nat, st: Status, now: int) returns (kick: bool)
      requires k < |peers|
      modifies this`peers
      ensures peers == old(peers)[k := Marked(old(peers)[k], st, now)]
      ensures kick <==> st.Kicked?
    {
      kick := false;
      match st {
        case Cancelled =>
        case Kicked => kick := true;
        case _ => peers := peers[k := peers[k].(status := st, modified := now)];
      }
    }

    /** Delivers one message; `kick` asks the record's manager to close the connection. */
    method ProcessMessage(id: nat, st: Status, now: int) returns (kick: bool)
      modifies this`servers, this`peers
      ensures State() == Deliver(old(State()), id, st, now)
      ensures kick <==> st.Kicked? && FindPeer(old(peers), id) >= 0
    {
      kick := false;
      var k := FindRecord(id);
      if k >= 0 {
        ghost var d := State();
        var i := FindServerAt(peers[k].dstIp, peers[k].dstPort);
        kick := MarkRecord(k, st, now);
        OthersUnmarked(d.peers, k, st, now);
        if IsNotConnected(st) {
          if i >= 0 {
            EndRecord(k, i, st, now);
          }
        } else if st == Established {
          if i >= 0 {
            CountConnected(i, now);
          }
        }
      }
    }

    // ----- cleaning -----

    /** Takes one dropped record from the counters of its server. */
    method UncountRecord(p: Peer)
      modifies this`servers
      ensures servers == Uncount(old(servers), p)
    {
      var i := 0;
      while i < |servers| && servers[i].ip != p.dstIp
        invariant 0 <= i <= |servers|
        invariant forall j :: 0 <= j < i ==> servers[j].ip != p.dstIp
      {
        i := i + 1;
      }
      if i < |servers| {
        assert i == FirstAt(servers, p.dstIp);
        if IsDisconnected(p.status) && servers[i].disconnected != 0 {
          servers := servers[i := servers[i].(disconnected := Max(servers[i].disconnected - 1, 0))];
        } else {
          servers := servers[i := servers[i].(finished := Max(servers[i].finished - 1, 0))];
        }
      }
    }

    method CleanConnections()
      modifies this`servers, this`peers
      ensures State() == Clean(old(State()))
    {
      ghost var was := peers;
      ghost var k := 0;
      var i := 0;
      while i < |peers|
        invariant Sifted(was, IsKept, k, i, peers) && servers == UncountAll(old(servers), was[..k])
        decreases |was| - k
      {
        SiftedNext(was, IsKept, k, i, peers);
        assert was[..k + 1][..k] == was[..k];
        if IsNotConnected(peers[i].status) {
          UncountRecord(peers[i]);
          peers := peers[..i] + peers[i + 1..];
        } else {
          i := i + 1;
        }
        k := k + 1;
      }
      SiftedAll(was, IsKept, k, i, peers);
      assert was[..k] == was;
    }

    /** Asks for every recorded connection to be closed; records made before now are dropped
        as soon as they end. */
    method PurgeConnections(now: int) returns (asked: seq<nat>)
      modifies this`lastCleanup
      ensures State() == old(State()).(lastCleanup := now)
      ensures |asked| == |peers| && forall k :: 0 <= k < |peers| ==> asked[k] == peers[k].id
    {
      asked := [];
      var i := 0;
      while i < |peers|
        invariant 0 <= i <= |peers| && |asked| == i
        invariant forall k :: 0 <= k < i ==> asked[k] == peers[k].id
      {
        asked := asked + [peers[i].id];
        i := i + 1;
      }
      lastCleanup := now;
    }

    // ----- serving a client -----

    method FindLastAt(ip: Ip) returns (i: int)
      requires |servers| > 0
      ensures i == LastAt(servers, ip)
    {
      i := |servers| - 1;
      while i > 0 && servers[i].ip != ip
        invariant 0 <= i < |servers|
        invariant forall j :: i < j < |servers| ==> servers[j].ip != ip
      {
        i := i - 1;
      }
      if i == 0 && servers[i].ip != ip {
        i := -1;
      }
    }

    /** The server of a session that may be continued, or -1. */
    method SessionServer(k: nat, client: Ip, now: int) returns (i: int)
      requires |servers| > 0 && k < |peers| && peers[k].srcIp == client
      ensures i == if Eligible(State(), client, now, k) then LastAt(servers, peers[k].dstIp) else -1
    {
      i := -1;
      if peers[k].status != Failed {
        i := FindLastAt(peers[k].dstIp);
        if i >= 0 {
          if servers[i].lastFailed && now - servers[i].lastAttempt < retry {
            i := -1;
          }
        }
      }
    }

    /** The session found so far against that of record `k`. */
    method ConsiderRecord(client: Ip, port: int, now: int, k: nat, s: Session) returns (t: Session)
      requires |servers| > 0 && k < |peers| && IsSessionAmong(State(), client, port, now, k, s)
      ensures t == Considered(State(), client, port, now, k, s)
    {
      t := s;
      if peers[k].srcIp == client {
        var i := SessionServer(k, client, now);
        if i >= 0 {
          var home: nat := i;
          if peers[k].srcPort == port {
            t := Reuse(k, home);
          } else if s.Recreate? {
            if peers[k].modified > peers[s.index].modified && peers[s.index].status != Failed {
              t := Recreate(k, home);
            } else if peers[s.index].status == Failed {
              t := Recreate(k, home);
            }
          } else {
            t := Recreate(k, home);
          }
        }
      }
    }

    /** The session on the very same port, or else the best of the others. */
    method SearchSession(client: Ip, port: int, now: int) returns (s: Session)
      requires |servers| > 0
      ensures IsSession(State(), client, port, now, s)
    {
      ghost var d := State();
      s := NoSession;
      var k := 0;
      while k < |peers| && !s.Reuse?
        invariant k <= |peers|
        invariant IsSessionSoFar(d, client, port, now, k, s)
      {
        ConsideredNext(d, client, port, now, k, s);
        s := ConsiderRecord(client, port, now, k, s);
        k := k + 1;
      }
    }

    /** Looks for a session of the client; one on the very same port is taken over at once. */
    method FindSession(client: Ip, port: int, now: int, manager: nat) returns (s: Session)
      requires |servers| > 0
      modifies this`servers, this`peers
      ensures IsSession(old(State()), client, port, now, s)
      ensures State() == AfterSearch(old(State()), port, now, manager, s)
    {
      s := SearchSession(client, port, now);
      if s.Reuse? {
        var i := s.server;
        servers := servers[i := servers[i].(connecting := servers[i].connecting + 1)];
        var p := peers[s.index].(srcPort := port, status := ConnectingServer, modified := now, manager := manager);
        peers := peers[s.index := p];
      }
    }

    /** The server at index `server`, if there is one, is charged with one more record. */
    method ChargeRecord(server: int, p: Peer, ghost before: seq<Server>, ghost stale: seq<Peer>)
      requires servers == ChargedAt(before, server, stale)
      modifies this`servers
      ensures servers == ChargedAt(before, server, stale + [p])
    {
      ChargedOneMore(before, server, stale, p);
      if 0 <= server < |servers| {
        if IsDisconnected(p.status) {
          servers := servers[server := servers[server].(disconnected := Max(servers[server].disconnected - 1, 0))];
        } else {
          servers := servers[server := servers[server].(finished := Max(servers[server].finished - 1, 0))];
        }
      }
    }

    /** Drops the client's records that are not connected, charging them to `server`. */
    method DropStale(client: Ip, server: int)
      modifies this`servers, this`peers
      ensures peers == Fresh(old(peers), client)
      ensures servers == ChargedAt(old(servers), server, Stale(old(peers), client))
    {
      ghost var was := peers;
      ghost var k := 0;
      var i := 0;
      while i < |peers|
        invariant Sifted(was, FreshFor(client), k, i, peers)
        invariant servers == ChargedAt(old(servers), server, Stale(was[..k], client))
        decreases |was| - k
      {
        SiftedNext(was, FreshFor(client), k, i, peers);
        SelectNext(was, StaleFor(client), k);
        if peers[i].srcIp == client && IsNotConnected(peers[i].status) {
          ChargeRecord(server, peers[i], old(servers), Stale(was[..k], client));
          peers := peers[..i] + peers[i + 1..];
        } else {
          i := i + 1;
        }
        k := k + 1;
      }
      SiftedAll(was, FreshFor(client), k, i, peers);
      assert was[..k] == was;
    }

    /** The second locked section of a session search; `index` and `server` were found in
        the first one, and the list may have changed since. */
    method Recreating(client: Ip, port: int, index: int, server: int, now: int, manager: nat) returns (r: Option<Peer>)
      modifies this`servers, this`peers, this`nextId
      ensures State() == RecreateSession(old(State()), client, port, index, server, now, manager)
      ensures r == if CanRecreate(old(State()), client, index) then Some(peers[|peers| - 1]) else None
    {
      ghost var d := State();
      r := None;
      if 0 <= index < |peers| && peers[index].srcIp == client {
        if 0 <= server < |servers| {
          servers := servers[server := servers[server].(connecting := servers[server].connecting + 1)];
        }
        var lost := peers[index];
        var p := Peer(nextId, client, port, lost.dstIp, lost.dstPort, ConnectingServer, now, now, manager);
        nextId := nextId + 1;
        DropStale(client, server);
        assert servers == RecreateSession(d, client, port, index, server, now, manager).servers;
        peers := peers + [p];
        r := Some(p);
      }
    }

    method PickServer(client: Ip, start: nat, now: int) returns (any: bool, next: nat, ghost place: nat)
      requires |servers| > 0 && start == ScanStartAt(State())
      ensures IsPick(State(), client, now, any, place) && next == At(start, place, |servers|)
    {
      var cursor;
      ghost var trail;
      any, next, cursor, place, trail := ScanCandidates(View(servers, rules, client, start, now, retry), start);
    }

    method AssignServer(client: Ip, port: int, now: int, manager: nat)
      returns (r: Option<Peer>, ghost found: bool, ghost place: nat)
      requires |servers| > 0
      modifies this`servers, this`peers, this`nextId, this`lastServerAssigned
      ensures IsPick(old(State()), client, now, found, place)
      ensures State() == Assign(old(State()), client, port, now, manager, found, place)
      ensures r == if found then Some(peers[|peers| - 1]) else None
    {
      var start := lastServerAssigned + 1;
      if start >= |servers| {
        start := 0;
      }
      var any, next, at := PickServer(client, start, now);
      found, place := any, at;
      lastServerAssigned := start;
      if any {
        lastServerAssigned := next;
        var p := AddRecord(next, client, port, now, manager);
        r := Some(p);
      } else {
        r := None;
      }
    }

    method AddRecord(i: nat, client: Ip, port: int, now: int, manager: nat) returns (p: Peer)
      requires i < |servers|
      modifies this`servers, this`peers, this`nextId
      ensures servers == old(servers)[i := Connecting(old(servers)[i])]
      ensures p == NewPeer(old(nextId), client, port, old(servers)[i].ip, old(servers)[i].port, now, manager)
      ensures peers == old(peers) + [p] && nextId == old(nextId) + 1
    {
      servers := servers[i := servers[i].(connecting := servers[i].connecting + 1)];
      p := Peer(nextId, client, port, servers[i].ip, servers[i].port, ConnectingServer, now, now, manager);
      nextId := nextId + 1;
      peers := peers + [p];
    }

    /** Serving a client undisturbed: its session if it has one, otherwise the scan. */
    method GetServer(client: Ip, port: int, now: int, manager: nat) returns (r: Option<Peer>)
      modifies this
      ensures Serves(old(State()), client, port, now, manager, State(), r)
    {
      r := None;
      if |servers| > 0 {
        var s := FindSession(client, port, now, manager);
        match s
        case Reuse(k, i) => r := Some(peers[k]);
        case Recreate(k, i) => r := Recreating(client, port, k, i, now, manager);
        case NoSession =>
          ghost var found, place;
          r, found, place := AssignServer(client, port, now, manager);
      }
    }
  }

  /** What is known after the first `k` records when none of them is on the same port. */
  ghost predicate IsSessionAmong(d: Directory, client: Ip, port: int, now: int, k: nat, s: Session)
    requires k <= |d.peers|
  {
    && (forall j :: 0 <= j < k ==> !PortMatch(d, client, port, now, j))
    && match s {
         case Reuse(_, _) => false
         case Recreate(m, i) =>
           && m < k && Eligible(d, client, now, m) && i == LastAt(d.servers, d.peers[m].dstIp)
           && (forall j :: 0 <= j < k && Eligible(d, client, now, j) ==>
                 && d.peers[j].modified <= d.peers[m].modified
                 && (j < m ==> d.peers[j].modified < d.peers[m].modified))
         case NoSession => forall j :: 0 <= j < k ==> !Eligible(d, client, now, j)
       }
  }

  ghost predicate IsSessionSoFar(d: Directory, client: Ip, port: int, now: int, k: nat, s: Session)
    requires k <= |d.peers|
  {
    if s.Reuse? then IsSession(d, client, port, now, s) else IsSessionAmong(d, client, port, now, k, s)
  }

  /** The session to be kept of the one found before record `k` and that of the record. */
  function Considered(d: Directory, client: Ip, port: int, now: int, k: nat, s: Session): Session
    requires k < |d.peers| && (s.Recreate? ==> s.index < k)
  {
    var i := LastAt(d.servers, d.peers[k].dstIp);
    if !Eligible(d, client, now, k) || i < 0 then s
    else if d.peers[k].srcPort == port then Reuse(k, i)
    else if s.Recreate? && d.peers[k].modified <= d.peers[s.index].modified then s
    else Recreate(k, i)
  }

  lemma ConsideredNext(d: Directory, client: Ip, port: int, now: int, k: nat, s: Session)
    requires k < |d.peers| && IsSessionAmong(d, client, port, now, k, s)
    ensures IsSessionSoFar(d, client, port, now, k + 1, Considered(d, client, port, now, k, s))
  {
  }

  lemma OthersUnmarked(peers: seq<Peer>, k: nat, st: Status, now: int)
    requires k < |peers|
    ensures OtherConnected(peers[k := Marked(peers[k], st, now)], k) <==> OtherConnected(peers, k)
    ensures Without(peers[k := Marked(peers[k], st, now)], k) == Without(peers, k)
  {
    var marked := peers[k := Marked(peers[k], st, now)];
    assert forall j :: 0 <= j < |peers| && j != k ==> marked[j] == peers[j];
  }

  function ChargedAt(servers: seq<Server>, server: int, stale: seq<Peer>): seq<Server> {
    if 0 <= server < |servers| then servers[server := Charged(servers[server], stale)] else servers
  }

  lemma ChargedOneMore(servers: seq<Server>, server: int, stale: seq<Peer>, p: Peer)
    ensures 0 <= server < |servers| ==>
              var s := ChargedAt(servers, server, stale)[server];
              ChargedAt(servers, server, stale + [p]) == ChargedAt(servers, server, stale)[server :=
                if IsDisconnected(p.status) then s.(disconnected := Max(s.disconnected - 1, 0))
                else s.(finished := Max(s.finished - 1, 0))]
  {
    assert (stale + [p])[..|stale|] == stale;
  }

}
