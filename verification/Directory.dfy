/** The state of the server list and what each of its operations does to it. */
module Directories {
  import opened Numbers
  import opened Lists
  import opened Statuses
  import opened Filters
  import opened Records
  import opened Selection

  datatype Directory = Directory(
    servers: seq<Server>, peers: seq<Peer>, rules: seq<Rule>,
    cursor: nat, retry: int, lastCleanup: int, nextId: nat)

  /** One less, but not below zero. */
  function Dec(x: int): int { Max(x - 1, 0) }

  /** `k` times one less, but not below zero. */
  function DecBy(x: int, k: nat): int { if k == 0 then x else Max(x - k, 0) }

  // ----- messages -----

  /** Another connection of the same client is still under way. */
  predicate OtherConnected(peers: seq<Peer>, k: nat)
    requires k < |peers|
  {
    exists j :: 0 <= j < |peers| && j != k && !IsNotConnected(peers[j].status) && peers[j].srcIp == peers[k].srcIp
  }

  function Without<T>(s: seq<T>, k: nat): seq<T>
    requires k < |s|
  {
    s[..k] + s[k + 1..]
  }

  function Marked(p: Peer, st: Status, now: int): Peer {
    if st.Cancelled? || st.Kicked? then p else p.(status := st, modified := now)
  }

  /** A connection leaves the state it was counted in. */
  function Ended(s: Server, st: Status, now: int): Server {
    if st.Failed? then s.(connecting := Dec(s.connecting), lastFailed := true, lastAttempt := now)
    else s.(connected := Dec(s.connected))
  }

  function Past(s: Server, st: Status): Server {
    if IsDisconnected(st) then s.(disconnected := s.disconnected + 1) else s.(finished := s.finished + 1)
  }

  function Connected(s: Server, now: int): Server {
    s.(connected := s.connected + 1, connecting := Dec(s.connecting), lastFailed := false, lastAttempt := now)
  }

  /** What a message does to the server of its record. */
  function Moved(s: Server, st: Status, dropped: bool, now: int): Server {
    if IsNotConnected(st) then (if dropped then Ended(s, st, now) else Past(Ended(s, st, now), st))
    else if st.Established? then Connected(s, now)
    else s
  }

  /** A record that ended is dropped at once when its client has another connection under
      way, or when it is older than the last purge. */
  predicate Drops(d: Directory, k: nat, st: Status)
    requires k < |d.peers|
  {
    IsNotConnected(st) && (OtherConnected(d.peers, k) || d.peers[k].created < d.lastCleanup)
  }

  function Deliver(d: Directory, id: nat, st: Status, now: int): Directory {
    var k := FindPeer(d.peers, id);
    if k < 0 then d else
      var p := d.peers[k];
      var i := FindServer(d.servers, p.dstIp, p.dstPort);
      if i < 0 then d.(peers := d.peers[k := Marked(p, st, now)]) else
        d.(servers := d.servers[i := Moved(d.servers[i], st, Drops(d, k, st), now)],
           peers := if Drops(d, k, st) then Without(d.peers, k) else d.peers[k := Marked(p, st, now)])
  }

  // ----- cleaning -----

  /** A server loses a connection that ended. */
  function Taken(s: Server, p: Peer): Server {
    if IsDisconnected(p.status) && s.disconnected != 0 then s.(disconnected := Dec(s.disconnected))
    else s.(finished := Dec(s.finished))
  }

  /** One record is dropped: its server, found by address alone, loses one connection. */
  function Uncount(servers: seq<Server>, p: Peer): (r: seq<Server>)
    ensures |r| == |servers|
  {
    var i := FirstAt(servers, p.dstIp);
    if i < 0 then servers else servers[i := Taken(servers[i], p)]
  }

  function UncountAll(servers: seq<Server>, peers: seq<Peer>): (r: seq<Server>)
    ensures |r| == |servers|
    decreases |peers|
  {
    if peers == [] then servers else
      var p := peers[|peers| - 1];
      var r := UncountAll(servers, peers[..|peers| - 1]);
      if IsNotConnected(p.status) then Uncount(r, p) else r
  }

  predicate IsKept(p: Peer) { !IsNotConnected(p.status) }

  function Kept(peers: seq<Peer>): seq<Peer> { Select(peers, IsKept) }

  function Clean(d: Directory): Directory {
    d.(servers := UncountAll(d.servers, d.peers), peers := Kept(d.peers))
  }

  // ----- sessions -----

  /** The record holds a session of this client that a new connection may continue. */
  predicate Eligible(d: Directory, client: Ip, now: int, k: nat)
    requires k < |d.peers|
  {
    var p := d.peers[k];
    var i := LastAt(d.servers, p.dstIp);
    p.srcIp == client && !p.status.Failed? && i >= 0 && !InRetryWindow(d.servers[i], now, d.retry)
  }

  datatype Session = Reuse(index: nat, server: nat) | Recreate(index: nat, server: nat) | NoSession

  predicate PortMatch(d: Directory, client: Ip, port: int, now: int, k: nat)
    requires k < |d.peers|
  {
    Eligible(d, client, now, k) && d.peers[k].srcPort == port
  }

  /** The first session on the very same port, or else the one modified last, the first
      of those on ties. */
  ghost predicate IsSession(d: Directory, client: Ip, port: int, now: int, s: Session) {
    match s
    case Reuse(k, i) =>
      && k < |d.peers| && PortMatch(d, client, port, now, k) && i == LastAt(d.servers, d.peers[k].dstIp)
      && (forall j :: 0 <= j < k ==> !PortMatch(d, client, port, now, j))
    case Recreate(k, i) =>
      && k < |d.peers| && Eligible(d, client, now, k) && i == LastAt(d.servers, d.peers[k].dstIp)
      && (forall j :: 0 <= j < |d.peers| ==> !PortMatch(d, client, port, now, j))
      && (forall j :: 0 <= j < |d.peers| && Eligible(d, client, now, j) ==>
            d.peers[j].modified <= d.peers[k].modified && (j < k ==> d.peers[j].modified < d.peers[k].modified))
    case NoSession => forall j :: 0 <= j < |d.peers| ==> !Eligible(d, client, now, j)
  }

  function Connecting(s: Server): Server { s.(connecting := s.connecting + 1) }

  function Reused(p: Peer, port: int, now: int, manager: nat): Peer {
    p.(srcPort := port, status := ConnectingServer, modified := now, manager := manager)
  }

  /** The effect of the search, which already takes over a record found on the same port. */
  function AfterSearch(d: Directory, port: int, now: int, manager: nat, s: Session): Directory {
    if s.Reuse? && s.index < |d.peers| && s.server < |d.servers| then
      d.(servers := d.servers[s.server := Connecting(d.servers[s.server])],
         peers := d.peers[s.index := Reused(d.peers[s.index], port, now, manager)])
    else d
  }

  predicate IsStale(p: Peer, client: Ip) { p.srcIp == client && IsNotConnected(p.status) }

  function FreshFor(client: Ip): Peer -> bool { p => !IsStale(p, client) }

  function StaleFor(client: Ip): Peer -> bool { p => IsStale(p, client) }

  function Fresh(peers: seq<Peer>, client: Ip): seq<Peer> { Select(peers, FreshFor(client)) }

  function Stale(peers: seq<Peer>, client: Ip): seq<Peer> { Select(peers, StaleFor(client)) }

  function BrokenIn(peers: seq<Peer>): nat {
    if peers == [] then 0
    else BrokenIn(peers[..|peers| - 1]) + if IsDisconnected(peers[|peers| - 1].status) then 1 else 0
  }

  function OverIn(peers: seq<Peer>): nat {
    if peers == [] then 0
    else OverIn(peers[..|peers| - 1]) + if IsDisconnected(peers[|peers| - 1].status) then 0 else 1
  }

  /** A server is charged with dropped records, wherever they were. */
  function Charged(s: Server, stale: seq<Peer>): Server {
    s.(disconnected := DecBy(s.disconnected, BrokenIn(stale)), finished := DecBy(s.finished, OverIn(stale)))
  }

  /** The server a session is recreated on gains a connection and is charged with every
      dropped record of the client. */
  function Recharged(s: Server, stale: seq<Peer>): Server { Charged(Connecting(s), stale) }

  function NewPeer(id: nat, client: Ip, port: int, dstIp: Ip, dstPort: int, now: int, manager: nat): Peer {
    Peer(id, client, port, dstIp, dstPort, ConnectingServer, now, now, manager)
  }

  /** Recreating the session at `index`, found earlier to belong to `server`: only the
      record's client is checked again. */
  predicate CanRecreate(d: Directory, client: Ip, index: int) {
    0 <= index < |d.peers| && d.peers[index].srcIp == client
  }

  function RecreateSession(
    d: Directory, client: Ip, port: int, index: int, server: int, now: int, manager: nat): Directory {
    if !CanRecreate(d, client, index) then d else
      var lost := d.peers[index];
      d.(servers := if 0 <= server < |d.servers|
                    then d.servers[server := Recharged(d.servers[server], Stale(d.peers, client))] else d.servers,
         peers := Fresh(d.peers, client) + [NewPeer(d.nextId, client, port, lost.dstIp, lost.dstPort, now, manager)],
         nextId := d.nextId + 1)
  }

  // ----- assigning a server -----

  function ScanStartAt(d: Directory): (i: nat)
    requires |d.servers| > 0
    ensures i < |d.servers|
  {
    if d.cursor + 1 < |d.servers| then d.cursor + 1 else 0
  }

  function Candidates(d: Directory, client: Ip, now: int): (v: seq<Candidate>)
    requires |d.servers| > 0
    ensures |v| == |d.servers|
  {
    View(d.servers, d.rules, client, ScanStartAt(d), now, d.retry)
  }

  /** `place` is the winner's distance from the start of the scan. */
  function Assign(d: Directory, client: Ip, port: int, now: int, manager: nat, found: bool, place: nat): Directory
    requires place < |d.servers|
  {
    if !found then d.(cursor := ScanStartAt(d)) else
      var i := At(ScanStartAt(d), place, |d.servers|);
      var s := d.servers[i];
      d.(cursor := i, servers := d.servers[i := Connecting(s)],
         peers := d.peers + [NewPeer(d.nextId, client, port, s.ip, s.port, now, manager)], nextId := d.nextId + 1)
  }

  // ----- serving a client -----

  /** The scan's result: a place, and whether the server there is assigned. */
  ghost predicate IsPick(d: Directory, client: Ip, now: int, found: bool, place: nat) {
    && place < |d.servers|
    && (found <==> SomeEntrant(Candidates(d, client, now), |d.servers|))
    && (found ==> Winner(Candidates(d, client, now), |d.servers|, place))
  }

  /** What serving a client means: a session is continued on its server, or the winner of
      the scan is assigned, or the client is refused because nothing may be assigned. */
  ghost predicate Serves(d: Directory, client: Ip, port: int, now: int, manager: nat, e: Directory, r: Option<Peer>) {
    if d.servers == [] then e == d && r == None else
      exists s: Session :: IsSession(d, client, port, now, s) && ServesAs(d, client, port, now, manager, e, r, s)
  }

  ghost predicate ServesAs(
    d: Directory, client: Ip, port: int, now: int, manager: nat, e: Directory, r: Option<Peer>, s: Session) {
    match s
    case Reuse(k, _) => e == AfterSearch(d, port, now, manager, s) && k < |e.peers| && r == Some(e.peers[k])
    case Recreate(k, i) =>
      e == RecreateSession(d, client, port, k, i, now, manager) && |e.peers| > 0 && r == Some(e.peers[|e.peers| - 1])
    case NoSession =>
      exists found: bool, place: nat ::
        && IsPick(d, client, now, found, place)
        && e == Assign(d, client, port, now, manager, found, place)
        && (if found then |e.peers| > 0 && r == Some(e.peers[|e.peers| - 1]) else r == None)
  }

}
