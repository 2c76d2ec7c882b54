/** The backend servers and the connection records of the server list. */
module Records {
  import opened Statuses
  import opened Filters

  datatype Option<T> = None | Some(value: T)

  datatype Server = Server(
    ip: Ip, port: int, disconnected: int, finished: int, connected: int, connecting: int,
    weight: int, maxConnections: int, lastFailed: bool, lastAttempt: int)

  /** A connection record; `id` stands for its address, which nothing else ever has. */
  datatype Peer = Peer(
    id: nat, srcIp: Ip, srcPort: int, dstIp: Ip, dstPort: int, status: Status,
    created: int, modified: int, manager: nat)

  /** Inside the time a failed server is left alone. */
  predicate InRetryWindow(s: Server, now: int, retry: int) {
    s.lastFailed && now - s.lastAttempt < retry
  }

  // ----- lookups -----

  function FindPeer(peers: seq<Peer>, id: nat): (k: int)
    ensures -1 <= k < |peers|
    ensures k >= 0 ==> peers[k].id == id
    ensures forall j :: 0 <= j < (if k < 0 then |peers| else k) ==> peers[j].id != id
  {
    if peers == [] then -1
    else if peers[0].id == id then 0
    else var k := FindPeer(peers[1..], id); if k < 0 then -1 else k + 1
  }

  /** The first server at an address and port. */
  function FindServer(servers: seq<Server>, ip: Ip, port: int): (k: int)
    ensures -1 <= k < |servers|
    ensures k >= 0 ==> servers[k].ip == ip && servers[k].port == port
    ensures forall j :: 0 <= j < (if k < 0 then |servers| else k) ==> servers[j].ip != ip || servers[j].port != port
  {
    if servers == [] then -1
    else if servers[0].ip == ip && servers[0].port == port then 0
    else var k := FindServer(servers[1..], ip, port); if k < 0 then -1 else k + 1
  }

  /** The first server at an address, whatever its port. */
  function FirstAt(servers: seq<Server>, ip: Ip): (k: int)
    ensures -1 <= k < |servers|
    ensures k >= 0 ==> servers[k].ip == ip
    ensures forall j :: 0 <= j < (if k < 0 then |servers| else k) ==> servers[j].ip != ip
  {
    if servers == [] then -1
    else if servers[0].ip == ip then 0
    else var k := FirstAt(servers[1..], ip); if k < 0 then -1 else k + 1
  }

  /** The last server at an address, whatever its port. */
  function LastAt(servers: seq<Server>, ip: Ip): (k: int)
    ensures -1 <= k < |servers|
    ensures k >= 0 ==> servers[k].ip == ip
    ensures forall j :: (if k < 0 then 0 else k + 1) <= j < |servers| ==> servers[j].ip != ip
  {
    if servers == [] then -1
    else if servers[|servers| - 1].ip == ip then |servers| - 1
    else LastAt(servers[..|servers| - 1], ip)
  }

}
