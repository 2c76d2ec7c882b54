/** The relay pair: what one client socket, one backend socket and the two bounded
    buffers between them do, for every result the sockets may return. */
module Relay {
  import opened Statuses

  const CAPACITY: nat := 16384

  type Byte = x: int | 0 <= x < 256

  // ----- what a socket may answer -----

  datatype Receipt = Received(data: seq<Byte>) | ReceiveAgain | ReceiveError | ReceiveClosed

  datatype Sending = Sent(count: nat) | SendAgain | SendError | SendClosed

  /** The bytes a receive of at most `room` bytes delivers. */
  function Delivered(rx: Receipt, room: nat): (data: seq<Byte>)
    ensures |data| <= room
  {
    if rx.Received? then (if |rx.data| <= room then rx.data else rx.data[..room]) else []
  }

  /** Result of a non-blocking receive: a byte count, 0 (would block), -1 (error)
      or -2 (closed by the other side, which is also what a count of zero means). */
  function ReceiveCode(rx: Receipt, room: nat): (code: int)
    ensures -2 <= code <= room
    ensures code > 0 <==> Delivered(rx, room) != []
  {
    match rx
    case Received(_) => var n := |Delivered(rx, room)|; if n > 0 then n else -2
    case ReceiveAgain => 0
    case ReceiveError => -1
    case ReceiveClosed => -2
  }

  /** How many of `pending` bytes a send takes. */
  function TakenBy(tx: Sending, pending: nat): (n: nat)
    ensures n <= pending
  {
    if !tx.Sent? then 0 else if tx.count <= pending then tx.count else pending
  }

  /** Result of a non-blocking send of `pending` bytes. */
  function SendCode(tx: Sending, pending: nat): (code: int)
    ensures -2 <= code <= pending
    ensures if code > 0 then code == TakenBy(tx, pending) else TakenBy(tx, pending) == 0
  {
    match tx
    case Sent(n) => var k := TakenBy(tx, pending); if k > 0 then k else -2
    case SendAgain => 0
    case SendError => -1
    case SendClosed => -2
  }

  // ----- the state -----

  /** One direction: the unsent bytes, the room left in the buffer, and the history of
      bytes accepted from the source and handed to the destination. */
  datatype Lane = Lane(queue: seq<Byte>, room: nat, accepted: seq<Byte>, handed: seq<Byte>)

  /** `up` carries client to server, `down` server to client; `posts` is what the pair
      has put on the message queue. */
  datatype Pair = Pair(client: bool, server: bool, established: bool, up: Lane, down: Lane, posts: seq<Status>)

  /** Readiness of the two sockets after select, and what each call on them returns. */
  datatype Io = Io(
    clientReadable: bool, clientWritable: bool, serverReadable: bool, serverWritable: bool,
    fromClient: Receipt, fromServer: Receipt, toClient: Sending, toServer: Sending)

  const EMPTY_LANE := Lane([], CAPACITY, [], [])

  const FRESH := Pair(true, true, false, EMPTY_LANE, EMPTY_LANE, [])

  function Post(p: Pair, s: Status): Pair { p.(posts := p.posts + [s]) }

  predicate IsActive(p: Pair) { p.client || p.server }

  function OpenEnds(p: Pair): nat { (if p.client then 1 else 0) + (if p.server then 1 else 0) }

  // ----- operations on a lane -----

  function Drop(l: Lane): Lane { l.(queue := [], room := CAPACITY) }

  function Store(l: Lane, data: seq<Byte>): Lane
    requires |data| <= l.room
  {
    Lane(l.queue + data, l.room - |data|, l.accepted + data, l.handed)
  }

  /** Room is given back only once the buffer is empty. */
  function Hand(l: Lane, n: nat): Lane
    requires n <= |l.queue|
  {
    Lane(l.queue[n..], if n == |l.queue| then CAPACITY else l.room, l.accepted, l.handed + l.queue[..n])
  }

  // ----- operations on the pair -----

  /** Closing the client takes the server with it unless unsent bytes hold the server
      open on an established pair. */
  function CloseClient(p: Pair): Pair {
    if !p.client then p
    else if p.server && (p.up.queue == [] || !p.established) then
      p.(client := false, server := false, up := Drop(p.up), down := Drop(p.down))
    else p.(client := false, down := Drop(p.down))
  }

  /** Closing the server takes the client with it unless unsent bytes hold the client open. */
  function CloseServer(p: Pair): Pair {
    if !p.server then p
    else if p.client && p.down.queue == [] then
      p.(client := false, server := false, up := Drop(p.up), down := Drop(p.down))
    else p.(server := false, up := Drop(p.up))
  }

  function CloseBoth(p: Pair): Pair { CloseServer(CloseClient(p)) }

  function FromClient(p: Pair, rx: Receipt): Pair {
    if !p.client || p.up.room == 0 then p else
      var code := ReceiveCode(rx, p.up.room);
      if code > 0 then p.(up := Store(p.up, Delivered(rx, p.up.room)))
      else if code == 0 then p
      else Post(CloseClient(p), if !p.established then Failed else if code == -2 then ClientClosed else ClientLost)
  }

  function FromServer(p: Pair, rx: Receipt): Pair {
    if !p.server || p.down.room == 0 then p else
      var code := ReceiveCode(rx, p.down.room);
      if code > 0 then p.(down := Store(p.down, Delivered(rx, p.down.room)))
      else if code == 0 then p
      else Post(CloseServer(p), if code == -2 then ServerClosed else ServerLost)
  }

  function ToClient(p: Pair, tx: Sending): Pair {
    if !p.client || p.down.queue == [] then p else
      var code := SendCode(tx, |p.down.queue|);
      if code > 0 then
        var q := p.(down := Hand(p.down, code));
        if !q.server && q.down.queue == [] then Post(CloseClient(q), Cancelled) else q
      else if code == 0 then p
      else Post(CloseClient(p), if code == -2 then ClientClosed else ClientLost)
  }

  function ToServer(p: Pair, tx: Sending): Pair {
    if !p.server || p.up.queue == [] then p else
      var code := SendCode(tx, |p.up.queue|);
      if code > 0 then
        var q := p.(up := Hand(p.up, code));
        if !q.client && q.up.queue == [] then Post(CloseServer(q), Cancelled) else q
      else if code == 0 then p
      else Post(CloseServer(p), if code == -2 then ServerClosed else ServerLost)
  }

  /** One turn of a pair whose backend connection is still being made; the flag says
      whether the manager must move it to the list of connected pairs. */
  function ManageConnecting(p: Pair, io: Io): (Pair, bool) {
    if p.client && p.server then
      var q := if io.clientReadable then FromClient(p, io.fromClient) else p;
      if q.server && io.serverWritable then (Post(q.(established := true), Established), true) else (q, false)
    else if p.client then
      var q := if io.clientWritable then ToClient(p, io.toClient) else p;
      var (q1, moved) := if q.down.queue == [] then (Post(CloseClient(q), Cancelled), true) else (q, false);
      if q1.server then (Post(CloseServer(q1), Cancelled), false) else (q1, moved)
    else if p.server then (Post(CloseServer(p), Cancelled), false)
    else (p, false)
  }

  /** Result of a turn: `NullAccess` is the use of the client socket at line 398 of
      ConnectionPeer.cpp after that socket has been released. */
  datatype Turn = Done(pair: Pair) | NullAccess

  /** First half of a turn with both ends open: client to server. */
  function UpTurn(p: Pair, io: Io): Pair {
    if io.clientReadable then ToServer(FromClient(p, io.fromClient), io.toServer)
    else if io.serverWritable then ToServer(p, io.toServer)
    else p
  }

  /** Second half: server to client. */
  function DownTurn(p: Pair, io: Io): Turn {
    if !p.server then Done(p)
    else if io.serverReadable then Done(ToClient(FromServer(p, io.fromServer), io.toClient))
    else if !p.client then NullAccess
    else if io.clientWritable then Done(ToClient(p, io.toClient))
    else Done(p)
  }

  /** A turn of a pair with at most one end open. */
  function SingleTurn(p: Pair, io: Io): Pair {
    if p.client then
      var a := if io.clientWritable then ToClient(p, io.toClient) else p;
      if a.down.queue == [] then Post(CloseClient(a), Cancelled) else a
    else if p.server then
      var a := if io.serverWritable then ToServer(p, io.toServer) else p;
      if a.up.queue == [] then Post(CloseServer(a), Cancelled) else a
    else p
  }

  /** One turn of an established pair. */
  function ManageConnections(p: Pair, io: Io): Turn {
    if p.client && p.server then DownTurn(UpTurn(p, io), io) else Done(SingleTurn(p, io))
  }

  /** Reaction to select failing on a bad descriptor; the same for both lists. */
  function CheckPeers(p: Pair, serverBad: bool, clientBad: bool): Pair {
    var q := if p.server && serverBad then Post(CloseServer(p), ServerLost) else p;
    if q.client && clientBad then Post(CloseClient(q), ClientLost) else q
  }

  /** A kick request for this pair. */
  function Kick(p: Pair): Pair { Post(CloseBoth(p), ServerClosed) }

  // ----- what is registered with select -----

  datatype End = ClientEnd | ServerEnd

  function ReadSet(p: Pair): set<End> {
    (if p.client && p.up.room > 0 then {ClientEnd} else {}) + (if p.server && p.down.room > 0 then {ServerEnd} else {})
  }

  function WriteSet(p: Pair): set<End> {
    (if p.client && p.down.queue != [] then {ClientEnd} else {}) +
    (if p.server && p.up.queue != [] then {ServerEnd} else {})
  }

  /** A connecting pair: the client in the read set, the server in the write set. */
  function ConnectSet(p: Pair): (set<End>, set<End>) {
    (if p.client && p.up.room > 0 then {ClientEnd} else {}, if p.server then {ServerEnd} else {})
  }

}
