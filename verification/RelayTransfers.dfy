/** What the operations of a relay pair do, said in terms of what the sockets answered: the
    bytes they delivered and took, the ends they closed and how that is reported. */
module RelayTransfers {
  import opened Statuses
  import opened Relay
  import opened RelayRuns

  // ----- one call -----

  /** The socket delivered bytes, would block, or is over. */
  predicate Delivers(rx: Receipt) { rx.Received? && rx.data != [] }

  predicate Takes(tx: Sending) { tx.Sent? && tx.count > 0 }

  predicate SameHistory(l: Lane, m: Lane) { l.accepted == m.accepted && l.handed == m.handed }

  /** Of an end that was closed nothing waits any more, and its whole buffer is free. */
  predicate Dropped(p: Pair, q: Pair) {
    && (p.client && !q.client ==> q.down.queue == [] && q.down.room == CAPACITY)
    && (p.server && !q.server ==> q.up.queue == [] && q.up.room == CAPACITY)
  }

  lemma ReceivedFromClient(p: Pair, rx: Receipt)
    requires p.client && p.up.room > 0
    ensures var q := FromClient(p, rx);
            && q.up.accepted == p.up.accepted + Delivered(rx, p.up.room) && q.up.handed == p.up.handed
            && SameHistory(q.down, p.down) && q.established == p.established
            && (rx.ReceiveAgain? ==> q == p)
            && (Delivers(rx) ==> q == p.(up := q.up) && q.up.queue == p.up.queue + Delivered(rx, p.up.room)
                                 && q.up.room == p.up.room - |Delivered(rx, p.up.room)|)
            && (!Delivers(rx) && !rx.ReceiveAgain? ==>
                  && !q.client && (q.server <==> p.server && p.established && p.up.queue != [])
                  && (q.server ==> q.up == p.up) && Dropped(p, q)
                  && q.posts == p.posts + [if !p.established then Failed
                                           else if rx.ReceiveError? then ClientLost else ClientClosed])
  {
  }

  lemma ReceivedFromServer(p: Pair, rx: Receipt)
    requires p.server && p.down.room > 0
    ensures var q := FromServer(p, rx);
            && q.down.accepted == p.down.accepted + Delivered(rx, p.down.room) && q.down.handed == p.down.handed
            && SameHistory(q.up, p.up) && q.established == p.established
            && (rx.ReceiveAgain? ==> q == p)
            && (Delivers(rx) ==> q == p.(down := q.down) && q.down.queue == p.down.queue + Delivered(rx, p.down.room)
                                 && q.down.room == p.down.room - |Delivered(rx, p.down.room)|)
            && (!Delivers(rx) && !rx.ReceiveAgain? ==>
                  && !q.server && (q.client <==> p.client && p.down.queue != [])
                  && (q.client ==> q.down == p.down) && Dropped(p, q)
                  && q.posts == p.posts + [if rx.ReceiveError? then ServerLost else ServerClosed])
  {
  }

  /** Exactly the bytes that the socket took are handed over, the oldest first; the others
      stay. */
  lemma SentToClient(p: Pair, tx: Sending)
    requires p.client && p.down.queue != []
    ensures var q, n := ToClient(p, tx), TakenBy(tx, |p.down.queue|);
            && q.down.handed == p.down.handed + p.down.queue[..n] && q.down.accepted == p.down.accepted
            && SameHistory(q.up, p.up) && q.established == p.established
            && (tx.SendAgain? ==> q == p)
            && (Takes(tx) ==>
                  && q.server == p.server && (q.client <==> p.server || n < |p.down.queue|)
                  && (q.client ==> q.down.queue == p.down.queue[n..] && q.up == p.up)
                  && q.posts == (p.posts + if q.client then [] else [Cancelled]) && Dropped(p, q))
            && (!Takes(tx) && !tx.SendAgain? ==>
                  && !q.client && (q.server <==> p.server && p.established && p.up.queue != [])
                  && (q.server ==> q.up == p.up) && Dropped(p, q)
                  && q.posts == p.posts + [if tx.SendError? then ClientLost else ClientClosed])
  {
    assert p.down.handed + [] == p.down.handed;
  }

  lemma SentToServer(p: Pair, tx: Sending)
    requires p.server && p.up.queue != []
    ensures var q, n := ToServer(p, tx), TakenBy(tx, |p.up.queue|);
            && q.up.handed == p.up.handed + p.up.queue[..n] && q.up.accepted == p.up.accepted
            && SameHistory(q.down, p.down) && q.established == p.established
            && (tx.SendAgain? ==> q == p)
            && (Takes(tx) ==>
                  && q.client == p.client && (q.server <==> p.client || n < |p.up.queue|)
                  && (q.server ==> q.up.queue == p.up.queue[n..] && q.down == p.down)
                  && q.posts == (p.posts + if q.server then [] else [Cancelled]) && Dropped(p, q))
            && (!Takes(tx) && !tx.SendAgain? ==>
                  && !q.server && (q.client <==> p.client && p.down.queue != [])
                  && (q.client ==> q.down == p.down) && Dropped(p, q)
                  && q.posts == p.posts + [if tx.SendError? then ServerLost else ServerClosed])
  {
    assert p.up.handed + [] == p.up.handed;
  }

  /** A bad end is closed and reported as lost; the other one goes with it unless bytes wait
      for it. */
  lemma BadEndsClosed(p: Pair, serverBad: bool, clientBad: bool)
    ensures var q := CheckPeers(p, serverBad, clientBad);
            var lostServer := p.server && serverBad;
            var lostClient := p.client && clientBad && (lostServer ==> p.down.queue != []);
            && (q.client <==> p.client && !clientBad && (lostServer ==> p.down.queue != []))
            && (q.server <==> p.server && !serverBad && (lostClient ==> p.established && p.up.queue != []))
            && SameHistory(q.up, p.up) && SameHistory(q.down, p.down)
            && (q.client ==> q.down == p.down) && (q.server ==> q.up == p.up) && Dropped(p, q)
            && q.posts == p.posts + (if lostServer then [ServerLost] else [])
                                  + (if lostClient then [ClientLost] else [])
  {
  }

  /** A kick closes both ends and reports the server's as the one that closed. */
  lemma KickedClosed(p: Pair)
    ensures var q := Kick(p);
            && !IsActive(q) && SameHistory(q.up, p.up) && SameHistory(q.down, p.down) && Dropped(p, q)
            && q.posts == p.posts + [ServerClosed] && q.established == p.established
  {
  }

  /** A lone end that has its turn is over when nothing waits for it any more, and reported
      so each time. */
  lemma LoneEndCancelled(p: Pair, kicks: nat, io: Io)
    requires Sound(p, kicks) && p.established && OpenEnds(p) == 1
    ensures var q, tx := SingleTurn(p, io), if p.client then io.toClient else io.toServer;
            var n := |if p.client then p.down.queue else p.up.queue|;
            var called := if p.client then io.clientWritable else io.serverWritable;
            && (IsActive(q) <==> !called || tx.SendAgain? || (Takes(tx) && TakenBy(tx, n) < n))
            && (!IsActive(q) ==> |q.posts| == |p.posts| + 2 && q.posts[|p.posts| + 1] == Cancelled)
            && (IsActive(q) ==> q.posts == p.posts)
  {
    LoneTurn(p, kicks, io);
    if p.client {
      SentToClient(p, io.toClient);
    } else {
      SentToServer(p, io.toServer);
    }
  }

  // ----- what select waits for -----

  /** A connected pair waits for exactly those sockets on which a call could do anything. */
  lemma SelectIsExact(p: Pair)
    ensures ClientEnd in ReadSet(p) <==> exists rx :: FromClient(p, rx) != p
    ensures ServerEnd in ReadSet(p) <==> exists rx :: FromServer(p, rx) != p
    ensures ClientEnd in WriteSet(p) <==> exists tx :: ToClient(p, tx) != p
    ensures ServerEnd in WriteSet(p) <==> exists tx :: ToServer(p, tx) != p
    ensures ClientEnd in ConnectSet(p).0 <==> exists rx :: FromClient(p, rx) != p
    ensures ServerEnd in ConnectSet(p).1 <==> p.server
  {
    if p.client && p.up.room > 0 {
      assert FromClient(p, ReceiveClosed) != p;
    }
    if p.server && p.down.room > 0 {
      assert FromServer(p, ReceiveClosed) != p;
    }
    if p.client && p.down.queue != [] {
      assert ToClient(p, SendClosed) != p;
    }
    if p.server && p.up.queue != [] {
      assert ToServer(p, SendClosed) != p;
    }
  }

  // ----- one turn -----

  /** Bytes that the sockets delivered and took. */
  datatype Traffic = Traffic(fromClient: seq<Byte>, toServer: seq<Byte>, fromServer: seq<Byte>, toClient: seq<Byte>)

  const NO_TRAFFIC := Traffic([], [], [], [])

  /** The oldest bytes of those that wait, as many as the send takes. */
  function Front(queue: seq<Byte>, tx: Sending): seq<Byte> { queue[..TakenBy(tx, |queue|)] }

  /** From a readable client as much as there is room for; to the server the oldest bytes
      waiting, when it is writable or the client was readable. */
  function UpTraffic(p: Pair, io: Io): Traffic {
    var data := if io.clientReadable then Delivered(io.fromClient, p.up.room) else [];
    var called := io.clientReadable || io.serverWritable;
    NO_TRAFFIC.(fromClient := data, toServer := if called then Front(p.up.queue + data, io.toServer) else [])
  }

  /** The other direction, with the ends that the first half of the turn left open. */
  function DownTraffic(p: Pair, io: Io): Traffic {
    if !p.server then NO_TRAFFIC else
      var data := if io.serverReadable then Delivered(io.fromServer, p.down.room) else [];
      var waiting := if p.client then p.down.queue + data else [];
      NO_TRAFFIC.(fromServer := data,
                  toClient := if io.serverReadable || io.clientWritable then Front(waiting, io.toClient) else [])
  }

  /** The histories of `q` are those of `p` and this traffic. */
  ghost predicate Carried(p: Pair, q: Pair, t: Traffic) {
    && q.up.accepted == p.up.accepted + t.fromClient && q.up.handed == p.up.handed + t.toServer
    && q.down.accepted == p.down.accepted + t.fromServer && q.down.handed == p.down.handed + t.toClient
  }

  lemma UpCarried(p: Pair, kicks: nat, io: Io)
    requires Sound(p, kicks) && p.established && p.client && p.server
    ensures Carried(p, UpTurn(p, io), UpTraffic(p, io))
  {
    var a := if io.clientReadable then FromClient(p, io.fromClient) else p;
    if io.clientReadable && p.up.room > 0 {
      ReceivedFromClient(p, io.fromClient);
    }
    if a.server && a.up.queue != [] {
      SentToServer(a, io.toServer);
    }
  }

  lemma DownCarried(p: Pair, kicks: nat, io: Io)
    requires Sound(p, kicks) && p.established && DownTurn(p, io).Done?
    ensures Carried(p, DownTurn(p, io).pair, DownTraffic(p, io))
  {
    if p.server {
      var a := if io.serverReadable then FromServer(p, io.fromServer) else p;
      if io.serverReadable && p.down.room > 0 {
        ReceivedFromServer(p, io.fromServer);
      }
      if a.client && a.down.queue != [] && (io.serverReadable || io.clientWritable) {
        SentToClient(a, io.toClient);
      }
    }
  }

  /** A lone end that is writable takes the oldest bytes that wait for it. */
  function LoneTraffic(p: Pair, io: Io): Traffic {
    if p.client then NO_TRAFFIC.(toClient := if io.clientWritable then Front(p.down.queue, io.toClient) else [])
    else if p.server then NO_TRAFFIC.(toServer := if io.serverWritable then Front(p.up.queue, io.toServer) else [])
    else NO_TRAFFIC
  }

  lemma LoneCarried(p: Pair, kicks: nat, io: Io)
    requires Sound(p, kicks) && p.established && !(p.client && p.server)
    ensures Carried(p, SingleTurn(p, io), LoneTraffic(p, io))
  {
    if p.client && io.clientWritable {
      SentToClient(p, io.toClient);
    } else if p.server && io.serverWritable {
      SentToServer(p, io.toServer);
    }
  }

  /** While the backend is connecting, only a readable client is served. */
  function ConnectingTraffic(p: Pair, io: Io): Traffic {
    if p.client && io.clientReadable then NO_TRAFFIC.(fromClient := Delivered(io.fromClient, p.up.room)) else NO_TRAFFIC
  }

  lemma ConnectingCarried(p: Pair, kicks: nat, io: Io)
    requires Sound(p, kicks) && !p.established
    ensures Carried(p, ManageConnecting(p, io).0, ConnectingTraffic(p, io))
    ensures ManageConnecting(p, io).1 <==>
            p.client && p.server && io.serverWritable
            && (io.clientReadable ==> io.fromClient.ReceiveAgain? || Delivers(io.fromClient) || p.up.room == 0)
  {
    if p.client && io.clientReadable && p.up.room > 0 {
      ReceivedFromClient(p, io.fromClient);
    }
  }

  function Plus(s: Traffic, t: Traffic): Traffic {
    Traffic(s.fromClient + t.fromClient, s.toServer + t.toServer, s.fromServer + t.fromServer, s.toClient + t.toClient)
  }

  lemma CarriedOn(p: Pair, q: Pair, r: Pair, s: Traffic, t: Traffic)
    requires Carried(p, q, s) && Carried(q, r, t)
    ensures Carried(p, r, Plus(s, t))
  {
  }

  // ----- runs -----

  function StepTraffic(x: Life, e: Event): Traffic {
    if x.crashed || !e.Manage? then NO_TRAFFIC
    else if !x.relaying then ConnectingTraffic(x.pair, e.io)
    else if ManageConnections(x.pair, e.io).NullAccess? then NO_TRAFFIC
    else if x.pair.client && x.pair.server then
      Plus(UpTraffic(x.pair, e.io), DownTraffic(UpTurn(x.pair, e.io), e.io))
    else LoneTraffic(x.pair, e.io)
  }

  lemma NothingCarried(p: Pair, q: Pair)
    requires SameHistory(p.up, q.up) && SameHistory(p.down, q.down)
    ensures Carried(p, q, NO_TRAFFIC)
  {
  }

  lemma BothCarried(p: Pair, kicks: nat, io: Io)
    requires Sound(p, kicks) && p.established && p.client && p.server && ManageConnections(p, io).Done?
    ensures Carried(p, ManageConnections(p, io).pair, Plus(UpTraffic(p, io), DownTraffic(UpTurn(p, io), io)))
  {
    UpTurnKeeps(p, kicks, io);
    UpCarried(p, kicks, io);
    DownCarried(UpTurn(p, io), kicks, io);
    CarriedOn(p, UpTurn(p, io), ManageConnections(p, io).pair, UpTraffic(p, io), DownTraffic(UpTurn(p, io), io));
  }

  lemma UpTurnKeeps(p: Pair, kicks: nat, io: Io)
    requires Sound(p, kicks) && p.established && p.client && p.server
    ensures Sound(UpTurn(p, io), kicks) && UpTurn(p, io).established
  {
    FromClientKeeps(p, kicks, io.fromClient);
    var a := if io.clientReadable then FromClient(p, io.fromClient) else p;
    ToServerKeeps(a, kicks, io.toServer);
  }

  lemma StepCarried(x: Life, e: Event)
    requires Sound(x.pair, x.kicks) && x.relaying == x.pair.established
    ensures Carried(x.pair, Step(x, e).pair, StepTraffic(x, e))
  {
    var p := x.pair;
    if x.crashed || !e.Manage? || (x.relaying && ManageConnections(p, e.io).NullAccess?) {
      NothingCarried(p, Step(x, e).pair);
    } else if !x.relaying {
      ConnectingCarried(p, x.kicks, e.io);
    } else if p.client && p.server {
      BothCarried(p, x.kicks, e.io);
    } else {
      LoneCarried(p, x.kicks, e.io);
    }
  }

  /** All that the sockets delivered and took along the run, turn by turn. */
  function RunTraffic(x: Life, es: seq<Event>): Traffic
    decreases |es|
  {
    if es == [] then NO_TRAFFIC else Plus(StepTraffic(x, es[0]), RunTraffic(Step(x, es[0]), es[1..]))
  }

  lemma {:induction false} RunCarried(x: Life, es: seq<Event>)
    requires Sound(x.pair, x.kicks) && x.relaying == x.pair.established
    ensures Carried(x.pair, Run(x, es).pair, RunTraffic(x, es))
    decreases |es|
  {
    if es == [] {
      NothingCarried(x.pair, x.pair);
    } else {
      var y := Step(x, es[0]);
      StepKeeps(x, es[0]);
      StepCarried(x, es[0]);
      RunCarried(y, es[1..]);
      CarriedOn(x.pair, y.pair, Run(x, es).pair, StepTraffic(x, es[0]), RunTraffic(y, es[1..]));
    }
  }

  /** Over every run each socket takes, in order, exactly what the other one delivered, up to
      what waits in the buffer: everything while it is open. */
  lemma SocketsAgree(es: seq<Event>)
    ensures var p, t := Run(BORN, es).pair, RunTraffic(BORN, es);
            && t.toServer <= t.fromClient && t.toClient <= t.fromServer
            && (p.server ==> t.fromClient == t.toServer + p.up.queue)
            && (p.client ==> t.fromServer == t.toClient + p.down.queue)
  {
    RunKeeps(BORN, es);
    RunCarried(BORN, es);
    var t := RunTraffic(BORN, es);
    assert [] + t.fromClient == t.fromClient && [] + t.toServer == t.toServer;
    assert [] + t.fromServer == t.fromServer && [] + t.toClient == t.toClient;
  }

}
