/** What holds of a relay pair at every moment of every run, whatever the sockets answer. */
module RelayRuns {
  import opened Statuses
  import opened Relay

  // ----- runs -----

  datatype Event = Manage(io: Io) | Check(serverBad: bool, clientBad: bool) | KickRequest

  /** A pair as its manager holds it: `relaying` says which of the two lists it is in,
      `crashed` that a turn used a released socket, `kicks` counts kick requests. */
  datatype Life = Life(pair: Pair, relaying: bool, kicks: nat, crashed: bool)

  const BORN := Life(FRESH, false, 0, false)

  function Step(x: Life, e: Event): Life {
    if x.crashed then x else
    match e
    case Manage(io) =>
      if x.relaying then
        match ManageConnections(x.pair, io) {
          case Done(p) => x.(pair := p)
          case NullAccess => x.(crashed := true)
        }
      else
        var (p, moved) := ManageConnecting(x.pair, io);
        x.(pair := p, relaying := moved)
    case Check(serverBad, clientBad) => x.(pair := CheckPeers(x.pair, serverBad, clientBad))
    case KickRequest => x.(pair := Kick(x.pair), kicks := x.kicks + 1)
  }

  function Run(x: Life, es: seq<Event>): Life
    decreases |es|
  {
    if es == [] then x else Run(Step(x, es[0]), es[1..])
  }

  // ----- counting messages -----

  function CountOf(posts: seq<Status>, s: Status): nat {
    if posts == [] then 0
    else CountOf(posts[..|posts| - 1], s) + if posts[|posts| - 1] == s then 1 else 0
  }

  /** Messages that tell the server list that a connection ended. */
  function Terminals(posts: seq<Status>): nat {
    if posts == [] then 0
    else Terminals(posts[..|posts| - 1]) + if IsNotConnected(posts[|posts| - 1]) then 1 else 0
  }

  /** What a pair may post after these messages: it is reported established or failed only
      while nothing else has been reported of it. */
  predicate MayFollow(posts: seq<Status>, s: Status) {
    || s.Cancelled? || IsLost(s) || IsClosed(s)
    || ((s.Established? || s.Failed?) && CountOf(posts, Established) == 0 && Terminals(posts) == 0)
  }

  predicate InOrder(posts: seq<Status>) {
    posts == [] || (InOrder(posts[..|posts| - 1]) && MayFollow(posts[..|posts| - 1], posts[|posts| - 1]))
  }

  lemma PostCounts(p: Pair, s: Status)
    ensures InOrder(Post(p, s).posts) <==> InOrder(p.posts) && MayFollow(p.posts, s)
    ensures forall t :: CountOf(Post(p, s).posts, t) == CountOf(p.posts, t) + if s == t then 1 else 0
    ensures Terminals(Post(p, s).posts) == Terminals(p.posts) + if IsNotConnected(s) then 1 else 0
  {
    assert (p.posts + [s])[..|p.posts|] == p.posts;
  }

  // ----- the invariant -----

  ghost predicate LaneOk(l: Lane, destinationOpen: bool) {
    && |l.queue| + l.room <= CAPACITY
    && (l.queue == [] ==> l.room == CAPACITY)
    && l.handed <= l.accepted
    && (destinationOpen ==> l.accepted == l.handed + l.queue)
  }

  ghost predicate Sound(p: Pair, kicks: nat) {
    && LaneOk(p.up, p.server) && LaneOk(p.down, p.client)
    && (!p.established ==> p.client == p.server && p.up.handed == [] && p.down == EMPTY_LANE)
    && (p.established && !p.server && p.client ==> p.down.queue != [])
    && (p.established && !p.client && p.server ==> p.up.queue != [])
    && CountOf(p.posts, Established) == (if p.established then 1 else 0)
    && CountOf(p.posts, Failed) <= 1
    && (CountOf(p.posts, Failed) > 0 ==> !p.established && !IsActive(p))
    && Terminals(p.posts) + OpenEnds(p) <= 2 + kicks
    && (OpenEnds(p) < 2 <==> Terminals(p.posts) > 0)
    && InOrder(p.posts)
  }

  // ----- closing -----

  /** Closing an open end and reporting it with a terminal message. */
  lemma ClosingKeepsSound(p: Pair, kicks: nat, closed: Pair, s: Status)
    requires Sound(p, kicks)
    requires (p.client && closed == CloseClient(p)) || (p.server && closed == CloseServer(p))
    requires IsNotConnected(s) && (s.Failed? ==> !p.established && p.client && closed == CloseClient(p))
    ensures Sound(Post(closed, s), kicks)
    ensures OpenEnds(closed) < OpenEnds(p)
  {
    ClosingKeepsLanes(p, kicks, closed);
    PostCounts(closed, s);
  }

  lemma ClosingKeepsLanes(p: Pair, kicks: nat, closed: Pair)
    requires Sound(p, kicks)
    requires (p.client && closed == CloseClient(p)) || (p.server && closed == CloseServer(p))
    ensures LaneOk(closed.up, closed.server) && LaneOk(closed.down, closed.client)
    ensures !closed.established ==> closed.client == closed.server
    ensures !closed.established ==> closed.up.handed == [] && closed.down == EMPTY_LANE
    ensures closed.established && !closed.server && closed.client ==> closed.down.queue != []
    ensures closed.established && !closed.client && closed.server ==> closed.up.queue != []
    ensures closed.posts == p.posts && closed.established == p.established && OpenEnds(closed) < OpenEnds(p)
  {
  }

  /** The last unsent bytes of a lone end have gone: it is closed and reported as cancelled. */
  lemma CancelKeepsSound(p: Pair, kicks: nat, closed: Pair)
    requires LaneOk(p.up, p.server) && LaneOk(p.down, p.client) && p.established && OpenEnds(p) == 1
    requires CountOf(p.posts, Established) == 1 && CountOf(p.posts, Failed) == 0
    requires 0 < Terminals(p.posts) <= 1 + kicks && InOrder(p.posts)
    requires (p.client && closed == CloseClient(p)) || (p.server && closed == CloseServer(p))
    ensures Sound(Post(closed, Cancelled), kicks) && !IsActive(closed)
  {
    PostCounts(closed, Cancelled);
  }

  /** Reporting a cancellation once more changes nothing that counts. */
  lemma CancelledAgain(p: Pair, kicks: nat)
    requires Sound(p, kicks)
    ensures Sound(Post(p, Cancelled), kicks)
  {
    PostCounts(p, Cancelled);
  }

  lemma EstablishKeepsSound(p: Pair, kicks: nat)
    requires Sound(p, kicks) && !p.established && p.server
    ensures Sound(Post(p.(established := true), Established), kicks)
  {
    PostCounts(p.(established := true), Established);
  }

  // ----- each operation keeps the invariant -----

  lemma StoreKeepsOk(l: Lane, data: seq<Byte>, open: bool)
    requires LaneOk(l, open) && 0 < |data| <= l.room
    ensures LaneOk(Store(l, data), open) && Store(l, data).queue != []
  {
    assert (l.handed + l.queue) + data == l.handed + (l.queue + data);
  }

  lemma HandKeepsOk(l: Lane, n: nat)
    requires LaneOk(l, true) && 0 < n <= |l.queue|
    ensures LaneOk(Hand(l, n), true) && Hand(l, n).accepted == l.accepted
  {
    assert l.queue == l.queue[..n] + l.queue[n..];
    assert l.handed + l.queue == (l.handed + l.queue[..n]) + l.queue[n..];
  }

  lemma FromClientKeeps(p: Pair, kicks: nat, rx: Receipt)
    requires Sound(p, kicks)
    ensures Sound(FromClient(p, rx), kicks) && FromClient(p, rx).established == p.established
  {
    if p.client && p.up.room > 0 {
      var code := ReceiveCode(rx, p.up.room);
      if code > 0 {
        StoreKeepsOk(p.up, Delivered(rx, p.up.room), p.server);
      } else if code < 0 {
        ClosingKeepsSound(p, kicks, CloseClient(p),
                          if !p.established then Failed else if code == -2 then ClientClosed else ClientLost);
      }
    }
  }

  lemma FromServerKeeps(p: Pair, kicks: nat, rx: Receipt)
    requires Sound(p, kicks) && p.established
    ensures Sound(FromServer(p, rx), kicks) && FromServer(p, rx).established
  {
    if p.server && p.down.room > 0 {
      var code := ReceiveCode(rx, p.down.room);
      if code > 0 {
        StoreKeepsOk(p.down, Delivered(rx, p.down.room), p.client);
      } else if code < 0 {
        ClosingKeepsSound(p, kicks, CloseServer(p), if code == -2 then ServerClosed else ServerLost);
      }
    }
  }

  lemma ToServerKeeps(p: Pair, kicks: nat, tx: Sending)
    requires Sound(p, kicks) && p.established
    ensures Sound(ToServer(p, tx), kicks) && ToServer(p, tx).established
  {
    if p.server && p.up.queue != [] {
      var code := SendCode(tx, |p.up.queue|);
      if code > 0 {
        HandKeepsOk(p.up, code);
        var q := p.(up := Hand(p.up, code));
        if !q.client && q.up.queue == [] {
          CancelKeepsSound(q, kicks, CloseServer(q));
        }
      } else if code < 0 {
        ClosingKeepsSound(p, kicks, CloseServer(p), if code == -2 then ServerClosed else ServerLost);
      }
    }
  }

  lemma ToClientKeeps(p: Pair, kicks: nat, tx: Sending)
    requires Sound(p, kicks) && p.established
    ensures Sound(ToClient(p, tx), kicks) && ToClient(p, tx).established
  {
    if p.client && p.down.queue != [] {
      var code := SendCode(tx, |p.down.queue|);
      if code > 0 {
        HandKeepsOk(p.down, code);
        var q := p.(down := Hand(p.down, code));
        if !q.server && q.down.queue == [] {
          CancelKeepsSound(q, kicks, CloseClient(q));
        }
      } else if code < 0 {
        ClosingKeepsSound(p, kicks, CloseClient(p), if code == -2 then ClientClosed else ClientLost);
      }
    }
  }

  // ----- each turn keeps the invariant -----

  lemma ConnectingTurnKeeps(p: Pair, kicks: nat, io: Io)
    requires Sound(p, kicks) && !p.established
    ensures var (q, moved) := ManageConnecting(p, io);
            Sound(q, kicks) && q.established == moved
  {
    if p.client && p.server {
      FromClientKeeps(p, kicks, io.fromClient);
      var q := if io.clientReadable then FromClient(p, io.fromClient) else p;
      if q.server {
        EstablishKeepsSound(q, kicks);
      }
    }
  }

  lemma RelayingTurnKeeps(p: Pair, kicks: nat, io: Io)
    requires Sound(p, kicks) && p.established
    ensures var t := ManageConnections(p, io);
            t.Done? ==> Sound(t.pair, kicks) && t.pair.established
  {
    if p.client && p.server {
      FromClientKeeps(p, kicks, io.fromClient);
      var a := if io.clientReadable then FromClient(p, io.fromClient) else p;
      ToServerKeeps(a, kicks, io.toServer);
      var q := if io.clientReadable || io.serverWritable then ToServer(a, io.toServer) else p;
      FromServerKeeps(q, kicks, io.fromServer);
      ToClientKeeps(FromServer(q, io.fromServer), kicks, io.toClient);
      ToClientKeeps(q, kicks, io.toClient);
    } else if p.client {
      ToClientKeeps(p, kicks, io.toClient);
      LoneTurn(p, kicks, io);
    } else if p.server {
      ToServerKeeps(p, kicks, io.toServer);
      LoneTurn(p, kicks, io);
    }
  }

  /** A lone end that stays open still has unsent bytes, so only an end that was closed
      during the turn is reported as cancelled a second time. */
  lemma LoneTurn(p: Pair, kicks: nat, io: Io)
    requires Sound(p, kicks) && p.established && OpenEnds(p) == 1
    ensures var q := ManageConnections(p, io).pair;
            var a := if p.client then (if io.clientWritable then ToClient(p, io.toClient) else p)
                     else if io.serverWritable then ToServer(p, io.toServer) else p;
            && q == (if IsActive(a) then a
                     else if (if p.client then a.down.queue else a.up.queue) == [] then Post(a, Cancelled) else a)
            && Sound(q, kicks) && q.established
  {
    ToClientKeeps(p, kicks, io.toClient);
    ToServerKeeps(p, kicks, io.toServer);
    var a := if p.client then (if io.clientWritable then ToClient(p, io.toClient) else p)
             else if io.serverWritable then ToServer(p, io.toServer) else p;
    LoneStaysLone(p, io);
    CancelledAgain(a, kicks);
  }

  lemma LoneStaysLone(p: Pair, io: Io)
    requires OpenEnds(p) == 1
    ensures p.client ==> !ToClient(p, io.toClient).server
    ensures p.server ==> !ToServer(p, io.toServer).client
  {
    var n := SendCode(io.toClient, |p.down.queue|);
    var m := SendCode(io.toServer, |p.up.queue|);
    if n > 0 {
    }
    if m > 0 {
    }
  }

  lemma CheckKeeps(p: Pair, kicks: nat, serverBad: bool, clientBad: bool)
    requires Sound(p, kicks)
    ensures var q := CheckPeers(p, serverBad, clientBad); Sound(q, kicks) && q.established == p.established
  {
    var a := if p.server && serverBad then Post(CloseServer(p), ServerLost) else p;
    if p.server && serverBad {
      ClosingKeepsSound(p, kicks, CloseServer(p), ServerLost);
    }
    if a.client && clientBad {
      ClosingKeepsSound(a, kicks, CloseClient(a), ClientLost);
    }
  }

  lemma KickKeeps(p: Pair, kicks: nat)
    requires Sound(p, kicks)
    ensures Sound(Kick(p), kicks + 1) && !IsActive(Kick(p)) && Kick(p).established == p.established
  {
    PostCounts(CloseBoth(p), ServerClosed);
  }

  lemma StepKeeps(x: Life, e: Event)
    requires Sound(x.pair, x.kicks) && x.relaying == x.pair.established
    ensures var y := Step(x, e); Sound(y.pair, y.kicks) && y.relaying == y.pair.established
  {
    match e
    case Manage(io) =>
      if x.relaying {
        RelayingTurnKeeps(x.pair, x.kicks, io);
      } else {
        ConnectingTurnKeeps(x.pair, x.kicks, io);
      }
    case Check(serverBad, clientBad) => CheckKeeps(x.pair, x.kicks, serverBad, clientBad);
    case KickRequest => KickKeeps(x.pair, x.kicks);
  }

  lemma {:induction false} RunKeeps(x: Life, es: seq<Event>)
    requires Sound(x.pair, x.kicks) && x.relaying == x.pair.established
    ensures var y := Run(x, es); Sound(y.pair, y.kicks) && y.relaying == y.pair.established
    decreases |es|
  {
    if es != [] {
      StepKeeps(x, es[0]);
      RunKeeps(Step(x, es[0]), es[1..]);
    }
  }

  // ----- the theorems -----

  /** Bytes are never lost, duplicated or reordered while their destination is open, and
      what was handed over before any closing stays a prefix of what was accepted. */
  lemma StreamIntegrity(es: seq<Event>)
    ensures var p := Run(BORN, es).pair;
            && (p.server ==> p.up.accepted == p.up.handed + p.up.queue)
            && (p.client ==> p.down.accepted == p.down.handed + p.down.queue)
            && p.up.handed <= p.up.accepted && p.down.handed <= p.down.accepted
            && |p.up.queue| + p.up.room <= CAPACITY && |p.down.queue| + p.down.room <= CAPACITY
            && (!p.established ==> p.up.handed == [] && p.down.accepted == [])
  {
    RunKeeps(BORN, es);
  }

  /** Before the backend connection is made both ends are open or both are closed; after
      it, a lone end always has unsent bytes. */
  lemma HalfOpen(es: seq<Event>)
    ensures var x := Run(BORN, es); var p := x.pair;
            && x.relaying == p.established
            && (!x.relaying ==> p.client == p.server)
            && (x.relaying && p.client && !p.server ==> p.down.queue != [])
            && (x.relaying && p.server && !p.client ==> p.up.queue != [])
  {
    RunKeeps(BORN, es);
  }

  /** An active pair always has a socket that can wake select. */
  lemma SelectNeverForgets(es: seq<Event>)
    requires IsActive(Run(BORN, es).pair)
    ensures var x := Run(BORN, es);
            if x.relaying then ReadSet(x.pair) != {} || WriteSet(x.pair) != {}
            else ConnectSet(x.pair).1 != {}
    ensures var x := Run(BORN, es);
            x.relaying && x.pair.client && x.pair.server ==>
              (ClientEnd in ReadSet(x.pair) || ServerEnd in WriteSet(x.pair)) &&
              (ServerEnd in ReadSet(x.pair) || ClientEnd in WriteSet(x.pair))
  {
    RunKeeps(BORN, es);
    var p := Run(BORN, es).pair;
    if p.client && p.up.room > 0 {
      assert ClientEnd in ReadSet(p);
    } else if p.server && p.up.queue != [] {
      assert ServerEnd in WriteSet(p);
    }
    if p.server {
      assert ServerEnd in ConnectSet(p).1;
    }
    if p.client && p.down.queue != [] {
      assert ClientEnd in WriteSet(p);
    }
  }

  /** The messages of one pair: at most one establishment, at most one failure and never
      both, in either case before anything else that counts; no end closes without a terminal
      message, and terminal messages number at most the ends closed plus the kick requests
      served. */
  lemma NotificationProtocol(es: seq<Event>)
    ensures var x := Run(BORN, es); var posts := x.pair.posts;
            && CountOf(posts, Established) == (if x.relaying then 1 else 0)
            && CountOf(posts, Failed) <= 1
            && (CountOf(posts, Failed) == 0 || CountOf(posts, Established) == 0)
            && (OpenEnds(x.pair) < 2 <==> Terminals(posts) > 0)
            && Terminals(posts) <= (2 - OpenEnds(x.pair)) + x.kicks
            && InOrder(posts)
  {
    RunKeeps(BORN, es);
  }

}
