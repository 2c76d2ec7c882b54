/** Half-open pairs: an end that works is kept until every byte meant for it has been
    handed over, unless a turn uses a released socket, which one family of results leads to. */
module RelayDrain {
  import opened Relay
  import opened RelayRuns

  predicate Open(p: Pair, e: End) { if e.ClientEnd? then p.client else p.server }

  function Other(e: End): End { if e.ClientEnd? then ServerEnd else ClientEnd }

  function LaneTo(p: Pair, e: End): Lane { if e.ClientEnd? then p.down else p.up }

  predicate Sends(tx: Sending) { tx.SendAgain? || (tx.Sent? && tx.count > 0) }

  predicate Receives(rx: Receipt) { rx.ReceiveAgain? || (rx.Received? && rx.data != []) }

  /** No call on the socket of `e` fails or finds it closed. */
  predicate Works(ev: Event, e: End) {
    match ev
    case Manage(io) => if e.ClientEnd? then Sends(io.toClient) && Receives(io.fromClient)
                       else Sends(io.toServer) && Receives(io.fromServer)
    case Check(serverBad, clientBad) => if e.ClientEnd? then !clientBad else !serverBad
    case KickRequest => false
  }

  /** `e` is open, or the pair is over and `e` got everything. */
  ghost predicate Served(p: Pair, e: End) {
    Open(p, e) || (!IsActive(p) && LaneTo(p, e).handed == LaneTo(p, e).accepted)
  }

  ghost predicate Safe(p: Pair, kicks: nat, e: End) { Sound(p, kicks) && p.established && Served(p, e) }

  // ----- one operation -----

  lemma ReceiveServes(p: Pair, kicks: nat, io: Io, e: End)
    requires Safe(p, kicks, e) && Works(Manage(io), e)
    ensures Safe(FromClient(p, io.fromClient), kicks, e)
    ensures Safe(FromServer(p, io.fromServer), kicks, e)
  {
    FromClientKeeps(p, kicks, io.fromClient);
    FromServerKeeps(p, kicks, io.fromServer);
  }

  lemma SendClientServes(p: Pair, kicks: nat, io: Io, e: End)
    requires Safe(p, kicks, e) && Works(Manage(io), e)
    ensures Safe(ToClient(p, io.toClient), kicks, e)
  {
    ToClientKeeps(p, kicks, io.toClient);
    var n := SendCode(io.toClient, |p.down.queue|);
    if p.client && n > 0 && p.down.queue != [] {
      HandKeepsOk(p.down, n);
    }
  }

  lemma SendServerServes(p: Pair, kicks: nat, io: Io, e: End)
    requires Safe(p, kicks, e) && Works(Manage(io), e)
    ensures Safe(ToServer(p, io.toServer), kicks, e)
  {
    ToServerKeeps(p, kicks, io.toServer);
    var m := SendCode(io.toServer, |p.up.queue|);
    if p.server && m > 0 && p.up.queue != [] {
      HandKeepsOk(p.up, m);
    }
  }

  // ----- one event -----

  lemma TurnServes(p: Pair, kicks: nat, io: Io, e: End)
    requires Safe(p, kicks, e) && Works(Manage(io), e)
    ensures var t := ManageConnections(p, io); t.Done? ==> Safe(t.pair, kicks, e)
  {
    RelayingTurnKeeps(p, kicks, io);
    if p.client && p.server {
      ReceiveServes(p, kicks, io, e);
      var a := if io.clientReadable then FromClient(p, io.fromClient) else p;
      SendServerServes(a, kicks, io, e);
      var q := if io.clientReadable || io.serverWritable then ToServer(a, io.toServer) else p;
      ReceiveServes(q, kicks, io, e);
      SendClientServes(q, kicks, io, e);
      SendClientServes(FromServer(q, io.fromServer), kicks, io, e);
    } else if IsActive(p) {
      SendClientServes(p, kicks, io, e);
      SendServerServes(p, kicks, io, e);
      LoneTurn(p, kicks, io);
    }
  }

  lemma EventServes(x: Life, ev: Event, e: End)
    requires Safe(x.pair, x.kicks, e) && x.relaying && Works(ev, e)
    ensures var y := Step(x, ev); Safe(y.pair, y.kicks, e) && y.relaying
  {
    match ev
    case Manage(io) => TurnServes(x.pair, x.kicks, io, e);
    case Check(serverBad, clientBad) =>
      CheckKeeps(x.pair, x.kicks, serverBad, clientBad);
    case KickRequest =>
  }

  lemma {:induction false} RunServes(x: Life, es: seq<Event>, e: End)
    requires Safe(x.pair, x.kicks, e) && x.relaying
    requires forall ev :: ev in es ==> Works(ev, e)
    ensures var y := Run(x, es); Safe(y.pair, y.kicks, e) && y.relaying
    decreases |es|
  {
    if es != [] {
      assert es[0] in es;
      EventServes(x, es[0], e);
      RunServes(Step(x, es[0]), es[1..], e);
    }
  }

  // ----- the use of a released socket -----

  /** The client is found closed with bytes still unsent, the server takes some but not all
      of them, and has nothing to read. */
  predicate Trips(p: Pair, io: Io) {
    && p.client && p.server && io.clientReadable && p.up.room > 0
    && ReceiveCode(io.fromClient, p.up.room) < 0
    && 0 <= SendCode(io.toServer, |p.up.queue|) < |p.up.queue|
    && !io.serverReadable
  }

  /** In any reachable state, that is exactly when a turn uses a released client socket. */
  lemma NullAccessExactly(p: Pair, kicks: nat, io: Io)
    requires Sound(p, kicks) && p.established
    ensures ManageConnections(p, io).NullAccess? <==> Trips(p, io)
  {
    if p.client && p.server {
      var a := if io.clientReadable then FromClient(p, io.fromClient) else p;
      var m := SendCode(io.toServer, |a.up.queue|);
      if m > 0 && a.up.queue != [] {
      }
    }
  }

  predicate TripsAt(x: Life, ev: Event) { x.relaying && ev.Manage? && Trips(x.pair, ev.io) }

  /** Some turn reached along the run is such a turn. */
  predicate EverTrips(x: Life, es: seq<Event>)
    decreases |es|
  {
    es != [] && (TripsAt(x, es[0]) || EverTrips(Step(x, es[0]), es[1..]))
  }

  lemma {:induction false} CrashStays(x: Life, es: seq<Event>)
    requires x.crashed
    ensures Run(x, es) == x
    decreases |es|
  {
    if es != [] {
      CrashStays(x, es[1..]);
    }
  }

  /** A run uses a released socket if and only if it reaches such a turn. */
  lemma {:induction false} CrashesExactly(x: Life, es: seq<Event>)
    requires Sound(x.pair, x.kicks) && x.relaying == x.pair.established && !x.crashed
    ensures Run(x, es).crashed <==> EverTrips(x, es)
    decreases |es|
  {
    if es != [] {
      var y := Step(x, es[0]);
      StepKeeps(x, es[0]);
      if x.relaying && es[0].Manage? {
        NullAccessExactly(x.pair, x.kicks, es[0].io);
      }
      assert y.crashed <==> TripsAt(x, es[0]);
      if y.crashed {
        CrashStays(y, es[1..]);
      } else {
        CrashesExactly(y, es[1..]);
      }
    }
  }

  /** It is reachable in three turns: connect, receive one byte that the server does not
      take yet, then find the client closed. */
  lemma NullAccessReachable()
    ensures exists es: seq<Event> :: |es| == 3 && Run(BORN, es).crashed
  {
    var quiet := Io(false, false, false, false, ReceiveAgain, ReceiveAgain, SendAgain, SendAgain);
    var e1 := Manage(quiet.(serverWritable := true));
    var e2 := Manage(quiet.(clientReadable := true, fromClient := Received([65])));
    var e3 := Manage(quiet.(clientReadable := true, fromClient := ReceiveClosed));
    var x1 := Step(BORN, e1);
    assert x1.relaying && x1.pair.up == EMPTY_LANE && x1.pair.client && x1.pair.server;
    var x2 := Step(x1, e2);
    assert x2.pair.up.queue == [65] && x2.pair.client && x2.pair.server && x2.relaying;
    var x3 := Step(x2, e3);
    assert x3.crashed;
    var es := [e1, e2, e3];
    assert es[1..] == [e2, e3] && es[1..][1..] == [e3] && es[1..][1..][1..] == [];
    assert Run(BORN, es) == Run(x1, [e2, e3]) == Run(x2, [e3]) == Run(x3, []) == x3;
  }

  // ----- the drain guarantee -----

  /** `e` is open with every byte accepted for it handed over or waiting, or the pair is over
      and `e` got everything; without the other end it is open exactly while bytes wait. */
  ghost predicate Drained(q: Pair, e: End) {
    && (Open(q, e) ==> LaneTo(q, e).accepted == LaneTo(q, e).handed + LaneTo(q, e).queue)
    && (!Open(q, e) ==> !IsActive(q) && LaneTo(q, e).handed == LaneTo(q, e).accepted)
    && (!Open(q, Other(e)) ==> (Open(q, e) <==> LaneTo(q, e).handed != LaneTo(q, e).accepted))
  }

  /** A run that uses a released socket stops with bytes waiting for the server. */
  lemma {:induction false} CrashLosesBytes(x: Life, es: seq<Event>)
    requires Sound(x.pair, x.kicks) && x.relaying == x.pair.established && !x.crashed
    requires Run(x, es).crashed
    ensures var p := Run(x, es).pair; p.server && p.up.queue != []
    decreases |es|
  {
    var y := Step(x, es[0]);
    StepKeeps(x, es[0]);
    if y.crashed {
      NullAccessExactly(x.pair, x.kicks, es[0].io);
      CrashStays(y, es[1..]);
    } else {
      CrashLosesBytes(y, es[1..]);
    }
  }

  /** A client whose own socket works never leads to such a turn. */
  lemma {:induction false} WorkingClientNeverTrips(x: Life, es: seq<Event>)
    requires forall ev :: ev in es ==> Works(ev, ClientEnd)
    ensures !EverTrips(x, es)
    decreases |es|
  {
    if es != [] {
      assert es[0] in es;
      WorkingClientNeverTrips(Step(x, es[0]), es[1..]);
    }
  }

  /** Once the backend is connected, a client whose own socket keeps working always gets
      everything accepted for it. A server whose own socket keeps working does exactly when
      the run reaches no turn that uses the released client socket; otherwise the run ends
      there, with bytes still waiting for the server. */
  lemma DrainGuarantee(before: seq<Event>, after: seq<Event>, e: End)
    requires var x := Run(BORN, before); x.relaying && !x.crashed && Open(x.pair, e)
    requires forall ev :: ev in after ==> Works(ev, e)
    ensures var x := Run(BORN, before);
            var y := Run(x, after);
            && (!y.crashed && Drained(y.pair, e) <==> e.ClientEnd? || !EverTrips(x, after))
            && (y.crashed ==> LaneTo(y.pair, e).queue != [])
  {
    var x := Run(BORN, before);
    RunKeeps(BORN, before);
    CrashesExactly(x, after);
    if e.ClientEnd? {
      WorkingClientNeverTrips(x, after);
    }
    if Run(x, after).crashed {
      CrashLosesBytes(x, after);
    }
    RunServes(x, after, e);
    var l := LaneTo(Run(x, after).pair, e);
    if |l.queue| > 0 {
      assert |l.handed + l.queue| > |l.handed|;
    }
  }

  // ----- draining comes to an end -----

  /** Turns in which the socket of `e` takes at least one byte. */
  function Progress(es: seq<Event>, e: End): nat
    decreases |es|
  {
    if es == [] then 0 else
      (if es[0].Manage? && (if e.ClientEnd? then es[0].io.clientWritable && es[0].io.toClient.Sent?
                            else es[0].io.serverWritable && es[0].io.toServer.Sent?) then 1 else 0)
      + Progress(es[1..], e)
  }

  lemma LoneProgress(x: Life, ev: Event, e: End)
    requires Safe(x.pair, x.kicks, e) && x.relaying && !x.crashed && Works(ev, e)
    requires Open(x.pair, e) && !Open(x.pair, Other(e))
    ensures var y := Step(x, ev);
            && !y.crashed && !Open(y.pair, Other(e))
            && LaneTo(y.pair, e).accepted == LaneTo(x.pair, e).accepted
            && |LaneTo(y.pair, e).queue| <= |LaneTo(x.pair, e).queue| - Progress([ev], e)
  {
    var p := x.pair;
    if ev.Manage? {
      LoneTurn(p, x.kicks, ev.io);
      var n := SendCode(ev.io.toClient, |p.down.queue|);
      if n > 0 {
      }
      var m := SendCode(ev.io.toServer, |p.up.queue|);
      if m > 0 {
      }
    }
  }

  lemma {:induction false} OverStaysOver(x: Life, es: seq<Event>, e: End)
    requires x.relaying && !IsActive(x.pair) && !x.crashed
    requires forall ev :: ev in es ==> Works(ev, e)
    ensures Run(x, es) == x
    decreases |es|
  {
    if es != [] {
      assert es[0] in es;
      assert Step(x, es[0]) == x;
      OverStaysOver(x, es[1..], e);
    }
  }

  /** A lone end is closed, with everything delivered, after at most as many progressing
      turns as it had bytes unsent; nothing can make it use a released socket. */
  lemma {:induction false} DrainCompletes(x: Life, es: seq<Event>, e: End)
    requires Sound(x.pair, x.kicks) && x.pair.established && x.relaying && !x.crashed
    requires Open(x.pair, e) && !Open(x.pair, Other(e))
    requires forall ev :: ev in es ==> Works(ev, e)
    requires Progress(es, e) >= |LaneTo(x.pair, e).queue|
    ensures var y := Run(x, es);
            && !y.crashed && !IsActive(y.pair)
            && LaneTo(y.pair, e).handed == LaneTo(x.pair, e).accepted
    decreases |es|
  {
    assert LaneTo(x.pair, e).queue != [];
    var y := Step(x, es[0]);
    assert es[0] in es;
    LoneProgress(x, es[0], e);
    EventServes(x, es[0], e);
    assert Progress([es[0]], e) + Progress(es[1..], e) == Progress(es, e);
    if Open(y.pair, e) {
      DrainCompletes(y, es[1..], e);
    } else {
      OverStaysOver(y, es[1..], e);
    }
  }

}
