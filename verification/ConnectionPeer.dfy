/** The connection peer: the relay pair as an object that updates two fixed buffers,
    their offsets and byte counts, and the two socket pointers in place. */
module ConnectionPeers {
  import opened Statuses
  import opened Relay

  class ConnectionPeer {
    // pClient and pServer: whether the socket object exists
    var pClient: bool
    var pServer: bool
    var pServerConnected: bool
    const bufferForServer: array<Byte>
    var rForServer: int
    var wForServer: int
    var toReceiveForServer: int
    var toSendForServer: int
    const bufferForClient: array<Byte>
    var rForClient: int
    var wForClient: int
    var toReceiveForClient: int
    var toSendForClient: int
    var posts: seq<Status>

    // the unsent bytes, and what went through the sockets
    ghost var up: Lane
    ghost var down: Lane

    /** The offsets and counts describe `lane`, whose unsent bytes are buffer[r..w). */
    static ghost predicate Holds(buffer: array<Byte>, r: int, w: int, room: int, pending: int, lane: Lane)
      reads buffer
    {
      && buffer.Length == CAPACITY
      && 0 <= r <= w <= CAPACITY && room == CAPACITY - w && pending == w - r && (pending == 0 ==> w == 0)
      && lane.room == room && lane.queue == buffer[r..w] && |lane.queue| == pending
    }

    ghost predicate Valid()
      reads this, bufferForServer, bufferForClient
    {
      && bufferForServer != bufferForClient
      && Holds(bufferForServer, rForServer, wForServer, toReceiveForServer, toSendForServer, up)
      && Holds(bufferForClient, rForClient, wForClient, toReceiveForClient, toSendForClient, down)
    }

    ghost function State(): Pair
      reads this
    {
      Pair(pClient, pServer, pServerConnected, up, down, posts)
    }

    constructor ()
      ensures Valid() && State() == FRESH
      ensures fresh(bufferForServer) && fresh(bufferForClient)
    {
      pClient, pServer, pServerConnected := true, true, false;
      bufferForServer := new Byte[CAPACITY];
      bufferForClient := new Byte[CAPACITY];
      rForServer, wForServer, toReceiveForServer, toSendForServer := 0, 0, CAPACITY, 0;
      rForClient, wForClient, toReceiveForClient, toSendForClient := 0, 0, CAPACITY, 0;
      posts := [];
      up, down := EMPTY_LANE, EMPTY_LANE;
    }

    method PostMessage(s: Status)
      requires Valid()
      modifies this`posts
      ensures Valid() && State() == Post(old(State()), s)
    {
      posts := posts + [s];
    }

    /** The socket writes what it delivers at offset `at`, behind the unsent bytes. */
    static method ReceiveNB(buffer: array<Byte>, ghost from: nat, at: nat, room: nat, rx: Receipt) returns (ret: int)
      requires from <= at <= at + room <= buffer.Length
      modifies buffer
      ensures ret == ReceiveCode(rx, room)
      ensures ret > 0 ==>
                ret == |Delivered(rx, room)| && buffer[from..at + ret] == old(buffer[from..at]) + Delivered(rx, room)
      ensures ret <= 0 ==> buffer[..] == old(buffer[..])
    {
      var data := Delivered(rx, room);
      forall i | 0 <= i < |data| {
        buffer[at + i] := data[i];
      }
      ret := ReceiveCode(rx, room);
      assert buffer[from..at + |data|] == buffer[from..at] + buffer[at..at + |data|];
    }

    /** The client socket is released, and what was to be sent to it is dropped. */
    method ReleaseClient()
      requires Valid()
      modifies this
      ensures Valid() && State() == old(State()).(client := false, down := Drop(old(State()).down))
      ensures toSendForServer == |old(State()).up.queue|
    {
      pClient := false;
      rForClient, wForClient, toReceiveForClient, toSendForClient := 0, 0, CAPACITY, 0;
      down := Drop(down);
    }

    method ReleaseServer()
      requires Valid()
      modifies this
      ensures Valid() && State() == old(State()).(server := false, up := Drop(old(State()).up))
      ensures toSendForClient == |old(State()).down.queue|
    {
      pServer := false;
      rForServer, wForServer, toReceiveForServer, toSendForServer := 0, 0, CAPACITY, 0;
      up := Drop(up);
    }

    method CloseClient()
      requires Valid()
      modifies this
      ensures Valid() && State() == Relay.CloseClient(old(State()))
      decreases (if pClient then 1 else 0) + (if pServer then 1 else 0)
    {
      if pClient {
        ReleaseClient();
        if pServer && toSendForServer == 0 {
          CloseServer();
        } else if !pServerConnected {
          CloseServer();
        }
      }
    }

    method CloseServer()
      requires Valid()
      modifies this
      ensures Valid() && State() == Relay.CloseServer(old(State()))
      decreases (if pClient then 1 else 0) + (if pServer then 1 else 0)
    {
      if pServer {
        ReleaseServer();
        if pClient && toSendForClient == 0 {
          CloseClient();
        }
      }
    }

    /** The client is closed, and that is reported. */
    method EndClient(s: Status)
      requires Valid()
      modifies this
      ensures Valid() && State() == Post(Relay.CloseClient(old(State())), s)
    {
      CloseClient();
      PostMessage(s);
    }

    /** The server is closed, and that is reported. */
    method EndServer(s: Status)
      requires Valid()
      modifies this
      ensures Valid() && State() == Post(Relay.CloseServer(old(State())), s)
    {
      CloseServer();
      PostMessage(s);
    }

    method ClosePInfo(matches: bool)
      requires Valid()
      modifies this
      ensures Valid() && State() == if matches then Kick(old(State())) else old(State())
    {
      if matches {
        CloseClient();
        EndServer(ServerClosed);
      }
    }

    method GetMissingDataFromClient(rx: Receipt)
      requires Valid()
      modifies this, bufferForServer
      ensures Valid() && State() == FromClient(old(State()), rx)
    {
      if pClient && toReceiveForServer != 0 {
        var ret := ReceiveNB(bufferForServer, rForServer, wForServer, toReceiveForServer, rx);
        if ret > 0 {
          wForServer := wForServer + ret;
          toSendForServer := toSendForServer + ret;
          toReceiveForServer := toReceiveForServer - ret;
          up := Store(up, Delivered(rx, old(toReceiveForServer)));
        } else if ret < 0 {
          EndClient(if !pServerConnected then Failed else if ret == -2 then ClientClosed else ClientLost);
        }
      }
    }

    method GetMissingDataFromServer(rx: Receipt)
      requires Valid()
      modifies this, bufferForClient
      ensures Valid() && State() == FromServer(old(State()), rx)
    {
      if pServer && toReceiveForClient != 0 {
        var ret := ReceiveNB(bufferForClient, rForClient, wForClient, toReceiveForClient, rx);
        if ret > 0 {
          wForClient := wForClient + ret;
          toReceiveForClient := toReceiveForClient - ret;
          toSendForClient := toSendForClient + ret;
          down := Store(down, Delivered(rx, old(toReceiveForClient)));
        } else if ret < 0 {
          EndServer(if ret == -2 then ServerClosed else ServerLost);
        }
      }
    }

    /** `n` unsent bytes have left; an empty buffer starts over. */
    method AdvanceForClient(n: nat)
      requires Valid() && 0 < n <= toSendForClient
      modifies this
      ensures Valid() && State() == old(State()).(down := Hand(old(State()).down, n))
    {
      down := Hand(down, n);
      rForClient := rForClient + n;
      toSendForClient := toSendForClient - n;
      if wForClient != 0 && toSendForClient == 0 {
        rForClient, wForClient, toReceiveForClient := 0, 0, CAPACITY;
      }
    }

    /** A lone client with nothing left to be sent is closed. */
    method CancelClient()
      requires Valid()
      modifies this
      ensures Valid()
      ensures var p := old(State());
              State() == if !p.server && p.down.queue == [] then Post(Relay.CloseClient(p), Cancelled) else p
    {
      if !pServer && toSendForClient == 0 {
        EndClient(Cancelled);
      }
    }

    method SendMissingDataToClient(tx: Sending)
      requires Valid()
      modifies this
      ensures Valid() && State() == ToClient(old(State()), tx)
    {
      if pClient && toSendForClient != 0 {
        assert toSendForClient == |State().down.queue|;
        var ret := SendCode(tx, toSendForClient);
        if ret > 0 {
          AdvanceForClient(ret);
          CancelClient();
        } else if ret < 0 {
          EndClient(if ret == -2 then ClientClosed else ClientLost);
        }
      }
    }

    /** `n` unsent bytes have left; an empty buffer starts over. */
    method AdvanceForServer(n: nat)
      requires Valid() && 0 < n <= toSendForServer
      modifies this
      ensures Valid() && State() == old(State()).(up := Hand(old(State()).up, n))
    {
      up := Hand(up, n);
      rForServer := rForServer + n;
      toSendForServer := toSendForServer - n;
      if wForServer != 0 && toSendForServer == 0 {
        rForServer, wForServer, toReceiveForServer := 0, 0, CAPACITY;
      }
    }

    /** A lone server with nothing left to be sent is closed. */
    method CancelServer()
      requires Valid()
      modifies this
      ensures Valid()
      ensures var p := old(State());
              State() == if !p.client && p.up.queue == [] then Post(Relay.CloseServer(p), Cancelled) else p
    {
      if !pClient && toSendForServer == 0 {
        EndServer(Cancelled);
      }
    }

    method SendMissingDataToServer(tx: Sending)
      requires Valid()
      modifies this
      ensures Valid() && State() == ToServer(old(State()), tx)
    {
      if pServer && toSendForServer != 0 {
        assert toSendForServer == |State().up.queue|;
        var ret := SendCode(tx, toSendForServer);
        if ret > 0 {
          AdvanceForServer(ret);
          CancelServer();
        } else if ret < 0 {
          EndServer(if ret == -2 then ServerClosed else ServerLost);
        }
      }
    }

    method ManageConnectingPeer(io: Io) returns (moved: bool)
      requires Valid()
      modifies this, bufferForServer
      ensures Valid() && (State(), moved) == ManageConnecting(old(State()), io)
    {
      moved := false;
      if pClient && pServer {
        if io.clientReadable {
          GetMissingDataFromClient(io.fromClient);
        }
        if pServer && io.serverWritable {
          pServerConnected := true;
          PostMessage(Established);
          moved := true;
        }
      } else {
        if pClient {
          if io.clientWritable {
            SendMissingDataToClient(io.toClient);
          }
          if toSendForClient == 0 {
            EndClient(Cancelled);
            moved := true;
          }
        }
        if pServer {
          EndServer(Cancelled);
          moved := false;
        }
      }
    }

    method ManageUp(io: Io)
      requires Valid()
      modifies this, bufferForServer
      ensures Valid() && State() == UpTurn(old(State()), io)
    {
      if io.clientReadable {
        GetMissingDataFromClient(io.fromClient);
        SendMissingDataToServer(io.toServer);
      } else if io.serverWritable {
        SendMissingDataToServer(io.toServer);
      }
    }

    method ManageDown(io: Io) returns (crash: bool)
      requires Valid()
      modifies this, bufferForClient
      ensures Valid() && (if crash then NullAccess else Done(State())) == DownTurn(old(State()), io)
    {
      if pServer {
        if io.serverReadable {
          GetMissingDataFromServer(io.fromServer);
          SendMissingDataToClient(io.toClient);
        } else if !pClient {
          return true;
        } else if io.clientWritable {
          SendMissingDataToClient(io.toClient);
        }
      }
      return false;
    }

    method ManageSingle(io: Io)
      requires Valid() && !(pClient && pServer)
      modifies this
      ensures Valid() && State() == SingleTurn(old(State()), io)
    {
      if pClient {
        if io.clientWritable {
          SendMissingDataToClient(io.toClient);
        }
        if toSendForClient == 0 {
          EndClient(Cancelled);
        }
      } else if pServer {
        if io.serverWritable {
          SendMissingDataToServer(io.toServer);
        }
        if toSendForServer == 0 {
          EndServer(Cancelled);
        }
      }
    }

    /** `crash` reports the use of the client socket after it was released; the state is
        then of no consequence. */
    method ManageConnections(io: Io) returns (crash: bool)
      requires Valid()
      modifies this, bufferForServer, bufferForClient
      ensures Valid()
      ensures (if crash then NullAccess else Done(State())) == Relay.ManageConnections(old(State()), io)
    {
      if pClient && pServer {
        ManageUp(io);
        crash := ManageDown(io);
      } else {
        ManageSingle(io);
        crash := false;
      }
    }

    method CheckSockets(serverBad: bool, clientBad: bool)
      requires Valid()
      modifies this
      ensures Valid() && State() == CheckPeers(old(State()), serverBad, clientBad)
    {
      if pServer && serverBad {
        EndServer(ServerLost);
      }
      if pClient && clientBad {
        EndClient(ClientLost);
      }
    }

    method AddToFDSETR(fds: set<End>) returns (r: set<End>)
      requires Valid()
      ensures r == fds + ReadSet(State())
    {
      r := fds;
      if pClient && toReceiveForServer != 0 {
        r := r + {ClientEnd};
      }
      if pServer && toReceiveForClient != 0 {
        r := r + {ServerEnd};
      }
    }

    method AddToFDSETW(fds: set<End>) returns (r: set<End>)
      requires Valid()
      ensures r == fds + WriteSet(State())
    {
      r := fds;
      if pClient && toSendForClient != 0 {
        r := r + {ClientEnd};
      }
      if pServer && toSendForServer != 0 {
        r := r + {ServerEnd};
      }
    }

    method AddToFDSETC(readers: set<End>, writers: set<End>) returns (r: set<End>, w: set<End>)
      requires Valid()
      ensures r == readers + ConnectSet(State()).0
      ensures w == writers + ConnectSet(State()).1
    {
      r, w := readers, writers;
      if pClient && toReceiveForServer != 0 {
        r := r + {ClientEnd};
      }
      if pServer {
        w := w + {ServerEnd};
      }
    }
  }

}
