/** The connection manager and the list of managers as objects that update their lists
    and counters in place. */
module ConnectionManagers {
  import opened Numbers
  import opened Lists
  import opened Relay
  import opened Managers
  import opened Fleets

  class ThreadedConnectionManager {
    const maxConnections: int
    var currentConnections: int
    var peerList: seq<Tracked>
    var connectingPeerList: seq<Tracked>
    var toBeClosed: seq<nat>

    ghost function State(): Manager
      reads this
    {
      Manager(maxConnections, currentConnections, peerList, connectingPeerList, toBeClosed)
    }

    constructor (connections: int, setSize: nat)
      requires setSize >= 2
      ensures State() == NewManager(connections, setSize)
    {
      maxConnections := Min(connections, PeersPerSet(setSize));
      currentConnections := 0;
      peerList, connectingPeerList, toBeClosed := [], [], [];
    }

    method AddConnectionPeer(id: nat)
      modifies this
      ensures State() == Add(old(State()), id)
    {
      currentConnections := currentConnections + 1;
      connectingPeerList := connectingPeerList + [Tracked(id, FRESH, 0)];
    }

    method ClosePInfo(id: nat)
      modifies this
      ensures State() == Request(old(State()), id)
    {
      toBeClosed := toBeClosed + [id];
    }

    method GetFreeConnections() returns (n: int)
      ensures n == Free(State())
    {
      n := Max(maxConnections - currentConnections, 0);
    }

    static method KickList(ts: seq<Tracked>, id: nat) returns (ks: seq<Tracked>)
      ensures ks == KickMatching(ts, id)
    {
      ks := ts;
      var i := 0;
      while i < |ts|
        invariant 0 <= i <= |ts| && |ks| == |ts|
        invariant ks[..i] == KickMatching(ts, id)[..i] && ks[i..] == ts[i..]
      {
        if ks[i].id == id {
          ks := ks[i := Tracked(id, Kick(ks[i].pair), ks[i].kicks + 1)];
        }
        i := i + 1;
      }
    }

    method PurgeRequests()
      modifies this
      ensures State() == Purge(old(State()))
    {
      while toBeClosed != []
        invariant State() ==
                  old(State()).(connected := peerList, connecting := connectingPeerList, requests := toBeClosed)
        invariant Purged(peerList, toBeClosed) == old(Purged(peerList, toBeClosed))
        invariant Purged(connectingPeerList, toBeClosed) == old(Purged(connectingPeerList, toBeClosed))
        decreases |toBeClosed|
      {
        var top := toBeClosed[|toBeClosed| - 1];
        peerList := KickList(peerList, top);
        connectingPeerList := KickList(connectingPeerList, top);
        toBeClosed := toBeClosed[..|toBeClosed| - 1];
      }
    }

    static method SweepList(ts: seq<Tracked>) returns (r: seq<Tracked>, removed: nat)
      ensures r == ActiveOnly(ts) && removed == |ts| - |r|
    {
      r, removed := ts, 0;
      ghost var k := 0;
      var i := 0;
      while i < |r|
        invariant Sifted(ts, IsHeld, k, i, r) && removed == |ts| - |r|
        decreases |ts| - k
      {
        SiftedNext(ts, IsHeld, k, i, r);
        if IsActive(r[i].pair) {
          i := i + 1;
        } else {
          r := r[..i] + r[i + 1..];
          removed := removed + 1;
        }
        k := k + 1;
      }
      SiftedAll(ts, IsHeld, k, i, r);
    }

    method SweepLists()
      modifies this
      ensures State() == Sweep(old(State()))
    {
      var removed;
      peerList, removed := SweepList(peerList);
      currentConnections := currentConnections - removed;
      connectingPeerList, removed := SweepList(connectingPeerList);
      currentConnections := currentConnections - removed;
    }

    /** `crash` reports the use of a released socket by one of the pairs. */
    method ManagePeers(ios: nat -> Io) returns (crash: bool)
      modifies this`peerList
      ensures crash <==> !NoNullAccess(old(peerList), ios)
      ensures !crash ==> peerList == RelayedAll(old(peerList), ios)
    {
      ghost var was := peerList;
      var i := 0;
      while i < |peerList|
        invariant 0 <= i <= |peerList| == |was|
        invariant forall j :: 0 <= j < i ==>
                    ManageConnections(was[j].pair, ios(was[j].id)).Done? && peerList[j] == Relayed(was[j], ios)
        invariant peerList[i..] == was[i..]
      {
        assert peerList[i] == was[i];
        var turn := ManageConnections(peerList[i].pair, ios(peerList[i].id));
        if turn.NullAccess? {
          return true;
        }
        peerList := peerList[i := peerList[i].(pair := turn.pair)];
        i := i + 1;
      }
      return false;
    }

    /** A turn of the connecting pair at place `i`; one that established is moved to the other
        list. */
    method ManageConnectingAt(ios: nat -> Io, i: nat, ghost was: seq<Tracked>, ghost k: nat, ghost before: seq<Tracked>)
      returns (j: nat)
      requires k < |was| && i < |connectingPeerList|
      requires Midway(was, ios, k, i, connectingPeerList, Promoted(was[..k], ios))
      requires peerList == before + Promoted(was[..k], ios)
      modifies this`peerList, this`connectingPeerList
      ensures Midway(was, ios, k + 1, j, connectingPeerList, Promoted(was[..k + 1], ios))
      ensures peerList == before + Promoted(was[..k + 1], ios)
    {
      MidwayNext(was, ios, k, i, connectingPeerList, Promoted(was[..k], ios));
      var t := connectingPeerList[i];
      var turn := ManageConnecting(t.pair, ios(t.id));
      t := t.(pair := turn.0);
      j := i;
      if turn.1 {
        connectingPeerList := connectingPeerList[..i] + connectingPeerList[i + 1..];
        peerList := peerList + [t];
      } else {
        connectingPeerList := connectingPeerList[i := t];
        j := i + 1;
      }
    }

    method ManageConnectingPeers(ios: nat -> Io)
      modifies this`peerList, this`connectingPeerList
      ensures peerList == old(peerList) + Promoted(old(connectingPeerList), ios)
      ensures connectingPeerList == Waiting(old(connectingPeerList), ios)
    {
      ghost var was := connectingPeerList;
      ghost var k := 0;
      var i: nat := 0;
      while i < |connectingPeerList|
        invariant k <= |was| && Midway(was, ios, k, i, connectingPeerList, Promoted(was[..k], ios))
        invariant peerList == old(peerList) + Promoted(was[..k], ios)
        decreases |was| - k
      {
        i := ManageConnectingAt(ios, i, was, k, old(peerList));
        k := k + 1;
      }
      assert was[..k] == was;
    }

    static method CheckList(ts: seq<Tracked>, bad: nat -> (bool, bool)) returns (cs: seq<Tracked>)
      ensures cs == CheckedAll(ts, bad)
    {
      cs := ts;
      var i := 0;
      while i < |ts|
        invariant 0 <= i <= |ts| && |cs| == |ts|
        invariant cs[..i] == CheckedAll(ts, bad)[..i] && cs[i..] == ts[i..]
      {
        cs := cs[i := Checked(cs[i], bad)];
        i := i + 1;
      }
    }

    /** One pass of the manager's loop. */
    method RunPass(result: Selected) returns (crash: bool)
      modifies this
      ensures (if crash then Crashed else Running(State())) == Step(old(State()), Pass(result))
    {
      crash := false;
      PurgeRequests();
      SweepLists();
      match result
      case Activity(ios) =>
        crash := ManagePeers(ios);
        if !crash {
          ManageConnectingPeers(ios);
        }
      case BadDescriptor(bad) =>
        connectingPeerList := CheckList(connectingPeerList, bad);
        peerList := CheckList(peerList, bad);
      case Nothing =>
    }
  }

  ghost function States(ms: seq<ThreadedConnectionManager>): (states: seq<Manager>)
    reads ms
    ensures |states| == |ms| && forall i :: 0 <= i < |ms| ==> states[i] == ms[i].State()
  {
    seq(|ms|, i requires 0 <= i < |ms| reads ms => ms[i].State())
  }

  class ThreadedConnectionManagerList {
    var mList: seq<ThreadedConnectionManager>
    var peersPerThread: int
    const setSize: nat

    ghost predicate Valid()
      reads this
    {
      && setSize >= 4 && peersPerThread > 0
      && forall i, j :: 0 <= i < j < |mList| ==> mList[i] != mList[j]
    }

    constructor (setSize: nat)
      requires setSize >= 4
      ensures Valid() && mList == [] && peersPerThread == PeersPerSet(setSize)
    {
      this.setSize := setSize;
      mList, peersPerThread := [], PeersPerSet(setSize);
    }

    method SetPeersPerThread(ppt: int)
      requires Valid()
      modifies this`peersPerThread
      ensures Valid() && peersPerThread == if ppt > 0 then ppt else old(peersPerThread)
    {
      if ppt > 0 {
        peersPerThread := ppt;
      }
    }

    method AddNew() returns (m: ThreadedConnectionManager)
      requires Valid()
      modifies this`mList
      ensures Valid() && mList == old(mList) + [m] && fresh(m)
      ensures m.State() == NewManager(peersPerThread, setSize) && Free(m.State()) > 0
    {
      m := new ThreadedConnectionManager(peersPerThread, setSize);
      mList := mList + [m];
    }

    /** The manager returned always has room. It is the one with most room among all but
        the first, the earliest on ties; a new one is added when none of those has room. */
    method GetFreeThreadedConnectionManager() returns (m: ThreadedConnectionManager)
      requires Valid()
      modifies this`mList
      ensures Valid() && Free(m.State()) > 0
      ensures var f := Found(Fleet(old(States(mList)), -1), peersPerThread, setSize);
              States(mList) == f.managers && mList[f.chosen] == m
      ensures mList == old(mList) || (mList == old(mList) + [m] && fresh(m))
    {
      ghost var rooms := Rooms(States(mList));
      if |mList| == 0 {
        m := AddNew();
      } else {
        var b := FindRoomiest();
        if b < 0 {
          m := AddNew();
        } else {
          m := mList[b];
          assert Free(m.State()) == rooms[b];
        }
      }
    }

    /** A client that was given a server is handed to a manager with room, so no manager
        goes over its limit; the other managers are left alone. */
    method SetServer(id: nat, served: bool) returns (m: ThreadedConnectionManager)
      requires Valid()
      requires forall x :: x in mList ==> x.State().current <= x.State().limit
      modifies this`mList, mList
      ensures Valid()
      ensures States(mList) ==
              Joined(Found(Fleet(old(States(mList)), -1), peersPerThread, setSize), id, served).managers
      ensures m in mList && (m in old(mList) || fresh(m))
      ensures forall x :: x in old(mList) && x != m ==> x.State() == old(x.State())
      ensures forall x :: x in mList ==> x.State().current <= x.State().limit
    {
      m := GetFreeThreadedConnectionManager();
      if served {
        ghost var c := Found(Fleet(old(States(mList)), -1), peersPerThread, setSize).chosen;
        AddTo(m, c, id);
      }
    }

    /** The pair joins the manager at place `c`, and no other. */
    method AddTo(m: ThreadedConnectionManager, ghost c: nat, id: nat)
      requires Valid() && c < |mList| && mList[c] == m
      modifies m
      ensures m.State() == Add(old(m.State()), id)
      ensures States(mList) == old(States(mList))[c := Add(old(m.State()), id)]
    {
      m.AddConnectionPeer(id);
      assert forall j :: 0 <= j < |mList| && j != c ==> mList[j] != m;
    }

    method FindRoomiest() returns (best: int)
      requires Valid() && |mList| > 0
      ensures best == Roomiest(Rooms(States(mList)))
    {
      ghost var rooms := Rooms(States(mList));
      best := -1;
      var free := -1;
      var i := 1;
      while i < |mList|
        invariant 1 <= i <= |mList|
        invariant -1 <= best < i && best == Roomiest(rooms[..i]) && free == if best < 0 then -1 else rooms[best]
      {
        var current := mList[i].GetFreeConnections();
        assert current == rooms[i];
        RoomiestOneMore(rooms, i);
        if current > free && current > 0 {
          best, free := i, current;
        }
        i := i + 1;
      }
      assert rooms[..i] == rooms;
    }
  }

}
