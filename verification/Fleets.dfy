/** The list of managers: which one takes the next client, and what that keeps while every
    manager goes on closing, relaying and dropping its pairs. */
module Fleets {
  import opened Numbers
  import opened Relay
  import opened Managers
  import opened ManagerInvariants

  /** `chosen` is the manager found for the client being served, or -1. */
  datatype Fleet = Fleet(managers: seq<Manager>, chosen: int)

  // ----- the search -----

  /** Room left in each manager. */
  function Rooms(ms: seq<Manager>): (rooms: seq<int>)
    ensures |rooms| == |ms| && forall i :: 0 <= i < |ms| ==> rooms[i] == Free(ms[i])
  {
    seq(|ms|, i requires 0 <= i < |ms| => Free(ms[i]))
  }

  /** No manager but the first has room. */
  ghost predicate NoRoom(rooms: seq<int>) {
    forall i :: 1 <= i < |rooms| ==> rooms[i] <= 0
  }

  ghost predicate IsRoomiest(rooms: seq<int>, b: int) {
    && 1 <= b < |rooms| && rooms[b] > 0
    && (forall i :: 1 <= i < |rooms| ==> rooms[i] <= rooms[b])
    && (forall i :: 1 <= i < b ==> rooms[i] < rooms[b])
  }

  /** The manager with most room among all but the first, the earliest on ties, or -1. */
  function Roomiest(rooms: seq<int>): (b: int)
    ensures if NoRoom(rooms) then b == -1 else IsRoomiest(rooms, b)
  {
    if |rooms| <= 1 then -1 else
      var last := |rooms| - 1;
      var b := Roomiest(rooms[..last]);
      if rooms[last] > 0 && (b < 0 || rooms[last] > rooms[b]) then last else b
  }

  lemma RoomiestOneMore(rooms: seq<int>, i: nat)
    requires 1 <= i < |rooms|
    ensures var b := Roomiest(rooms[..i]);
            b < i && Roomiest(rooms[..i + 1]) == if rooms[i] > 0 && (b < 0 || rooms[i] > rooms[b]) then i else b
  {
    assert rooms[..i + 1][..i] == rooms[..i];
  }

  /** A manager is added although some manager has room exactly when the first one has
      room and every other one is full: the search never looks at the first. */
  lemma NeedlessManager(rooms: seq<int>)
    requires forall i :: 0 <= i < |rooms| ==> rooms[i] >= 0
    ensures NoRoom(rooms) && (exists i :: 0 <= i < |rooms| && rooms[i] > 0)
            <==> |rooms| > 0 && rooms[0] > 0 && forall i :: 1 <= i < |rooms| ==> rooms[i] == 0
  {
    if |rooms| > 0 && rooms[0] > 0 && forall i :: 1 <= i < |rooms| ==> rooms[i] == 0 {
      assert 0 <= 0 < |rooms| && rooms[0] > 0;
    }
  }

  // ----- steps -----

  /** A manager is looked for, and added when none is found. */
  function Found(f: Fleet, perThread: int, setSize: nat): (g: Fleet)
    requires setSize >= 2
    ensures 0 <= g.chosen < |g.managers|
  {
    var b := Roomiest(Rooms(f.managers));
    if b >= 0 then f.(chosen := b)
    else Fleet(f.managers + [NewManager(perThread, setSize)], |f.managers|)
  }

  /** The client joins the manager found, if a server was found for it as well. */
  function Joined(f: Fleet, id: nat, served: bool): Fleet {
    var c := f.chosen;
    if served && 0 <= c < |f.managers| then Fleet(f.managers[c := Add(f.managers[c], id)], -1) else f.(chosen := -1)
  }

  /** The one accepting thread searches and joins in turn. In between, and at any other
      time, pairs are asked to close and managers make passes; only a join adds a pair. */
  datatype FleetEvent = Seek | Enter(id: nat, served: bool) | Inside(manager: nat, event: Event)

  datatype FleetOutcome = Alive(f: Fleet) | Dead

  function FleetStep(f: Fleet, e: FleetEvent, perThread: int, setSize: nat): FleetOutcome
    requires setSize >= 2
  {
    match e
    case Seek => Alive(Found(f, perThread, setSize))
    case Enter(id, served) => Alive(Joined(f, id, served))
    case Inside(i, event) =>
      if i >= |f.managers| || event.Arrive? then Alive(f)
      else match Step(f.managers[i], event) {
        case Running(m) => Alive(f.(managers := f.managers[i := m]))
        case Crashed => Dead
      }
  }

  function FleetRun(f: Fleet, es: seq<FleetEvent>, perThread: int, setSize: nat): FleetOutcome
    requires setSize >= 2
    decreases |es|
  {
    if es == [] then Alive(f)
    else match FleetStep(f, es[0], perThread, setSize) {
      case Alive(next) => FleetRun(next, es[1..], perThread, setSize)
      case Dead => Dead
    }
  }

  const EMPTY_FLEET := Fleet([], -1)

  // ----- what every step keeps -----

  ghost predicate ManagerOk(m: Manager, limit: int) {
    Consistent(m) && m.limit == limit && m.current <= limit
  }

  /** Every manager is consistent and within its limit; the one chosen still has room; and
      the first one is chosen only for the first client. */
  ghost predicate FleetOk(f: Fleet, limit: int) {
    && (forall m :: m in f.managers ==> ManagerOk(m, limit))
    && -1 <= f.chosen < |f.managers|
    && (f.chosen >= 0 ==> f.managers[f.chosen].current < limit)
    && (|f.managers| > 0 ==> f.managers[0].current <= if f.chosen == 0 then 0 else 1)
  }

  /** One manager has changed, and is still in order. */
  lemma ReplacedOk(f: Fleet, limit: int, i: nat, m: Manager)
    requires FleetOk(f, limit) && i < |f.managers| && ManagerOk(m, limit)
    ensures forall x :: x in f.managers[i := m] ==> ManagerOk(x, limit)
  {
    forall x | x in f.managers[i := m] ensures ManagerOk(x, limit) {
      assert x == m || x in f.managers;
    }
  }

  lemma FleetStepKeeps(f: Fleet, e: FleetEvent, perThread: int, setSize: nat)
    requires setSize >= 4 && perThread > 0 && FleetOk(f, Min(perThread, PeersPerSet(setSize)))
    ensures var r := FleetStep(f, e, perThread, setSize);
            r.Alive? ==> FleetOk(r.f, Min(perThread, PeersPerSet(setSize)))
  {
    match e
    case Seek =>
      var b := Roomiest(Rooms(f.managers));
      if b >= 0 {
        assert ManagerOk(f.managers[b], Min(perThread, PeersPerSet(setSize)));
      }
    case Enter(id, served) =>
      if served && f.chosen >= 0 {
        var m := f.managers[f.chosen];
        assert ManagerOk(m, Min(perThread, PeersPerSet(setSize)));
        StepKeeps(m, Arrive(id));
        ReplacedOk(f, m.limit, f.chosen, Add(m, id));
      }
    case Inside(i, event) =>
      if i < |f.managers| && !event.Arrive? {
        var m := f.managers[i];
        assert ManagerOk(m, Min(perThread, PeersPerSet(setSize)));
        StepKeeps(m, event);
        if Step(m, event).Running? {
          ReplacedOk(f, m.limit, i, Step(m, event).m);
        }
      }
  }

  lemma {:induction false} FleetRunKeeps(f: Fleet, es: seq<FleetEvent>, perThread: int, setSize: nat)
    requires setSize >= 4 && perThread > 0 && FleetOk(f, Min(perThread, PeersPerSet(setSize)))
    ensures var r := FleetRun(f, es, perThread, setSize);
            r.Alive? ==> FleetOk(r.f, Min(perThread, PeersPerSet(setSize)))
    decreases |es|
  {
    if es != [] {
      FleetStepKeeps(f, es[0], perThread, setSize);
      var r := FleetStep(f, es[0], perThread, setSize);
      if r.Alive? {
        FleetRunKeeps(r.f, es[1..], perThread, setSize);
      }
    }
  }

  // ----- the theorems -----

  /** Over every run of the list, the counter of every manager equals the pairs it holds
      and never exceeds the configured limit or what the select set can take, the sockets it
      registers fit the set together with the control socket, and the manager found for a
      client still has room when the client joins it. */
  lemma CapacityHolds(es: seq<FleetEvent>, perThread: int, setSize: nat)
    requires setSize >= 4 && perThread > 0
    ensures var r := FleetRun(EMPTY_FLEET, es, perThread, setSize); r.Alive? ==>
              && (forall m :: m in r.f.managers ==>
                    && m.current == |m.connected| + |m.connecting|
                    && m.current <= perThread && m.current <= PeersPerSet(setSize)
                    && SocketCount(m.connected) + SocketCount(m.connecting) + 1 <= setSize)
              && (r.f.chosen >= 0 ==> r.f.chosen < |r.f.managers| && Free(r.f.managers[r.f.chosen]) > 0)
  {
    FleetRunKeeps(EMPTY_FLEET, es, perThread, setSize);
    var r := FleetRun(EMPTY_FLEET, es, perThread, setSize);
    if r.Alive? {
      forall m | m in r.f.managers
        ensures m.current == |m.connected| + |m.connecting|
        ensures m.current <= perThread && m.current <= PeersPerSet(setSize)
        ensures SocketCount(m.connected) + SocketCount(m.connecting) + 1 <= setSize
      {
        assert ManagerOk(m, Min(perThread, PeersPerSet(setSize)));
        TwoSocketsEach(m.connected);
        TwoSocketsEach(m.connecting);
      }
      if r.f.chosen >= 0 {
        assert ManagerOk(r.f.managers[r.f.chosen], Min(perThread, PeersPerSet(setSize)));
      }
    }
  }

  /** Over every run the first manager of the list, which no later search looks at, never
      holds more than one pair. */
  lemma FirstManagerHoldsOne(es: seq<FleetEvent>, perThread: int, setSize: nat)
    requires setSize >= 4 && perThread > 0
    ensures var r := FleetRun(EMPTY_FLEET, es, perThread, setSize);
            r.Alive? && |r.f.managers| > 0 ==> |r.f.managers[0].connected| + |r.f.managers[0].connecting| <= 1
  {
    FleetRunKeeps(EMPTY_FLEET, es, perThread, setSize);
    var r := FleetRun(EMPTY_FLEET, es, perThread, setSize);
    if r.Alive? && |r.f.managers| > 0 {
      assert ManagerOk(r.f.managers[0], Min(perThread, PeersPerSet(setSize)));
    }
  }

  /** The second client already gets a second manager, though the first one has room. */
  lemma NeedlessManagerReached(id: nat, perThread: int, setSize: nat)
    requires setSize >= 6 && perThread >= 2
    ensures var r := FleetRun(EMPTY_FLEET, [Seek, Enter(id, true), Seek], perThread, setSize);
            r.Alive? && |r.f.managers| == 2 && r.f.chosen == 1 && Free(r.f.managers[0]) > 0
  {
    var es := [Seek, Enter(id, true), Seek];
    assert es[1..] == [Enter(id, true), Seek] && es[1..][1..] == [Seek] && es[1..][1..][1..] == [];
    var f := Found(EMPTY_FLEET, perThread, setSize);
    assert f == Fleet([NewManager(perThread, setSize)], 0);
    var g := Joined(f, id, true);
    assert |g.managers| == 1 && g.managers[0].current == 1;
    var h := Found(g, perThread, setSize);
    assert FleetRun(h, [], perThread, setSize) == Alive(h);
    assert FleetRun(g, [Seek], perThread, setSize) == Alive(h);
    assert FleetRun(f, es[1..], perThread, setSize) == Alive(h);
  }

  /** A set of `setSize` sockets takes this many pairs with the control socket, and with two
      sockets each no more. */
  lemma PeersPerSetIsMost(setSize: nat)
    requires setSize >= 2
    ensures 2 * PeersPerSet(setSize) + 2 <= setSize < 2 * (PeersPerSet(setSize) + 1) + 2
  {
  }

  /** Over every run a manager is added only when each one but the first holds as many pairs
      as are configured, or as fit the select set. */
  lemma AddedOnlyWhenFull(es: seq<FleetEvent>, perThread: int, setSize: nat)
    requires setSize >= 4 && perThread > 0
    ensures var r := FleetRun(EMPTY_FLEET, es, perThread, setSize);
            r.Alive? && |Found(r.f, perThread, setSize).managers| > |r.f.managers| ==>
              forall i :: 1 <= i < |r.f.managers| ==>
                var m := r.f.managers[i];
                |m.connected| + |m.connecting| == if perThread < (setSize - 2) / 2 then perThread else (setSize - 2) / 2
  {
    FleetRunKeeps(EMPTY_FLEET, es, perThread, setSize);
    var r := FleetRun(EMPTY_FLEET, es, perThread, setSize);
    if r.Alive? && |Found(r.f, perThread, setSize).managers| > |r.f.managers| {
      forall i | 1 <= i < |r.f.managers|
        ensures var m := r.f.managers[i];
                |m.connected| + |m.connecting| == if perThread < (setSize - 2) / 2 then perThread else (setSize - 2) / 2
      {
        assert ManagerOk(r.f.managers[i], Min(perThread, PeersPerSet(setSize)));
        assert Rooms(r.f.managers)[i] <= 0;
      }
    }
  }

  /** A client that was given a server is held, unlike before, by the manager found for it,
      and every pair held before still is. */
  lemma ClientIsHeld(f: Fleet, id: nat)
    requires 0 <= f.chosen < |f.managers|
    ensures var g := Joined(f, id, true);
            && |g.managers| == |f.managers|
            && (forall i, t :: 0 <= i < |f.managers| ==>
                  (t in g.managers[i].connecting <==>
                     t in f.managers[i].connecting || (i == f.chosen && t == Tracked(id, FRESH, 0)))
                  && (t in g.managers[i].connected <==> t in f.managers[i].connected))
            && Joined(f, id, false) == f.(chosen := -1)
  {
  }

}
