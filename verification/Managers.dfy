/** The connection manager: relay pairs in two lists, one for pairs whose backend is
    still connecting and one for established pairs, under a limit that keeps every
    socket inside one select set. */
module Managers {
  import opened Numbers
  import opened Lists
  import opened Relay

  /** A pair with the identity of its record and the kick requests it has served. */
  datatype Tracked = Tracked(id: nat, pair: Pair, kicks: nat)

  datatype Manager = Manager(
    limit: int, current: int, connected: seq<Tracked>, connecting: seq<Tracked>, requests: seq<nat>)

  /** Two sockets for each pair and two for the control socket. */
  function PeersPerSet(setSize: nat): int { (setSize - 2) / 2 }

  function NewManager(connections: int, setSize: nat): Manager
    requires setSize >= 2
  {
    Manager(Min(connections, PeersPerSet(setSize)), 0, [], [], [])
  }

  function Free(m: Manager): int { Max(m.limit - m.current, 0) }

  // ----- one operation on a list -----

  function KickMatching(ts: seq<Tracked>, id: nat): seq<Tracked> {
    seq(|ts|, i requires 0 <= i < |ts| =>
      if ts[i].id == id then Tracked(id, Kick(ts[i].pair), ts[i].kicks + 1) else ts[i])
  }

  /** Requests are served from the top of the list down. */
  function Purged(ts: seq<Tracked>, requests: seq<nat>): seq<Tracked>
    decreases |requests|
  {
    if requests == [] then ts
    else Purged(KickMatching(ts, requests[|requests| - 1]), requests[..|requests| - 1])
  }

  predicate IsHeld(t: Tracked) { IsActive(t.pair) }

  function ActiveOnly(ts: seq<Tracked>): seq<Tracked> { Select(ts, IsHeld) }

  predicate NoNullAccess(ts: seq<Tracked>, ios: nat -> Io) {
    forall i :: 0 <= i < |ts| ==> ManageConnections(ts[i].pair, ios(ts[i].id)).Done?
  }

  function Relayed(t: Tracked, ios: nat -> Io): Tracked
    requires ManageConnections(t.pair, ios(t.id)).Done?
  {
    t.(pair := ManageConnections(t.pair, ios(t.id)).pair)
  }

  function RelayedAll(ts: seq<Tracked>, ios: nat -> Io): seq<Tracked>
    requires NoNullAccess(ts, ios)
  {
    seq(|ts|, i requires 0 <= i < |ts| => Relayed(ts[i], ios))
  }

  function Tried(t: Tracked, ios: nat -> Io): Tracked { t.(pair := ManageConnecting(t.pair, ios(t.id)).0) }

  function Promoted(ts: seq<Tracked>, ios: nat -> Io): seq<Tracked> {
    if ts == [] then [] else
      var t := ts[|ts| - 1];
      Promoted(ts[..|ts| - 1], ios) + if ManageConnecting(t.pair, ios(t.id)).1 then [Tried(t, ios)] else []
  }

  function Waiting(ts: seq<Tracked>, ios: nat -> Io): seq<Tracked> {
    if ts == [] then [] else
      var t := ts[|ts| - 1];
      Waiting(ts[..|ts| - 1], ios) + if ManageConnecting(t.pair, ios(t.id)).1 then [] else [Tried(t, ios)]
  }

  lemma TriedOneMore(ts: seq<Tracked>, ios: nat -> Io, k: nat)
    requires k < |ts|
    ensures var moves, tried := ManageConnecting(ts[k].pair, ios(ts[k].id)).1, Tried(ts[k], ios);
            && Promoted(ts[..k + 1], ios) == Promoted(ts[..k], ios) + (if moves then [tried] else [])
            && Waiting(ts[..k + 1], ios) == Waiting(ts[..k], ios) + (if moves then [] else [tried])
  {
    assert ts[..k + 1][..k] == ts[..k];
  }

  /** The first `k` of the connecting pairs `was` have had their turn: `list` is what is left
      of them and the others, and `moved` are those that established. */
  ghost predicate Midway(was: seq<Tracked>, ios: nat -> Io, k: nat, i: nat, list: seq<Tracked>, moved: seq<Tracked>)
    requires k <= |was|
  {
    && i == |Waiting(was[..k], ios)| && list == Waiting(was[..k], ios) + was[k..]
    && moved == Promoted(was[..k], ios)
  }

  lemma MidwayNext(was: seq<Tracked>, ios: nat -> Io, k: nat, i: nat, list: seq<Tracked>, moved: seq<Tracked>)
    requires k < |was| && Midway(was, ios, k, i, list, moved)
    ensures i < |list| && list[i] == was[k]
    ensures var moves, tried := ManageConnecting(was[k].pair, ios(was[k].id)).1, Tried(was[k], ios);
            if moves then Midway(was, ios, k + 1, i, list[..i] + list[i + 1..], moved + [tried])
            else Midway(was, ios, k + 1, i + 1, list[i := tried], moved)
  {
    AtCursor(was, k, Waiting(was[..k], ios), list);
    TriedOneMore(was, ios, k);
    assert Waiting(was[..k], ios) + [] == Waiting(was[..k], ios) && moved + [] == moved;
  }

  function Checked(t: Tracked, bad: nat -> (bool, bool)): Tracked {
    t.(pair := CheckPeers(t.pair, bad(t.id).0, bad(t.id).1))
  }

  function CheckedAll(ts: seq<Tracked>, bad: nat -> (bool, bool)): seq<Tracked> {
    seq(|ts|, i requires 0 <= i < |ts| => Checked(ts[i], bad))
  }

  // ----- one step of the manager -----

  function Add(m: Manager, id: nat): Manager {
    m.(current := m.current + 1, connecting := m.connecting + [Tracked(id, FRESH, 0)])
  }

  function Request(m: Manager, id: nat): Manager { m.(requests := m.requests + [id]) }

  function Purge(m: Manager): Manager {
    m.(connected := Purged(m.connected, m.requests), connecting := Purged(m.connecting, m.requests), requests := [])
  }

  function Sweep(m: Manager): Manager {
    var a, b := ActiveOnly(m.connected), ActiveOnly(m.connecting);
    m.(connected := a, connecting := b, current := m.current - (|m.connected| - |a|) - (|m.connecting| - |b|))
  }

  function Dispatch(m: Manager, ios: nat -> Io): Manager
    requires NoNullAccess(m.connected, ios)
  {
    m.(connected := RelayedAll(m.connected, ios) + Promoted(m.connecting, ios),
       connecting := Waiting(m.connecting, ios))
  }

  function CheckConnections(m: Manager, bad: nat -> (bool, bool)): Manager {
    m.(connected := CheckedAll(m.connected, bad), connecting := CheckedAll(m.connecting, bad))
  }

  /** How select came back: with activity, with a bad descriptor, or with nothing to do. */
  datatype Selected = Activity(ios: nat -> Io) | BadDescriptor(bad: nat -> (bool, bool)) | Nothing

  /** What may happen to a manager; `Pass` is one pass of its loop. */
  datatype Event = Arrive(id: nat) | Close(id: nat) | Pass(result: Selected)

  /** None when a pair uses a released socket. */
  datatype Outcome = Running(m: Manager) | Crashed

  function Step(m: Manager, e: Event): Outcome {
    match e
    case Arrive(id) => Running(Add(m, id))
    case Close(id) => Running(Request(m, id))
    case Pass(result) =>
      var s := Sweep(Purge(m));
      match result
      case Activity(ios) => if NoNullAccess(s.connected, ios) then Running(Dispatch(s, ios)) else Crashed
      case BadDescriptor(bad) => Running(CheckConnections(s, bad))
      case Nothing => Running(s)
  }

  // ----- runs -----

  function Run(m: Manager, es: seq<Event>): Outcome
    decreases |es|
  {
    if es == [] then Running(m)
    else match Step(m, es[0]) {
      case Running(next) => Run(next, es[1..])
      case Crashed => Crashed
    }
  }

  function Sockets(t: Tracked): set<End> {
    if t.pair.established then ReadSet(t.pair) + WriteSet(t.pair) else ConnectSet(t.pair).0 + ConnectSet(t.pair).1
  }

  function SocketCount(ts: seq<Tracked>): nat {
    if ts == [] then 0 else SocketCount(ts[..|ts| - 1]) + |Sockets(ts[|ts| - 1])|
  }
}
