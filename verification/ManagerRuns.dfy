/** A pair held by a manager is a relay pair like any other: what a manager does to it is a
    run of that pair, told by the events that concern it. */
module ManagerRuns {
  import opened Lists
  import opened Relay
  import RelayRuns
  import RelayDrain
  import opened Managers
  import opened ManagerInvariants

  // ----- one pair, followed through the events of its manager -----

  /** Whether the manager holds the pair, what the pair was told since it arrived, and how many
      requests to close it are pending. */
  datatype Track = Track(held: bool, told: seq<RelayRuns.Event>, pending: nat)

  const UNKNOWN := Track(false, [], 0)

  function LifeOf(t: Track): RelayRuns.Life { RelayRuns.Run(RelayRuns.BORN, t.told) }

  function Kicks(n: nat): seq<RelayRuns.Event> { seq(n, _ => RelayRuns.KickRequest) }

  /** What a pass tells a pair that is still active: how select came back for its sockets. */
  function Tidings(result: Selected, id: nat): seq<RelayRuns.Event> {
    match result
    case Activity(ios) => [RelayRuns.Manage(ios(id))]
    case BadDescriptor(bad) => [RelayRuns.Check(bad(id).0, bad(id).1)]
    case Nothing => []
  }

  /** A pass serves the pending requests; a pair without an open end is let go, any other is
      told how select came back. */
  function Passed(t: Track, result: Selected, id: nat): Track {
    var kicked := Track(t.held, t.told + Kicks(t.pending), 0);
    if !t.held then kicked.(told := t.told)
    else if !IsActive(LifeOf(kicked).pair) then kicked.(held := false)
    else kicked.(told := kicked.told + Tidings(result, id))
  }

  function Followed(t: Track, e: Event, id: nat): Track {
    match e
    case Arrive(a) => if a == id then t.(held := true, told := []) else t
    case Close(a) => if a == id then t.(pending := t.pending + 1) else t
    case Pass(result) => Passed(t, result, id)
  }

  function FollowedAll(t: Track, es: seq<Event>, id: nat): Track
    decreases |es|
  {
    if es == [] then t else FollowedAll(Followed(t, es[0], id), es[1..], id)
  }

  /** The pair does not arrive while it is held: nothing else has its identity. */
  predicate ArrivesFresh(t: Track, es: seq<Event>, id: nat)
    decreases |es|
  {
    es == [] || ((es[0] == Arrive(id) ==> !t.held) && ArrivesFresh(Followed(t, es[0], id), es[1..], id))
  }

  // ----- the entries of one pair -----

  function HasId(id: nat): Tracked -> bool { (t: Tracked) => t.id == id }

  function Of(ts: seq<Tracked>, id: nat): seq<Tracked> { Select(ts, HasId(id)) }

  function Entry(id: nat, x: RelayRuns.Life): Tracked { Tracked(id, x.pair, x.kicks) }

  function Occurrences(requests: seq<nat>, id: nat): nat {
    if requests == [] then 0
    else Occurrences(requests[..|requests| - 1], id) + if requests[|requests| - 1] == id then 1 else 0
  }

  /** The manager holds the pair as its track says, in the list that its phase says, and has
      as many requests for it. */
  ghost predicate Holds(m: Manager, id: nat, t: Track) {
    var x := LifeOf(t);
    && Of(m.connected, id) == (if t.held && x.relaying then [Entry(id, x)] else [])
    && Of(m.connecting, id) == (if t.held && !x.relaying then [Entry(id, x)] else [])
    && Occurrences(m.requests, id) == t.pending
    && (t.held ==> !x.crashed)
  }

  // ----- lists element by element -----

  /** A list changed element by element, without touching identities. */
  lemma {:induction false} OfMapped(ts: seq<Tracked>, us: seq<Tracked>, id: nat)
    requires |us| == |ts| && forall i :: 0 <= i < |ts| ==> us[i].id == ts[i].id
    ensures |Of(us, id)| == |Of(ts, id)|
    ensures forall k :: 0 <= k < |Of(ts, id)| ==>
              exists i :: 0 <= i < |ts| && Of(ts, id)[k] == ts[i] && Of(us, id)[k] == us[i]
  {
    if ts != [] {
      var n := |ts| - 1;
      var init, next := ts[..n], us[..n];
      OfMapped(init, next, id);
      forall k | 0 <= k < |Of(ts, id)|
        ensures exists i :: 0 <= i < |ts| && Of(ts, id)[k] == ts[i] && Of(us, id)[k] == us[i]
      {
        if k < |Of(init, id)| {
          var i :| 0 <= i < n && Of(init, id)[k] == init[i] && Of(next, id)[k] == next[i];
          assert ts[i] == init[i] && us[i] == next[i];
        } else {
          assert Of(ts, id)[k] == ts[n] && Of(us, id)[k] == us[n];
        }
      }
    }
  }

  /** A list changed element by element that holds the pair at most once. */
  lemma OneMapped(ts: seq<Tracked>, us: seq<Tracked>, id: nat)
    requires |us| == |ts| && forall i :: 0 <= i < |ts| ==> us[i].id == ts[i].id
    requires |Of(ts, id)| <= 1
    ensures |Of(us, id)| == |Of(ts, id)|
    ensures Of(ts, id) != [] ==> exists i :: 0 <= i < |ts| && Of(ts, id) == [ts[i]] && Of(us, id) == [us[i]]
  {
    OfMapped(ts, us, id);
    if Of(ts, id) != [] {
      var i :| 0 <= i < |ts| && Of(ts, id)[0] == ts[i] && Of(us, id)[0] == us[i];
      assert Of(ts, id) == [ts[i]] && Of(us, id) == [us[i]];
    }
  }

  // ----- serving the requests -----

  function Kicked(x: RelayRuns.Life, n: nat): RelayRuns.Life { RelayRuns.Run(x, Kicks(n)) }

  /** One more request is served first. */
  lemma KickedOnce(x: RelayRuns.Life, n: nat)
    requires n > 0
    ensures Kicked(x, n) == Kicked(RelayRuns.Step(x, RelayRuns.KickRequest), n - 1)
  {
    assert Kicks(n)[1..] == Kicks(n - 1);
  }

  lemma {:induction false} PurgedOf(ts: seq<Tracked>, requests: seq<nat>, id: nat, x: RelayRuns.Life)
    requires !x.crashed && (Of(ts, id) == [] || Of(ts, id) == [Entry(id, x)])
    ensures Of(Purged(ts, requests), id) ==
            if Of(ts, id) == [] then [] else [Entry(id, Kicked(x, Occurrences(requests, id)))]
    ensures !Kicked(x, Occurrences(requests, id)).crashed
    ensures Kicked(x, Occurrences(requests, id)).relaying == x.relaying
    decreases |requests|
  {
    if requests == [] {
      assert Kicks(0) == [];
    } else {
      var r, rest := requests[|requests| - 1], requests[..|requests| - 1];
      var ks := KickMatching(ts, r);
      OneMapped(ts, ks, id);
      if r == id {
        KickedOnce(x, Occurrences(requests, id));
        PurgedOf(ks, rest, id, RelayRuns.Step(x, RelayRuns.KickRequest));
      } else {
        PurgedOf(ks, rest, id, x);
      }
    }
  }

  lemma SweptOf(ts: seq<Tracked>, id: nat, x: RelayRuns.Life)
    requires Of(ts, id) == [] || Of(ts, id) == [Entry(id, x)]
    ensures Of(ActiveOnly(ts), id) == if IsActive(x.pair) then Of(ts, id) else []
  {
    SelectSwaps(ts, IsHeld, HasId(id));
    SelectOne(Entry(id, x), IsHeld);
  }

  // ----- the three results of select -----

  /** A connected pair has its turn. */
  lemma RelayedOf(ts: seq<Tracked>, ios: nat -> Io, id: nat, x: RelayRuns.Life)
    requires NoNullAccess(ts, ios) && x.relaying && !x.crashed
    requires Of(ts, id) == [] || Of(ts, id) == [Entry(id, x)]
    ensures var y := RelayRuns.Step(x, RelayRuns.Manage(ios(id)));
            Of(RelayedAll(ts, ios), id) == (if Of(ts, id) == [] then [] else [Entry(id, y)])
            && (Of(ts, id) != [] ==> !y.crashed && y.relaying)
  {
    OneMapped(ts, RelayedAll(ts, ios), id);
  }

  lemma CheckedOf(ts: seq<Tracked>, bad: nat -> (bool, bool), id: nat, x: RelayRuns.Life)
    requires !x.crashed && (Of(ts, id) == [] || Of(ts, id) == [Entry(id, x)])
    ensures var y := RelayRuns.Step(x, RelayRuns.Check(bad(id).0, bad(id).1));
            Of(CheckedAll(ts, bad), id) == (if Of(ts, id) == [] then [] else [Entry(id, y)])
            && !y.crashed && y.relaying == x.relaying
  {
    OneMapped(ts, CheckedAll(ts, bad), id);
  }

  predicate Moves(t: Tracked, ios: nat -> Io) { ManageConnecting(t.pair, ios(t.id)).1 }

  lemma TriedAppended(ts: seq<Tracked>, t: Tracked, ios: nat -> Io)
    ensures Promoted(ts + [t], ios) == if Moves(t, ios) then Promoted(ts, ios) + [Tried(t, ios)] else Promoted(ts, ios)
    ensures Waiting(ts + [t], ios) == if Moves(t, ios) then Waiting(ts, ios) else Waiting(ts, ios) + [Tried(t, ios)]
  {
    assert (ts + [t])[..|ts|] == ts;
  }

  lemma TriedOfNext(ts: seq<Tracked>, t: Tracked, ios: nat -> Io, id: nat)
    requires Of(Promoted(ts, ios), id) == Promoted(Of(ts, id), ios)
    requires Of(Waiting(ts, ios), id) == Waiting(Of(ts, id), ios)
    ensures Of(Promoted(ts + [t], ios), id) == Promoted(Of(ts + [t], id), ios)
    ensures Of(Waiting(ts + [t], ios), id) == Waiting(Of(ts + [t], id), ios)
  {
    TriedAppended(ts, t, ios);
    SelectAppended(ts, t, HasId(id));
    SelectAppended(Promoted(ts, ios), Tried(t, ios), HasId(id));
    SelectAppended(Waiting(ts, ios), Tried(t, ios), HasId(id));
    TriedAppended(Of(ts, id), t, ios);
  }

  lemma {:induction false} TriedOf(ts: seq<Tracked>, ios: nat -> Io, id: nat)
    ensures Of(Promoted(ts, ios), id) == Promoted(Of(ts, id), ios)
    ensures Of(Waiting(ts, ios), id) == Waiting(Of(ts, id), ios)
  {
    if ts != [] {
      var init, t := ts[..|ts| - 1], ts[|ts| - 1];
      assert ts == init + [t];
      TriedOf(init, ios, id);
      TriedOfNext(init, t, ios, id);
    }
  }

  /** A connecting pair has its turn, and changes lists if it was established. */
  lemma PromotedOf(ts: seq<Tracked>, ios: nat -> Io, id: nat, x: RelayRuns.Life)
    requires !x.relaying && !x.crashed && (Of(ts, id) == [] || Of(ts, id) == [Entry(id, x)])
    ensures var y := RelayRuns.Step(x, RelayRuns.Manage(ios(id)));
            && Of(Promoted(ts, ios), id) == (if Of(ts, id) != [] && y.relaying then [Entry(id, y)] else [])
            && Of(Waiting(ts, ios), id) == (if Of(ts, id) != [] && !y.relaying then [Entry(id, y)] else [])
            && !y.crashed
  {
    TriedOf(ts, ios, id);
    if Of(ts, id) != [] {
      var one := [Entry(id, x)];
      assert one[..0] == [];
    }
  }

  // ----- one event -----

  lemma {:induction false} RunOn(x: RelayRuns.Life, es: seq<RelayRuns.Event>, fs: seq<RelayRuns.Event>)
    ensures RelayRuns.Run(x, es + fs) == RelayRuns.Run(RelayRuns.Run(x, es), fs)
    decreases |es|
  {
    if es == [] {
      assert es + fs == fs;
    } else {
      assert (es + fs)[1..] == es[1..] + fs;
      RunOn(RelayRuns.Step(x, es[0]), es[1..], fs);
    }
  }

  lemma RunOne(x: RelayRuns.Life, e: RelayRuns.Event)
    ensures RelayRuns.Run(x, [e]) == RelayRuns.Step(x, e)
  {
    assert [e][1..] == [];
  }

  /** The pair after the requests have been served, and the list swept. */
  lemma SweepHolds(m: Manager, id: nat, t: Track)
    requires Holds(m, id, t)
    ensures var kicked := Track(t.held, if t.held then t.told + Kicks(t.pending) else t.told, 0);
            var over := t.held && !IsActive(LifeOf(kicked).pair);
            Holds(Sweep(Purge(m)), id, if over then kicked.(held := false) else kicked)
  {
    var x := LifeOf(t);
    if t.held {
      var y := Kicked(x, t.pending);
      RunOn(RelayRuns.BORN, t.told, Kicks(t.pending));
      PurgedOf(m.connected, m.requests, id, x);
      PurgedOf(m.connecting, m.requests, id, x);
      SweptOf(Purge(m).connected, id, y);
      SweptOf(Purge(m).connecting, id, y);
    } else {
      PurgedOf(m.connected, m.requests, id, RelayRuns.BORN);
      PurgedOf(m.connecting, m.requests, id, RelayRuns.BORN);
      SweptOf(Purge(m).connected, id, RelayRuns.BORN);
      SweptOf(Purge(m).connecting, id, RelayRuns.BORN);
    }
  }

  lemma ArriveHolds(m: Manager, id: nat, t: Track, a: nat)
    requires Holds(m, id, t) && (a == id ==> !t.held)
    ensures Holds(Add(m, a), id, Followed(t, Arrive(a), id))
  {
    SelectAppended(m.connecting, Tracked(a, FRESH, 0), HasId(id));
  }

  lemma CloseHolds(m: Manager, id: nat, t: Track, a: nat)
    requires Holds(m, id, t)
    ensures Holds(Request(m, a), id, Followed(t, Close(a), id))
  {
    assert (m.requests + [a])[..|m.requests|] == m.requests;
  }

  /** What the lists hold of a relaying pair after its turn. */
  lemma RelayingDispatched(m: Manager, ios: nat -> Io, id: nat, x: RelayRuns.Life, held: bool)
    requires NoNullAccess(m.connected, ios) && !x.crashed && x.relaying
    requires Of(m.connected, id) == (if held then [Entry(id, x)] else []) && Of(m.connecting, id) == []
    ensures var y, n := RelayRuns.Step(x, RelayRuns.Manage(ios(id))), Dispatch(m, ios);
            && Of(n.connected, id) == (if held then [Entry(id, y)] else [])
            && Of(n.connecting, id) == []
            && y.relaying && (held ==> !y.crashed)
  {
    SelectConcat(RelayedAll(m.connected, ios), Promoted(m.connecting, ios), HasId(id));
    RelayedOf(m.connected, ios, id, x);
    PromotedOf(m.connecting, ios, id, RelayRuns.BORN);
  }

  /** What the lists hold of a connecting pair after its turn. */
  lemma ConnectingDispatched(m: Manager, ios: nat -> Io, id: nat, x: RelayRuns.Life, held: bool)
    requires NoNullAccess(m.connected, ios) && !x.crashed && !x.relaying
    requires Of(m.connected, id) == [] && Of(m.connecting, id) == (if held then [Entry(id, x)] else [])
    ensures var y, n := RelayRuns.Step(x, RelayRuns.Manage(ios(id))), Dispatch(m, ios);
            && Of(n.connected, id) == (if held && y.relaying then [Entry(id, y)] else [])
            && Of(n.connecting, id) == (if held && !y.relaying then [Entry(id, y)] else [])
            && !y.crashed
  {
    SelectConcat(RelayedAll(m.connected, ios), Promoted(m.connecting, ios), HasId(id));
    PromotedOf(m.connecting, ios, id, x);
    OneMapped(m.connected, RelayedAll(m.connected, ios), id);
  }

  lemma DispatchHolds(m: Manager, ios: nat -> Io, id: nat, t: Track)
    requires Holds(m, id, t) && NoNullAccess(m.connected, ios)
    ensures Holds(Dispatch(m, ios), id, if t.held then t.(told := t.told + [RelayRuns.Manage(ios(id))]) else t)
  {
    if t.held {
      RunOn(RelayRuns.BORN, t.told, [RelayRuns.Manage(ios(id))]);
      RunOne(LifeOf(t), RelayRuns.Manage(ios(id)));
      if LifeOf(t).relaying {
        RelayingDispatched(m, ios, id, LifeOf(t), true);
      } else {
        ConnectingDispatched(m, ios, id, LifeOf(t), true);
      }
    } else {
      ConnectingDispatched(m, ios, id, RelayRuns.BORN, false);
    }
  }

  lemma CheckHolds(m: Manager, bad: nat -> (bool, bool), id: nat, t: Track)
    requires Holds(m, id, t)
    ensures var e := RelayRuns.Check(bad(id).0, bad(id).1);
            Holds(CheckConnections(m, bad), id, if t.held then t.(told := t.told + [e]) else t)
  {
    var x, e := if t.held then LifeOf(t) else RelayRuns.BORN, RelayRuns.Check(bad(id).0, bad(id).1);
    RunOn(RelayRuns.BORN, t.told, [e]);
    RunOne(x, e);
    CheckedOf(m.connected, bad, id, x);
    CheckedOf(m.connecting, bad, id, x);
  }

  lemma StepHolds(m: Manager, e: Event, id: nat, t: Track)
    requires Holds(m, id, t) && (e == Arrive(id) ==> !t.held)
    ensures var r := Step(m, e); r.Running? ==> Holds(r.m, id, Followed(t, e, id))
  {
    match e
    case Arrive(a) => ArriveHolds(m, id, t, a);
    case Close(a) => CloseHolds(m, id, t, a);
    case Pass(result) =>
      SweepHolds(m, id, t);
      var s := Sweep(Purge(m));
      var kicked := Track(t.held, if t.held then t.told + Kicks(t.pending) else t.told, 0);
      var k := if t.held && !IsActive(LifeOf(kicked).pair) then kicked.(held := false) else kicked;
      match result
      case Activity(ios) =>
        if NoNullAccess(s.connected, ios) {
          DispatchHolds(s, ios, id, k);
        }
      case BadDescriptor(bad) => CheckHolds(s, bad, id, k);
      case Nothing => assert k.told + [] == k.told;
  }

  lemma {:induction false} RunHolds(m: Manager, es: seq<Event>, id: nat, t: Track)
    requires Holds(m, id, t) && ArrivesFresh(t, es, id)
    ensures var r := Run(m, es); r.Running? ==> Holds(r.m, id, FollowedAll(t, es, id))
    decreases |es|
  {
    if es != [] {
      StepHolds(m, es[0], id, t);
      if Step(m, es[0]).Running? {
        RunHolds(Step(m, es[0]).m, es[1..], id, Followed(t, es[0], id));
      }
    }
  }

  lemma OfHas(ts: seq<Tracked>, id: nat)
    ensures forall u :: u in Of(ts, id) <==> u in ts && u.id == id
  {
    SelectExactly(ts, HasId(id));
  }

  /** Over every run a manager holds a pair exactly from its arrival until a pass finds it
      without an open end, in the list of its phase, and the pair is what the relay makes of
      what it was told: its turn in every pass with activity, a check in every pass with a
      bad descriptor, and a kick for every request naming it. */
  lemma PairsAreRuns(connections: int, setSize: nat, es: seq<Event>, id: nat)
    requires setSize >= 2 && ArrivesFresh(UNKNOWN, es, id) && Run(NewManager(connections, setSize), es).Running?
    ensures var m, t := Run(NewManager(connections, setSize), es).m, FollowedAll(UNKNOWN, es, id);
            var x := LifeOf(t);
            && (forall u :: u in m.connected && u.id == id <==> t.held && x.relaying && u == Entry(id, x))
            && (forall u :: u in m.connecting && u.id == id <==> t.held && !x.relaying && u == Entry(id, x))
            && (t.held ==> !x.crashed)
  {
    var m0 := NewManager(connections, setSize);
    assert RelayRuns.Run(RelayRuns.BORN, []) == RelayRuns.BORN;
    RunHolds(m0, es, id, UNKNOWN);
    var m := Run(m0, es).m;
    OfHas(m.connected, id);
    OfHas(m.connecting, id);
  }

  /** A pass ends in the use of a released socket exactly when one of the connected pairs it
      keeps has a turn that does. */
  lemma PassCrashesExactly(m: Manager, ios: nat -> Io)
    requires Consistent(m)
    ensures Step(m, Pass(Activity(ios))).Crashed? <==>
            exists t :: t in Sweep(Purge(m)).connected && RelayDrain.Trips(t.pair, ios(t.id))
  {
    PurgeSweepKeeps(m);
    var ts := Sweep(Purge(m)).connected;
    forall i | 0 <= i < |ts|
      ensures ManageConnections(ts[i].pair, ios(ts[i].id)).Done? <==> !RelayDrain.Trips(ts[i].pair, ios(ts[i].id))
    {
      RelayDrain.NullAccessExactly(ts[i].pair, ts[i].kicks, ios(ts[i].id));
    }
    if NoNullAccess(ts, ios) {
      forall t | t in ts ensures !RelayDrain.Trips(t.pair, ios(t.id)) {
        var i :| 0 <= i < |ts| && ts[i] == t;
      }
    } else {
      var i :| 0 <= i < |ts| && !ManageConnections(ts[i].pair, ios(ts[i].id)).Done?;
      assert ts[i] in ts;
    }
  }

}
