/** What holds of a manager at every moment of every run: the counter, the two lists, and that
    every pair left after a pass can wake select. */
module ManagerInvariants {
  import opened Lists
  import opened Statuses
  import opened Relay
  import RelayRuns
  import opened Managers

  // ----- the invariant -----

  ghost predicate AllIn(ts: seq<Tracked>, established: bool) {
    forall i :: 0 <= i < |ts| ==> RelayRuns.Sound(ts[i].pair, ts[i].kicks) && ts[i].pair.established == established
  }

  /** The counter counts the pairs of both lists, and a pair's list tells whether its
      backend is connected. */
  ghost predicate Consistent(m: Manager) {
    && m.current == |m.connected| + |m.connecting|
    && AllIn(m.connected, true) && AllIn(m.connecting, false)
  }

  lemma {:induction false} PurgedKeeps(ts: seq<Tracked>, requests: seq<nat>, established: bool)
    requires AllIn(ts, established)
    ensures AllIn(Purged(ts, requests), established) && |Purged(ts, requests)| == |ts|
    decreases |requests|
  {
    if requests != [] {
      var id := requests[|requests| - 1];
      var ks := KickMatching(ts, id);
      forall i | 0 <= i < |ks|
        ensures RelayRuns.Sound(ks[i].pair, ks[i].kicks) && ks[i].pair.established == established
      {
        RelayRuns.KickKeeps(ts[i].pair, ts[i].kicks);
      }
      PurgedKeeps(ks, requests[..|requests| - 1], established);
    }
  }

  lemma {:induction false} ActiveOnlyKeeps(ts: seq<Tracked>, established: bool)
    requires AllIn(ts, established)
    ensures AllIn(ActiveOnly(ts), established) && |ActiveOnly(ts)| <= |ts|
    ensures forall t :: t in ActiveOnly(ts) <==> t in ts && IsActive(t.pair)
  {
    if ts != [] {
      var init, t := ts[..|ts| - 1], ts[|ts| - 1];
      assert ts == init + [t];
      ActiveOnlyKeeps(init, established);
    }
  }

  lemma {:induction false} TriedKeeps(ts: seq<Tracked>, ios: nat -> Io)
    requires AllIn(ts, false)
    ensures AllIn(Promoted(ts, ios), true) && AllIn(Waiting(ts, ios), false)
    ensures |Promoted(ts, ios)| + |Waiting(ts, ios)| == |ts|
  {
    if ts != [] {
      var t := ts[|ts| - 1];
      TriedKeeps(ts[..|ts| - 1], ios);
      RelayRuns.ConnectingTurnKeeps(t.pair, t.kicks, ios(t.id));
    }
  }

  lemma PurgeSweepKeeps(m: Manager)
    requires Consistent(m)
    ensures var s := Sweep(Purge(m)); Consistent(s) && s.current <= m.current && s.limit == m.limit
    ensures var s := Sweep(Purge(m)); forall t :: t in s.connected + s.connecting ==> IsActive(t.pair)
  {
    PurgedKeeps(m.connected, m.requests, true);
    PurgedKeeps(m.connecting, m.requests, false);
    ActiveOnlyKeeps(Purge(m).connected, true);
    ActiveOnlyKeeps(Purge(m).connecting, false);
  }

  lemma {:induction false} PurgedExactly(ts: seq<Tracked>, requests: seq<nat>, i: nat, established: bool)
    requires AllIn(ts, established) && i < |ts|
    ensures |Purged(ts, requests)| == |ts|
    ensures Purged(ts, requests)[i].id == ts[i].id
    ensures ts[i].id !in requests ==> Purged(ts, requests)[i] == ts[i]
    ensures ts[i].id in requests ==> !IsActive(Purged(ts, requests)[i].pair)
    ensures !IsActive(ts[i].pair) ==> !IsActive(Purged(ts, requests)[i].pair)
    decreases |requests|
  {
    PurgedKeeps(ts, requests, established);
    if requests != [] {
      var id, rest := requests[|requests| - 1], requests[..|requests| - 1];
      assert requests == rest + [id];
      var ks := KickMatching(ts, id);
      PurgedKeeps(ts, [id], established);
      assert Purged(ks, [id][..0]) == ks;
      RelayRuns.KickKeeps(ts[i].pair, ts[i].kicks);
      PurgedExactly(ks, rest, i, established);
    }
  }

  /** One pass closes exactly the pairs named by the pending requests and drops exactly
      the pairs with no open end; every other pair stays as it was. */
  lemma PassDropsExactly(m: Manager, t: Tracked)
    requires Consistent(m)
    ensures var s := Sweep(Purge(m));
            && (t in s.connected <==> t in m.connected && t.id !in m.requests && IsActive(t.pair))
            && (t in s.connecting <==> t in m.connecting && t.id !in m.requests && IsActive(t.pair))
  {
    DropsExactly(m.connected, m.requests, t, true);
    DropsExactly(m.connecting, m.requests, t, false);
  }

  lemma DropsExactly(ts: seq<Tracked>, requests: seq<nat>, t: Tracked, established: bool)
    requires AllIn(ts, established)
    ensures t in ActiveOnly(Purged(ts, requests)) <==> t in ts && t.id !in requests && IsActive(t.pair)
  {
    var ps := Purged(ts, requests);
    PurgedKeeps(ts, requests, established);
    ActiveOnlyKeeps(ps, established);
    forall i | 0 <= i < |ts|
      ensures ts[i].id !in requests ==> ps[i] == ts[i]
      ensures ps[i].id == ts[i].id && (ts[i].id in requests ==> !IsActive(ps[i].pair))
    {
      PurgedExactly(ts, requests, i, established);
    }
    if t in ts && t.id !in requests {
      var i :| 0 <= i < |ts| && ts[i] == t;
      assert ps[i] == t;
    }
  }

  lemma DispatchKeeps(m: Manager, ios: nat -> Io)
    requires Consistent(m) && NoNullAccess(m.connected, ios)
    ensures Consistent(Dispatch(m, ios))
  {
    TriedKeeps(m.connecting, ios);
    forall i | 0 <= i < |m.connected|
      ensures var t := Relayed(m.connected[i], ios); RelayRuns.Sound(t.pair, t.kicks) && t.pair.established
    {
      RelayRuns.RelayingTurnKeeps(m.connected[i].pair, m.connected[i].kicks, ios(m.connected[i].id));
    }
  }

  ghost predicate KeepsEach(bad: nat -> (bool, bool)) {
    forall t: Tracked :: RelayRuns.Sound(t.pair, t.kicks) ==>
      RelayRuns.Sound(Checked(t, bad).pair, t.kicks) && Checked(t, bad).pair.established == t.pair.established
  }

  lemma CheckAlwaysKeeps(bad: nat -> (bool, bool))
    ensures KeepsEach(bad)
  {
    forall t: Tracked | RelayRuns.Sound(t.pair, t.kicks)
      ensures RelayRuns.Sound(Checked(t, bad).pair, t.kicks) && Checked(t, bad).pair.established == t.pair.established
    {
      RelayRuns.CheckKeeps(t.pair, t.kicks, bad(t.id).0, bad(t.id).1);
    }
  }

  lemma CheckedKeeps(ts: seq<Tracked>, bad: nat -> (bool, bool), established: bool)
    requires AllIn(ts, established) && KeepsEach(bad)
    ensures AllIn(CheckedAll(ts, bad), established)
  {
    assert forall i :: 0 <= i < |ts| ==> CheckedAll(ts, bad)[i] == Checked(ts[i], bad);
  }

  lemma StepKeeps(m: Manager, e: Event)
    requires Consistent(m)
    ensures var r := Step(m, e); r.Running? ==>
              && Consistent(r.m) && r.m.limit == m.limit
              && (if e.Arrive? then r.m.current == m.current + 1 else r.m.current <= m.current)
  {
    match e
    case Arrive(id) => FreshIsSound();
    case Close(id) =>
    case Pass(result) =>
      var s := Sweep(Purge(m));
      PurgeSweepKeeps(m);
      match result
      case Activity(ios) =>
        if NoNullAccess(s.connected, ios) {
          DispatchKeeps(s, ios);
        }
      case BadDescriptor(bad) =>
        CheckAlwaysKeeps(bad);
        CheckedKeeps(s.connected, bad, true);
        CheckedKeeps(s.connecting, bad, false);
      case Nothing =>
  }

  lemma FreshIsSound()
    ensures RelayRuns.Sound(FRESH, 0) && !FRESH.established
  {
  }

  // ----- runs -----

  lemma {:induction false} RunKeeps(m: Manager, es: seq<Event>)
    requires Consistent(m)
    ensures var r := Run(m, es); r.Running? ==> Consistent(r.m) && r.m.limit == m.limit
    decreases |es|
  {
    if es != [] {
      StepKeeps(m, es[0]);
      if Step(m, es[0]).Running? {
        RunKeeps(Step(m, es[0]).m, es[1..]);
      }
    }
  }

  lemma {:induction false} TwoSocketsEach(ts: seq<Tracked>)
    ensures SocketCount(ts) <= 2 * |ts|
  {
    if ts != [] {
      TwoSocketsEach(ts[..|ts| - 1]);
      var s := Sockets(ts[|ts| - 1]);
      assert s <= {ClientEnd, ServerEnd};
      SubsetSize(s, {ClientEnd, ServerEnd});
    }
  }

  lemma {:induction false} SubsetSize<T>(a: set<T>, b: set<T>)
    requires a <= b
    ensures |a| <= |b|
  {
    if a != {} {
      var x :| x in a;
      SubsetSize(a - {x}, b - {x});
    }
  }

  /** However many arrive, the counter equals the pairs held, a pair is in the list of
      connected pairs exactly when its backend connection was made, each list obeys the
      half-open rules, and each pair left after sweeping can wake select. */
  lemma ListsTellPhases(connections: nat, setSize: nat, es: seq<Event>)
    requires setSize >= 2 && Run(NewManager(connections, setSize), es).Running?
    ensures var m := Run(NewManager(connections, setSize), es).m;
            && m.current == |m.connected| + |m.connecting|
            && (forall t :: t in m.connecting ==> !t.pair.established && t.pair.client == t.pair.server)
            && (forall t :: t in m.connected ==>
                  t.pair.established && RelayRuns.CountOf(t.pair.posts, Established) == 1)
            && (forall t :: t in m.connected && t.pair.client != t.pair.server ==>
                  if t.pair.client then t.pair.down.queue != [] else t.pair.up.queue != [])
            && (forall t :: t in Sweep(Purge(m)).connected + Sweep(Purge(m)).connecting ==> Sockets(t) != {})
  {
    var m0 := NewManager(connections, setSize);
    RunKeeps(m0, es);
    var m := Run(m0, es).m;
    PurgeSweepKeeps(m);
    var s := Sweep(Purge(m));
    forall t | t in s.connected + s.connecting ensures Sockets(t) != {} {
      ActiveRegisters(t);
    }
  }

  lemma ActiveRegisters(t: Tracked)
    requires RelayRuns.Sound(t.pair, t.kicks) && IsActive(t.pair)
    ensures Sockets(t) != {}
  {
    var p := t.pair;
    if !p.established || (p.server && (p.down.room > 0 || p.up.queue != [])) {
      assert ServerEnd in Sockets(t);
    } else {
      assert ClientEnd in Sockets(t);
    }
  }
}
