/** The counters over any interleaving, decided by what each relay pair reports: the
    messages about one record keep the counters exact or not on their own. */
module RecordRuns {
  import opened Lists
  import opened Statuses
  import opened Filters
  import opened Records
  import opened Directories
  import opened Accounting
  import opened AccountingRuns
  import opened RelayAccounting

  // ----- the records by identity -----

  ghost predicate UniqueIds(ps: seq<Peer>) {
    forall i, j :: 0 <= i < j < |ps| ==> ps[i].id != ps[j].id
  }

  ghost predicate Sane(d: Directory) { WellFormed(d) && UniqueIds(d.peers) }

  /** Status of the record with this identity, if it is there. */
  function StatusOf(d: Directory, id: nat): Option<Status> {
    var k := FindPeer(d.peers, id);
    if k < 0 then None else Some(d.peers[k].status)
  }

  lemma StatusIs(d: Directory, id: nat, k: nat)
    requires UniqueIds(d.peers) && k < |d.peers| && d.peers[k].id == id
    ensures StatusOf(d, id) == Some(d.peers[k].status)
  {
  }

  lemma {:induction false} SelectedById(ps: seq<Peer>, f: Peer -> bool, id: nat)
    requires UniqueIds(ps)
    ensures UniqueIds(Select(ps, f)) && |Select(ps, f)| <= |ps|
    ensures forall p :: p in Select(ps, f) <==> p in ps && f(p)
    decreases |ps|
  {
    if ps != [] {
      var init, last := ps[..|ps| - 1], ps[|ps| - 1];
      assert ps == init + [last];
      SelectedById(init, f, id);
      AppendedAt(Select(init, f), last);
    }
  }

  lemma SameStatus(d: Directory, e: Directory, id: nat)
    requires UniqueIds(d.peers) && UniqueIds(e.peers)
    requires forall p: Peer :: p.id == id ==> (p in d.peers <==> p in e.peers)
    ensures StatusOf(d, id) == StatusOf(e, id)
  {
    var k, j := FindPeer(d.peers, id), FindPeer(e.peers, id);
    assert k >= 0 ==> d.peers[k] in e.peers;
    assert j >= 0 ==> e.peers[j] in d.peers;
  }

  lemma ChangedAt(ps: seq<Peer>, k: nat, q: Peer)
    requires UniqueIds(ps) && k < |ps| && q.id == ps[k].id
    ensures UniqueIds(ps[k := q]) && UniqueIds(Without(ps, k))
    ensures forall p: Peer :: p.id != q.id ==> (p in ps <==> p in ps[k := q]) && (p in ps <==> p in Without(ps, k))
    ensures forall p: Peer :: p in Without(ps, k) ==> p.id != q.id
  {
    assert ps == ps[..k] + [ps[k]] + ps[k + 1..];
    assert ps[k := q] == ps[..k] + [q] + ps[k + 1..];
  }

  lemma AppendedAt(ps: seq<Peer>, q: Peer)
    requires UniqueIds(ps) && forall p :: p in ps ==> p.id != q.id
    ensures UniqueIds(ps + [q])
    ensures forall p: Peer :: p.id != q.id ==> (p in ps <==> p in ps + [q])
  {
  }

  // ----- one step -----

  predicate IsTakeover(e: Event) { e.Search? && e.session.Reuse? }

  predicate IsAbout(e: Event, id: nat) { e.Message? && e.id == id }

  /** What a step that brings the next identity from `n` to `m` does to a record. */
  ghost predicate Follows(e: Event, id: nat, n: nat, m: nat, before: Option<Status>, after: Option<Status>) {
    && n <= m && (before.Some? ==> id < n)
    && if IsAbout(e, id) then
         if before.None? then after == None && n == m
         else after == Some(if Ignored(e.st) then before.value else e.st) || (after == None && IsNotConnected(e.st))
       else if n <= id < m then after == Some(ConnectingServer)
       else after == before || (before.Some? && IsNotConnected(before.value) && after == None)
  }

  ghost predicate StepFollowed(d: Directory, e: Event, id: nat) {
    Follows(e, id, d.nextId, Apply(d, e).nextId, StatusOf(d, id), StatusOf(Apply(d, e), id))
  }

  lemma KnownIsBorn(d: Directory, id: nat)
    requires Sane(d)
    ensures StatusOf(d, id).Some? ==> id < d.nextId
  {
    var k := FindPeer(d.peers, id);
    assert k >= 0 ==> d.peers[k] in d.peers;
  }

  /** Record `k`, whose message this is, is marked or dropped. */
  lemma ChangeFollows(d: Directory, e: Directory, k: nat, m: Event, id: nat)
    requires Sane(d) && k < |d.peers| && m.Message? && d.peers[k].id == m.id && e.nextId == d.nextId
    requires e.peers == d.peers[k := Marked(d.peers[k], m.st, m.now)]
             || (IsNotConnected(m.st) && e.peers == Without(d.peers, k))
    ensures UniqueIds(e.peers) && Follows(m, id, d.nextId, e.nextId, StatusOf(d, id), StatusOf(e, id))
  {
    KnownIsBorn(d, id);
    StatusIs(d, m.id, k);
    var q := Marked(d.peers[k], m.st, m.now);
    ChangedAt(d.peers, k, q);
    if id != m.id {
      SameStatus(d, e, id);
    } else if e.peers == d.peers[k := q] {
      StatusIs(e, id, k);
    } else {
      assert forall p :: p in e.peers ==> p.id != id;
    }
  }

  lemma MessageFollows(d: Directory, m: Event, id: nat)
    requires Sane(d) && m.Message?
    ensures UniqueIds(Apply(d, m).peers) && StepFollowed(d, m, id)
  {
    KnownIsBorn(d, id);
    var k := FindPeer(d.peers, m.id);
    if k >= 0 {
      ChangeFollows(d, Apply(d, m), k, m, id);
    }
  }

  lemma CleanFollows(d: Directory, id: nat)
    requires Sane(d)
    ensures UniqueIds(Clean(d).peers) && StepFollowed(d, CleanUp, id)
  {
    KnownIsBorn(d, id);
    var e := Clean(d);
    SelectedById(d.peers, IsKept, id);
    if StatusOf(d, id).None? || !IsNotConnected(StatusOf(d, id).value) {
      KeptRecord(d, e, IsKept, id);
    } else {
      LostRecord(d, e, IsKept, id);
    }
  }

  lemma KeptRecord(d: Directory, e: Directory, f: Peer -> bool, id: nat)
    requires UniqueIds(d.peers) && e.peers == Select(d.peers, f)
    requires forall p :: p in d.peers && p.id == id ==> f(p)
    ensures StatusOf(e, id) == StatusOf(d, id)
  {
    SelectedById(d.peers, f, id);
    SameStatus(d, e, id);
  }

  lemma LostRecord(d: Directory, e: Directory, f: Peer -> bool, id: nat)
    requires UniqueIds(d.peers) && e.peers == Select(d.peers, f)
    requires forall p :: p in d.peers && p.id == id ==> !f(p)
    ensures StatusOf(e, id) == None
  {
    SelectedById(d.peers, f, id);
    assert forall p :: p in e.peers ==> p.id != id;
  }

  /** The list without the client's records that are not connected. */
  function Freshened(d: Directory, client: Ip): Directory { d.(peers := Fresh(d.peers, client)) }

  lemma FreshFollows(d: Directory, client: Ip, id: nat)
    requires Sane(d)
    ensures var before, after := StatusOf(d, id), StatusOf(Freshened(d, client), id);
            after == before || (before.Some? && IsNotConnected(before.value) && after == None)
    ensures UniqueIds(Fresh(d.peers, client)) && forall p :: p in Fresh(d.peers, client) ==> p in d.peers
  {
    var f := FreshFor(client);
    SelectedById(d.peers, f, id);
    var k := FindPeer(d.peers, id);
    assert k >= 0 ==> forall p :: p in d.peers && p.id == id ==> p == d.peers[k];
    if k >= 0 && !f(d.peers[k]) {
      LostRecord(d, Freshened(d, client), f, id);
    } else {
      KeptRecord(d, Freshened(d, client), f, id);
    }
  }

  lemma RecreatingFollows(d: Directory, e: Event, id: nat)
    requires Sane(d) && e.Recreating? && CanRecreate(d, e.client, e.index)
    ensures UniqueIds(Apply(d, e).peers) && StepFollowed(d, e, id)
  {
    KnownIsBorn(d, id);
    FreshFollows(d, e.client, id);
    AddedFollows(Freshened(d, e.client), Apply(d, e), id);
  }

  /** A record with the next identity is added. */
  lemma AddedFollows(d: Directory, e: Directory, id: nat)
    requires UniqueIds(d.peers) && forall p :: p in d.peers ==> p.id < d.nextId
    requires |e.peers| == |d.peers| + 1 && e.peers[..|d.peers|] == d.peers
    requires e.peers[|d.peers|].id == d.nextId && e.peers[|d.peers|].status == ConnectingServer
    ensures UniqueIds(e.peers) && (id == d.nextId ==> StatusOf(d, id) == None)
    ensures StatusOf(e, id) == if id == d.nextId then Some(ConnectingServer) else StatusOf(d, id)
  {
    var q := e.peers[|d.peers|];
    assert e.peers == d.peers + [q];
    AppendedAt(d.peers, q);
    if id == d.nextId {
      StatusIs(e, id, |d.peers|);
      assert forall p :: p in d.peers ==> p.id != id;
    } else {
      SameStatus(d, e, id);
    }
  }

  lemma StepFollows(d: Directory, e: Event, id: nat)
    requires Sane(d) && Enabled(d, e) && !IsTakeover(e)
    ensures Sane(Apply(d, e)) && StepFollowed(d, e, id)
  {
    StepWellFormed(d, e);
    KnownIsBorn(d, id);
    match e
    case Message(_, _, _) => MessageFollows(d, e, id);
    case CleanUp => CleanFollows(d, id);
    case PurgeAll(_) =>
    case Search(_, _, _, _, _) =>
    case Recreating(client, _, index, _, _, _) =>
      if CanRecreate(d, client, index) {
        RecreatingFollows(d, e, id);
      }
    case Assigning(_, _, _, _, found, place) =>
      if found {
        AddedFollows(d, Apply(d, e), id);
      }
  }

  // ----- what a run tells about one record -----

  /** The messages about the record, kicks aside, in the order in which they are processed. */
  function Posts(es: seq<Event>, id: nat): seq<Status>
    decreases |es|
  {
    if es == [] then [] else
      (if es[0].Message? && es[0].id == id && !es[0].st.Kicked? then [es[0].st] else []) + Posts(es[1..], id)
  }

  /** No message comes before its record. */
  predicate BornFirst(d: Directory, es: seq<Event>)
    decreases |es|
  {
    es == [] || ((es[0].Message? ==> es[0].id < d.nextId) && BornFirst(Apply(d, es[0]), es[1..]))
  }

  predicate NoTakeover(es: seq<Event>)
    decreases |es|
  {
    es == [] || (!IsTakeover(es[0]) && NoTakeover(es[1..]))
  }

  /** An event, and the list it finds. */
  datatype Moment = Moment(before: Directory, event: Event)

  function Trace(d: Directory, es: seq<Event>): (t: seq<Moment>)
    ensures |t| == |es|
    decreases |es|
  {
    if es == [] then [] else [Moment(d, es[0])] + Trace(Apply(d, es[0]), es[1..])
  }

  lemma TraceFirst(d: Directory, es: seq<Event>)
    requires es != []
    ensures var t := Trace(d, es); t[0] == Moment(d, es[0]) && t[1..] == Trace(Apply(d, es[0]), es[1..])
  {
  }

  /** Every guard of a message about the record holds. */
  predicate MessagesKeep(t: seq<Moment>, id: nat) {
    t == [] || ((IsAbout(t[0].event, id) ==> Keeps(t[0].before, t[0].event)) && MessagesKeep(t[1..], id))
  }

  predicate ReportsEnd(e: Event, id: nat) { IsAbout(e, id) && IsNotConnected(e.st) }

  /** The record is still listed when a second end is reported; `ended` tells that one was. */
  predicate EndsTwice(t: seq<Moment>, id: nat, ended: bool) {
    t != [] &&
    ((ReportsEnd(t[0].event, id) && ended && StatusOf(t[0].before, id).Some?)
     || EndsTwice(t[1..], id, ended || ReportsEnd(t[0].event, id)))
  }

  /** The record after the messages `ps` about it: not made yet, of the kind they say, or
      dropped after it ended. */
  ghost predicate IsTold(status: Option<Status>, born: bool, ps: seq<Status>) {
    match status
    case Some(st) => born && KindOf(st) == KindAfter(ps)
    case None => if born then RelayRuns.Terminals(ps) > 0 else ps == []
  }

  ghost predicate Tracks(d: Directory, id: nat, ps: seq<Status>) {
    IsTold(StatusOf(d, id), id < d.nextId, ps)
  }

  lemma {:induction false} InOrderPrefix(a: seq<Status>, b: seq<Status>)
    requires RelayRuns.InOrder(a + b)
    ensures RelayRuns.InOrder(a)
  {
    if b == [] {
      assert a + b == a;
    } else {
      assert (a + b)[..|a + b| - 1] == a + b[..|b| - 1];
      InOrderPrefix(a, b[..|b| - 1]);
    }
  }

  /** Once a connection ended, whether it was established or failed is settled. */
  lemma {:induction false} EndSettles(a: seq<Status>, b: seq<Status>)
    requires RelayRuns.InOrder(a + b) && RelayRuns.Terminals(a) > 0
    ensures RelayRuns.Terminals(a + b) > 0 && (EndsProperly(a + b) <==> EndsProperly(a))
    ensures RelayRuns.CountOf(a + b, Established) == RelayRuns.CountOf(a, Established)
    ensures RelayRuns.CountOf(a + b, Failed) == RelayRuns.CountOf(a, Failed)
  {
    if b == [] {
      assert a + b == a;
    } else {
      assert (a + b)[..|a + b| - 1] == a + b[..|b| - 1];
      EndSettles(a, b[..|b| - 1]);
    }
  }

  lemma OneMoreTold(before: Option<Status>, after: Option<Status>, st: Status, ps: seq<Status>)
    requires IsTold(before, true, ps) && RelayRuns.InOrder(ps + [st]) && EndsProperly(ps)
    requires if before.None? then after == None
             else after == Some(if Ignored(st) then before.value else st) || (after == None && IsNotConnected(st))
    ensures IsTold(after, true, ps + [st])
    ensures before.None? || Ignored(st) || KindAfter(ps) == Leaves(st) <==>
            EndsProperly(ps + [st]) && !(IsNotConnected(st) && RelayRuns.Terminals(ps) > 0 && before.Some?)
  {
    assert (ps + [st])[..|ps|] == ps;
    KindsInOrder(ps);
  }

  lemma MessageGuard(d: Directory, e: Event)
    requires Sane(d) && e.Message?
    ensures var s := StatusOf(d, e.id);
            s.None? || (KindOf(s.value) != Outside) ==>
              (Keeps(d, e) <==> s.None? || Ignored(e.st) || KindOf(s.value) == Leaves(e.st))
  {
    var k := FindPeer(d.peers, e.id);
    if k >= 0 {
      assert Listed(d.peers[k], d.servers);
    }
  }

  lemma NoMoreTold(e: Event, id: nat, n: nat, m: nat, before: Option<Status>, after: Option<Status>, ps: seq<Status>)
    requires Follows(e, id, n, m, before, after) && IsTold(before, id < n, ps) && RelayRuns.InOrder(ps)
    requires IsAbout(e, id) ==> e.st.Kicked?
    ensures IsTold(after, id < m, ps)
  {
    KindsInOrder(ps);
  }

  /** One more message about the record. */
  lemma ToldOnce(d: Directory, e: Event, id: nat, ps: seq<Status>)
    requires Sane(d) && IsAbout(e, id) && !e.st.Kicked? && id < d.nextId && Tracks(d, id, ps)
    requires RelayRuns.InOrder(ps + [e.st]) && EndsProperly(ps) && RelayRuns.InOrder(ps)
    ensures Tracks(Apply(d, e), id, ps + [e.st])
    ensures Keeps(d, e) <==>
            EndsProperly(ps + [e.st])
            && !(IsNotConnected(e.st) && RelayRuns.Terminals(ps) > 0 && StatusOf(d, id).Some?)
  {
    KindsInOrder(ps);
    StepFollows(d, e, id);
    OneMoreTold(StatusOf(d, id), StatusOf(Apply(d, e), id), e.st, ps);
    MessageGuard(d, e);
  }

  lemma NotTold(d: Directory, e: Event, id: nat, ps: seq<Status>)
    requires Sane(d) && Enabled(d, e) && !IsTakeover(e) && Tracks(d, id, ps) && RelayRuns.InOrder(ps)
    requires IsAbout(e, id) ==> e.st.Kicked?
    ensures Tracks(Apply(d, e), id, ps) && (IsAbout(e, id) ==> Keeps(d, e))
  {
    StepFollows(d, e, id);
    NoMoreTold(e, id, d.nextId, Apply(d, e).nextId, StatusOf(d, id), StatusOf(Apply(d, e), id), ps);
    if IsAbout(e, id) {
      MessageGuard(d, e);
    }
  }

  /** From a record told `ps` on, its guards hold if and only if it ends properly and is not
      listed when a second end is reported. */
  ghost predicate Decided(t: seq<Moment>, es: seq<Event>, id: nat, ps: seq<Status>) {
    MessagesKeep(t, id) <==>
    EndsProperly(ps + Posts(es, id)) && !EndsTwice(t, id, RelayRuns.Terminals(ps) > 0)
  }

  lemma ToldFits(t: seq<Moment>, es: seq<Event>, id: nat, ps: seq<Status>, qs: seq<Status>)
    requires t != [] && es != [] && t[0].event == es[0] && IsAbout(es[0], id) && qs == ps + [es[0].st]
    requires ps + Posts(es, id) == qs + Posts(es[1..], id) && RelayRuns.InOrder(qs + Posts(es[1..], id))
    requires Keeps(t[0].before, es[0]) <==>
             EndsProperly(qs)
             && !(IsNotConnected(es[0].st) && RelayRuns.Terminals(ps) > 0 && StatusOf(t[0].before, id).Some?)
    requires EndsProperly(qs) ==> Decided(t[1..], es[1..], id, qs)
    ensures Decided(t, es, id, ps)
  {
    assert qs[..|ps|] == ps;
    if !EndsProperly(qs) {
      EndSettles(qs, Posts(es[1..], id));
    }
  }

  lemma NotToldFits(t: seq<Moment>, es: seq<Event>, id: nat, ps: seq<Status>)
    requires t != [] && es != [] && t[0].event == es[0] && Posts(es, id) == Posts(es[1..], id)
    requires IsAbout(es[0], id) ==> es[0].st.Kicked? && Keeps(t[0].before, es[0])
    requires Decided(t[1..], es[1..], id, ps)
    ensures Decided(t, es, id, ps)
  {
  }

  /** The messages told so far, and those to come. */
  lemma PostsSplit(es: seq<Event>, id: nat, ps: seq<Status>)
    requires es != [] && RelayRuns.InOrder(ps + Posts(es, id))
    ensures RelayRuns.InOrder(ps)
    ensures if IsAbout(es[0], id) && !es[0].st.Kicked? then
              var qs := ps + [es[0].st];
              ps + Posts(es, id) == qs + Posts(es[1..], id) && RelayRuns.InOrder(qs)
            else Posts(es, id) == Posts(es[1..], id)
  {
    InOrderPrefix(ps, Posts(es, id));
    if IsAbout(es[0], id) && !es[0].st.Kicked? {
      var qs := ps + [es[0].st];
      assert ps + Posts(es, id) == qs + Posts(es[1..], id);
      InOrderPrefix(qs, Posts(es[1..], id));
    } else {
      assert Posts(es, id) == Posts(es[1..], id);
    }
  }

  lemma {:induction false} RecordFits(d: Directory, es: seq<Event>, id: nat, ps: seq<Status>)
    requires Sane(d) && IsRun(d, es) && NoTakeover(es) && BornFirst(d, es)
    requires Tracks(d, id, ps) && RelayRuns.InOrder(ps + Posts(es, id)) && EndsProperly(ps)
    ensures Decided(Trace(d, es), es, id, ps)
    decreases |es|
  {
    if es == [] {
      assert ps + [] == ps;
    } else {
      var e := es[0];
      StepFollows(d, e, id);
      PostsSplit(es, id, ps);
      TraceFirst(d, es);
      if IsAbout(e, id) && !e.st.Kicked? {
        ToldOnce(d, e, id, ps);
        if EndsProperly(ps + [e.st]) {
          RecordFits(Apply(d, e), es[1..], id, ps + [e.st]);
        }
        ToldFits(Trace(d, es), es, id, ps, ps + [e.st]);
      } else {
        NotTold(d, e, id, ps);
        RecordFits(Apply(d, e), es[1..], id, ps);
        NotToldFits(Trace(d, es), es, id, ps);
      }
    }
  }

  // ----- all records together -----

  /** Every guard of a session that is recreated holds. */
  predicate RecreationsKeep(t: seq<Moment>) {
    forall i :: 0 <= i < |t| ==> t[i].event.Recreating? ==> Keeps(t[i].before, t[i].event)
  }

  ghost predicate AllGuards(t: seq<Moment>) {
    forall i :: 0 <= i < |t| ==> Keeps(t[i].before, t[i].event)
  }

  lemma {:induction false} TraceKeeps(d: Directory, es: seq<Event>)
    ensures AllKeep(d, es) <==> AllGuards(Trace(d, es))
    decreases |es|
  {
    if es != [] {
      var t, rest := Trace(d, es), Trace(Apply(d, es[0]), es[1..]);
      TraceFirst(d, es);
      TraceKeeps(Apply(d, es[0]), es[1..]);
      assert AllGuards(t) <==> Keeps(d, es[0]) && AllGuards(rest) by {
        assert forall i :: 0 < i < |t| ==> t[i] == rest[i - 1];
        assert forall i :: 0 <= i < |rest| ==> rest[i] == t[i + 1];
      }
    }
  }

  ghost predicate GuardsAbout(t: seq<Moment>, id: nat) {
    forall i :: 0 <= i < |t| ==> IsAbout(t[i].event, id) ==> Keeps(t[i].before, t[i].event)
  }

  lemma {:induction false} MessagesKeepAll(t: seq<Moment>, id: nat)
    ensures MessagesKeep(t, id) <==> GuardsAbout(t, id)
    decreases |t|
  {
    if t != [] {
      MessagesKeepAll(t[1..], id);
      assert forall i :: 0 < i < |t| ==> t[i] == t[1..][i - 1];
      assert forall i :: 0 <= i < |t[1..]| ==> t[1..][i] == t[i + 1];
    }
  }

  lemma {:induction false} TraceEvents(d: Directory, es: seq<Event>)
    ensures forall i :: 0 <= i < |es| ==> Trace(d, es)[i].event == es[i]
    decreases |es|
  {
    if es != [] {
      TraceEvents(Apply(d, es[0]), es[1..]);
    }
  }

  lemma {:induction false} NoTakeoverAt(es: seq<Event>)
    ensures NoTakeover(es) <==> forall i :: 0 <= i < |es| ==> !IsTakeover(es[i])
    decreases |es|
  {
    if es != [] {
      NoTakeoverAt(es[1..]);
      assert forall i :: 0 < i < |es| ==> es[i] == es[1..][i - 1];
      assert forall i :: 0 <= i < |es[1..]| ==> es[1..][i] == es[i + 1];
    }
  }

  /** A guard is that of a message, of a recreation or of a takeover, or always holds. */
  lemma GuardsByKind(t: seq<Moment>)
    requires forall i :: 0 <= i < |t| ==> !IsTakeover(t[i].event)
    ensures AllGuards(t) <==> RecreationsKeep(t) && forall id: nat :: GuardsAbout(t, id)
  {
    if RecreationsKeep(t) && forall id: nat :: GuardsAbout(t, id) {
      forall i | 0 <= i < |t| ensures Keeps(t[i].before, t[i].event) {
        var e := t[i].event;
        if e.Message? {
          assert GuardsAbout(t, e.id) && IsAbout(e, e.id);
        }
      }
    }
  }

  lemma GuardsSplit(d: Directory, es: seq<Event>)
    requires NoTakeover(es)
    ensures AllKeep(d, es) <==> RecreationsKeep(Trace(d, es)) && forall id: nat :: GuardsAbout(Trace(d, es), id)
  {
    TraceKeeps(d, es);
    TraceEvents(d, es);
    NoTakeoverAt(es);
    GuardsByKind(Trace(d, es));
  }

  /** No record is in a state that no counter counts. */
  ghost predicate AllCounted(d: Directory) { forall p :: p in d.peers ==> KindOf(p.status) != Outside }

  predicate NoBans(es: seq<Event>)
    decreases |es|
  {
    es == [] || ((es[0].Message? ==> Ignored(es[0].st) || KindOf(es[0].st) != Outside) && NoBans(es[1..]))
  }

  lemma StepCounted(d: Directory, e: Event)
    requires AllCounted(d) && (e.Message? ==> Ignored(e.st) || KindOf(e.st) != Outside)
    ensures AllCounted(Apply(d, e))
  {
    match e
    case Message(_, _, _) =>
    case CleanUp => KeptExactly(d.peers);
    case PurgeAll(_) =>
    case Search(_, _, _, _, _) =>
    case Recreating(client, _, _, _, _, _) => FreshAndStale(d.peers, client);
    case Assigning(_, _, _, _, _, _) =>
  }

  /** Continuing a session on the same port always puts the counters off. */
  lemma {:induction false} TakeoverSpoils(d: Directory, es: seq<Event>)
    requires AllCounted(d) && NoBans(es) && IsRun(d, es) && !NoTakeover(es)
    ensures !AllKeep(d, es)
    decreases |es|
  {
    if IsTakeover(es[0]) {
      assert d.peers[es[0].session.index] in d.peers;
    } else {
      StepCounted(d, es[0]);
      TakeoverSpoils(Apply(d, es[0]), es[1..]);
    }
  }

  /** The messages are what some relay pair posted, in order, as far as they were processed. */
  ghost predicate FromPair(posts: seq<Status>) {
    exists run: seq<RelayRuns.Event> :: posts <= RelayRuns.Run(RelayRuns.BORN, run).pair.posts
  }

  lemma FromPairInOrder(posts: seq<Status>)
    requires FromPair(posts)
    ensures RelayRuns.InOrder(posts)
  {
    var run: seq<RelayRuns.Event> :| posts <= RelayRuns.Run(RelayRuns.BORN, run).pair.posts;
    var all := RelayRuns.Run(RelayRuns.BORN, run).pair.posts;
    RelayRuns.NotificationProtocol(run);
    assert all == posts + all[|posts|..];
    InOrderPrefix(posts, all[|posts|..]);
  }

  /** The pair of the record ended properly, and its record was not listed any more when it
      reported a second end. */
  predicate ReportsWell(d: Directory, es: seq<Event>, id: nat) {
    EndsProperly(Posts(es, id)) && !EndsTwice(Trace(d, es), id, false)
  }

  lemma NewRecordFits(d: Directory, es: seq<Event>, id: nat)
    requires IsNew(d) && IsRun(d, es) && NoTakeover(es) && BornFirst(d, es) && FromPair(Posts(es, id))
    ensures GuardsAbout(Trace(d, es), id) <==> ReportsWell(d, es, id)
  {
    NewListIsExact(d);
    FromPairInOrder(Posts(es, id));
    assert [] + Posts(es, id) == Posts(es, id);
    RecordFits(d, es, id, []);
    MessagesKeepAll(Trace(d, es), id);
  }

  lemma GuardedReportWell(d: Directory, es: seq<Event>)
    requires IsNew(d) && IsRun(d, es) && NoTakeover(es) && BornFirst(d, es)
    requires forall id: nat :: FromPair(Posts(es, id))
    requires forall id: nat :: GuardsAbout(Trace(d, es), id)
    ensures forall id: nat :: ReportsWell(d, es, id)
  {
    forall id: nat ensures ReportsWell(d, es, id) {
      NewRecordFits(d, es, id);
    }
  }

  lemma WellReportedGuarded(d: Directory, es: seq<Event>)
    requires IsNew(d) && IsRun(d, es) && NoTakeover(es) && BornFirst(d, es)
    requires forall id: nat :: FromPair(Posts(es, id))
    requires forall id: nat :: ReportsWell(d, es, id)
    ensures forall id: nat :: GuardsAbout(Trace(d, es), id)
  {
    forall id: nat ensures GuardsAbout(Trace(d, es), id) {
      NewRecordFits(d, es, id);
    }
  }

  /** Over any interleaving on a new list, with the messages of each record those of its
      relay pair, the counters of every server stay exact if and only if no session is
      continued on the same port, every session recreated is on the server of the records it
      replaces, and every pair reports its end well. */
  lemma CountersFollowReports(d: Directory, es: seq<Event>)
    requires IsNew(d) && IsRun(d, es) && NoBans(es) && BornFirst(d, es)
    requires NoTakeover(es) ==> forall id: nat :: FromPair(Posts(es, id))
    ensures AlwaysExact(d, es) <==>
            NoTakeover(es) && RecreationsKeep(Trace(d, es)) && forall id: nat :: ReportsWell(d, es, id)
  {
    NewListIsExact(d);
    CountersStayExact(d, es);
    if NoTakeover(es) {
      GuardsSplit(d, es);
      if AllKeep(d, es) {
        GuardedReportWell(d, es);
      }
      if forall id: nat :: ReportsWell(d, es, id) {
        WellReportedGuarded(d, es);
      }
    } else {
      TakeoverSpoils(d, es);
    }
  }

}
