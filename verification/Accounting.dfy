/** The four counters of every server against the connection records: what each operation
    does to their agreement, over any run and any interleaving. */
module Accounting {
  import opened Lists
  import opened Statuses
  import opened Filters
  import opened Records
  import opened Selection
  import opened Directories

  // ----- what the counters should say -----

  datatype Kind = InProgress | Live | Broken | Over | Outside

  function KindOf(st: Status): Kind {
    match st
    case ConnectingServer => InProgress
    case ConnectingClient => InProgress
    case Established => Live
    case ServerClosed => Over
    case ClientClosed => Over
    case ServerLost => Broken
    case ClientLost => Broken
    case Failed => Broken
    case Kicked => Outside
    case Cancelled => Outside
    case BanThis => Outside
    case BanAll => Outside
  }

  function Hit(p: Peer, ip: Ip, kind: Kind): nat {
    if p.dstIp == ip && KindOf(p.status) == kind then 1 else 0
  }

  /** Records of one kind at one address. */
  function Count(ps: seq<Peer>, ip: Ip, kind: Kind): nat {
    if ps == [] then 0 else Count(ps[..|ps| - 1], ip, kind) + Hit(ps[|ps| - 1], ip, kind)
  }

  ghost predicate Agrees(s: Server, ps: seq<Peer>) {
    && s.connecting == Count(ps, s.ip, InProgress)
    && s.connected == Count(ps, s.ip, Live)
    && s.disconnected == Count(ps, s.ip, Broken)
    && s.finished == Count(ps, s.ip, Over)
  }

  ghost predicate AllAgree(servers: seq<Server>, ps: seq<Peer>) {
    forall i :: 0 <= i < |servers| ==> Agrees(servers[i], ps)
  }

  /** Every counter of every server equals the number of its records of that kind. */
  ghost predicate Exact(d: Directory) { AllAgree(d.servers, d.peers) }

  // ----- what always holds -----

  ghost predicate DistinctAddresses(servers: seq<Server>) {
    forall i, j :: 0 <= i < j < |servers| ==> servers[i].ip != servers[j].ip
  }

  ghost predicate Listed(p: Peer, servers: seq<Server>) {
    exists i :: 0 <= i < |servers| && servers[i].ip == p.dstIp && servers[i].port == p.dstPort
  }

  ghost predicate AllListed(ps: seq<Peer>, servers: seq<Server>) {
    forall p :: p in ps ==> Listed(p, servers)
  }

  ghost predicate SameAddresses(s: seq<Server>, t: seq<Server>) {
    |s| == |t| && forall i :: 0 <= i < |s| ==> s[i].ip == t[i].ip && s[i].port == t[i].port
  }

  ghost predicate WellFormed(d: Directory) {
    && DistinctAddresses(d.servers)
    && AllListed(d.peers, d.servers)
    && (forall p :: p in d.peers ==> p.id < d.nextId)
  }

  // ----- counting -----

  lemma {:induction false} CountConcat(a: seq<Peer>, b: seq<Peer>, ip: Ip, kind: Kind)
    ensures Count(a + b, ip, kind) == Count(a, ip, kind) + Count(b, ip, kind)
  {
    if b == [] {
      assert a + b == a;
    } else {
      assert (a + b)[..|a + b| - 1] == a + b[..|b| - 1];
      CountConcat(a, b[..|b| - 1], ip, kind);
    }
  }

  lemma CountOne(p: Peer, ip: Ip, kind: Kind)
    ensures Count([p], ip, kind) == Hit(p, ip, kind)
  {
    assert [p][..0] == [];
  }

  lemma CountAround(a: seq<Peer>, p: Peer, b: seq<Peer>, ip: Ip, kind: Kind)
    ensures Count(a + [p] + b, ip, kind) == Count(a + b, ip, kind) + Hit(p, ip, kind)
  {
    CountConcat(a + [p], b, ip, kind);
    CountConcat(a, [p], ip, kind);
    CountConcat(a, b, ip, kind);
    CountOne(p, ip, kind);
  }

  lemma CountChanged(ps: seq<Peer>, k: nat, q: Peer, ip: Ip, kind: Kind)
    requires k < |ps|
    ensures Count(ps[k := q], ip, kind) == Count(ps, ip, kind) - Hit(ps[k], ip, kind) + Hit(q, ip, kind)
    ensures Count(Without(ps, k), ip, kind) == Count(ps, ip, kind) - Hit(ps[k], ip, kind)
  {
    CountAround(ps[..k], ps[k], ps[k + 1..], ip, kind);
    CountAround(ps[..k], q, ps[k + 1..], ip, kind);
    assert ps[..k] + [ps[k]] + ps[k + 1..] == ps;
    assert ps[..k] + [q] + ps[k + 1..] == ps[k := q];
  }

  lemma {:induction false} NoneOfKind(ps: seq<Peer>, ip: Ip, kind: Kind)
    requires forall p :: p in ps ==> KindOf(p.status) != kind
    ensures Count(ps, ip, kind) == 0
  {
    if ps != [] {
      assert ps[|ps| - 1] in ps;
      NoneOfKind(ps[..|ps| - 1], ip, kind);
    }
  }

  lemma CountAppended(ps: seq<Peer>, p: Peer, ip: Ip, kind: Kind)
    ensures Count(ps + [p], ip, kind) == Count(ps, ip, kind) + Hit(p, ip, kind)
  {
    CountConcat(ps, [p], ip, kind);
    CountOne(p, ip, kind);
  }

  // ----- messages -----

  function Counter(s: Server, kind: Kind): int {
    match kind
    case InProgress => s.connecting
    case Live => s.connected
    case Broken => s.disconnected
    case Over => s.finished
    case Outside => 0
  }

  predicate Ignored(st: Status) { st.Cancelled? || st.Kicked? }

  /** The state a record is taken to be leaving when the message arrives. */
  function Leaves(st: Status): Kind {
    if st.Established? || st.Failed? then InProgress
    else if IsLost(st) || IsClosed(st) then Live
    else KindOf(st)
  }

  /** The record is in the state it is taken to be leaving; or it is in none that is
      counted, and there is nothing to take from. */
  predicate Fits(s: Server, was: Kind, st: Status) {
    || Ignored(st)
    || was == Leaves(st)
    || (was.Outside? && (IsNotConnected(st) || st.Established?) && Counter(s, Leaves(st)) == 0)
  }

  /** The guard under which delivering a message keeps the counters exact. */
  predicate DeliverFits(d: Directory, id: nat, st: Status) {
    var k := FindPeer(d.peers, id);
    k >= 0 ==>
      var i := FindServer(d.servers, d.peers[k].dstIp, d.peers[k].dstPort);
      i >= 0 ==> Fits(d.servers[i], KindOf(d.peers[k].status), st)
  }

  function Change(was: Kind, becomes: Kind, dropped: bool, kind: Kind): int {
    (if was == kind then -1 else 0) + (if !dropped && becomes == kind then 1 else 0)
  }

  function Becomes(was: Kind, st: Status): Kind { if Ignored(st) then was else KindOf(st) }

  function Replaced(ps: seq<Peer>, k: nat, q: Peer, dropped: bool): seq<Peer>
    requires k < |ps|
  {
    if dropped then Without(ps, k) else ps[k := q]
  }

  /** The record is moved to its new kind, or dropped. */
  lemma ReplacedCounts(ps: seq<Peer>, k: nat, q: Peer, dropped: bool, ip: Ip, kind: Kind)
    requires k < |ps| && q.dstIp == ps[k].dstIp
    ensures ps[k].dstIp == ip ==>
              && Count(ps, ip, kind) >= (if kind == KindOf(ps[k].status) then 1 else 0)
              && Count(Replaced(ps, k, q, dropped), ip, kind) ==
                 Count(ps, ip, kind) + Change(KindOf(ps[k].status), KindOf(q.status), dropped, kind)
    ensures ps[k].dstIp != ip ==> Count(Replaced(ps, k, q, dropped), ip, kind) == Count(ps, ip, kind)
  {
    CountChanged(ps, k, q, ip, kind);
  }

  /** One server before and after a message about one of its records, of kind `was`. */
  ghost predicate Shifted(
    s: Server, before: seq<Peer>, after: seq<Peer>, was: Kind, becomes: Kind, dropped: bool, kind: Kind) {
    && Count(before, s.ip, kind) >= (if kind == was then 1 else 0)
    && Count(after, s.ip, kind) == Count(before, s.ip, kind) + Change(was, becomes, dropped, kind)
  }

  lemma MovedAgrees(s: Server, st: Status, dropped: bool, now: int, was: Kind, before: seq<Peer>, after: seq<Peer>)
    requires Agrees(s, before) && (dropped ==> IsNotConnected(st))
    requires forall kind :: Shifted(s, before, after, was, Becomes(was, st), dropped, kind)
    ensures Agrees(Moved(s, st, dropped, now), after) <==> Fits(s, was, st)
  {
    assert Shifted(s, before, after, was, Becomes(was, st), dropped, InProgress);
    assert Shifted(s, before, after, was, Becomes(was, st), dropped, Live);
    assert Shifted(s, before, after, was, Becomes(was, st), dropped, Broken);
    assert Shifted(s, before, after, was, Becomes(was, st), dropped, Over);
  }

  lemma DeliverExact(d: Directory, id: nat, st: Status, now: int)
    requires WellFormed(d) && Exact(d)
    ensures Exact(Deliver(d, id, st, now)) <==> DeliverFits(d, id, st)
  {
    var k := FindPeer(d.peers, id);
    if k >= 0 {
      var p := d.peers[k];
      var i := FindServer(d.servers, p.dstIp, p.dstPort);
      assert Listed(p, d.servers);
      MessageAgrees(d.servers, d.peers, i, k, st, Drops(d, k, st), now);
    }
  }

  lemma MessageAgrees(servers: seq<Server>, ps: seq<Peer>, i: nat, k: nat, st: Status, dropped: bool, now: int)
    requires DistinctAddresses(servers) && AllAgree(servers, ps)
    requires i < |servers| && k < |ps| && servers[i].ip == ps[k].dstIp && (dropped ==> IsNotConnected(st))
    ensures AllAgree(servers[i := Moved(servers[i], st, dropped, now)],
                     Replaced(ps, k, Marked(ps[k], st, now), dropped))
            <==> Fits(servers[i], KindOf(ps[k].status), st)
  {
    var q, was := Marked(ps[k], st, now), KindOf(ps[k].status);
    var after := Replaced(ps, k, q, dropped);
    assert KindOf(q.status) == Becomes(was, st);
    assert Agrees(servers[i], ps);
    forall kind ensures Shifted(servers[i], ps, after, was, Becomes(was, st), dropped, kind) {
      ReplacedCounts(ps, k, q, dropped, servers[i].ip, kind);
    }
    MovedAgrees(servers[i], st, dropped, now, was, ps, after);
    forall j | 0 <= j < |servers| && j != i ensures Agrees(servers[j], after) {
      assert Agrees(servers[j], ps);
      forall kind ensures Count(after, servers[j].ip, kind) == Count(ps, servers[j].ip, kind) {
        ReplacedCounts(ps, k, q, dropped, servers[j].ip, kind);
      }
    }
    var updated := servers[i := Moved(servers[i], st, dropped, now)];
    assert AllAgree(updated, after) <==> Agrees(updated[i], after);
  }

  /** When the message fits, no counter is held at zero: the one to lower is positive. */
  lemma NeverHeldAtZero(d: Directory, id: nat, st: Status)
    requires WellFormed(d) && Exact(d) && FindPeer(d.peers, id) >= 0
    requires KindOf(d.peers[FindPeer(d.peers, id)].status) == Leaves(st) && !Ignored(st)
    ensures var p := d.peers[FindPeer(d.peers, id)];
            var i := FindServer(d.servers, p.dstIp, p.dstPort);
            i >= 0 && (Leaves(st).Outside? || Counter(d.servers[i], Leaves(st)) > 0)
  {
    var k := FindPeer(d.peers, id);
    var p := d.peers[k];
    assert Listed(p, d.servers);
    assert Agrees(d.servers[FindServer(d.servers, p.dstIp, p.dstPort)], d.peers);
    ReplacedCounts(d.peers, k, p, true, p.dstIp, Leaves(st));
  }

  // ----- cleaning -----

  /** Record `p` at the address is in `before` and not in `after`. */
  ghost predicate Loses(before: seq<Peer>, after: seq<Peer>, ip: Ip, p: Peer, kind: Kind) {
    Count(before, ip, kind) == Count(after, ip, kind) + Hit(p, ip, kind)
  }

  lemma TakenAgrees(s: Server, p: Peer, before: seq<Peer>, after: seq<Peer>)
    requires Agrees(s, before) && IsNotConnected(p.status) && p.dstIp == s.ip
    requires forall kind :: Loses(before, after, s.ip, p, kind)
    ensures Agrees(Taken(s, p), after)
  {
    assert Loses(before, after, s.ip, p, InProgress) && Loses(before, after, s.ip, p, Live);
    assert Loses(before, after, s.ip, p, Broken) && Loses(before, after, s.ip, p, Over);
  }

  lemma LostElsewhere(s: Server, p: Peer, before: seq<Peer>, after: seq<Peer>)
    requires Agrees(s, before) && p.dstIp != s.ip
    requires forall kind :: Loses(before, after, s.ip, p, kind)
    ensures Agrees(s, after)
  {
    assert Loses(before, after, s.ip, p, InProgress) && Loses(before, after, s.ip, p, Live);
    assert Loses(before, after, s.ip, p, Broken) && Loses(before, after, s.ip, p, Over);
  }

  lemma UncountOne(servers: seq<Server>, a: seq<Peer>, p: Peer, b: seq<Peer>)
    requires DistinctAddresses(servers) && AllAgree(servers, a + [p] + b)
    requires IsNotConnected(p.status) && Listed(p, servers)
    ensures AllAgree(Uncount(servers, p), a + b) && SameAddresses(servers, Uncount(servers, p))
  {
    var i := FirstAt(servers, p.dstIp);
    var r := Uncount(servers, p);
    forall j | 0 <= j < |servers| ensures Agrees(r[j], a + b) {
      var s := servers[j];
      assert Agrees(s, a + [p] + b);
      forall kind ensures Loses(a + [p] + b, a + b, s.ip, p, kind) {
        CountAround(a, p, b, s.ip, kind);
      }
      if j == i {
        TakenAgrees(s, p, a + [p] + b, a + b);
      } else {
        LostElsewhere(s, p, a + [p] + b, a + b);
      }
    }
  }

  lemma {:induction false} UncountPrefix(servers: seq<Server>, ps: seq<Peer>, rest: seq<Peer>)
    requires DistinctAddresses(servers) && AllListed(ps, servers) && AllAgree(servers, ps + rest)
    ensures var r := UncountAll(servers, ps);
            SameAddresses(servers, r) && AllAgree(r, Kept(ps) + rest)
    decreases |ps|
  {
    if ps == [] {
      assert ps + rest == rest == Kept(ps) + rest;
    } else {
      var init, p := ps[..|ps| - 1], ps[|ps| - 1];
      assert init + ([p] + rest) == ps + rest;
      UncountPrefix(servers, init, [p] + rest);
      var r := UncountAll(servers, init);
      assert Kept(init) + ([p] + rest) == Kept(init) + [p] + rest;
      if IsNotConnected(p.status) {
        assert Listed(p, servers) && Listed(p, r);
        assert Kept(ps) == Kept(init);
        UncountOne(r, Kept(init), p, rest);
      } else {
        assert Kept(ps) == Kept(init) + [p];
      }
    }
  }

  lemma KeptExactly(ps: seq<Peer>)
    ensures forall p :: p in Kept(ps) <==> p in ps && !IsNotConnected(p.status)
  {
    SelectExactly(ps, IsKept);
  }

  /** Cleaning removes exactly the records that are not connected, and keeps exact
      counters exact. */
  lemma CleanExact(d: Directory)
    requires WellFormed(d) && Exact(d)
    ensures Exact(Clean(d)) && SameAddresses(d.servers, Clean(d).servers)
    ensures forall p :: p in Clean(d).peers <==> p in d.peers && !IsNotConnected(p.status)
  {
    assert d.peers + [] == d.peers && Kept(d.peers) + [] == Kept(d.peers);
    UncountPrefix(d.servers, d.peers, []);
    KeptExactly(d.peers);
  }

  predicate IsDropped(p: Peer) { IsNotConnected(p.status) }

  /** The records that ended are those dropped. */
  lemma DroppedCount(ps: seq<Peer>, ip: Ip, kind: Kind)
    requires kind == Broken || kind == Over
    ensures Count(Select(ps, IsDropped), ip, kind) == Count(ps, ip, kind) && Count(Kept(ps), ip, kind) == 0
  {
    SplitCounts(ps, IsKept, IsDropped, ip, kind);
    SelectExactly(ps, IsKept);
    NoneOfKind(Kept(ps), ip, kind);
  }

  lemma KeptCount(ps: seq<Peer>, ip: Ip, kind: Kind)
    requires kind == InProgress || kind == Live
    ensures Count(Kept(ps), ip, kind) == Count(ps, ip, kind)
  {
    SplitCounts(ps, IsKept, IsDropped, ip, kind);
    SelectExactly(ps, IsDropped);
    NoneOfKind(Select(ps, IsDropped), ip, kind);
  }

  /** Cleaning takes exactly the dropped records from the counters of each server: again none
      is held at zero. */
  lemma CleanNeverHeldAtZero(d: Directory, i: nat)
    requires WellFormed(d) && Exact(d) && i < |d.servers|
    ensures var s, t, dropped := d.servers[i], Clean(d).servers[i], Select(d.peers, IsDropped);
            && t.connecting == s.connecting && t.connected == s.connected
            && t.disconnected == s.disconnected - Count(dropped, s.ip, Broken) == 0
            && t.finished == s.finished - Count(dropped, s.ip, Over) == 0
  {
    var ip := d.servers[i].ip;
    CleanExact(d);
    assert Agrees(d.servers[i], d.peers) && Agrees(Clean(d).servers[i], Kept(d.peers));
    DroppedCount(d.peers, ip, Broken);
    DroppedCount(d.peers, ip, Over);
    KeptCount(d.peers, ip, InProgress);
    KeptCount(d.peers, ip, Live);
  }

  // ----- sessions -----

  /** Taking over a record keeps the counters exact only if the record was in no counted
      state: its old state is never given back. */
  predicate ReuseFits(d: Directory, index: nat) {
    index < |d.peers| ==> KindOf(d.peers[index].status) == Outside
  }

  lemma ReuseExact(d: Directory, client: Ip, port: int, now: int, manager: nat, s: Session)
    requires WellFormed(d) && Exact(d) && IsSession(d, client, port, now, s) && s.Reuse?
    ensures Exact(AfterSearch(d, port, now, manager, s)) <==> ReuseFits(d, s.index)
  {
    var k, i := s.index, s.server;
    var p := d.peers[k];
    var q, was := Reused(p, port, now, manager), KindOf(p.status);
    var servers := d.servers[i := Connecting(d.servers[i])];
    var after := d.peers[k := q];
    assert after == Replaced(d.peers, k, q, false);
    forall j | 0 <= j < |d.servers|
      ensures Agrees(servers[j], after) <==> d.servers[j].ip != p.dstIp || was == Outside
    {
      assert Agrees(d.servers[j], d.peers);
      ReplacedCounts(d.peers, k, q, false, d.servers[j].ip, InProgress);
      ReplacedCounts(d.peers, k, q, false, d.servers[j].ip, Live);
      ReplacedCounts(d.peers, k, q, false, d.servers[j].ip, Broken);
      ReplacedCounts(d.peers, k, q, false, d.servers[j].ip, Over);
    }
    assert servers[i].ip == p.dstIp;
  }

  /** One more record on a list of selected ones. */
  lemma SelectedCount(ps: seq<Peer>, f: Peer -> bool, ip: Ip, kind: Kind)
    requires ps != []
    ensures var init, p := ps[..|ps| - 1], ps[|ps| - 1];
            Count(Select(ps, f), ip, kind) == Count(Select(init, f), ip, kind) + if f(p) then Hit(p, ip, kind) else 0
  {
    var init, p := ps[..|ps| - 1], ps[|ps| - 1];
    if f(p) {
      CountAppended(Select(init, f), p, ip, kind);
    } else {
      assert Select(ps, f) == Select(init, f);
    }
  }

  lemma {:induction false} SplitCounts(ps: seq<Peer>, f: Peer -> bool, g: Peer -> bool, ip: Ip, kind: Kind)
    requires forall p :: g(p) <==> !f(p)
    ensures Count(ps, ip, kind) == Count(Select(ps, f), ip, kind) + Count(Select(ps, g), ip, kind)
  {
    if ps != [] {
      SplitCounts(ps[..|ps| - 1], f, g, ip, kind);
      SelectedCount(ps, f, ip, kind);
      SelectedCount(ps, g, ip, kind);
    }
  }

  /** The records of a client that are dropped when its session is recreated. */
  lemma FreshAndStale(ps: seq<Peer>, client: Ip)
    ensures forall ip, kind ::
              Count(ps, ip, kind) == Count(Fresh(ps, client), ip, kind) + Count(Stale(ps, client), ip, kind)
    ensures forall p :: p in Fresh(ps, client) <==> p in ps && !IsStale(p, client)
    ensures forall p :: p in Stale(ps, client) <==> p in ps && IsStale(p, client)
  {
    SelectExactly(ps, FreshFor(client));
    SelectExactly(ps, StaleFor(client));
    forall ip, kind
      ensures Count(ps, ip, kind) == Count(Fresh(ps, client), ip, kind) + Count(Stale(ps, client), ip, kind)
    {
      SplitCounts(ps, FreshFor(client), StaleFor(client), ip, kind);
    }
  }

  /** Records that are not connected and all at one address. */
  lemma {:induction false} AllAtOne(ps: seq<Peer>, ip: Ip)
    requires forall p :: p in ps ==> p.dstIp == ip && IsNotConnected(p.status)
    ensures Count(ps, ip, Broken) == BrokenIn(ps) && Count(ps, ip, Over) == OverIn(ps)
    ensures Count(ps, ip, InProgress) == 0 && Count(ps, ip, Live) == 0
    ensures forall other, kind :: other != ip ==> Count(ps, other, kind) == 0
  {
    if ps != [] {
      var init, p := ps[..|ps| - 1], ps[|ps| - 1];
      assert p in ps;
      AllAtOne(init, ip);
    }
  }

  /** The guard under which recreating a session keeps the counters exact: the record
      chosen and every dropped record of the client are on the server charged with them. */
  predicate RecreateFits(d: Directory, client: Ip, index: int, server: int) {
    CanRecreate(d, client, index) ==>
      && 0 <= server < |d.servers| && d.servers[server].ip == d.peers[index].dstIp
      && forall p :: p in Stale(d.peers, client) ==> p.dstIp == d.servers[server].ip
  }

  /** `after` is `ps` without the stale records and with a new one at `home`. */
  ghost predicate Rebuilt(ps: seq<Peer>, stale: seq<Peer>, after: seq<Peer>, home: Ip) {
    forall ip, kind :: Count(after, ip, kind) ==
      Count(ps, ip, kind) - Count(stale, ip, kind) + if home == ip && kind == InProgress then 1 else 0
  }

  lemma FreshCount(ps: seq<Peer>, client: Ip, p: Peer, ip: Ip, kind: Kind)
    ensures Count(Fresh(ps, client) + [p], ip, kind) ==
            Count(ps, ip, kind) - Count(Stale(ps, client), ip, kind) + Hit(p, ip, kind)
  {
    CountAppended(Fresh(ps, client), p, ip, kind);
    FreshAndStale(ps, client);
  }

  lemma RecreateRebuilds(ps: seq<Peer>, client: Ip, p: Peer)
    requires p.status == ConnectingServer
    ensures Rebuilt(ps, Stale(ps, client), Fresh(ps, client) + [p], p.dstIp)
  {
    var after := Fresh(ps, client) + [p];
    forall ip, kind
      ensures Count(after, ip, kind) == Count(ps, ip, kind) - Count(Stale(ps, client), ip, kind)
                                        + if p.dstIp == ip && kind == InProgress then 1 else 0
    {
      FreshCount(ps, client, p, ip, kind);
    }
  }

  lemma ChargedAgrees(s: Server, ps: seq<Peer>, stale: seq<Peer>, after: seq<Peer>)
    requires Agrees(s, ps) && Rebuilt(ps, stale, after, s.ip)
    requires forall p :: p in stale ==> p.dstIp == s.ip && IsNotConnected(p.status)
    ensures Agrees(Recharged(s, stale), after)
  {
    AllAtOne(stale, s.ip);
    assert Count(after, s.ip, InProgress) == Count(ps, s.ip, InProgress) + 1;
    assert Count(after, s.ip, Live) == Count(ps, s.ip, Live);
    assert Count(after, s.ip, Broken) == Count(ps, s.ip, Broken) - BrokenIn(stale);
    assert Count(after, s.ip, Over) == Count(ps, s.ip, Over) - OverIn(stale);
  }

  lemma SpareAgrees(s: Server, ps: seq<Peer>, stale: seq<Peer>, after: seq<Peer>, home: Ip)
    requires Agrees(s, ps) && Rebuilt(ps, stale, after, home) && s.ip != home
    requires forall p :: p in stale ==> p.dstIp == home && IsNotConnected(p.status)
    ensures Agrees(s, after)
  {
    AllAtOne(stale, home);
  }

  lemma RecreateSuffices(d: Directory, client: Ip, port: int, index: int, server: int, now: int, manager: nat)
    requires WellFormed(d) && Exact(d) && CanRecreate(d, client, index) && RecreateFits(d, client, index, server)
    ensures Exact(RecreateSession(d, client, port, index, server, now, manager))
  {
    var e := RecreateSession(d, client, port, index, server, now, manager);
    FreshAndStale(d.peers, client);
    RecreateRebuilds(d.peers, client, e.peers[|e.peers| - 1]);
    forall j | 0 <= j < |d.servers| ensures Agrees(e.servers[j], e.peers) {
      assert Agrees(d.servers[j], d.peers);
      if j == server {
        ChargedAgrees(d.servers[j], d.peers, Stale(d.peers, client), e.peers);
      } else {
        SpareAgrees(d.servers[j], d.peers, Stale(d.peers, client), e.peers, d.servers[server].ip);
      }
    }
  }

  /** The server charged with the pruned records has at least as many, so that pruning holds
      no counter at zero either. */
  lemma PruneNeverHeldAtZero(d: Directory, client: Ip, index: int, server: nat)
    requires WellFormed(d) && Exact(d) && CanRecreate(d, client, index) && RecreateFits(d, client, index, server)
    ensures var s, stale := d.servers[server], Stale(d.peers, client);
            && s.disconnected >= BrokenIn(stale) && s.finished >= OverIn(stale)
            && Charged(s, stale).disconnected == s.disconnected - BrokenIn(stale)
            && Charged(s, stale).finished == s.finished - OverIn(stale)
  {
    var s, stale := d.servers[server], Stale(d.peers, client);
    FreshAndStale(d.peers, client);
    AllAtOne(stale, s.ip);
    assert Agrees(s, d.peers);
    assert Count(d.peers, s.ip, Broken) >= Count(stale, s.ip, Broken);
    assert Count(d.peers, s.ip, Over) >= Count(stale, s.ip, Over);
  }

  /** A server that agrees before and after without being charged is not the new record's. */
  lemma NotHome(s: Server, ps: seq<Peer>, stale: seq<Peer>, after: seq<Peer>)
    requires Agrees(s, ps) && Rebuilt(ps, stale, after, s.ip) && forall p :: p in stale ==> IsNotConnected(p.status)
    ensures !Agrees(s, after)
  {
    NoneOfKind(stale, s.ip, InProgress);
    assert Count(after, s.ip, InProgress) == Count(ps, s.ip, InProgress) + 1;
  }

  /** Nor does it lose a record. */
  lemma NotDropped(s: Server, ps: seq<Peer>, stale: seq<Peer>, after: seq<Peer>, home: Ip, m: nat)
    requires Agrees(s, ps) && Rebuilt(ps, stale, after, home) && forall p :: p in stale ==> IsNotConnected(p.status)
    requires m < |stale| && stale[m].dstIp == s.ip
    ensures !Agrees(s, after)
  {
    var kind := KindOf(stale[m].status);
    assert stale[m] in stale;
    ReplacedCounts(stale, m, stale[m], true, s.ip, kind);
    assert Count(after, s.ip, kind) == Count(ps, s.ip, kind) - Count(stale, s.ip, kind);
  }

  /** A dropped record elsewhere, or a session on another server, leaves some counter off. */
  lemma RecreateNeeds(d: Directory, client: Ip, port: int, index: int, server: int, now: int, manager: nat)
    requires WellFormed(d) && Exact(d) && CanRecreate(d, client, index)
    requires Exact(RecreateSession(d, client, port, index, server, now, manager))
    ensures RecreateFits(d, client, index, server)
  {
    var e := RecreateSession(d, client, port, index, server, now, manager);
    var stale, home := Stale(d.peers, client), d.peers[index].dstIp;
    FreshAndStale(d.peers, client);
    RecreateRebuilds(d.peers, client, e.peers[|e.peers| - 1]);
    assert Listed(d.peers[index], d.servers);
    forall j | 0 <= j < |d.servers| && j != server
      ensures d.servers[j].ip != home && forall m :: 0 <= m < |stale| ==> stale[m].dstIp != d.servers[j].ip
    {
      assert Agrees(d.servers[j], d.peers) && Agrees(e.servers[j], e.peers);
      if d.servers[j].ip == home {
        NotHome(d.servers[j], d.peers, stale, e.peers);
      }
      forall m | 0 <= m < |stale| ensures stale[m].dstIp != d.servers[j].ip {
        if stale[m].dstIp == d.servers[j].ip {
          NotDropped(d.servers[j], d.peers, stale, e.peers, home, m);
        }
      }
    }
    forall p | p in stale ensures p.dstIp == d.servers[server].ip {
      assert Listed(p, d.servers);
    }
  }

  // ----- assigning -----

  lemma AssignExact(d: Directory, client: Ip, port: int, now: int, manager: nat, found: bool, place: nat)
    requires WellFormed(d) && Exact(d) && place < |d.servers|
    ensures Exact(Assign(d, client, port, now, manager, found, place))
  {
    if found {
      var e := Assign(d, client, port, now, manager, found, place);
      var i := At(ScanStartAt(d), place, |d.servers|);
      var p := e.peers[|d.peers|];
      forall j | 0 <= j < |d.servers| ensures Agrees(e.servers[j], e.peers) {
        assert Agrees(d.servers[j], d.peers);
        forall kind
          ensures Count(e.peers, d.servers[j].ip, kind) ==
                  Count(d.peers, d.servers[j].ip, kind) + Hit(p, d.servers[j].ip, kind)
        {
          CountAppended(d.peers, p, d.servers[j].ip, kind);
        }
      }
    }
  }

}
