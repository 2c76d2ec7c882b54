/** Which sessions may be continued, which records are kept and what a served client gets, said
    in terms of the records and the servers themselves. */
module RecordRules {
  import opened Statuses
  import opened Filters
  import opened Records
  import opened Selection
  import opened Directories
  import opened Accounting
  import opened AccountingRuns
  import opened RecordRuns

  // ----- sessions -----

  /** A record is a session of the client that may be continued when it did not fail and its
      server has not failed less than the retry time ago. */
  lemma EligibleMeans(d: Directory, client: Ip, port: int, now: int, k: nat)
    requires WellFormed(d) && k < |d.peers|
    ensures var p := d.peers[k];
            && (Eligible(d, client, now, k) <==>
                  && p.srcIp == client && p.status != Failed
                  && forall s :: s in d.servers && s.ip == p.dstIp && s.lastFailed ==> now >= s.lastAttempt + d.retry)
            && (PortMatch(d, client, port, now, k) <==> Eligible(d, client, now, k) && p.srcPort == port)
  {
    var p := d.peers[k];
    assert p in d.peers && Listed(p, d.servers);
    var i := LastAt(d.servers, p.dstIp);
    assert d.servers[i] in d.servers;
    forall s | s in d.servers && s.ip == p.dstIp ensures s == d.servers[i] {
      var j :| 0 <= j < |d.servers| && d.servers[j] == s;
    }
  }

  // ----- records that end -----

  /** When a connection ends its record stays exactly if its client has no other connection
      under way and no purge came after it was made. */
  lemma EndedRecordStays(d: Directory, id: nat, st: Status, now: int)
    requires Sane(d) && FindPeer(d.peers, id) >= 0 && IsNotConnected(st)
    ensures var p := d.peers[FindPeer(d.peers, id)];
            StatusOf(Deliver(d, id, st, now), id) ==
            if p.created >= d.lastCleanup
               && (forall q :: q in d.peers && q.id != id && q.srcIp == p.srcIp ==> IsNotConnected(q.status))
            then Some(st) else None
  {
    var k := FindPeer(d.peers, id);
    assert d.peers[k] in d.peers && Listed(d.peers[k], d.servers);
    OthersById(d.peers, k);
    StatusAfterEnd(d, k, Deliver(d, id, st, now), st, now);
  }

  lemma StatusAfterEnd(d: Directory, k: nat, e: Directory, st: Status, now: int)
    requires UniqueIds(d.peers) && k < |d.peers| && IsNotConnected(st)
    requires e.peers == if Drops(d, k, st) then Without(d.peers, k) else d.peers[k := Marked(d.peers[k], st, now)]
    ensures StatusOf(e, d.peers[k].id) == if Drops(d, k, st) then None else Some(st)
  {
    ChangedAt(d.peers, k, Marked(d.peers[k], st, now));
    if Drops(d, k, st) {
      assert forall q :: q in e.peers ==> q.id != d.peers[k].id;
    } else {
      StatusIs(e, d.peers[k].id, k);
    }
  }

  lemma OthersById(peers: seq<Peer>, k: nat)
    requires UniqueIds(peers) && k < |peers|
    ensures OtherConnected(peers, k) <==>
            exists q :: q in peers && q.id != peers[k].id && q.srcIp == peers[k].srcIp && !IsNotConnected(q.status)
  {
    if OtherConnected(peers, k) {
      var j :| 0 <= j < |peers| && j != k && !IsNotConnected(peers[j].status) && peers[j].srcIp == peers[k].srcIp;
      assert peers[j] in peers;
    }
  }

  /** A record made before a purge goes when its connection ends after it. */
  lemma PurgedRecordsGo(d: Directory, id: nat, purged: int, st: Status, now: int)
    requires Sane(d) && FindPeer(d.peers, id) >= 0 && IsNotConnected(st)
    requires d.peers[FindPeer(d.peers, id)].created < purged
    ensures StatusOf(Apply(Apply(d, PurgeAll(purged)), Message(id, st, now)), id) == None
  {
    EndedRecordStays(Apply(d, PurgeAll(purged)), id, st, now);
  }

  /** Any message but a cancellation or a kick is noted in its record, with the time. */
  lemma MessageIsNoted(d: Directory, id: nat, st: Status, now: int)
    requires UniqueIds(d.peers) && FindPeer(d.peers, id) >= 0
    ensures var k := FindPeer(d.peers, id);
            var e := Deliver(d, id, st, now);
            StatusOf(e, id).Some? && k < |e.peers| && e.peers[k].id == id ==>
              var p := d.peers[k];
              e.peers[k] == if st == Cancelled || st == Kicked then p else p.(status := st, modified := now)
  {
  }

  // ----- clients that are served -----

  /** Whichever way a client is served, it gets a record of its own address and port, marked
      as connecting now by this manager, that is in the list and on a listed server that the
      rules allow it. */
  lemma ServedClientGets(d: Directory, client: Ip, port: int, now: int, manager: nat, e: Directory, r: Option<Peer>)
    requires WellFormed(d) && FilterSafe(d) && Serves(d, client, port, now, manager, e, r) && r.Some?
    ensures var p := r.value;
            && p in e.peers && p.srcIp == client && p.srcPort == port && p.status == ConnectingServer
            && p.modified == now && p.manager == manager
            && Listed(p, d.servers) && Allowed(d.rules, p.dstIp, client)
            && (if p.id >= d.nextId then p.id == d.nextId && p.created == now
                else exists q :: q in d.peers && q.id == p.id && q.created == p.created && q.dstIp == p.dstIp)
  {
    var s: Session :| IsSession(d, client, port, now, s) && ServesAs(d, client, port, now, manager, e, r, s);
    if s.NoSession? {
      var found: bool, place: nat :|
        IsPick(d, client, now, found, place) && e == Assign(d, client, port, now, manager, found, place)
        && (if found then |e.peers| > 0 && r == Some(e.peers[|e.peers| - 1]) else r == None);
      WinnerIsOptimal(Candidates(d, client, now), place);
    } else {
      assert d.peers[s.index] in d.peers;
    }
  }

}
