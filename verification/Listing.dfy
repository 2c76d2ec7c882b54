/** The connection listing of the administration pages: filtering, and insertion into a
    sorted copy by one of five keys in either direction. */
module Listing {
  import opened Lists
  import opened Statuses
  import opened Filters
  import opened Records

  /** `OtherKey` is any other value of the sort parameter. */
  datatype SortKey = BySource | ByDestination | ByStatus | ByModified | ByCreation | OtherKey

  datatype Filter = Filter(srcIp: Option<Ip>, srcPort: int, dstIp: Option<Ip>, dstPort: int, status: bv32)

  predicate Passes(f: Filter, p: Peer) {
    && (f.srcIp.Some? ==> p.srcIp == f.srcIp.value) && (f.srcPort != 0 ==> p.srcPort == f.srcPort)
    && (f.dstIp.Some? ==> p.dstIp == f.dstIp.value) && (f.dstPort != 0 ==> p.dstPort == f.dstPort)
    && (f.status != 0 ==> Bits(p.status) as bv32 & f.status != 0)
  }

  function Filtered(peers: seq<Peer>, f: Filter): seq<Peer> { Select(peers, (p: Peer) => Passes(f, p)) }

  const ANY := Filter(None, 0, None, 0, 0)

  /** A filter passes the records that meet each of its criteria: an address, a port and a
      bit of the status; what is not given is not asked for. */
  lemma FilterCriteria(f: Filter, p: Peer)
    ensures Passes(ANY, p)
    ensures forall ip :: Passes(ANY.(srcIp := Some(ip)), p) <==> p.srcIp == ip
    ensures forall ip :: Passes(ANY.(dstIp := Some(ip)), p) <==> p.dstIp == ip
    ensures forall port :: port != 0 ==> (Passes(ANY.(srcPort := port), p) <==> p.srcPort == port)
    ensures forall port :: port != 0 ==> (Passes(ANY.(dstPort := port), p) <==> p.dstPort == port)
    ensures Passes(f, p) <==>
            && Passes(ANY.(srcIp := f.srcIp), p) && Passes(ANY.(srcPort := f.srcPort), p)
            && Passes(ANY.(dstIp := f.dstIp), p) && Passes(ANY.(dstPort := f.dstPort), p)
            && Passes(ANY.(status := f.status), p)
  {
  }

  /** By status it passes the records that have one of the bits asked for, a record's own
      among them. */
  lemma StatusCriterion(bits: bv32, p: Peer)
    requires bits != 0
    ensures Passes(ANY.(status := bits), p) <==> Bits(p.status) as bv32 & bits != 0
    ensures Passes(ANY.(status := Bits(p.status) as bv32), p)
  {
    var own := Bits(p.status) as bv32;
    assert own & own == own;
  }

  // ----- comparing -----

  predicate IpLess(x: Ip, y: Ip) {
    x.a < y.a || (x.a == y.a && (x.b < y.b || (x.b == y.b && (x.c < y.c || (x.c == y.c && x.d < y.d)))))
  }

  method IpLessThan(x: Ip, y: Ip) returns (less: bool)
    ensures less == IpLess(x, y)
  {
    less := false;
    var i := 0;
    while i < 4
      invariant 0 <= i <= 5
      invariant i < 5 ==> !less && forall j :: 0 <= j < i ==> OctetAt(x, j) == OctetAt(y, j)
      invariant i == 5 ==> less == IpLess(x, y)
    {
      assert i > 0 ==> OctetAt(x, 0) == OctetAt(y, 0);
      assert i > 1 ==> OctetAt(x, 1) == OctetAt(y, 1);
      assert i > 2 ==> OctetAt(x, 2) == OctetAt(y, 2);
      if OctetAt(x, i) > OctetAt(y, i) {
        i := 4;
      } else if OctetAt(x, i) < OctetAt(y, i) {
        less := true;
        i := 4;
      }
      i := i + 1;
    }
    assert i == 4 ==> OctetAt(x, 0) == OctetAt(y, 0) && OctetAt(x, 1) == OctetAt(y, 1)
                      && OctetAt(x, 2) == OctetAt(y, 2) && OctetAt(x, 3) == OctetAt(y, 3);
  }

  /** Addresses are compared as 32-bit numbers. */
  lemma IpLessIsNumeric(x: Ip, y: Ip)
    ensures IpLess(x, y) <==> Value(x) < Value(y)
    ensures x == y <==> Value(x) == Value(y)
  {
  }

  /** The strict order of a key. */
  predicate KeyLess(key: SortKey, p: Peer, q: Peer) {
    match key
    case BySource => IpLess(p.srcIp, q.srcIp) || (p.srcIp == q.srcIp && p.srcPort < q.srcPort)
    case ByDestination => IpLess(p.dstIp, q.dstIp) || (p.dstIp == q.dstIp && p.dstPort < q.dstPort)
    case ByStatus => Code(p.status) < Code(q.status)
    case ByModified => p.modified < q.modified
    case ByCreation => p.created < q.created
    case OtherKey => false
  }

  /** The number by which a key sorts. */
  function Rank(key: SortKey, p: Peer): int {
    match key
    case BySource => Value(p.srcIp) * 0x1_0000 + p.srcPort
    case ByDestination => Value(p.dstIp) * 0x1_0000 + p.dstPort
    case ByStatus => Code(p.status)
    case ByModified => p.modified
    case ByCreation => p.created
    case OtherKey => 0
  }

  /** Keys sort by number: addresses and, on the same address, ports as one 48-bit number. */
  lemma KeyIsNumeric(key: SortKey, p: Peer, q: Peer)
    requires 0 <= p.srcPort < 0x1_0000 && 0 <= q.srcPort < 0x1_0000
    requires 0 <= p.dstPort < 0x1_0000 && 0 <= q.dstPort < 0x1_0000
    ensures KeyLess(key, p, q) <==> Rank(key, p) < Rank(key, q)
  {
    IpLessIsNumeric(p.srcIp, q.srcIp);
    IpLessIsNumeric(p.dstIp, q.dstIp);
  }

  lemma KeyOrder(key: SortKey, p: Peer, q: Peer, r: Peer)
    ensures KeyLess(key, p, q) ==> !KeyLess(key, q, p)
    ensures !KeyLess(key, p, q) && !KeyLess(key, q, r) ==> !KeyLess(key, p, r)
  {
  }

  /** Whether the listing grows upward in its key: the column of modification times shows
      durations, so ascending there means latest first. */
  predicate Upward(key: SortKey, ascending: bool) { if key.ByModified? then !ascending else ascending }

  /** The ten comparisons of the source: whether `p` is inserted before `q`. */
  predicate GoesBefore(key: SortKey, ascending: bool, p: Peer, q: Peer) {
    if ascending then
      match key
      case BySource => IpLess(p.srcIp, q.srcIp) || (p.srcIp == q.srcIp && p.srcPort < q.srcPort)
      case ByDestination => IpLess(p.dstIp, q.dstIp) || (p.dstIp == q.dstIp && p.dstPort < q.dstPort)
      case ByStatus => Code(p.status) < Code(q.status)
      case ByModified => p.modified >= q.modified
      case ByCreation => p.created < q.created
      case OtherKey => false
    else
      match key
      case BySource =>
        (!IpLess(p.srcIp, q.srcIp) && p.srcIp != q.srcIp) || (p.srcIp == q.srcIp && p.srcPort >= q.srcPort)
      case ByDestination =>
        (!IpLess(p.dstIp, q.dstIp) && p.dstIp != q.dstIp) || (p.dstIp == q.dstIp && p.dstPort >= q.dstPort)
      case ByStatus => Code(p.status) >= Code(q.status)
      case ByModified => p.modified < q.modified
      case ByCreation => p.created >= q.created
      case OtherKey => false
  }

  /** For the five keys the two directions are opposite, ties included. */
  lemma TwoDirections(key: SortKey, ascending: bool, p: Peer, q: Peer)
    requires !key.OtherKey?
    ensures GoesBefore(key, ascending, p, q) <==>
            if Upward(key, ascending) then KeyLess(key, p, q) else !KeyLess(key, p, q)
    ensures GoesBefore(key, ascending, p, q) <==> !GoesBefore(key, !ascending, p, q)
  {
  }

  // ----- inserting -----

  /** The place of `p`: before the first entry it goes before, or at the end. */
  function Place(list: seq<Peer>, key: SortKey, ascending: bool, p: Peer): (k: nat)
    ensures k <= |list|
    ensures forall j :: 0 <= j < k ==> !GoesBefore(key, ascending, p, list[j])
    ensures k < |list| ==> GoesBefore(key, ascending, p, list[k])
  {
    if list == [] || GoesBefore(key, ascending, p, list[0]) then 0 else 1 + Place(list[1..], key, ascending, p)
  }

  lemma PlaceIs(list: seq<Peer>, key: SortKey, ascending: bool, p: Peer, k: nat)
    requires k <= |list| && forall j :: 0 <= j < k ==> !GoesBefore(key, ascending, p, list[j])
    requires k < |list| ==> GoesBefore(key, ascending, p, list[k])
    ensures Place(list, key, ascending, p) == k
  {
    var m := Place(list, key, ascending, p);
    assert !(m < k) && !(k < m);
  }

  function Insert(list: seq<Peer>, key: SortKey, ascending: bool, p: Peer): seq<Peer> {
    InsertAt(list, Place(list, key, ascending, p), p)
  }

  function Listed(ps: seq<Peer>, key: SortKey, ascending: bool): seq<Peer> {
    if ps == [] then [] else Insert(Listed(ps[..|ps| - 1], key, ascending), key, ascending, ps[|ps| - 1])
  }

  /** The inner loop: walks the list until `p` goes before an entry. */
  method FindPlace(list: seq<Peer>, key: SortKey, ascending: bool, p: Peer) returns (k: nat)
    ensures k == Place(list, key, ascending, p)
  {
    var j := 0;
    var here := false;
    while j < |list| && !here
      invariant 0 <= j <= |list| && (here ==> j > 0)
      invariant forall i :: 0 <= i < (if here then j - 1 else j) ==> !GoesBefore(key, ascending, p, list[i])
      invariant here ==> GoesBefore(key, ascending, p, list[j - 1])
    {
      here := GoesBefore(key, ascending, p, list[j]);
      j := j + 1;
    }
    k := if here then j - 1 else j;
    PlaceIs(list, key, ascending, p, k);
  }

  /** The listing: each passing record is inserted into the new list. */
  method List(peers: seq<Peer>, f: Filter, key: SortKey, ascending: bool) returns (list: seq<Peer>)
    ensures list == Listed(Filtered(peers, f), key, ascending)
  {
    list := [];
    ghost var passed: seq<Peer> := [];
    var i := 0;
    while i < |peers|
      invariant 0 <= i <= |peers|
      invariant passed == Filtered(peers[..i], f) && list == Listed(passed, key, ascending)
    {
      assert peers[..i + 1][..i] == peers[..i];
      if Passes(f, peers[i]) {
        var k := FindPlace(list, key, ascending, peers[i]);
        list := InsertAt(list, k, peers[i]);
        passed := passed + [peers[i]];
      }
      i := i + 1;
    }
    assert peers[..i] == peers;
  }

  // ----- what the listing is -----

  lemma {:induction false} FilteredExactly(peers: seq<Peer>, f: Filter)
    ensures forall p :: multiset(Filtered(peers, f))[p] == if Passes(f, p) then multiset(peers)[p] else 0
  {
    if peers != [] {
      var init, last := peers[..|peers| - 1], peers[|peers| - 1];
      assert peers == init + [last];
      FilteredExactly(init, f);
      assert Filtered(init, f) + [] == Filtered(init, f);
    }
  }

  lemma {:induction false} ListedPermutes(ps: seq<Peer>, key: SortKey, ascending: bool)
    ensures multiset(Listed(ps, key, ascending)) == multiset(ps)
  {
    if ps != [] {
      var init, p := ps[..|ps| - 1], ps[|ps| - 1];
      var list := Listed(init, key, ascending);
      ListedPermutes(init, key, ascending);
      InsertPermutes(list, Place(list, key, ascending, p), p);
      assert ps == init + [p];
    }
  }

  /** Exactly the passing records are listed, each as often as it is recorded. */
  lemma ListingIsPermutation(peers: seq<Peer>, f: Filter, key: SortKey, ascending: bool)
    ensures forall p :: multiset(Listed(Filtered(peers, f), key, ascending))[p] ==
                        if Passes(f, p) then multiset(peers)[p] else 0
  {
    FilteredExactly(peers, f);
    ListedPermutes(Filtered(peers, f), key, ascending);
  }

  ghost predicate Sorted(list: seq<Peer>, key: SortKey, upward: bool) {
    forall i, j :: 0 <= i < j < |list| ==>
      !(if upward then KeyLess(key, list[j], list[i]) else KeyLess(key, list[i], list[j]))
  }

  lemma InsertKeepsSorted(list: seq<Peer>, key: SortKey, ascending: bool, p: Peer)
    requires !key.OtherKey? && Sorted(list, key, Upward(key, ascending))
    ensures Sorted(Insert(list, key, ascending, p), key, Upward(key, ascending))
    ensures forall j :: Place(list, key, ascending, p) <= j < |list| ==> GoesBefore(key, ascending, p, list[j])
  {
    var k, up := Place(list, key, ascending, p), Upward(key, ascending);
    forall j | 0 <= j < |list| ensures GoesBefore(key, ascending, p, list[j]) <==> j >= k {
      TwoDirections(key, ascending, p, list[j]);
      if j > k {
        TwoDirections(key, ascending, p, list[k]);
        KeyOrder(key, p, list[j], list[k]);
        KeyOrder(key, list[k], list[j], p);
        KeyOrder(key, list[j], p, list[k]);
        KeyOrder(key, list[k], p, list[j]);
        KeyOrder(key, p, list[k], list[j]);
      }
    }
    var r := Insert(list, key, ascending, p);
    forall i, j | 0 <= i < j < |r| ensures !(if up then KeyLess(key, r[j], r[i]) else KeyLess(key, r[i], r[j])) {
      if i == k {
        TwoDirections(key, ascending, p, r[j]);
        KeyOrder(key, p, r[j], p);
      } else if j == k {
        TwoDirections(key, ascending, p, r[i]);
        KeyOrder(key, p, r[i], p);
      }
    }
  }

  /** The listing is sorted by each of the five keys in either direction. */
  lemma {:induction false} ListingIsSorted(ps: seq<Peer>, key: SortKey, ascending: bool)
    requires !key.OtherKey?
    ensures Sorted(Listed(ps, key, ascending), key, Upward(key, ascending))
  {
    if ps != [] {
      ListingIsSorted(ps[..|ps| - 1], key, ascending);
      InsertKeepsSorted(Listed(ps[..|ps| - 1], key, ascending), key, ascending, ps[|ps| - 1]);
    }
  }

  predicate HasPorts(p: Peer) { 0 <= p.srcPort < 0x1_0000 && 0 <= p.dstPort < 0x1_0000 }

  /** Ascending listings grow in the number their key sorts by and descending ones shrink,
      but by the time of modification it is the other way round. */
  lemma ListingIsInOrder(ps: seq<Peer>, key: SortKey, ascending: bool)
    requires !key.OtherKey? && forall p :: p in ps ==> HasPorts(p)
    ensures var list := Listed(ps, key, ascending);
            forall i, j :: 0 <= i < j < |list| ==>
              if ascending != key.ByModified? then Rank(key, list[i]) <= Rank(key, list[j])
              else Rank(key, list[i]) >= Rank(key, list[j])
  {
    var list := Listed(ps, key, ascending);
    ListingIsSorted(ps, key, ascending);
    ListedPermutes(ps, key, ascending);
    forall i | 0 <= i < |list| ensures HasPorts(list[i]) {
      assert list[i] in multiset(list);
    }
    forall i, j | 0 <= i < j < |list|
      ensures if ascending != key.ByModified? then Rank(key, list[i]) <= Rank(key, list[j])
              else Rank(key, list[i]) >= Rank(key, list[j])
    {
      KeyIsNumeric(key, list[i], list[j]);
      KeyIsNumeric(key, list[j], list[i]);
    }
  }

  /** The place in the other direction, in the reversed list. */
  lemma PlaceReversed(list: seq<Peer>, key: SortKey, ascending: bool, p: Peer)
    requires !key.OtherKey? && Sorted(list, key, Upward(key, ascending))
    ensures Place(Reverse(list), key, !ascending, p) == |list| - Place(list, key, ascending, p)
  {
    var k, n, back := Place(list, key, ascending, p), |list|, Reverse(list);
    InsertKeepsSorted(list, key, ascending, p);
    forall i | 0 <= i < n ensures GoesBefore(key, !ascending, p, back[i]) <==> i >= n - k {
      TwoDirections(key, ascending, p, list[n - 1 - i]);
    }
    PlaceIs(back, key, !ascending, p, n - k);
  }

  /** Inserting in the other direction into the reversed list reverses the result. */
  lemma InsertReversed(list: seq<Peer>, key: SortKey, ascending: bool, p: Peer)
    requires !key.OtherKey? && Sorted(list, key, Upward(key, ascending))
    ensures Insert(Reverse(list), key, !ascending, p) == Reverse(Insert(list, key, ascending, p))
  {
    PlaceReversed(list, key, ascending, p);
    ReverseInserted(list, Place(list, key, ascending, p), p);
  }

  /** The descending listing is the ascending one read backwards, ties included. */
  lemma {:induction false} DescendingIsReverse(ps: seq<Peer>, key: SortKey)
    requires !key.OtherKey?
    ensures Listed(ps, key, false) == Reverse(Listed(ps, key, true))
  {
    if ps != [] {
      var init := ps[..|ps| - 1];
      DescendingIsReverse(init, key);
      ListingIsSorted(init, key, true);
      InsertReversed(Listed(init, key, true), key, true, ps[|ps| - 1]);
    }
  }

  /** Whether a record ties with `x`. */
  function TiesWith(key: SortKey, x: Peer): Peer -> bool {
    p => !KeyLess(key, p, x) && !KeyLess(key, x, p)
  }

  /** Records that tie keep the order in which they are recorded when the listing grows
      upward in its key (and the opposite order, by the reversal, when it grows downward). */
  lemma {:induction false} TiesKeepOrder(ps: seq<Peer>, key: SortKey, ascending: bool, x: Peer)
    requires !key.OtherKey? && Upward(key, ascending)
    ensures Select(Listed(ps, key, ascending), TiesWith(key, x)) == Select(ps, TiesWith(key, x))
  {
    if ps != [] {
      var init := ps[..|ps| - 1];
      TiesKeepOrder(init, key, ascending, x);
      ListingIsSorted(init, key, ascending);
      TieInserted(Listed(init, key, ascending), key, ascending, ps[|ps| - 1], x);
    }
  }

  lemma TieInserted(list: seq<Peer>, key: SortKey, ascending: bool, p: Peer, x: Peer)
    requires !key.OtherKey? && Upward(key, ascending) && Sorted(list, key, true)
    ensures var f := TiesWith(key, x);
            Select(Insert(list, key, ascending, p), f) == Select(list, f) + if f(p) then [p] else []
  {
    var k := Place(list, key, ascending, p);
    if TiesWith(key, x)(p) {
      NoTieBehind(list, key, ascending, p, x);
    }
    assert list[..k] + list[k..] == list;
    SelectBefore(list[..k], p, list[k..], TiesWith(key, x));
  }

  lemma NoTieBehind(list: seq<Peer>, key: SortKey, ascending: bool, p: Peer, x: Peer)
    requires !key.OtherKey? && Upward(key, ascending) && Sorted(list, key, true) && TiesWith(key, x)(p)
    ensures forall j :: Place(list, key, ascending, p) <= j < |list| ==> !TiesWith(key, x)(list[j])
  {
    InsertKeepsSorted(list, key, ascending, p);
    forall j | Place(list, key, ascending, p) <= j < |list| ensures !TiesWith(key, x)(list[j]) {
      TwoDirections(key, ascending, p, list[j]);
      KeyOrder(key, p, x, list[j]);
    }
  }

  /** With any other sort parameter nothing is sorted: the passing records in order. */
  lemma {:induction false} UnknownKeyKeepsOrder(ps: seq<Peer>, ascending: bool)
    ensures Listed(ps, OtherKey, ascending) == ps
  {
    if ps != [] {
      UnknownKeyKeepsOrder(ps[..|ps| - 1], ascending);
      assert ps[..|ps| - 1] + [ps[|ps| - 1]] == ps;
    }
  }

}
