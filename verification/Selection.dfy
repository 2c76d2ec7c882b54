/** Choosing a server for a new client: the cyclic scan from the one after the last
    found, and what makes its choice the right one. */
module Selection {
  import opened Numbers
  import opened Filters
  import opened Records

  const FINISHED_WEIGHT := 1
  const DISCONNECTED_WEIGHT := 1

  // ----- how a server is scored -----

  function PerWeight(connections: int, s: Server): real {
    connections as real / Max(1, s.weight) as real
  }

  /** The score of the server the scan starts from. */
  function StartLoad(s: Server): real {
    PerWeight(s.connecting + s.connected + s.finished * FINISHED_WEIGHT + s.disconnected * DISCONNECTED_WEIGHT, s)
  }

  /** The score of every other server, which counts finished connections where the first
      one counts connecting ones. */
  function ScanLoad(s: Server): real {
    PerWeight(s.finished + s.connected + s.finished * FINISHED_WEIGHT + s.disconnected * DISCONNECTED_WEIGHT, s)
  }

  predicate Unavailable(s: Server, now: int, retry: int) {
    (s.maxConnections != 0 && s.connected >= s.maxConnections) || InRetryWindow(s, now, retry)
  }

  datatype Candidate = Candidate(allowed: bool, unavailable: bool, load: real, weight: int)

  /** The server `k` places after `start`, going round. */
  function At(start: nat, k: nat, n: nat): (i: nat)
    requires start < n && k < n
    ensures i < n
  {
    if start + k < n then start + k else start + k - n
  }

  function View(
    servers: seq<Server>, rules: seq<Rule>, client: Ip, start: nat, now: int, retry: int): (v: seq<Candidate>)
    requires start < |servers|
    ensures |v| == |servers|
  {
    seq(|servers|, k requires 0 <= k < |servers| =>
      var s := servers[At(start, k, |servers|)];
      Candidate(Allowed(rules, s.ip, client), Unavailable(s, now, retry),
                if k == 0 then StartLoad(s) else ScanLoad(s), s.weight))
  }

  // ----- what the choice must be -----

  /** Strictly preferable: a lower score, or between idle servers a higher weight. */
  predicate Better(a: Candidate, b: Candidate) {
    if a.load == 0.0 && b.load == 0.0 then a.weight > b.weight else a.load < b.load
  }

  /** What may be assigned at all: an allowed server, unless it is unavailable and the
      scan starts from one that is available but not allowed. */
  ghost predicate Entrant(v: seq<Candidate>, k: int) {
    0 <= k < |v| && v[k].allowed && (v[k].unavailable ==> v[0].allowed || v[0].unavailable)
  }

  /** An available entrant preferable to every entrant the scan meets before it. */
  ghost predicate Pivot(v: seq<Candidate>, k: int) {
    Entrant(v, k) && !v[k].unavailable && forall i :: 0 <= i < k && Entrant(v, i) ==> Better(v[k], v[i])
  }

  // In what follows only the first `n` places count.

  ghost predicate SomeEntrant(v: seq<Candidate>, n: nat) { exists k :: 0 <= k < n && Entrant(v, k) }

  ghost predicate HasPivot(v: seq<Candidate>, n: nat) { exists k :: 0 <= k < n && Pivot(v, k) }

  ghost predicate Counts(v: seq<Candidate>, n: nat, i: int) {
    0 <= i < n && Entrant(v, i) && (HasPivot(v, n) ==> !v[i].unavailable)
  }

  /** With a pivot, the first best of the available entrants; without one, the first best
      of all entrants, which is then unavailable. */
  ghost predicate Winner(v: seq<Candidate>, n: nat, k: nat) {
    && Counts(v, n, k) && (v[k].unavailable <==> !HasPivot(v, n))
    && forall i :: Counts(v, n, i) ==> !Better(v[i], v[k]) && (i < k ==> Better(v[k], v[i]))
  }

  // ----- one more server seen -----

  lemma OneMore(v: seq<Candidate>, n: nat)
    requires n < |v|
    ensures SomeEntrant(v, n + 1) <==> SomeEntrant(v, n) || Entrant(v, n)
    ensures HasPivot(v, n + 1) <==> HasPivot(v, n) || Pivot(v, n)
  {
  }

  /** The scan's decision about server `n`, given the winner `m` of those before it. */
  lemma NextWinner(v: seq<Candidate>, n: nat, m: nat)
    requires 0 < n < |v| && Winner(v, n, m)
    ensures var take := v[n].allowed && Better(v[n], v[m]) && (!v[n].unavailable || v[m].unavailable);
            Winner(v, n + 1, if take then n else m)
  {
    OneMore(v, n);
    var take := v[n].allowed && Better(v[n], v[m]) && (!v[n].unavailable || v[m].unavailable);
    if v[m].unavailable {
      forall i | 0 <= i < n && Entrant(v, i) ensures !Better(v[i], v[m]) {
        assert Counts(v, n, i);
      }
    }
    if take && !v[n].unavailable && v[m].unavailable {
      assert Pivot(v, n);
    }
    if Pivot(v, n) {
      assert Better(v[n], v[m]);
    }
    assert HasPivot(v, n + 1) == (HasPivot(v, n) || (take && !v[n].unavailable && v[m].unavailable));
    var r := if take then n else m;
    forall i | Counts(v, n + 1, i) ensures !Better(v[i], v[r]) && (i < r ==> Better(v[r], v[i])) {
      if i < n {
        assert Counts(v, n, i);
      }
    }
  }

  lemma FirstWinner(v: seq<Candidate>, n: nat)
    requires n < |v| && !SomeEntrant(v, n) && Entrant(v, n)
    ensures Winner(v, n + 1, n)
  {
    OneMore(v, n);
    assert forall i :: 0 <= i < n ==> !Entrant(v, i);
    assert forall i :: 0 <= i < n ==> !Pivot(v, i);
    assert !v[n].unavailable ==> Pivot(v, n);
  }

  /** What the scan knows after `n` servers: whether one may be assigned, and the winner
      `m` so far; until there is one, `m` is the start. */
  ghost predicate Scanned(v: seq<Candidate>, n: nat, found: bool, m: nat) {
    0 < n <= |v| && m < n && (found <==> SomeEntrant(v, n)) && (if found then Winner(v, n, m) else m == 0)
  }

  predicate Takes(c: Candidate, found: bool, best: Candidate) {
    c.allowed && (!found || Better(c, best)) && (!c.unavailable || best.unavailable)
  }

  lemma ScanStart(v: seq<Candidate>)
    requires |v| > 0
    ensures Scanned(v, 1, v[0].allowed, 0)
  {
    OneMore(v, 0);
    if v[0].allowed {
      FirstWinner(v, 0);
    }
  }

  lemma ScanStep(v: seq<Candidate>, n: nat, found: bool, m: nat)
    requires Scanned(v, n, found, m) && n < |v|
    ensures var take := Takes(v[n], found, v[m]); Scanned(v, n + 1, found || take, if take then n else m)
  {
    OneMore(v, n);
    if found {
      NextWinner(v, n, m);
    } else {
      assert !Entrant(v, 0);
      if Entrant(v, n) {
        FirstWinner(v, n);
      }
    }
  }

  // ----- the scan -----

  /** The scan over any scores: `v[k]` is the candidate `k` places after `start`. The servers
      inspected behind the first are `trail`: every other one, once. The cursor ends where it
      started, so the last attempt that follows in the source, a loop until the cursor is at
      the start, does nothing. */
  method ScanCandidates(v: seq<Candidate>, start: nat)
    returns (found: bool, next: nat, cursor: nat, ghost place: nat, ghost trail: seq<nat>)
    requires start < |v|
    ensures trail == Round(start, |v|)
    ensures found <==> SomeEntrant(v, |v|)
    ensures place < |v| && next == At(start, place, |v|) && (found ==> Winner(v, |v|, place))
    ensures cursor == start
  {
    var n := |v|;
    cursor, next, place := start, start, 0;
    var best := v[0];
    found := best.allowed;
    ScanStart(v);
    var visited := 1;
    trail := [];
    cursor := Following(cursor, n);
    while cursor != start
      invariant Scanned(v, visited, found, place)
      invariant trail == Round(start, n)[..visited - 1]
      invariant cursor == if visited == n then start else At(start, visited, n)
      invariant next == At(start, place, n) && best == v[place]
      decreases n - visited
    {
      var current := v[visited];
      trail := trail + [cursor];
      ScanStep(v, visited, found, place);
      var take := false;
      if current.allowed {
        if current.load == 0.0 && best.load == 0.0 {
          take := (!found || current.weight > best.weight)
                  && (!current.unavailable || (current.unavailable && best.unavailable));
        } else {
          take := (!found || current.load < best.load)
                  && (!current.unavailable || (current.unavailable && best.unavailable));
        }
      }
      if take {
        next, place, best, found := cursor, visited, current, true;
      }
      visited := visited + 1;
      cursor := Following(cursor, n);
    }
  }

  /** The servers after `start`, going round. */
  function Round(start: nat, n: nat): (r: seq<nat>)
    requires start < n
    ensures |r| == n - 1
  {
    seq(n - 1, k requires 0 <= k < n - 1 => At(start, k + 1, n))
  }

  /** They are all the others, each once. */
  lemma RoundVisitsOnce(start: nat, n: nat, i: nat)
    requires start < n && i < n
    ensures multiset(Round(start, n))[i] == if i == start then 0 else 1
  {
    var r := Round(start, n);
    if i == start {
      assert i !in r;
    } else {
      var k := if i > start then i - start - 1 else i + n - start - 1;
      assert r[k] == i;
      assert r == r[..k] + [r[k]] + r[k + 1..];
      assert forall j :: 0 <= j < |r| && j != k ==> r[j] != i;
      assert i !in r[..k] && i !in r[k + 1..];
    }
  }

  function Following(i: nat, n: nat): (j: nat)
    requires i < n
    ensures j < n
  {
    if i + 1 >= n then 0 else i + 1
  }

  // ----- what the choice means -----

  /** There is only one winner. */
  lemma WinnerIsUnique(v: seq<Candidate>, k: nat, m: nat)
    requires Winner(v, |v|, k) && Winner(v, |v|, m)
    ensures k == m
  {
    assert Counts(v, |v|, k) && Counts(v, |v|, m);
  }

  /** No allowed available server is preferable to the winner, and the earliest from the
      start wins ties; if the winner is itself unavailable, that holds against every
      allowed server. */
  lemma WinnerIsOptimal(v: seq<Candidate>, k: nat)
    requires Winner(v, |v|, k)
    ensures v[k].allowed
    ensures forall i :: 0 <= i < |v| && v[i].allowed && (!v[i].unavailable || v[k].unavailable) ==>
              !Better(v[i], v[k]) && (i < k ==> Better(v[k], v[i]))
    ensures forall i :: 0 <= i < |v| && v[i].allowed && (!v[i].unavailable || v[k].unavailable) ==>
              && v[k].load <= v[i].load && (v[k].load == v[i].load == 0.0 ==> v[k].weight >= v[i].weight)
              && (i < k ==> v[k].load < v[i].load || (v[k].load == v[i].load == 0.0 && v[k].weight > v[i].weight))
  {
    forall i | 0 <= i < |v| && v[i].allowed && (!v[i].unavailable || v[k].unavailable)
      ensures !Better(v[i], v[k]) && (i < k ==> Better(v[k], v[i]))
    {
      assert Entrant(v, i) by {
        assert Entrant(v, k);
      }
      assert Counts(v, |v|, i);
    }
  }

  /** Some server is assigned exactly when the start is allowed, or another allowed server
      is available, or an allowed one is unavailable while the start is too. */
  lemma AssignmentExists(v: seq<Candidate>)
    requires |v| > 0
    ensures SomeEntrant(v, |v|) <==>
            || v[0].allowed
            || (exists i :: 1 <= i < |v| && v[i].allowed && !v[i].unavailable)
            || (v[0].unavailable && exists i :: 1 <= i < |v| && v[i].allowed && v[i].unavailable)
  {
    if v[0].allowed {
      assert Entrant(v, 0);
    } else if exists i :: 1 <= i < |v| && v[i].allowed && !v[i].unavailable {
      var i :| 1 <= i < |v| && v[i].allowed && !v[i].unavailable;
      assert Entrant(v, i);
    } else if v[0].unavailable && exists i :: 1 <= i < |v| && v[i].allowed && v[i].unavailable {
      var i :| 1 <= i < |v| && v[i].allowed && v[i].unavailable;
      assert Entrant(v, i);
    }
  }

  /** A client is refused although some server is allowed exactly when the scan starts from
      an available server that is not allowed and every allowed one is unavailable. */
  lemma RefusedDespiteAllowed(v: seq<Candidate>)
    requires exists i :: 0 <= i < |v| && v[i].allowed
    ensures !SomeEntrant(v, |v|) <==>
            !v[0].allowed && !v[0].unavailable && forall i :: 0 <= i < |v| && v[i].allowed ==> v[i].unavailable
  {
    AssignmentExists(v);
    if v[0].unavailable && !v[0].allowed {
      var i :| 0 <= i < |v| && v[i].allowed;
      assert v[i].unavailable || !v[i].unavailable;
    }
  }

  /** An unavailable server is assigned, although an allowed one is available, exactly when
      each available one meets an entrant before it that it is not preferable to. */
  lemma PassesOverAvailable(v: seq<Candidate>, k: nat)
    requires Winner(v, |v|, k)
    ensures v[k].unavailable <==>
            forall i :: 0 <= i < |v| && v[i].allowed && !v[i].unavailable ==>
              exists j :: 0 <= j < i && Entrant(v, j) && !Better(v[i], v[j])
  {
    if v[k].unavailable {
      forall i | 0 <= i < |v| && v[i].allowed && !v[i].unavailable
        ensures exists j :: 0 <= j < i && Entrant(v, j) && !Better(v[i], v[j])
      {
        assert Entrant(v, i) && !Pivot(v, i);
      }
    } else {
      var p :| 0 <= p < |v| && Pivot(v, p);
      assert v[p].allowed && !v[p].unavailable;
    }
  }

  /** It happens: an idle server inside its retry window is preferred to a healthy busy one. */
  lemma PassesOverAvailableExample()
    ensures var v := [Candidate(true, true, 0.0, 1), Candidate(true, false, 1.0, 1)]; Winner(v, |v|, 0)
  {
    var v := [Candidate(true, true, 0.0, 1), Candidate(true, false, 1.0, 1)];
    ScanStart(v);
    ScanStep(v, 1, true, 0);
  }

  /** A start that is allowed and available wins when no other server is preferable to it. */
  lemma RoundRobin(v: seq<Candidate>, k: nat)
    requires Winner(v, |v|, k) && v[0].allowed && !v[0].unavailable
    requires forall i :: 0 < i < |v| ==> !Better(v[i], v[0])
    ensures k == 0
  {
    WinnerIsOptimal(v, k);
  }

  // ----- the two scores -----

  predicate HasCounts(s: Server) { s.connecting >= 0 && s.connected >= 0 && s.finished >= 0 && s.disconnected >= 0 }

  function Scored(load: real, weight: int): Candidate { Candidate(true, false, load, weight) }

  lemma DivideOrder(x: int, y: int, w: int)
    requires w > 0
    ensures x as real / w as real < y as real / w as real <==> x < y
    ensures x as real / w as real == 0.0 <==> x == 0
  {
    var r := 1.0 / w as real;
    assert x as real / w as real == x as real * r && y as real / w as real == y as real * r;
    assert r > 0.0;
  }

  /** The scan ranks server `s` against every possible first server as its own connections
      would, exactly when it has as many finished as connecting ones: counting finished
      connections twice, and connecting ones not at all, misplaces every other server. */
  lemma ScoreIsFaithful(s: Server)
    requires HasCounts(s)
    ensures (forall a: Server :: HasCounts(a) ==>
               (Better(Scored(ScanLoad(s), s.weight), Scored(StartLoad(a), a.weight)) <==>
                Better(Scored(StartLoad(s), s.weight), Scored(StartLoad(a), a.weight))))
            <==> s.finished == s.connecting
  {
    if s.finished != s.connecting {
      var a := Misranked(s);
    }
  }

  lemma Misranked(s: Server) returns (a: Server)
    requires HasCounts(s) && s.finished != s.connecting
    ensures HasCounts(a)
    ensures Better(Scored(ScanLoad(s), s.weight), Scored(StartLoad(a), a.weight)) !=
            Better(Scored(StartLoad(s), s.weight), Scored(StartLoad(a), a.weight))
  {
    var w := Max(1, s.weight);
    var actual := s.connecting + s.connected + s.finished + s.disconnected;
    var counted := s.finished + s.connected + s.finished + s.disconnected;
    if counted > actual {
      a := s.(weight := w, connecting := counted, connected := 0, finished := 0, disconnected := 0);
      DivideOrder(actual, counted, w);
      DivideOrder(counted, counted, w);
    } else {
      a := s.(weight := 2 * w, connecting := 2 * actual - 1, connected := 0, finished := 0, disconnected := 0);
      DivideOrder(2 * counted, 2 * actual - 1, 2 * w);
      DivideOrder(2 * actual, 2 * actual - 1, 2 * w);
      DoubleBoth(counted, w);
      DoubleBoth(actual, w);
    }
  }

  lemma DoubleBoth(x: int, w: int)
    requires w > 0
    ensures (2 * x) as real / (2 * w) as real == x as real / w as real
  {
    var p, q := x as real, w as real;
    assert (2 * x) as real == 2.0 * p && (2 * w) as real == 2.0 * q;
    assert (p / q) * (2.0 * q) == 2.0 * p;
  }

  // ----- two scanned servers -----

  function Weight(s: Server): int { Max(1, s.weight) }

  /** By how much the scan's count of connections is off. */
  function Drift(s: Server): int { s.finished - s.connecting }

  /** Like `s` but for its connected and disconnected connections. */
  predicate IsLike(a: Server, s: Server) {
    HasCounts(a) && a.weight == s.weight && a.finished == s.finished && a.connecting == s.connecting
  }

  predicate RankedRightly(a: Server, b: Server) {
    Better(Scored(ScanLoad(a), a.weight), Scored(ScanLoad(b), b.weight)) <==>
    Better(Scored(StartLoad(a), a.weight), Scored(StartLoad(b), b.weight))
  }

  function Connections(s: Server): int { s.connecting + s.connected + s.finished + s.disconnected }

  lemma CrossOrder(x: int, w: int, y: int, v: int)
    requires w > 0 && v > 0
    ensures x as real / w as real < y as real / v as real <==> x * v < y * w
  {
    var p, q := x as real / w as real, y as real / v as real;
    var z := w as real * v as real;
    assert p * w as real == x as real && q * v as real == y as real;
    assert p * z == (x * v) as real && q * z == (y * w) as real;
    assert z > 0.0;
    assert p < q <==> p * z < q * z;
  }

  lemma ZeroLoad(x: int, w: int)
    requires w > 0
    ensures x as real / w as real == 0.0 <==> x == 0
  {
    DivideOrder(x, x, w);
  }

  /** Both comparisons in whole numbers. */
  lemma InWholeNumbers(a: Server, b: Server)
    ensures var (x, y) := (Connections(a), Connections(b));
            Better(Scored(StartLoad(a), a.weight), Scored(StartLoad(b), b.weight)) <==>
            if x == 0 && y == 0 then a.weight > b.weight else x * Weight(b) < y * Weight(a)
    ensures var (x, y) := (Connections(a) + Drift(a), Connections(b) + Drift(b));
            Better(Scored(ScanLoad(a), a.weight), Scored(ScanLoad(b), b.weight)) <==>
            if x == 0 && y == 0 then a.weight > b.weight else x * Weight(b) < y * Weight(a)
  {
    var x, y := Connections(a), Connections(b);
    CrossOrder(x, Weight(a), y, Weight(b));
    ZeroLoad(x, Weight(a));
    ZeroLoad(y, Weight(b));
    var u, v := x + Drift(a), y + Drift(b);
    CrossOrder(u, Weight(a), v, Weight(b));
    ZeroLoad(u, Weight(a));
    ZeroLoad(v, Weight(b));
  }

  /** The scan ranks `s` above servers idle by its count, and rightly so only if the weights
      do not decide. */
  predicate IdleByMistake(s: Server, t: Server) {
    s.weight > t.weight && s.finished == 0 && t.finished == 0 && s.connecting > 0
  }

  /** Two scanned servers are ranked rightly against each other, whatever their connected and
      disconnected connections, exactly when the counts of both are off by as much per weight
      and a difference in weight does not decide between servers that only seem idle. */
  lemma ScanRanksFaithfully(s: Server, t: Server)
    requires HasCounts(s) && HasCounts(t)
    ensures (forall a: Server, b: Server :: IsLike(a, s) && IsLike(b, t) ==> RankedRightly(a, b))
            <==> Drift(s) * Weight(t) == Drift(t) * Weight(s) && !IdleByMistake(s, t)
  {
    if Drift(s) * Weight(t) != Drift(t) * Weight(s) {
      var a, b := MisrankedPair(s, t);
    } else if IdleByMistake(s, t) {
      var a, b := s.(connected := 0, disconnected := 0), t.(connected := 0, disconnected := 0);
      InWholeNumbers(a, b);
      SameDrift(a, b);
      assert IsLike(a, s) && IsLike(b, t) && !RankedRightly(a, b);
    } else {
      forall a: Server, b: Server | IsLike(a, s) && IsLike(b, t) ensures RankedRightly(a, b) {
        InWholeNumbers(a, b);
        SameDrift(a, b);
      }
    }
  }

  lemma SameDrift(a: Server, b: Server)
    requires Drift(a) * Weight(b) == Drift(b) * Weight(a)
    ensures Connections(a) * Weight(b) < Connections(b) * Weight(a) <==>
            (Connections(a) + Drift(a)) * Weight(b) < (Connections(b) + Drift(b)) * Weight(a)
    ensures a.finished == 0 && b.finished == 0 ==> a.connecting * Weight(b) == b.connecting * Weight(a)
  {
    assert (Connections(a) + Drift(a)) * Weight(b) == Connections(a) * Weight(b) + Drift(a) * Weight(b);
    assert (Connections(b) + Drift(b)) * Weight(a) == Connections(b) * Weight(a) + Drift(b) * Weight(a);
  }

  lemma MisrankedPair(s: Server, t: Server) returns (a: Server, b: Server)
    requires HasCounts(s) && HasCounts(t) && Drift(s) * Weight(t) != Drift(t) * Weight(s)
    ensures IsLike(a, s) && IsLike(b, t) && !RankedRightly(a, b)
  {
    var k := 1 + s.connecting + t.connecting + 2 * s.finished + 2 * t.finished;
    var x, y := k * Weight(s), k * Weight(t);
    AtLeast(k, Weight(s));
    AtLeast(k, Weight(t));
    if Drift(s) * Weight(t) > Drift(t) * Weight(s) {
      x, y := x - Drift(s), y - Drift(t);
    }
    a := s.(connected := x - s.connecting - s.finished, disconnected := 0);
    b := t.(connected := y - t.connecting - t.finished, disconnected := 0);
    InWholeNumbers(a, b);
    Balanced(k, Weight(s), Weight(t), Drift(s), Drift(t));
  }

  lemma AtLeast(k: int, w: int)
    requires k > 0 && w > 0
    ensures k * w >= k
  {
  }

  lemma Balanced(k: int, w: int, v: int, d: int, e: int)
    ensures (k * w) * v == (k * v) * w
    ensures (k * w + d) * v == (k * w) * v + d * v && (k * v + e) * w == (k * v) * w + e * w
    ensures (k * w - d) * v == (k * w) * v - d * v && (k * v - e) * w == (k * v) * w - e * w
  {
  }

}
