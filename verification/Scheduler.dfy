/** Maintenance tasks: when they are due, how they are rescheduled, the cached time of the
    next one, and how long the server list sleeps. */
module Scheduling {
  import opened Numbers

  const SECOND := 1000
  const MINIMUM_INTERVAL := 3000
  const MAXIMUM_INTERVAL := MINIMUM_INTERVAL * 5
  const SLICE_MARGIN := 16

  datatype Task = Task(kind: int, interval: int, next: int, fixed: bool, lastRan: int)

  function Period(t: Task): int { SECOND * t.interval }

  /** `periodic` tasks run again; the others run once. */
  predicate IsPeriodic(t: Task) { t.interval > 0 }

  predicate IsDue(t: Task, now: int) { now >= t.next }

  predicate Expires(t: Task, now: int) { IsDue(t, now) && !IsPeriodic(t) }

  // ----- one task -----

  /** The first point after `now` on the grid that starts at `from` with step `p`. */
  function NextOnGrid(from: int, p: int, now: int): int
    requires p > 0
  {
    from + ((now - from) / p + 1) * p
  }

  function Visit(t: Task, now: int): Task {
    if !IsDue(t, now) then t
    else if !IsPeriodic(t) then t.(lastRan := now)
    else if t.fixed then t.(lastRan := now, next := NextOnGrid(t.next, Period(t), now))
    else t.(lastRan := now, next := now + Period(t))
  }

  ghost predicate OnGrid(x: int, from: int, p: int) {
    exists k :: x == from + k * p
  }

  /** A fixed-time task is rescheduled on its grid, after now and within one period. */
  lemma GridStep(from: int, p: int, now: int)
    requires p > 0 && now >= from
    ensures now < NextOnGrid(from, p, now) <= now + p
    ensures OnGrid(NextOnGrid(from, p, now), from, p)
  {
    var q := (now - from) / p;
    assert now - from == q * p + (now - from) % p;
    assert NextOnGrid(from, p, now) == from + (q + 1) * p;
    assert (q + 1) * p == q * p + p;
  }

  lemma GridTrans(x: int, y: int, z: int, p: int)
    requires OnGrid(x, y, p) && OnGrid(y, z, p)
    ensures OnGrid(x, z, p)
  {
    var k :| x == y + k * p;
    var m :| y == z + m * p;
    assert x == z + (k + m) * p by {
      assert (k + m) * p == k * p + m * p;
    }
  }

  lemma VisitedIsLater(t: Task, now: int)
    ensures IsPeriodic(t) ==> Visit(t, now).next > now && (IsDue(t, now) ==> Visit(t, now).next <= now + Period(t))
    ensures !IsDue(t, now) || !IsPeriodic(t) ==> Visit(t, now).next == t.next
    ensures t.fixed && IsPeriodic(t) ==> OnGrid(Visit(t, now).next, t.next, Period(t))
  {
    if IsDue(t, now) && IsPeriodic(t) {
      GridStep(t.next, Period(t), now);
    } else {
      assert t.next == t.next + 0 * Period(t);
    }
  }

  /** The configuration's first run: in the past, it is moved to the grid point after now. */
  function FirstRun(configured: int, interval: int, now: int): int
    requires interval > 0
  {
    if configured < now then NextOnGrid(configured, SECOND * interval, now) else configured
  }

  function VisitAt(t: Task, times: seq<int>): Task
    decreases |times|
  {
    if times == [] then t else VisitAt(Visit(t, times[0]), times[1..])
  }

  lemma {:induction false} VisitsStayOnGrid(t: Task, times: seq<int>)
    requires t.fixed && IsPeriodic(t)
    ensures var u := VisitAt(t, times); OnGrid(u.next, t.next, Period(t)) && u.interval == t.interval && u.fixed
    decreases |times|
  {
    if times == [] {
      assert t.next == t.next + 0 * Period(t);
    } else {
      VisitedIsLater(t, times[0]);
      var u := Visit(t, times[0]);
      VisitsStayOnGrid(u, times[1..]);
      GridTrans(VisitAt(t, times).next, u.next, t.next, Period(t));
    }
  }

  /** Whenever it is looked at, from the configuration on, a fixed-time task's next run
      keeps the configured time of day: it stays on the grid of its first run. */
  lemma FixedTimeGrid(configured: int, interval: int, start: int, kind: int, times: seq<int>)
    requires interval > 0
    ensures var t := Task(kind, interval, FirstRun(configured, interval, start), true, 0);
            && FirstRun(configured, interval, start) >= start
            && OnGrid(VisitAt(t, times).next, configured, SECOND * interval)
  {
    var p, first := SECOND * interval, FirstRun(configured, interval, start);
    if configured < start {
      GridStep(configured, p, start);
    } else {
      assert first == configured + 0 * p;
    }
    var t := Task(kind, interval, first, true, 0);
    VisitsStayOnGrid(t, times);
    GridTrans(VisitAt(t, times).next, first, configured, p);
  }

  // ----- one pass over the list -----

  /** What a pass leaves of the first tasks of the list. */
  function Kept(tasks: seq<Task>, now: int): seq<Task> {
    if tasks == [] then [] else
      var t := tasks[|tasks| - 1];
      Kept(tasks[..|tasks| - 1], now) + if Expires(t, now) then [] else [Visit(t, now)]
  }

  /** The cached next time after visiting the first `j` tasks: the list as it then stands
      holds what is kept of those and all the others. */
  function CacheAfter(tasks: seq<Task>, now: int, cache: int, j: nat): int
    requires j <= |tasks|
  {
    if j == 0 then cache else
      var c := CacheAfter(tasks, now, cache, j - 1);
      var t := tasks[j - 1];
      var next := Visit(t, now).next;
      if Expires(t, now) && Kept(tasks[..j], now) == [] && j == |tasks| then now + MINIMUM_INTERVAL
      else if next < c || now >= c then next
      else c
  }

  function MinNext(tasks: seq<Task>): int
    requires tasks != []
  {
    if |tasks| == 1 then tasks[0].next
    else
      var m := MinNext(tasks[..|tasks| - 1]);
      var x := tasks[|tasks| - 1].next;
      if x < m then x else m
  }

  lemma {:induction false} MinNextIsLeast(tasks: seq<Task>)
    requires tasks != []
    ensures forall t :: t in tasks ==> MinNext(tasks) <= t.next
    ensures exists t :: t in tasks && t.next == MinNext(tasks)
  {
    if |tasks| == 1 {
      assert tasks[0] in tasks;
    } else {
      var init, last := tasks[..|tasks| - 1], tasks[|tasks| - 1];
      assert tasks == init + [last];
      MinNextIsLeast(init);
      var t :| t in init && t.next == MinNext(init);
      assert last in tasks && t in tasks;
    }
  }

  /** Position after the last one-time task that expires among the first `j`, or 0. */
  function Restart(tasks: seq<Task>, now: int, j: nat): (k: nat)
    requires j <= |tasks|
    ensures k <= j
    ensures k > 0 ==> Expires(tasks[k - 1], now)
    ensures forall i :: k <= i < j ==> !Expires(tasks[i], now)
  {
    if j == 0 then 0 else if Expires(tasks[j - 1], now) then j else Restart(tasks, now, j - 1)
  }

  lemma KeptOneMore(tasks: seq<Task>, now: int, k: nat, j: nat)
    requires k < j <= |tasks| && !Expires(tasks[j - 1], now)
    ensures var x := Visit(tasks[j - 1], now);
            && Kept(tasks[k..j], now) == Kept(tasks[k..j - 1], now) + [x]
            && MinNext(Kept(tasks[k..j], now)) ==
               if k == j - 1 then x.next
               else if Kept(tasks[k..j - 1], now) != [] && MinNext(Kept(tasks[k..j - 1], now)) <= x.next
               then MinNext(Kept(tasks[k..j - 1], now)) else x.next
  {
    var s, x := tasks[k..j], Visit(tasks[j - 1], now);
    assert s[..|s| - 1] == tasks[k..j - 1];
    var before := Kept(tasks[k..j - 1], now);
    assert (before + [x])[..|before|] == before;
  }

  /** From the last expired task on the cache is the least next time; the expired task
      itself leaves it at its own past time. */
  lemma {:induction false} CacheSoFar(tasks: seq<Task>, now: int, cache: int, j: nat)
    requires 0 < j <= |tasks| && now >= cache
    requires j == |tasks| ==> Kept(tasks, now) != []
    ensures var k := Restart(tasks, now, j);
            var c := CacheAfter(tasks, now, cache, j);
            if k == j then c <= now
            else Kept(tasks[k..j], now) != [] && c == MinNext(Kept(tasks[k..j], now)) && c > now
  {
    var k := Restart(tasks, now, j);
    assert tasks[..|tasks|] == tasks;
    VisitedIsLater(tasks[j - 1], now);
    if j > 1 {
      CacheSoFar(tasks, now, cache, j - 1);
    }
    if k < j {
      KeptOneMore(tasks, now, k, j);
    }
  }

  // ----- the cached time -----

  ghost predicate AllPeriodic(tasks: seq<Task>) { forall t :: t in tasks ==> IsPeriodic(t) }

  lemma {:induction false} KeptIsLater(tasks: seq<Task>, now: int)
    ensures forall t :: t in Kept(tasks, now) ==> t.next > now
    ensures AllPeriodic(tasks) ==> |Kept(tasks, now)| == |tasks| && AllPeriodic(Kept(tasks, now))
  {
    if tasks != [] {
      var init, t := tasks[..|tasks| - 1], tasks[|tasks| - 1];
      assert tasks == init + [t];
      KeptIsLater(init, now);
      VisitedIsLater(t, now);
    }
  }

  lemma NoneExpires(tasks: seq<Task>, now: int)
    requires AllPeriodic(tasks)
    ensures Restart(tasks, now, |tasks|) == 0
  {
    forall i | 0 <= i < |tasks| ensures !Expires(tasks[i], now) {
      assert tasks[i] in tasks;
    }
  }

  /** With periodic tasks only, the cached time is the least next time after every pass,
      and nothing is left due. */
  lemma CachedMinimum(tasks: seq<Task>, now: int, cache: int)
    requires tasks != [] && AllPeriodic(tasks) && now >= cache
    ensures var kept := Kept(tasks, now);
            && |kept| == |tasks| && AllPeriodic(kept)
            && CacheAfter(tasks, now, cache, |tasks|) == MinNext(kept) > now
            && forall t :: t in kept ==> !IsDue(t, now)
  {
    KeptIsLater(tasks, now);
    NoneExpires(tasks, now);
    CacheSoFar(tasks, now, cache, |tasks|);
    assert tasks[0..|tasks|] == tasks;
  }

  lemma {:induction false} KeptConcat(a: seq<Task>, b: seq<Task>, now: int)
    ensures Kept(a + b, now) == Kept(a, now) + Kept(b, now)
  {
    if b == [] {
      assert a + b == a && Kept(a, now) + [] == Kept(a, now);
    } else {
      assert (a + b)[..|a + b| - 1] == a + b[..|b| - 1];
      KeptConcat(a, b[..|b| - 1], now);
    }
  }

  lemma MinOfBoth(a: seq<Task>, b: seq<Task>)
    requires a != [] && b != []
    ensures MinNext(a + b) == if MinNext(b) < MinNext(a) then MinNext(b) else MinNext(a)
  {
    MinNextIsLeast(a);
    MinNextIsLeast(b);
    MinNextIsLeast(a + b);
    var t :| t in a && t.next == MinNext(a);
    var u :| u in b && u.next == MinNext(b);
    assert t in a + b && u in a + b;
  }

  /** A one-time task expired, tasks come after the last such one, and a task kept before it
      is due sooner than all of those. */
  predicate Forgets(tasks: seq<Task>, now: int) {
    var k := Restart(tasks, now, |tasks|);
    var before, after := Kept(tasks[..k], now), Kept(tasks[k..], now);
    k < |tasks| && before != [] && after != [] && MinNext(before) < MinNext(after)
  }

  /** In general a pass leaves the cache later than some remaining task exactly then:
      expiring forgets everything before. */
  lemma CacheIsLate(tasks: seq<Task>, now: int, cache: int)
    requires now >= cache && Kept(tasks, now) != []
    ensures CacheAfter(tasks, now, cache, |tasks|) > MinNext(Kept(tasks, now)) <==> Forgets(tasks, now)
  {
    var k, c := Restart(tasks, now, |tasks|), CacheAfter(tasks, now, cache, |tasks|);
    var before, after := Kept(tasks[..k], now), Kept(tasks[k..], now);
    assert tasks[..k] + tasks[k..] == tasks && tasks[k..|tasks|] == tasks[k..];
    KeptConcat(tasks[..k], tasks[k..], now);
    CacheSoFar(tasks, now, cache, |tasks|);
    if k == |tasks| {
      KeptIsLater(tasks, now);
      MinNextIsLeast(Kept(tasks, now));
      assert c <= now < MinNext(Kept(tasks, now));
    } else if before == [] {
      assert before + after == after;
    } else {
      MinOfBoth(before, after);
    }
  }

  const SOON := Task(2, 5, 6000, false, 0)

  const ONCE := Task(2, 0, 1000, true, 0)

  const LATER := Task(2, 8, 9000, false, 0)

  const LATE_TASKS := [SOON, ONCE, LATER]

  /** It can be: at time 1000 the first and the last of these tasks, which run every five and
      every eight seconds, are just added, and the one between them expires. */
  lemma CacheIsLateExample()
    ensures MinNext(LATE_TASKS) == 1000 && Kept(LATE_TASKS, 1000) == [SOON, LATER]
    ensures CacheAfter(LATE_TASKS, 1000, 1000, 3) == 9000 > MinNext([SOON, LATER])
  {
    var tasks := LATE_TASKS;
    assert tasks[..3] == tasks && tasks[..2] == [SOON, ONCE] && [SOON, ONCE][..1] == [SOON] && [SOON][..0] == [];
    assert MinNext([SOON, ONCE]) == 1000;
    assert Kept([SOON], 1000) == [SOON];
    assert Kept([SOON, ONCE], 1000) == [SOON];
    assert Kept(tasks, 1000) == [SOON, LATER];
    assert [SOON, LATER][..1] == [SOON];
    assert CacheAfter(tasks, 1000, 1000, 1) == 6000;
    assert CacheAfter(tasks, 1000, 1000, 2) == 1000;
  }

  // ----- adding tasks -----

  function AddedCache(cache: int, next: int): int { if cache > next || cache == 0 then next else cache }

  /** The cached time of a list: zero stands for no task. */
  ghost predicate IsCache(tasks: seq<Task>, cache: int) {
    if tasks == [] then cache == 0 else cache == MinNext(tasks) && cache > 0
  }

  lemma AddKeepsCache(tasks: seq<Task>, cache: int, t: Task)
    requires IsCache(tasks, cache) && t.next > 0
    ensures IsCache(tasks + [t], AddedCache(cache, t.next))
  {
    if tasks != [] {
      MinOfBoth(tasks, [t]);
    }
  }

  /** The gate of a pass opens exactly when some task is due. */
  lemma GateOpensWhenDue(tasks: seq<Task>, cache: int, now: int)
    requires IsCache(tasks, cache)
    ensures cache != 0 && now >= cache <==> exists t :: t in tasks && IsDue(t, now)
  {
    if tasks != [] {
      MinNextIsLeast(tasks);
      if cache <= now {
        var t :| t in tasks && t.next == cache;
        assert IsDue(t, now);
      }
    }
  }

  // ----- sleeping -----

  /** Conversion to a 32-bit integer, which wraps around. */
  function ToInt32(x: int): int { (x + 0x8000_0000) % 0x1_0000_0000 - 0x8000_0000 }

  /** Integer division that rounds toward zero. */
  function Quotient(x: int, y: int): int
    requires y > 0
  {
    if x >= 0 then x / y else -(-x / y)
  }

  /** How long the list waits for a message before it looks at its tasks again. */
  function WaitTime(cache: int, now: int): int {
    Quotient(Min(ToInt32(cache - now + SLICE_MARGIN), MAXIMUM_INTERVAL - SECOND), SECOND) * SECOND + SECOND
  }

  /** The wait is a whole number of seconds from one to fifteen exactly when the distance
      to the next task does not wrap around to minus one second or less. */
  lemma WaitInRange(cache: int, now: int)
    ensures WaitTime(cache, now) % SECOND == 0
    ensures SECOND <= WaitTime(cache, now) <= MAXIMUM_INTERVAL <==> ToInt32(cache - now + SLICE_MARGIN) > -SECOND
  {
  }

  /** A task thirty days ahead makes the wait negative. */
  lemma FarTaskWait(now: int)
    ensures WaitTime(now + 30 * 24 * 3600 * SECOND, now) < 0
  {
  }

  // ----- every task starts on time -----

  datatype Agenda = Agenda(tasks: seq<Task>, cache: int)

  function Wake(a: Agenda, now: int): Agenda {
    if a.cache == 0 || now < a.cache then a
    else Agenda(Kept(a.tasks, now), CacheAfter(a.tasks, now, a.cache, |a.tasks|))
  }

  /** The list wakes at these times: each sleep may be cut short by a message but does not
      outlast the wait computed. */
  ghost predicate Sleeps(a: Agenda, times: seq<int>)
    decreases |times|
  {
    times == [] ||
    ((|times| > 1 ==> times[0] <= times[1] <= times[0] + WaitTime(Wake(a, times[0]).cache, times[0]))
     && Sleeps(Wake(a, times[0]), times[1..]))
  }

  /** Every task started at one of these times starts at most `late` after its time. */
  ghost predicate Punctual(a: Agenda, times: seq<int>, late: int)
    decreases |times|
  {
    times == [] ||
    ((forall t :: t in a.tasks && IsDue(t, times[0]) ==> times[0] <= t.next + late)
     && Punctual(Wake(a, times[0]), times[1..], late))
  }

  lemma WakeKeepsCache(a: Agenda, now: int)
    requires IsCache(a.tasks, a.cache) && a.tasks != [] && AllPeriodic(a.tasks) && now > 0
    ensures var b := Wake(a, now);
            && IsCache(b.tasks, b.cache) && AllPeriodic(b.tasks) && |b.tasks| == |a.tasks| && b.cache > now
            && (forall t :: t in b.tasks ==> !IsDue(t, now))
  {
    if now >= a.cache {
      CachedMinimum(a.tasks, now, a.cache);
    } else {
      MinNextIsLeast(a.tasks);
    }
  }

  /** After every one of these wakings the cached time is the least next time, and no task is
      due. */
  ghost predicate StaysCached(a: Agenda, times: seq<int>)
    decreases |times|
  {
    times == [] ||
    (var b := Wake(a, times[0]);
     && IsCache(b.tasks, b.cache) && b.cache > times[0]
     && (forall t :: t in b.tasks ==> !IsDue(t, times[0]))
     && StaysCached(b, times[1..]))
  }

  /** Over any run of periodic tasks, whenever the list wakes, the cached time stays the least
      next time and nothing due is left. */
  lemma {:induction false} CacheStaysExact(a: Agenda, times: seq<int>)
    requires IsCache(a.tasks, a.cache) && a.tasks != [] && AllPeriodic(a.tasks)
    requires forall i :: 0 <= i < |times| ==> times[i] > 0
    ensures StaysCached(a, times)
    decreases |times|
  {
    if times != [] {
      WakeKeepsCache(a, times[0]);
      CacheStaysExact(Wake(a, times[0]), times[1..]);
    }
  }

  /** Over any run of periodic tasks, every start is at most 1016 ms late, provided the
      first waking is. */
  lemma StartsOnTime(a: Agenda, times: seq<int>)
    requires IsCache(a.tasks, a.cache) && a.tasks != [] && AllPeriodic(a.tasks)
    requires Sleeps(a, times) && (times != [] ==> 0 < times[0] <= a.cache + SECOND + SLICE_MARGIN)
    ensures Punctual(a, times, SECOND + SLICE_MARGIN)
  {
    PeriodicNeverForgets(a, times);
    MinNextIsLeast(a.tasks);
    RemembersOnTime(a, times);
  }

  // ----- with one-time tasks -----

  /** The cached time is not later than any task. */
  ghost predicate IsEarly(a: Agenda) {
    && (forall t :: t in a.tasks ==> t.next > 0)
    && (a.tasks != [] ==> 0 < a.cache <= MinNext(a.tasks))
  }

  /** No pass of the run forgets a task. */
  predicate Remembers(a: Agenda, times: seq<int>)
    decreases |times|
  {
    times == [] ||
    ((a.cache != 0 && times[0] >= a.cache ==> !Forgets(a.tasks, times[0])) && Remembers(Wake(a, times[0]), times[1..]))
  }

  lemma {:induction false} CacheFrom(tasks: seq<Task>, now: int, cache: int, j: nat, floor: int)
    requires 0 < j <= |tasks| && cache <= now && floor <= now && forall t :: t in tasks ==> t.next >= floor
    ensures CacheAfter(tasks, now, cache, j) >= floor
  {
    assert tasks[j - 1] in tasks;
    VisitedIsLater(tasks[j - 1], now);
    if j > 1 {
      CacheFrom(tasks, now, cache, j - 1, floor);
    }
  }

  /** A waking that forgets nothing leaves no task due, and a cached time not later than any
      task and at most `late` behind. */
  lemma WakeStaysEarly(a: Agenda, now: int, late: nat)
    requires IsEarly(a) && now > 0 && (a.cache != 0 && now >= a.cache ==> !Forgets(a.tasks, now))
    requires forall t :: t in a.tasks ==> now <= t.next + late
    ensures var b := Wake(a, now);
            && IsEarly(b)
            && (forall t :: t in b.tasks ==> t.next > now)
            && (b.tasks != [] ==> b.cache >= now - late)
  {
    if a.tasks == [] {
      assert Kept(a.tasks, now) == [];
    } else if now >= a.cache {
      CacheFrom(a.tasks, now, a.cache, |a.tasks|, if now - late > 1 then now - late else 1);
      KeptIsLater(a.tasks, now);
      if Kept(a.tasks, now) != [] {
        CacheIsLate(a.tasks, now, a.cache);
      }
    } else {
      MinNextIsLeast(a.tasks);
    }
  }

  /** A sleep begun with no task due ends at most 1016 ms after the next one is, even when
      the cached time has just passed. */
  lemma EarlyOvershoot(cache: int, next: int, now: int)
    requires now - SECOND - SLICE_MARGIN <= cache <= next && now < next
    ensures now + WaitTime(cache, now) <= next + SECOND + SLICE_MARGIN
  {
  }

  /** Over any run, with one-time tasks as well, every start is at most 1016 ms late as long
      as no pass forgets a task. */
  lemma {:induction false} RemembersOnTime(a: Agenda, times: seq<int>)
    requires IsEarly(a) && Sleeps(a, times) && Remembers(a, times)
    requires times != [] ==> times[0] > 0 && forall t :: t in a.tasks ==> times[0] <= t.next + SECOND + SLICE_MARGIN
    ensures Punctual(a, times, SECOND + SLICE_MARGIN)
    decreases |times|
  {
    if times != [] {
      var b := Wake(a, times[0]);
      WakeStaysEarly(a, times[0], SECOND + SLICE_MARGIN);
      if |times| > 1 && b.tasks != [] {
        MinNextIsLeast(b.tasks);
        EarlyOvershoot(b.cache, MinNext(b.tasks), times[0]);
      }
      RemembersOnTime(b, times[1..]);
    }
  }

  lemma {:induction false} PeriodicNeverForgets(a: Agenda, times: seq<int>)
    requires AllPeriodic(a.tasks)
    ensures Remembers(a, times)
    decreases |times|
  {
    if times != [] {
      NoneExpires(a.tasks, times[0]);
      assert a.tasks[..0] == [];
      KeptIsLater(a.tasks, times[0]);
      PeriodicNeverForgets(Wake(a, times[0]), times[1..]);
    }
  }

  /** A pass that forgets makes a task late: of the three tasks above, the one due at 6000
      is started at 10000. */
  lemma ForgottenTaskIsLate()
    ensures var a, times := Agenda(LATE_TASKS, 1000), [1000, 10000];
            && IsEarly(a) && Sleeps(a, times) && !Remembers(a, times)
            && !Punctual(a, times, SECOND + SLICE_MARGIN)
  {
    var a, times := Agenda(LATE_TASKS, 1000), [1000, 10000];
    CacheIsLateExample();
    CacheIsLate(LATE_TASKS, 1000, 1000);
    var b := Wake(a, 1000);
    assert b == Agenda([SOON, LATER], 9000);
    assert times[1..] == [10000] && [10000][1..] == [];
    assert WaitTime(9000, 1000) == 9000;
    assert Sleeps(b, [10000]);
    assert SOON in b.tasks && IsDue(SOON, 10000);
    assert !Punctual(b, [10000], SECOND + SLICE_MARGIN);
  }

}
