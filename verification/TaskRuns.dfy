/** How far apart the starts of one task are, over every run of the task list. */
module TaskRuns {
  import opened Numbers
  import opened Scheduling

  // ----- one start -----

  /** A task that runs again and is found due after a start: a fixed-time one in the next
      period of its grid, any other one whole period after the start at the earliest. */
  lemma NextStart(t: Task, now: int)
    requires IsPeriodic(t) && IsDue(t, now)
    ensures var u := Visit(t, now);
            && u.interval == t.interval && u.fixed == t.fixed && u.kind == t.kind && u.lastRan == now
            && forall later :: IsDue(u, later) ==> later > now && (!t.fixed ==> later >= now + 1000 * t.interval)
    ensures IsDue(Visit(t, now), now + 1000 * t.interval)
  {
    VisitedIsLater(t, now);
  }

  /** The configured first run is kept if it lies ahead, and is otherwise the first point
      after now on its grid. */
  lemma FirstRunIsNext(configured: int, interval: int, now: int)
    requires interval > 0
    ensures var first := FirstRun(configured, interval, now);
            && (configured >= now ==> first == configured)
            && (configured < now ==> now < first <= now + 1000 * interval && OnGrid(first, configured, 1000 * interval))
  {
    if configured < now {
      GridStep(configured, 1000 * interval, now);
    }
  }

  // ----- sleeping long enough -----

  /** A sleep that is not interrupted lasts until the next task is due, or fifteen seconds
      if that is later. */
  lemma SleepIsLongEnough(cache: int, now: int)
    requires now <= cache && cache - now < 0x7000_0000
    ensures var wait := WaitTime(cache, now);
            if cache - now < 14 * 1000 - 16 then now + wait > cache else wait == 15 * 1000
  {
  }

  // ----- the starts of one task -----

  lemma {:induction false} KeptAt(tasks: seq<Task>, now: int, i: nat)
    requires AllPeriodic(tasks) && i < |tasks|
    ensures |Kept(tasks, now)| == |tasks| && Kept(tasks, now)[i] == Visit(tasks[i], now)
  {
    KeptIsLater(tasks, now);
    var init, t := tasks[..|tasks| - 1], tasks[|tasks| - 1];
    assert t in tasks && tasks == init + [t];
    assert Kept(tasks, now) == Kept(init, now) + [Visit(t, now)];
    KeptIsLater(init, now);
    if i < |init| {
      KeptAt(init, now, i);
    }
  }

  /** A pass removes exactly the one-time tasks that are due; every other task is kept, as it
      was or rescheduled. */
  lemma {:induction false} OnlyExpiredAreRemoved(tasks: seq<Task>, now: int)
    ensures forall t :: t in tasks && !(t.interval <= 0 && now >= t.next) ==> Visit(t, now) in Kept(tasks, now)
    ensures forall t :: t in tasks && now < t.next ==> t in Kept(tasks, now)
    ensures forall u :: u in Kept(tasks, now) ==>
              exists t :: t in tasks && u == Visit(t, now) && !(t.interval <= 0 && now >= t.next)
  {
    if tasks != [] {
      var init, t := tasks[..|tasks| - 1], tasks[|tasks| - 1];
      assert tasks == init + [t];
      OnlyExpiredAreRemoved(init, now);
      forall u | u in Kept(tasks, now)
        ensures exists v :: v in tasks && u == Visit(v, now) && !(v.interval <= 0 && now >= v.next)
      {
        if u in Kept(init, now) {
          var v :| v in init && u == Visit(v, now) && !(v.interval <= 0 && now >= v.next);
          assert v in tasks;
        } else {
          assert t in tasks && u == Visit(t, now);
        }
      }
    }
  }

  /** When the last task is removed, the list looks again after three seconds, and so waits
      for four. */
  lemma LastTaskLeaves(tasks: seq<Task>, now: int, cache: int)
    requires tasks != [] && now >= cache && Kept(tasks, now) == []
    ensures CacheAfter(tasks, now, cache, |tasks|) == now + 3000 && WaitTime(now + 3000, now) == 4000
  {
    assert tasks[..|tasks|] == tasks;
  }

  /** When the last task of the list is removed and others stay, the cached time is left at
      the time of that task. */
  lemma RemovedTaskLeavesItsTime(tasks: seq<Task>, now: int, cache: int)
    requires tasks != [] && now >= cache && Kept(tasks, now) != []
    requires var t := tasks[|tasks| - 1]; t.interval <= 0 && now >= t.next
    ensures CacheAfter(tasks, now, cache, |tasks|) == tasks[|tasks| - 1].next
  {
    assert tasks[..|tasks|] == tasks;
  }

  /** The times at which task `i` is started when the list wakes at these times. */
  function StartsOf(a: Agenda, times: seq<int>, i: nat): seq<int>
    decreases |times|
  {
    if times == [] then [] else
      var started := a.cache != 0 && times[0] >= a.cache && i < |a.tasks| && IsDue(a.tasks[i], times[0]);
      (if started then [times[0]] else []) + StartsOf(Wake(a, times[0]), times[1..], i)
  }

  /** The first start is in [first, first + late], and each one from `low` to `high` after the
      one before. */
  ghost predicate Spaced(starts: seq<int>, first: int, late: int, low: int, high: int) {
    && (starts != [] ==> first <= starts[0] <= first + late)
    && forall i :: 0 <= i < |starts| - 1 ==> starts[i] + low <= starts[i + 1] <= starts[i] + high
  }

  lemma SpacedAfter(start: int, rest: seq<int>, next: int, first: int, late: int, low: int, high: int)
    requires first <= start <= first + late && Spaced(rest, next, late, low, high)
    requires start + low <= next && next + late <= start + high
    ensures Spaced([start] + rest, first, late, low, high)
  {
    var all := [start] + rest;
    assert forall i :: 0 < i < |all| ==> all[i] == rest[i - 1];
  }

  /** When the list wakes, a periodic task is started exactly if it is due, and keeps its
      place. */
  lemma WakeAt(a: Agenda, now: int, i: nat)
    requires IsCache(a.tasks, a.cache) && AllPeriodic(a.tasks) && i < |a.tasks| && now > 0
    ensures var b := Wake(a, now);
            && IsCache(b.tasks, b.cache) && AllPeriodic(b.tasks) && i < |b.tasks|
            && b.tasks[i] == Visit(a.tasks[i], now)
            && (IsDue(a.tasks[i], now) ==> now >= a.cache)
  {
    WakeKeepsCache(a, now);
    KeptAt(a.tasks, now, i);
    MinNextIsLeast(a.tasks);
    assert a.tasks[i] in a.tasks;
  }

  /** The starts of a task from its next time on: at most 1016 ms late, and apart by at least
      its period, unless it is fixed-time, and at most its period and 1016 ms. */
  ghost predicate WellSpaced(t: Task, starts: seq<int>) {
    Spaced(starts, t.next, 1016, if t.fixed then 1 else 1000 * t.interval, 1000 * t.interval + 1016)
  }

  lemma SpacedFrom(t: Task, now: int, rest: seq<int>)
    requires IsPeriodic(t) && IsDue(t, now) && now <= t.next + 1016 && WellSpaced(Visit(t, now), rest)
    ensures WellSpaced(t, [now] + rest)
  {
    VisitedIsLater(t, now);
    NextStart(t, now);
    var u := Visit(t, now);
    assert IsDue(u, u.next);
    SpacedAfter(now, rest, u.next, t.next, 1016, if t.fixed then 1 else 1000 * t.interval, 1000 * t.interval + 1016);
  }

  /** The list wakes again at most 1016 ms after the next task is due. */
  lemma NextWaking(a: Agenda, times: seq<int>)
    requires IsCache(a.tasks, a.cache) && a.tasks != [] && AllPeriodic(a.tasks) && |times| > 1
    requires Sleeps(a, times) && 0 < times[0]
    ensures 0 < times[1] <= Wake(a, times[0]).cache + SECOND + SLICE_MARGIN && Sleeps(Wake(a, times[0]), times[1..])
  {
    WakeKeepsCache(a, times[0]);
    EarlyOvershoot(Wake(a, times[0]).cache, Wake(a, times[0]).cache, times[0]);
  }

  /** Over every run of periodic tasks the starts of each task are spaced so. */
  lemma {:induction false} StartsAreSpaced(a: Agenda, times: seq<int>, i: nat)
    requires IsCache(a.tasks, a.cache) && AllPeriodic(a.tasks) && i < |a.tasks|
    requires Sleeps(a, times) && (times != [] ==> 0 < times[0] <= a.cache + SECOND + SLICE_MARGIN)
    ensures WellSpaced(a.tasks[i], StartsOf(a, times, i))
    decreases |times|
  {
    if times != [] {
      var t, now, b := a.tasks[i], times[0], Wake(a, times[0]);
      WakeAt(a, now, i);
      if |times| > 1 {
        NextWaking(a, times);
      }
      StartsAreSpaced(b, times[1..], i);
      MinNextIsLeast(a.tasks);
      assert t in a.tasks;
      if IsDue(t, now) {
        SpacedFrom(t, now, StartsOf(b, times[1..], i));
      } else {
        assert [] + StartsOf(b, times[1..], i) == StartsOf(b, times[1..], i);
      }
    }
  }

}
