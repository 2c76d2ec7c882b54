/** The task list of the server list as an object: adding tasks, running the due ones and
    computing the wait. */
module TaskLists {
  import opened Lists
  import opened Scheduling

  /** The tasks due among these, in list order. */
  function DueOnly(tasks: seq<Task>, now: int): seq<Task> { Select(tasks, (t: Task) => IsDue(t, now)) }

  /** A pass has visited the first `k` of the tasks `was`: it is at place `i` of the list, and
      these have run. */
  ghost predicate IsPass(was: seq<Task>, now: int, cache: int, k: nat, i: nat, a: Agenda, ran: seq<Task>) {
    && k <= |was| && i == |Kept(was[..k], now)| && a.tasks == Kept(was[..k], now) + was[k..]
    && a.cache == CacheAfter(was, now, cache, k) && ran == DueOnly(was[..k], now)
  }

  lemma PassNext(was: seq<Task>, now: int, cache: int, k: nat, i: nat, a: Agenda, ran: seq<Task>)
    requires IsPass(was, now, cache, k, i, a, ran) && i < |a.tasks|
    ensures k < |was| && a.tasks[i] == was[k]
    ensures var t, list := was[k], a.tasks[..i] + a.tasks[i + 1..];
            var u := Visit(t, now);
            var c := if u.next < a.cache || now >= a.cache then u.next else a.cache;
            if Expires(t, now) then
              var next := Agenda(list, if list == [] then now + MINIMUM_INTERVAL else c);
              IsPass(was, now, cache, k + 1, i, next, ran + [t])
            else
              var next := Agenda(a.tasks[i := u], c);
              IsPass(was, now, cache, k + 1, i + 1, next, if IsDue(t, now) then ran + [t] else ran)
  {
    var kept, t := Kept(was[..k], now), was[k];
    AtCursor(was, k, kept, a.tasks);
    assert was[..k + 1][..k] == was[..k];
    if Expires(t, now) {
      assert Kept(was[..k + 1], now) == kept;
      assert a.tasks[..i] + a.tasks[i + 1..] == kept + was[k + 1..];
    }
  }

  class TaskList {
    var tasks: seq<Task>
    var nextTaskRunTime: int

    function State(): Agenda
      reads this
    {
      Agenda(tasks, nextTaskRunTime)
    }

    constructor ()
      ensures State() == Agenda([], 0)
    {
      tasks, nextTaskRunTime := [], 0;
    }

    method Add(t: Task)
      requires IsCache(tasks, nextTaskRunTime) && t.next > 0
      modifies this
      ensures tasks == old(tasks) + [t] && IsCache(tasks, nextTaskRunTime)
    {
      AddKeepsCache(tasks, nextTaskRunTime, t);
      if nextTaskRunTime > t.next || nextTaskRunTime == 0 {
        nextTaskRunTime := t.next;
      }
      tasks := tasks + [t];
    }

    /** A task that runs every `interval` seconds from now on. */
    method AddTask(kind: int, interval: int, now: int)
      requires IsCache(tasks, nextTaskRunTime) && now + SECOND * interval > 0
      modifies this
      ensures tasks == old(tasks) + [Task(kind, interval, now + SECOND * interval, false, 0)]
      ensures IsCache(tasks, nextTaskRunTime)
    {
      Add(Task(kind, interval, now + SECOND * interval, false, 0));
    }

    /** A task that runs at `firstRun` and every `interval` seconds after it. */
    method AddFixedTask(kind: int, firstRun: int, interval: int)
      requires IsCache(tasks, nextTaskRunTime) && firstRun > 0
      modifies this
      ensures tasks == old(tasks) + [Task(kind, interval, firstRun, true, 0)]
      ensures IsCache(tasks, nextTaskRunTime)
    {
      Add(Task(kind, interval, firstRun, true, 0));
    }

    static method VisitTask(t: Task, now: int) returns (u: Task, expired: bool)
      requires IsDue(t, now)
      ensures u == Visit(t, now) && (expired <==> Expires(t, now))
    {
      u, expired := t.(lastRan := now), false;
      if t.interval > 0 {
        if t.fixed {
          u := u.(next := t.next + ((now - t.next) / (SECOND * t.interval) + 1) * (SECOND * t.interval));
        } else {
          u := u.(next := now + SECOND * t.interval);
        }
      } else {
        expired := true;
      }
    }

    /** One pass of the list at time `now`; `ran` are the tasks that ran, as they were. */
    method RunDue(now: int) returns (ran: seq<Task>)
      modifies this
      ensures State() == Wake(old(State()), now)
      ensures ran == if old(nextTaskRunTime) != 0 && now >= old(nextTaskRunTime) then DueOnly(old(tasks), now) else []
    {
      ran := [];
      if nextTaskRunTime != 0 && now >= nextTaskRunTime {
        ghost var was := tasks;
        ghost var k := 0;
        var i := 0;
        while i < |tasks|
          invariant IsPass(was, now, old(nextTaskRunTime), k, i, State(), ran)
          decreases |was| - k
        {
          PassNext(was, now, old(nextTaskRunTime), k, i, State(), ran);
          var t := tasks[i];
          var u, expired := t, false;
          if now >= t.next {
            u, expired := VisitTask(t, now);
            ran := ran + [t];
          }
          if u.next < nextTaskRunTime || now >= nextTaskRunTime {
            nextTaskRunTime := u.next;
          }
          if expired {
            tasks := tasks[..i] + tasks[i + 1..];
            if |tasks| == 0 {
              nextTaskRunTime := now + MINIMUM_INTERVAL;
            }
          } else {
            tasks := tasks[i := u];
            i := i + 1;
          }
          k := k + 1;
        }
        assert was[..|was|] == was;
      }
    }

    method ComputeWait(now: int) returns (waitMs: int)
      ensures waitMs == WaitTime(nextTaskRunTime, now)
      ensures ToInt32(nextTaskRunTime - now + SLICE_MARGIN) > -SECOND ==> SECOND <= waitMs <= MAXIMUM_INTERVAL
    {
      WaitInRange(nextTaskRunTime, now);
      var gap := ToInt32(nextTaskRunTime - now + SLICE_MARGIN);
      var bounded := if gap < MAXIMUM_INTERVAL - SECOND then gap else MAXIMUM_INTERVAL - SECOND;
      waitMs := Quotient(bounded, SECOND) * SECOND + SECOND;
    }
  }

}
