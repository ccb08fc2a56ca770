// The scanner service (services/network_scanner.py, class NetworkScanner): the maps of
// active and completed jobs, their cancel events and their background tasks, and the
// lifecycle of one background run. A task is modelled by whether its cancellation was
// requested; the run itself is split at its only interleaving point, so that cancel
// and cleanup requests can come between its start and its end.
module ScannerRegistry {
  import opened Wrappers
  import opened ScanTypes
  import opened ScanJobs
  import opened ScanSpec
  import opened ScanEngine
  import Text

  /** How the awaited scan ended: it returned, `wait_for` timed out, the task was cancelled,
      or the scan raised an exception with the given text. */
  datatype RunOutcome = Returned | TimedOutAfterLimit | TaskCancelled | Raised(message: string)

  const StaleMessage := "Scan timed out or was stuck"

  function TimeoutMessage(timeout: int): string
  {
    "Scan timed out after " + Text.IntToString(timeout) + " seconds"
  }

  function FailureMessage(message: string): string
  {
    "Scan failed: " + message
  }

  class NetworkScanner {
    var activeJobs: map<string, ScanJob>
    var completedJobs: map<string, ScanJob>
    var cancelEvents: map<string, CancelEvent>
    /** The background task of each job: true once `task.cancel()` was called on it. */
    var runningTasks: map<string, bool>

    /** Every job is filed under its own id and in one map only; every active job and every
        task has its cancel event, and events belong to one job each. */
    ghost predicate Valid()
      reads this
    {
      Filed(activeJobs, completedJobs, cancelEvents, runningTasks)
    }

    constructor ()
      ensures Valid()
      ensures activeJobs == map[] && completedJobs == map[] && cancelEvents == map[] && runningTasks == map[]
    {
      activeJobs := map[];
      completedJobs := map[];
      cancelEvents := map[];
      runningTasks := map[];
    }

    /** `start_scan(options)`: `id` stands for the fresh `uuid4()` of the new job. */
    method StartScan(id: string, options: Option<ScanOptions>) returns (job: ScanJob)
      requires Valid() && id !in activeJobs && id !in completedJobs && id !in cancelEvents
      modifies this
      ensures Valid() && fresh(job)
      ensures job.id == id && job.options == options.GetOr(DefaultOptions) && job.status == Ready
      ensures activeJobs == old(activeJobs)[id := job] && completedJobs == old(completedJobs)
      ensures id in cancelEvents && fresh(cancelEvents[id]) && cancelEvents[id].firesAt.None?
      ensures cancelEvents.Keys == old(cancelEvents.Keys) + {id}
      ensures forall k :: k in old(cancelEvents) ==> cancelEvents[k] == old(cancelEvents[k])
      ensures runningTasks == old(runningTasks)[id := false]
    {
      job := new ScanJob(id, options.GetOr(DefaultOptions));
      activeJobs := activeJobs[id := job];
      var event := new CancelEvent();
      cancelEvents := cancelEvents[id := event];
      runningTasks := runningTasks[id := false];
    }

    /** `cancel_scan(id)`: only a running active job can be cancelled, by setting its event. */
    method CancelScan(id: string) returns (b: bool)
      requires Valid()
      modifies if id in cancelEvents then {cancelEvents[id]} else {}
      ensures b <==> id in activeJobs && activeJobs[id].status == Running
      ensures b ==> Fired(cancelEvents[id].firesAt, cancelEvents[id].polls)
      ensures !b ==> id in cancelEvents ==> unchanged(cancelEvents[id])
    {
      if id !in activeJobs {
        return false;
      }
      var job := activeJobs[id];
      if job.status != Running {
        return false;
      }
      if id in cancelEvents {
        cancelEvents[id].Set();
      }
      return true;
    }

    /** `get_scan_status(id)`: active jobs first, then completed ones. */
    function ScanStatusOf(id: string): (r: Option<ScanJob>)
      requires Valid()
      reads this
      ensures r.Some? <==> id in activeJobs || id in completedJobs
      ensures r.Some? ==> r.value.id == id
      ensures id in activeJobs ==> r == Some(activeJobs[id])
      ensures id !in activeJobs && id in completedJobs ==> r == Some(completedJobs[id])
    {
      if id in activeJobs then Some(activeJobs[id])
      else if id in completedJobs then Some(completedJobs[id])
      else None
    }

    /** The ids of the active jobs that are stale at time `now`. */
    function StaleIds(now: int, timeout: int): set<string>
      reads this, activeJobs.Values
    {
      set id | id in activeJobs && activeJobs[id].IsStale(now, timeout)
    }

    /** `cleanup_stale_jobs(timeout)`: every stale job is failed, its event set, its task
        cancelled and the job moved to the completed jobs; the others stay as they were. */
    method CleanupStaleJobs(now: int, timeout: int) returns (count: nat)
      requires Valid()
      modifies this, activeJobs.Values, cancelEvents.Values
      ensures Valid()
      ensures var s := old(StaleIds(now, timeout));
        count == |s|
        && activeJobs == old(activeJobs) - s
        && completedJobs == old(completedJobs) + Picked(old(activeJobs), s)
        && runningTasks == TasksCancelled(old(runningTasks), s)
        && cancelEvents == old(cancelEvents)
        && (forall id :: id in s ==> Retired(completedJobs[id], now)
                                     && Fired(cancelEvents[id].firesAt, cancelEvents[id].polls))
        && (forall id :: id in activeJobs ==> unchanged(activeJobs[id]) && !activeJobs[id].IsStale(now, timeout))
      ensures StaleIds(now, timeout) == {}
    {
      var stale := FailStaleJobs(now, timeout);
      RetireJobs(stale);
      count := |stale|;
    }

    /** The opening of `_run_scan_job`, up to its first `await`. A task cancelled before its
        first step never runs its body; a job no longer active makes the lookup raise, and
        only the `finally` clause runs; otherwise the job is marked started. */
    method StartRun(id: string, now: int) returns (job: Option<ScanJob>)
      requires Valid() && id in runningTasks
      modifies this, if id in activeJobs then {activeJobs[id]} else {}
      ensures Valid()
      ensures job.Some? <==> !old(runningTasks[id]) && id in old(activeJobs)
      ensures old(runningTasks[id]) ==> unchanged(this)
      ensures !old(runningTasks[id]) && id !in old(activeJobs) ==>
                activeJobs == old(activeJobs) && completedJobs == old(completedJobs)
                && cancelEvents == old(cancelEvents) - {id} && runningTasks == old(runningTasks) - {id}
      ensures job.Some? ==>
                unchanged(this) && id in activeJobs && job.value == activeJobs[id]
                && job.value.status == Running && job.value.startTime == Some(now) && job.value.progress == 0
                && job.value.options == old(job.value.options) && job.value.result == old(job.value.result)
                && job.value.partialResults == old(job.value.partialResults)
    {
      if runningTasks[id] {
        return None;
      }
      if id !in activeJobs {
        cancelEvents := cancelEvents - {id};
        runningTasks := runningTasks - {id};
        return None;
      }
      var j := activeJobs[id];
      j.MarkStarted(now);
      return Some(j);
    }

    /** The rest of `_run_scan_job` for a started `job`: the awaited scan ends as `outcome`
        says (a cancelled task always ends in `CancelledError`), the job is marked, moved to
        the completed jobs if it is still active, and its event and task are dropped. When
        the scan returns, `cancelAt` is the poll before which a concurrent `cancel_scan`
        sets the event, if one does. */
    method FinishRun(id: string, job: ScanJob, outcome: RunOutcome, env: Probes, cancelAt: Option<nat>, now: int)
      returns (ended: RunOutcome)
      requires Valid() && id in runningTasks && job.id == id && job.startTime.Some?
      requires (id in activeJobs && activeJobs[id] == job) || (id in completedJobs && completedJobs[id] == job)
      modifies this, job, cancelEvents[id]
      ensures Valid()
      ensures ended == if old(runningTasks[id]) then TaskCancelled else outcome
      ensures activeJobs == old(activeJobs) - {id} && completedJobs == old(completedJobs)[id := job]
      ensures cancelEvents == old(cancelEvents) - {id} && runningTasks == old(runningTasks) - {id}
      ensures job.endTime == Some(now) && job.options == old(job.options) && job.startTime == old(job.startTime)
      ensures ended.Returned? ==>
                var ev := old(cancelEvents[id]);
                ev.firesAt == SetAt(old(ev.firesAt), cancelAt) && job.status == Completed && job.progress == 100
                && var out := Scan(old(job.options), env, ev.firesAt, old(ev.polls), old(job.progress), old(job.partialResults));
                   job.partialResults == out.1.partials && job.result == Stamped(out.0, now - job.startTime.value)
      ensures ended.TimedOutAfterLimit? ==>
                job.status == Failed && job.errorMessage == Some(TimeoutMessage(job.options.timeout))
      ensures ended.TaskCancelled? ==> job.status == Cancelled
      ensures ended.Raised? ==> job.status == Failed && job.errorMessage == Some(FailureMessage(ended.message))
      ensures !ended.Returned? ==> job.partialResults == old(job.partialResults) && job.progress == old(job.progress)
    {
      ended := if runningTasks[id] then TaskCancelled else outcome;
      AwaitScan(job, cancelEvents[id], ended, env, cancelAt, now);
      ReleaseJob(id, job);
    }

    /** The end of `_run_scan_job`: the job moves to the completed jobs if it is still
        active, and the `finally` clause drops its event and task. */
    method ReleaseJob(id: string, job: ScanJob)
      requires Valid() && id in runningTasks && job.id == id
      requires (id in activeJobs && activeJobs[id] == job) || (id in completedJobs && completedJobs[id] == job)
      modifies this
      ensures Valid()
      ensures activeJobs == old(activeJobs) - {id} && completedJobs == old(completedJobs)[id := job]
      ensures cancelEvents == old(cancelEvents) - {id} && runningTasks == old(runningTasks) - {id}
    {
      ReleaseKeepsFiled(activeJobs, completedJobs, cancelEvents, runningTasks, id, job);
      if id in activeJobs {
        completedJobs := completedJobs[id := job];
        activeJobs := activeJobs - {id};
      }
      cancelEvents := cancelEvents - {id};
      runningTasks := runningTasks - {id};
    }

    /** The first loop of `cleanup_stale_jobs`: mark every stale active job failed. */
    method FailStaleJobs(now: int, timeout: int) returns (stale: set<string>)
      requires forall id :: id in activeJobs ==> activeJobs[id].id == id
      modifies activeJobs.Values
      ensures stale == old(StaleIds(now, timeout)) && stale <= activeJobs.Keys
      ensures forall id :: id in stale ==> Retired(activeJobs[id], now)
      ensures forall id :: id in activeJobs && id !in stale ==> unchanged(activeJobs[id]) && !activeJobs[id].IsStale(now, timeout)
    {
      stale := {};
      var rest := activeJobs.Keys;
      ghost var done: set<string> := {};
      while rest != {}
        invariant rest + done == activeJobs.Keys && rest !! done && stale <= done
        invariant forall id :: id in done ==> (id in stale <==> old(activeJobs[id].IsStale(now, timeout)))
        invariant forall id :: id in activeJobs && id !in stale ==> unchanged(activeJobs[id])
        invariant forall id :: id in stale ==> Retired(activeJobs[id], now)
        invariant forall id :: id in done && id !in stale ==> !activeJobs[id].IsStale(now, timeout)
        decreases rest
      {
        var id :| id in rest;
        var job := activeJobs[id];
        assert job.id == id;
        var failed := FailIfStale(job, now, timeout);
        if failed {
          stale := stale + {id};
        }
        rest := rest - {id};
        done := done + {id};
      }
      assert stale == old(StaleIds(now, timeout)) by {
        forall id ensures id in stale <==> id in old(StaleIds(now, timeout)) {
          assert id in stale ==> id in done;
        }
      }
    }

    /** The body of the second loop of `cleanup_stale_jobs` for one job. */
    method RetireJob(id: string)
      requires id in activeJobs && id in cancelEvents
      modifies this, cancelEvents[id]
      ensures activeJobs == old(activeJobs) - {id}
      ensures completedJobs == old(completedJobs)[id := old(activeJobs)[id]]
      ensures runningTasks == if id in old(runningTasks) then old(runningTasks)[id := true] else old(runningTasks)
      ensures cancelEvents == old(cancelEvents)
      ensures Fired(cancelEvents[id].firesAt, cancelEvents[id].polls)
      ensures forall k :: k in cancelEvents && old(Fired(cancelEvents[k].firesAt, cancelEvents[k].polls)) ==>
                Fired(cancelEvents[k].firesAt, cancelEvents[k].polls)
    {
      cancelEvents[id].Set();
      if id in runningTasks {
        runningTasks := runningTasks[id := true];
      }
      var job := activeJobs[id];
      activeJobs := activeJobs - {id};
      completedJobs := completedJobs[id := job];
    }

    /** The second loop of `cleanup_stale_jobs`: set the events, cancel the tasks and move the
        jobs named in `ids` to the completed jobs. */
    method RetireJobs(ids: set<string>)
      requires Valid() && ids <= activeJobs.Keys
      modifies this, cancelEvents.Values
      ensures Valid()
      ensures activeJobs == old(activeJobs) - ids
      ensures completedJobs == old(completedJobs) + Picked(old(activeJobs), ids)
      ensures runningTasks == TasksCancelled(old(runningTasks), ids)
      ensures cancelEvents == old(cancelEvents)
      ensures forall id :: id in ids ==> Fired(cancelEvents[id].firesAt, cancelEvents[id].polls)
    {
      RetireKeepsFiled(activeJobs, completedJobs, cancelEvents, runningTasks, ids);
      RetireEach(ids);
    }

    /** The loop of `RetireJobs`, one job at a time. */
    method RetireEach(ids: set<string>)
      requires ids <= activeJobs.Keys <= cancelEvents.Keys
      modifies this, cancelEvents.Values
      ensures activeJobs == old(activeJobs) - ids
      ensures completedJobs == old(completedJobs) + Picked(old(activeJobs), ids)
      ensures runningTasks == TasksCancelled(old(runningTasks), ids)
      ensures cancelEvents == old(cancelEvents)
      ensures forall id :: id in ids ==> Fired(cancelEvents[id].firesAt, cancelEvents[id].polls)
    {
      ghost var a0, c0, r0 := activeJobs, completedJobs, runningTasks;
      var rest := ids;
      ghost var done: set<string> := {};
      RetireNone(a0, c0, r0);
      while rest != {}
        invariant done + rest == ids && done !! rest
        invariant activeJobs == a0 - done
        invariant completedJobs == c0 + Picked(a0, done)
        invariant runningTasks == TasksCancelled(r0, done)
        invariant cancelEvents == old(cancelEvents)
        invariant forall id :: id in done ==> Fired(cancelEvents[id].firesAt, cancelEvents[id].polls)
        decreases rest
      {
        var id :| id in rest;
        RetireStep(a0, c0, r0, done, id);
        RetireJob(id);
        rest := rest - {id};
        done := done + {id};
      }
    }
  }

  /** The body of the first loop of `cleanup_stale_jobs` for one job: a stale job is marked
      failed as stuck, any other is left as it is. */
  method FailIfStale(job: ScanJob, now: int, timeout: int) returns (failed: bool)
    modifies job
    ensures failed == old(job.IsStale(now, timeout))
    ensures failed ==> Retired(job, now)
    ensures !failed ==> unchanged(job) && !job.IsStale(now, timeout)
  {
    failed := job.IsStale(now, timeout);
    if failed {
      job.MarkFailed(StaleMessage, now);
    }
  }

  /** A concurrent `cancel_scan` whose `set()` lands before poll `cancelAt`, if any. */
  function SetAt(firesAt: Option<nat>, cancelAt: Option<nat>): Option<nat>
  {
    if cancelAt.None? then firesAt
    else Some(if firesAt.Some? && firesAt.value <= cancelAt.value then firesAt.value else cancelAt.value)
  }

  /** The scan's result as `mark_completed` stamps it, `elapsed` seconds after the start. */
  function Stamped(r: ScanResult, elapsed: int): ScanResult
  {
    r.(scanTime := elapsed, deviceCount := |r.devices.entries|, connectionCount := |r.connections|)
  }

  /** The scan runs to its end: its result is stored and the job marked completed. */
  method CompleteScan(job: ScanJob, ev: CancelEvent, env: Probes, cancelAt: Option<nat>, now: int)
    requires job.startTime.Some?
    modifies job, ev
    ensures ev.firesAt == SetAt(old(ev.firesAt), cancelAt)
    ensures job.endTime == Some(now) && job.options == old(job.options) && job.startTime == old(job.startTime)
    ensures job.status == Completed && job.progress == 100
    ensures var out := Scan(old(job.options), env, ev.firesAt, old(ev.polls), old(job.progress), old(job.partialResults));
            job.partialResults == out.1.partials && job.result == Stamped(out.0, now - job.startTime.value)
  {
    if cancelAt.Some? {
      ev.SetBefore(cancelAt.value);
    }
    ghost var out := Scan(job.options, env, ev.firesAt, ev.polls, job.progress, job.partialResults);
    var r := PerformNetworkScan(job, ev, env);
    assert r == out.0 && job.partialResults == out.1.partials && ev.polls == out.1.polls;
    job.result := r;
    job.MarkCompleted(now);
  }

  /** The `try` block around `wait_for(_perform_network_scan(...))` and its handlers: the job
      ends completed with the scan's result, or failed or cancelled as `ended` says. */
  method AwaitScan(job: ScanJob, ev: CancelEvent, ended: RunOutcome, env: Probes, cancelAt: Option<nat>, now: int)
    requires job.startTime.Some?
    modifies job, ev
    ensures job.endTime == Some(now) && job.options == old(job.options) && job.startTime == old(job.startTime)
    ensures ended.Returned? ==>
              ev.firesAt == SetAt(old(ev.firesAt), cancelAt) && job.status == Completed && job.progress == 100
              && var out := Scan(old(job.options), env, ev.firesAt, old(ev.polls), old(job.progress), old(job.partialResults));
                 job.partialResults == out.1.partials && job.result == Stamped(out.0, now - job.startTime.value)
    ensures ended.TimedOutAfterLimit? ==>
              job.status == Failed && job.errorMessage == Some(TimeoutMessage(job.options.timeout))
    ensures ended.TaskCancelled? ==> job.status == Cancelled
    ensures ended.Raised? ==> job.status == Failed && job.errorMessage == Some(FailureMessage(ended.message))
    ensures !ended.Returned? ==> unchanged(ev) && job.partialResults == old(job.partialResults) && job.progress == old(job.progress)
  {
    match ended {
      case Returned =>
        CompleteScan(job, ev, env, cancelAt, now);
      case TimedOutAfterLimit =>
        job.MarkFailed(TimeoutMessage(job.options.timeout), now);
      case TaskCancelled =>
        job.MarkCancelled(now);
      case Raised(message) =>
        job.MarkFailed(FailureMessage(message), now);
    }
  }

  /** The jobs of `m` named in `ids`. */
  ghost function Picked(m: map<string, ScanJob>, ids: set<string>): map<string, ScanJob>
  {
    map id | id in ids && id in m :: m[id]
  }

  /** The tasks of `tasks`, with those named in `ids` cancelled. */
  ghost function TasksCancelled(tasks: map<string, bool>, ids: set<string>): map<string, bool>
  {
    map id | id in tasks :: id in ids || tasks[id]
  }

  /** Before the retiring loop nothing is retired. */
  lemma RetireNone(a0: map<string, ScanJob>, c0: map<string, ScanJob>, r0: map<string, bool>)
    ensures a0 - {} == a0 && c0 + Picked(a0, {}) == c0 && TasksCancelled(r0, {}) == r0
  {
  }

  /** One step of the retiring loop, on the maps it rebuilds. */
  lemma RetireStep(a0: map<string, ScanJob>, c0: map<string, ScanJob>, r0: map<string, bool>,
                   done: set<string>, id: string)
    requires id in a0 && id !in done
    ensures (a0 - done) - {id} == a0 - (done + {id})
    ensures (c0 + Picked(a0, done))[id := (a0 - done)[id]] == c0 + Picked(a0, done + {id})
    ensures (if id in TasksCancelled(r0, done) then TasksCancelled(r0, done)[id := true] else TasksCancelled(r0, done))
            == TasksCancelled(r0, done + {id})
  {
  }

  /** The registry invariant on the four maps of a scanner. */
  ghost predicate Filed(active: map<string, ScanJob>, completed: map<string, ScanJob>,
                        events: map<string, CancelEvent>, tasks: map<string, bool>)
  {
    active.Keys !! completed.Keys
    && (forall id :: id in active ==> active[id].id == id)
    && (forall id :: id in completed ==> completed[id].id == id)
    && active.Keys <= events.Keys
    && events.Keys == tasks.Keys
    && tasks.Keys <= active.Keys + completed.Keys
    && (forall a, b :: a in events && b in events && a != b ==> events[a] != events[b])
  }

  /** Moving the jobs `ids` from the active to the completed map and marking their tasks
      keeps the registry invariant. */
  lemma RetireKeepsFiled(a0: map<string, ScanJob>, c0: map<string, ScanJob>, e: map<string, CancelEvent>,
                         r0: map<string, bool>, ids: set<string>)
    requires Filed(a0, c0, e, r0) && ids <= a0.Keys
    ensures Filed(a0 - ids, c0 + Picked(a0, ids), e, TasksCancelled(r0, ids))
  {
  }

  /** Filing a finished job under the completed jobs and dropping its event and task keeps
      the registry invariant. */
  lemma ReleaseKeepsFiled(a: map<string, ScanJob>, c: map<string, ScanJob>, e: map<string, CancelEvent>,
                          r: map<string, bool>, id: string, job: ScanJob)
    requires Filed(a, c, e, r) && job.id == id
    requires (id in a && a[id] == job) || (id in c && c[id] == job)
    ensures id in a ==> Filed(a - {id}, c[id := job], e - {id}, r - {id})
    ensures id !in a ==> c[id := job] == c && Filed(a, c, e - {id}, r - {id})
  {
  }

  /** A job cleanup has failed as stuck at time `now`. */
  ghost predicate Retired(job: ScanJob, now: int)
    reads job
  {
    job.status == Failed && job.errorMessage == Some(StaleMessage) && job.endTime == Some(now)
  }
}
