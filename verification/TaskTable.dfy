/**
 The `tasks` table of app/tasks_engine.py: what each UPDATE does to one row, and a class whose methods
 issue those statements.  Times are whole seconds.
 */
module TaskTable {
  import opened Collections
  import opened Options

  datatype Status = Idle | Queued | Running | Failed | Disabled

  /** The names that the worker's ORDER BY and the media jobs worker look at, and all others. */
  datatype TaskName =
    | MonitorEnqueueRefresh | MediaJobsWorker | StreamEnforcer | MonitorCollectSessions
    | Named(text: string)

  datatype Task = Task(
    name: TaskName,
    enabled: bool,
    status: Status,
    queuedCount: int,
    retryCount: int,
    maxRetries: int,
    nextRetryAt: Option<int>,
    lastRun: Option<int>,
    lastAttemptAt: Option<int>,
    lastError: Option<string>,
    updatedAt: int)

  type Table = map<int, Task>

  const WATCHDOG_MESSAGE := "Watchdog: task was stuck in running state"
  const FAILSAFE_MESSAGE := "Failsafe: task exited without explicit status update"

  /** A task the worker's SELECT can return. */
  predicate Waiting(task: Task) {
    task.queuedCount > 0 && task.enabled
  }

  predicate SomeWaiting(rows: Table) {
    exists id :: id in rows && Waiting(rows[id])
  }

  // ----- row updates

  function Enqueued(task: Task, now: int): Task {
    if !task.enabled then task else
    task.(queuedCount := if task.queuedCount > 0 then task.queuedCount else 1,
          status := if task.status == Running then Running else Queued,
          updatedAt := now)
  }

  /** The only task whose execution arms another one, and the one it arms (app/tasks/media_jobs_worker.py). */
  predicate ArmsEnforcer(task: Task) {
    task.name.MediaJobsWorker?
  }

  predicate IsEnforcer(task: Task) {
    task.name.StreamEnforcer?
  }

  predicate CanBeArmed(task: Task) {
    task.enabled && task.queuedCount == 0 && task.status != Running
  }

  function Armed(task: Task, now: int): Task {
    if CanBeArmed(task) then task.(queuedCount := 1, status := Queued, updatedAt := now) else task
  }

  function Started(task: Task, now: int): Task {
    task.(status := Running,
          lastError := None,
          lastAttemptAt := Some(now),
          nextRetryAt := None,
          queuedCount := if task.queuedCount > 0 then task.queuedCount - 1 else 0,
          updatedAt := now)
  }

  function Succeeded(task: Task, now: int): Task {
    task.(status := if task.queuedCount > 0 then Queued else Idle,
          lastRun := Some(now),
          lastError := None,
          retryCount := 0,
          nextRetryAt := None,
          updatedAt := now)
  }

  /** Seconds before retry number `attempt`: 1, 5, 15, then 30 minutes. */
  function Backoff(attempt: int): int {
    if attempt <= 1 then 60 else if attempt == 2 then 300 else if attempt == 3 then 900 else 1800
  }

  /** `attempts` and `allowed` are the counters read by the SELECT that precedes the UPDATE. */
  function Errored(task: Task, message: string, attempts: int, allowed: int, now: int): Task {
    var status := if task.queuedCount > 0 then Queued else Failed;
    if attempts + 1 <= allowed then
      task.(status := status,
            lastRun := Some(now),
            lastError := Some(message),
            retryCount := attempts + 1,
            nextRetryAt := Some(now + Backoff(attempts + 1)),
            updatedAt := now)
    else
      task.(status := status,
            lastRun := Some(now),
            lastError := Some(message),
            nextRetryAt := None,
            updatedAt := now)
  }

  function Finalized(task: Task, now: int): Task {
    task.(status := Idle,
          lastError := if task.lastError.None? then Some(FAILSAFE_MESSAGE) else task.lastError,
          updatedAt := now)
  }

  predicate Stuck(task: Task, cutoff: int) {
    task.status == Running && task.updatedAt < cutoff
  }

  function Recovered(task: Task, cutoff: int, now: int): Task {
    if Stuck(task, cutoff) then
      task.(status := Idle, lastError := Some(WATCHDOG_MESSAGE), updatedAt := now)
    else
      task
  }

  /** The boot-time reset of app/core/tasks/runtime.py. */
  function Rebooted(task: Task, now: int): Task {
    if task.status in {Running, Queued, Idle} then
      task.(status := if !task.enabled then task.status else if task.queuedCount > 0 then Queued else Idle,
            updatedAt := now)
    else
      task
  }

  // ----- order in which the worker picks tasks

  function Priority(name: TaskName): int {
    match name
    case MonitorEnqueueRefresh => 1
    case MediaJobsWorker => 2
    case StreamEnforcer => 3
    case MonitorCollectSessions => 99
    case Named(_) => 10
  }

  /** `a` comes strictly before `b` in the worker's ORDER BY. */
  predicate Before(rows: Table, a: int, b: int)
    requires a in rows && b in rows
  {
    var pa, pb := Priority(rows[a].name), Priority(rows[b].name);
    pa < pb || (pa == pb && (rows[a].updatedAt < rows[b].updatedAt
                             || (rows[a].updatedAt == rows[b].updatedAt && a < b)))
  }

  /** `id` is the row the worker's SELECT ... LIMIT 1 returns. */
  predicate IsNext(rows: Table, id: int) {
    && id in rows && Waiting(rows[id])
    && forall other :: other in rows && Waiting(rows[other]) && other != id ==> Before(rows, id, other)
  }

  lemma BeforeIsTotalOrder(rows: Table, a: int, b: int, c: int)
    requires a in rows && b in rows && c in rows
    ensures a != b ==> Before(rows, a, b) != Before(rows, b, a)
    ensures Before(rows, a, b) && Before(rows, b, c) ==> Before(rows, a, c)
  {
  }

  /** The SELECT returns one well-defined row whenever some task waits. */
  lemma NextExists(rows: Table) returns (id: int)
    requires SomeWaiting(rows)
    ensures IsNext(rows, id)
    ensures forall other :: IsNext(rows, other) ==> other == id
  {
    var some :| some in rows && Waiting(rows[some]);
    var ids := set i | i in rows && Waiting(rows[i]);
    assert some in ids;
    var before := (a: int, b: int) => a in rows && b in rows && Before(rows, a, b);
    id := LeastOf(ids, before);
    forall other | other in rows && Waiting(rows[other]) && other != id ensures Before(rows, id, other) {
      assert other in ids;
    }
    forall other | IsNext(rows, other) ensures other == id {
      assert other in ids;
      BeforeIsTotalOrder(rows, id, other, id);
    }
  }

  // ----- what is owed

  /** Work still owed: queued units of enabled tasks. */
  function Owed(task: Task): nat {
    if Waiting(task) then task.queuedCount else 0
  }
}
