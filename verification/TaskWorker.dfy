/**
 app/tasks_engine.py with its statements in program order: the shared table and lease as an object, and the
 worker's loop when nobody interferes with it.  TaskProtocol interleaves the same statements.
 */
module TaskWorker {
  import opened Collections
  import opened Options
  import opened TaskTable
  import opened TaskProtocol
  import opened TaskDrain

  class TaskEngine {
    var rows: Table
    var claimed: bool

    constructor (rows: Table)
      ensures this.rows == rows && !claimed
    {
      this.rows := rows;
      claimed := false;
    }

    /** WorkerLease.claim. */
    method Claim() returns (won: bool)
      modifies this`claimed
      ensures won == !old(claimed) && claimed
    {
      won := !claimed;
      claimed := true;
    }

    method Release()
      modifies this`claimed
      ensures !claimed
    {
      claimed := false;
    }

    /** Returns whether the request took effect and whether the caller must start the worker thread. */
    method EnqueueTask(cronEnabled: bool, id: int, now: int) returns (accepted: bool, starts: bool)
      modifies this
      ensures accepted == (cronEnabled && id in old(rows) && old(rows)[id].enabled)
      ensures rows == if accepted then old(rows)[id := Enqueued(old(rows)[id], now)] else old(rows)
      ensures accepted ==> Waiting(rows[id]) && claimed && starts == !old(claimed)
      ensures !accepted ==> !starts && claimed == old(claimed)
    {
      if !cronEnabled || id !in rows || !rows[id].enabled {
        return false, false;
      }
      rows := rows[id := Enqueued(rows[id], now)];
      starts := Claim();
      accepted := true;
    }

    /** Returns whether a worker thread must be started. */
    method KickWorkerIfNeeded() returns (starts: bool)
      modifies this`claimed
      ensures starts == (!old(claimed) && SomeWaiting(rows))
      ensures claimed == (old(claimed) || SomeWaiting(rows))
    {
      if claimed {
        return false;
      }
      if !SomeWaiting(rows) {
        return false;
      }
      starts := Claim();
    }

    /** The watchdog's pass when it is not interrupted between its check and its UPDATE. */
    method RecoverStuckTasks(now: int)
      modifies this`rows
      ensures rows == if old(claimed) then old(rows) else PutAll(old(rows), t => Recovered(t, Cutoff(now), now))
      ensures forall id :: id in rows && rows[id] != old(rows)[id] ==> !claimed && old(rows)[id].status == Running
    {
      if claimed {
        return;
      }
      if !SomeStuck(rows, Cutoff(now)) {
        assert forall id :: id in rows ==> Recovered(rows[id], Cutoff(now), now) == rows[id];
        assert rows == PutAll(rows, t => Recovered(t, Cutoff(now), now));
        return;
      }
      rows := map id | id in rows :: Recovered(rows[id], Cutoff(now), now);
    }

    /** TaskExecutionRunner.run on an existing task; `failure` is how the task itself ends. */
    method RunTask(id: int, now: int, failure: Option<string>)
      requires id in rows
      modifies this`rows
      ensures rows == old(rows)[id := Ran(old(rows)[id], failure, now)]
    {
      rows := rows[id := Started(rows[id], now)];
      if failure.None? {
        rows := rows[id := Succeeded(rows[id], now)];
      } else {
        var attempts, allowed := rows[id].retryCount, rows[id].maxRetries;
        rows := rows[id := Errored(rows[id], failure.value, attempts, allowed, now)];
      }
      if rows[id].status == Running {
        rows := rows[id := Finalized(rows[id], now)];
      }
    }

    /**
     _task_worker: drains the queue in priority order.  `runs` lists the executed tasks, `clock(k)` and
     `outcome(k)` are the time and the ending of the k-th execution.
     */
    method RunWorker(clock: nat -> int, outcome: nat -> Option<string>) returns (runs: seq<int>, restarts: bool)
      requires claimed
      modifies this
      ensures !SomeWaiting(rows) && !claimed && !restarts
      ensures Executed(old(rows), rows, runs, clock, outcome)
    {
      runs := [];
      while SomeWaiting(rows)
        invariant claimed && Executed(old(rows), rows, runs, clock, outcome)
        decreases Sum(Dues(rows))
      {
        ghost var first := NextExists(rows);
        var id :| IsNext(rows, id);
        ExecutedStep(old(rows), rows, runs, id, clock, outcome);
        RunTask(id, clock(|runs|), outcome(|runs|));
        runs := runs + [id];
      }
      Release();
      restarts := KickWorkerIfNeeded();
    }
  }

  /** Minutes until retry number `attempt`: 1, 5, 15, and 30 from then on. */
  function RetryMinutes(attempt: int): int {
    match attempt
    case 1 => 1
    case 2 => 5
    case 3 => 15
    case _ => 30
  }

  /**
   One complete execution of a task, from marking it running to its recorded end: one queued unit is used up, the
   status tells what is left and how it ended, and a failure schedules a retry exactly while retries are left.
   */
  function Ran(task: Task, failure: Option<string>, now: int): (r: Task)
    ensures r.status != Running
    ensures r.enabled == task.enabled && r.name == task.name && r.maxRetries == task.maxRetries
    ensures r.queuedCount == if task.queuedCount > 0 then task.queuedCount - 1 else 0
    ensures r.status == if r.queuedCount > 0 then Queued else if failure.Some? then Failed else Idle
    ensures r.lastError == failure && r.lastRun == r.lastAttemptAt == Some(now) && r.updatedAt == now
    ensures failure.Some? && task.retryCount < task.maxRetries ==>
              r.retryCount == task.retryCount + 1
              && (task.retryCount >= 0 ==> r.nextRetryAt == Some(now + 60 * RetryMinutes(r.retryCount)))
    ensures failure.Some? && task.retryCount >= task.maxRetries ==>
              r.retryCount == task.retryCount && r.nextRetryAt.None?
    ensures failure.None? ==> r.retryCount == 0 && r.nextRetryAt.None?
  {
    var began := Started(task, now);
    var ended := if failure.None? then Succeeded(began, now)
                 else Errored(began, failure.value, began.retryCount, began.maxRetries, now);
    if ended.status == Running then Finalized(ended, now) else ended
  }

  /** The table after executing `runs` one after the other. */
  function Replay(before: Table, runs: seq<int>, clock: nat -> int, outcome: nat -> Option<string>): Table {
    if runs == [] then before else
      var k := |runs| - 1;
      Put(Replay(before, runs[..k], clock, outcome), runs[k], task => Ran(task, outcome(k), clock(k)))
  }

  /** Each execution takes the row that the worker's SELECT puts first at that moment. */
  ghost predicate InOrder(before: Table, runs: seq<int>, clock: nat -> int, outcome: nat -> Option<string>) {
    forall k :: 0 <= k < |runs| ==> IsNext(Replay(before, runs[..k], clock, outcome), runs[k])
  }

  lemma ReplayStep(before: Table, runs: seq<int>, id: int, clock: nat -> int, outcome: nat -> Option<string>)
    requires InOrder(before, runs, clock, outcome) && IsNext(Replay(before, runs, clock, outcome), id)
    ensures InOrder(before, runs + [id], clock, outcome)
    ensures var rows := Replay(before, runs, clock, outcome);
            Replay(before, runs + [id], clock, outcome)
            == rows[id := Ran(rows[id], outcome(|runs|), clock(|runs|))]
  {
    assert (runs + [id])[..|runs|] == runs;
    forall k | 0 <= k < |runs| ensures (runs + [id])[..k] == runs[..k] {
    }
  }

  /**
   Executing `runs` has led from `before` to `rows`: each was first in line when it was picked, every queued
   unit of an enabled task was run once or is still queued, and rows that did not wait are untouched.
   */
  ghost predicate Executed(before: Table, rows: Table, runs: seq<int>,
                           clock: nat -> int, outcome: nat -> Option<string>)
  {
    && rows == Replay(before, runs, clock, outcome)
    && InOrder(before, runs, clock, outcome)
    && Drained(before, rows, runs)
  }

  ghost predicate Drained(before: Table, rows: Table, runs: seq<int>) {
    && rows.Keys == before.Keys
    && forall id :: id in before ==>
      && multiset(runs)[id] + Owed(rows[id]) == Owed(before[id])
      && rows[id].enabled == before[id].enabled
      && (!Waiting(before[id]) ==> rows[id] == before[id])
  }

  lemma ExecutedStep(before: Table, rows: Table, runs: seq<int>, id: int,
                     clock: nat -> int, outcome: nat -> Option<string>)
    requires Executed(before, rows, runs, clock, outcome) && IsNext(rows, id)
    ensures var after := rows[id := Ran(rows[id], outcome(|runs|), clock(|runs|))];
            Executed(before, after, runs + [id], clock, outcome) && Sum(Dues(after)) < Sum(Dues(rows))
  {
    ReplayStep(before, runs, id, clock, outcome);
    DrainedStep(before, rows, runs, id, outcome(|runs|), clock(|runs|));
  }

  lemma DrainedStep(before: Table, rows: Table, runs: seq<int>, id: int, failure: Option<string>, now: int)
    requires Drained(before, rows, runs) && id in rows && Waiting(rows[id])
    ensures var after := rows[id := Ran(rows[id], failure, now)];
            Drained(before, after, runs + [id]) && Sum(Dues(after)) < Sum(Dues(rows))
  {
    var task := Ran(rows[id], failure, now);
    assert Owed(task) == Owed(rows[id]) - 1;
    assert Dues(rows[id := task]) == Dues(rows)[id := Due(task)];
    SumUpdate(Dues(rows), id, Due(task));
  }
}
