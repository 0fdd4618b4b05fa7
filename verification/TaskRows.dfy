/**
 What requests, executions, the watchdog and the boot leave in the rows of the task table, column by column, over
 whole executions and whole runs.
 */
module TaskRows {
  import opened Options
  import opened TaskTable
  import opened TaskProtocol
  import opened TaskWorker

  // ----- requests

  /** A request queues an enabled task once, does not hide that it is running, and changes nothing else of it. */
  lemma RequestIs(task: Task, now: int)
    ensures var after := Enqueued(task, now);
            if !task.enabled then after == task
            else
              && after.queuedCount == (if task.queuedCount > 0 then task.queuedCount else 1)
              && after.status == (if task.status == Running then Running else Queued)
              && after.updatedAt == now
              && after == task.(queuedCount := after.queuedCount, status := after.status, updatedAt := now)
  {
  }

  /** An idle task that is requested and succeeds is as before, but for the record of the success. */
  lemma RequestIsServed(task: Task, requested: int, now: int)
    requires task.enabled && task.queuedCount == 0 && task.status == Idle
    ensures Waiting(Enqueued(task, requested))
    ensures Ran(Enqueued(task, requested), None, now)
            == task.(retryCount := 0, nextRetryAt := None, lastRun := Some(now), lastAttemptAt := Some(now),
                     lastError := None, updatedAt := now)
  {
  }

  // ----- failures in a row

  /** Each message is the failure of one more execution, requested and run at the same moment. */
  function AfterFailures(task: Task, messages: seq<string>, times: seq<int>): Task
    requires |times| == |messages|
  {
    if messages == [] then task else
      var n := |messages| - 1;
      Ran(Enqueued(AfterFailures(task, messages[..n], times[..n]), times[n]), Some(messages[n]), times[n])
  }

  /**
   The n-th failure in a row of an enabled task is followed by a retry after 1, 5, 15 and then 30 minutes, for as long
   as n does not exceed the number of retries; later failures plan none.
   */
  lemma {:induction false} FailuresBackOff(task: Task, messages: seq<string>, times: seq<int>)
    requires |times| == |messages| > 0 && task.enabled
    requires task.retryCount == 0 && task.queuedCount == 0 && task.maxRetries >= 0
    ensures var n, after := |messages|, AfterFailures(task, messages, times);
            && after.status == Failed && after.queuedCount == 0 && after.lastError == Some(messages[n - 1])
            && after.retryCount == (if n <= task.maxRetries then n else task.maxRetries)
            && after.nextRetryAt == (if n <= task.maxRetries then Some(times[n - 1] + 60 * RetryMinutes(n)) else None)
            && after.enabled && after.maxRetries == task.maxRetries
    decreases |messages|
  {
    var n := |messages| - 1;
    if n > 0 {
      FailuresBackOff(task, messages[..n], times[..n]);
    }
  }

  // ----- steps of the protocol

  /** An execution that arms the stream enforcer queues it exactly if it is enabled, not queued and not running. */
  lemma ArmingIs(s: State, t: Tid, c: Choice, id: int, target: int)
    requires t in s.threads && s.threads[t] == Execute(id, true)
    requires c.armed == Some(target) && target in s.rows && s.rows[target].name == StreamEnforcer
    ensures var was, after := s.rows[target], ApplyStep(s, t, c).rows[target];
            after == if was.enabled && was.queuedCount == 0 && was.status != Running
                     then was.(queuedCount := 1, status := Queued, updatedAt := s.now) else was
    ensures forall other :: other in s.rows && other != target ==> ApplyStep(s, t, c).rows[other] == s.rows[other]
  {
  }

  /** Only executions of the media jobs worker arm anything, and only the stream enforcer. */
  lemma OnlyMediaJobsArm(s: State, t: Tid, c: Choice, id: int, target: int)
    requires t in s.threads && s.threads[t] == Mark(id) && id in s.rows
    ensures ApplyStep(s, t, c).threads[t] == Execute(id, s.rows[id].name == MediaJobsWorker)
    ensures ArmedBy(s.rows, true, c) == Some(target) ==> target in s.rows && s.rows[target].name == StreamEnforcer
    ensures ArmedBy(s.rows, false, c) == None
  {
  }

  /** The failsafe ends an execution that left its task running, and leaves an error: the recorded one, if any. */
  lemma FailsafeIs(s: State, t: Tid, c: Choice, id: int)
    requires t in s.threads && s.threads[t] == FinalWrite(id) && id in s.rows
    ensures var was, after := s.rows[id], ApplyStep(s, t, c).rows[id];
            && after.status == Idle && after.lastError.Some?
            && (was.lastError.Some? ==> after.lastError == was.lastError)
            && after == was.(status := Idle, lastError := after.lastError, updatedAt := s.now)
  {
  }

  lemma FailsafeIff(s: State, t: Tid, c: Choice, id: int)
    requires t in s.threads && s.threads[t] == FinalRead(id) && id in s.rows
    ensures ApplyStep(s, t, c)
            == s.(threads := s.threads[t := if s.rows[id].status == Running then FinalWrite(id) else Fetch])
  {
    Reads(s, t, c);
  }

  /** A statement that writes no row leaves the table alone. */
  lemma Reads(s: State, t: Tid, c: Choice)
    requires t in s.threads
    requires forall id, task :: Updated(s.threads[t], None, s.now, id, task) == task
    requires !s.threads[t].Execute?
    ensures ApplyStep(s, t, c).rows == s.rows
  {
  }

  /** A request for a task that is missing or disabled ends the call: nothing changes and no worker is started. */
  lemma RefusedRequest(s: State, t: Tid, c: Choice, id: int)
    requires t in s.threads && s.threads[t] == EnqueueRead(id) && !(id in s.rows && s.rows[id].enabled)
    ensures ApplyStep(s, t, c) == s.(threads := s.threads[t := Done])
  {
    Reads(s, t, c);
  }

  /**
   A kick or a watchdog that finds the lease claimed ends at once, and so does a kick that finds nothing queued and a
   watchdog that finds nothing stuck: nothing changes.
   */
  lemma EndsAtOnce(s: State, t: Tid, c: Choice)
    requires t in s.threads
    requires match s.threads[t]
             case KickLease => s.claimed
             case WatchLease => s.claimed
             case KickQuery => !exists id :: id in s.rows && s.rows[id].enabled && s.rows[id].queuedCount > 0
             case WatchCount(_) => !exists id :: id in s.rows && s.rows[id].status == Running
                                                 && s.now - s.rows[id].updatedAt > 1800
             case _ => false
    ensures ApplyStep(s, t, c) == s.(threads := s.threads[t := Done])
  {
    Reads(s, t, c);
  }

  // ----- the protocol executes a task as the runner does

  /** The row after the statement at the thread's place. */
  lemma RowStep(s: State, t: Tid, c: Choice, id: int, task: Task, pc: Pc)
    requires t in s.threads && !s.threads[t].Execute? && !s.threads[t].Spawning? && s.threads[t] != Done
    requires !s.threads[t].Fetch? && !s.threads[t].StartClaim? && !s.threads[t].Release?
    requires pc == Next(s, s.threads[t], c) && Events(s.rows, s.threads[t], None) == []
    requires id in s.rows && Updated(s.threads[t], None, s.now, id, s.rows[id]) == task
    requires forall other, row :: other != id ==> Updated(s.threads[t], None, s.now, other, row) == row
    ensures Enabled(s, Step(t, c))
    ensures Apply(s, Step(t, c)) == s.(rows := s.rows[id := task], threads := s.threads[t := pc])
  {
  }

  function Choosing(failure: Option<string>): Choice {
    Choice(0, 0, failure, None)
  }

  lemma One(s: State, a: Action) returns (run: seq<Action>)
    requires Enabled(s, a)
    ensures Legal(s, run) && After(s, run) == Apply(s, a)
  {
    run := [a];
    assert run[1..] == [];
  }

  lemma Then(s: State, a: Action, rest: seq<Action>) returns (run: seq<Action>)
    requires Enabled(s, a) && Legal(Apply(s, a), rest)
    ensures Legal(s, run) && After(s, run) == After(Apply(s, a), rest)
  {
    run := [a] + rest;
    assert run[1..] == rest;
  }

  /** A last look at a task whose end is recorded. */
  lemma Finished(s: State, t: Tid, c: Choice, id: int) returns (run: seq<Action>)
    requires t in s.threads && s.threads[t] == FinalRead(id) && id in s.rows && s.rows[id].status != Running
    ensures Legal(s, run) && After(s, run) == s.(threads := s.threads[t := Fetch])
  {
    RowStep(s, t, c, id, s.rows[id], Fetch);
    run := One(s, Step(t, c));
  }

  lemma SuccessRuns(s: State, t: Tid, c: Choice, id: int) returns (run: seq<Action>)
    requires t in s.threads && s.threads[t] == Success(id) && id in s.rows
    ensures Legal(s, run)
    ensures After(s, run) == s.(rows := s.rows[id := Succeeded(s.rows[id], s.now)], threads := s.threads[t := Fetch])
  {
    RowStep(s, t, c, id, Succeeded(s.rows[id], s.now), FinalRead(id));
    var last := Finished(Apply(s, Step(t, c)), t, c, id);
    run := Then(s, Step(t, c), last);
  }

  lemma WriteRuns(s: State, t: Tid, c: Choice, id: int, message: string, attempts: int, allowed: int)
    returns (run: seq<Action>)
    requires t in s.threads && s.threads[t] == ErrorWrite(id, message, attempts, allowed) && id in s.rows
    ensures Legal(s, run)
    ensures After(s, run) == s.(rows := s.rows[id := Errored(s.rows[id], message, attempts, allowed, s.now)],
                                threads := s.threads[t := Fetch])
  {
    RowStep(s, t, c, id, Errored(s.rows[id], message, attempts, allowed, s.now), FinalRead(id));
    var last := Finished(Apply(s, Step(t, c)), t, c, id);
    run := Then(s, Step(t, c), last);
  }

  lemma ErrorRuns(s: State, t: Tid, c: Choice, id: int, message: string) returns (run: seq<Action>)
    requires t in s.threads && s.threads[t] == ErrorRead(id, message) && id in s.rows
    ensures var task := s.rows[id];
            Legal(s, run)
            && After(s, run)
               == s.(rows := s.rows[id := Errored(task, message, task.retryCount, task.maxRetries, s.now)],
                     threads := s.threads[t := Fetch])
  {
    var task := s.rows[id];
    RowStep(s, t, c, id, task, ErrorWrite(id, message, task.retryCount, task.maxRetries));
    var last := WriteRuns(Apply(s, Step(t, c)), t, c, id, message, task.retryCount, task.maxRetries);
    run := Then(s, Step(t, c), last);
  }

  /** What is left of an execution when its task has ended. */
  lemma EndingRuns(s: State, t: Tid, id: int, failure: Option<string>) returns (run: seq<Action>)
    requires t in s.threads && s.threads[t] == Ending(id) && id in s.rows
    ensures var task := s.rows[id];
            var ended := if failure.None? then Succeeded(task, s.now)
                         else Errored(task, failure.value, task.retryCount, task.maxRetries, s.now);
            Legal(s, run) && After(s, run) == s.(rows := s.rows[id := ended], threads := s.threads[t := Fetch])
  {
    var c := Choosing(failure);
    RowStep(s, t, c, id, s.rows[id], Next(s, Ending(id), c));
    var s1, rest := Apply(s, Step(t, c)), [];
    if failure.None? {
      rest := SuccessRuns(s1, t, c, id);
    } else {
      rest := ErrorRuns(s1, t, c, id, failure.value);
    }
    run := Then(s, Step(t, c), rest);
  }

  /** A start, and an execution that arms nothing. */
  lemma Begins(s: State, t: Tid, c: Choice, id: int) returns (run: seq<Action>)
    requires t in s.threads && s.threads[t] == Mark(id) && id in s.rows && c.armed == None
    ensures Legal(s, run)
    ensures After(s, run) == s.(rows := s.rows[id := Started(s.rows[id], s.now)], threads := s.threads[t := Ending(id)],
                                trace := s.trace + [Began(id)])
  {
    var a, s1 := Step(t, c), Apply(s, Step(t, c));
    assert s1 == s.(rows := s.rows[id := Started(s.rows[id], s.now)],
                    threads := s.threads[t := Execute(id, ArmsEnforcer(s.rows[id]))], trace := s.trace + [Began(id)]);
    assert Apply(s1, a).rows == s1.rows;
    var last := One(s1, a);
    run := Then(s, a, last);
  }

  /**
   Undisturbed, the statements of a worker that has fetched a task, taken one after the other, do to the table what
   the task runner does, whether the task succeeds or fails.
   */
  lemma SoloExecution(s: State, t: Tid, id: int, failure: Option<string>) returns (run: seq<Action>)
    requires t in s.threads && s.threads[t] == Mark(id) && id in s.rows
    ensures Legal(s, run)
    ensures After(s, run) == s.(rows := s.rows[id := Ran(s.rows[id], failure, s.now)],
                                threads := s.threads[t := Fetch], trace := s.trace + [Began(id)])
  {
    var first := Begins(s, t, Choosing(failure), id);
    var rest := EndingRuns(After(s, first), t, id, failure);
    JoinRuns(s, first, rest);
    run := first + rest;
  }

  /** The watchdog resets exactly the running rows of more than 30 minutes ago, says so, and leaves their queue. */
  lemma WatchdogIs(s: State, t: Tid, c: Choice, since: int, id: int)
    requires t in s.threads && s.threads[t] == WatchWrite(since) && id in s.rows
    ensures var was, after := s.rows[id], ApplyStep(s, t, c).rows[id];
            after == if was.status == Running && s.now - was.updatedAt > 1800
                     then was.(status := Idle, lastError := Some("Watchdog: task was stuck in running state"),
                               updatedAt := s.now)
                     else was
  {
  }

  /** The boot tells every enabled task that did not fail by its queue, and stamps the disabled ones. */
  lemma BootIs(s: State, t: Tid, c: Choice, id: int)
    requires t in s.threads && s.threads[t] == Boot && id in s.rows
    ensures var was, after := s.rows[id], ApplyStep(s, t, c).rows[id];
            if was.status == Failed || was.status == Disabled then after == was
            else if !was.enabled then after == was.(updatedAt := s.now)
            else after == was.(status := if was.queuedCount > 0 then Queued else Idle, updatedAt := s.now)
  {
  }

  /** A start takes one unit, and clears the error and the planned retry. */
  lemma StartIs(s: State, t: Tid, c: Choice, id: int)
    requires t in s.threads && s.threads[t] == Mark(id) && id in s.rows && Waiting(s.rows[id])
    ensures var was, after := s.rows[id], ApplyStep(s, t, c).rows[id];
            && after.status == Running && after.queuedCount == was.queuedCount - 1
            && after.lastError == None && after.nextRetryAt == None && after.lastAttemptAt == Some(s.now)
            && after == was.(status := Running, queuedCount := after.queuedCount, lastError := None,
                             nextRetryAt := None, lastAttemptAt := Some(s.now), updatedAt := s.now)
  {
  }

  // ----- no retry is planned for a task in execution

  /** The thread has marked the task running and has not recorded its end. */
  predicate Unended(pc: Pc, id: int) {
    match pc
    case Execute(i, _) => i == id
    case Ending(i) => i == id
    case Success(i) => i == id
    case ErrorRead(i, _) => i == id
    case ErrorWrite(i, _, _, _) => i == id
    case _ => false
  }

  ghost predicate NothingPlanned(s: State) {
    forall t, id :: t in s.threads && Unended(s.threads[t], id) && id in s.rows ==> s.rows[id].nextRetryAt == None
  }

  lemma NothingPlannedStep(s: State, a: Action)
    requires Exclusive(s) && NothingPlanned(s) && Enabled(s, a)
    ensures NothingPlanned(Apply(s, a))
  {
    var r := Apply(s, a);
    forall t, id | t in r.threads && Unended(r.threads[t], id) && id in r.rows ensures r.rows[id].nextRetryAt == None {
      if a.Step? && a.tid == t {
        assert s.threads[t] != Fetch && s.threads[t] != Spawning;
      } else {
        OthersStay(s, a, t);
        assert Holds(s.threads[t]);
        assert a.Step? ==> !Holds(s.threads[a.tid]);
      }
    }
  }

  /** In every run the scheduler never finds a retry planned for a task whose execution has not ended. */
  lemma {:induction false} NothingPlannedAfter(s: State, run: seq<Action>)
    requires Invariant(s) && NothingPlanned(s) && Legal(s, run)
    ensures NothingPlanned(After(s, run))
    decreases |run|
  {
    if run != [] {
      NothingPlannedStep(s, run[0]);
      InvariantAfter(s, [run[0]]);
      assert [run[0]][1..] == [];
      assert After(s, [run[0]]) == Apply(s, run[0]);
      NothingPlannedAfter(Apply(s, run[0]), run[1..]);
    }
  }

  lemma NoRetryWhileExecuting(init: State, run: seq<Action>, t: Tid, id: int)
    requires Initial(init) && Legal(init, run)
    requires t in After(init, run).threads && Unended(After(init, run).threads[t], id)
    ensures id in After(init, run).rows && After(init, run).rows[id].nextRetryAt == None
  {
    InitialInvariant(init);
    InvariantAfter(init, run);
    NothingPlannedAfter(init, run);
    assert Grounded(After(init, run).rows, After(init, run).threads[t], id);
  }

  // ----- what the status tells

  /** A task shown as queued is queued, and one shown as failed is not. */
  ghost predicate StatusTells(s: State) {
    forall id :: id in s.rows ==>
      && (s.rows[id].status == Queued ==> s.rows[id].queuedCount > 0)
      && (s.rows[id].status == Failed ==> s.rows[id].queuedCount <= 0)
  }

  predicate NoForeignWrites(run: seq<Action>) {
    forall a :: a in run ==> !a.Touch?
  }

  lemma StatusTellsStep(s: State, a: Action)
    requires StatusTells(s) && Enabled(s, a) && !a.Touch?
    ensures StatusTells(Apply(s, a))
  {
    var r := Apply(s, a);
    forall id | id in r.rows
      ensures r.rows[id].status == Queued ==> r.rows[id].queuedCount > 0
      ensures r.rows[id].status == Failed ==> r.rows[id].queuedCount <= 0
    {
      assert id in s.rows;
    }
  }

  /** It does so throughout every run in which nobody else writes the status. */
  lemma {:induction false} StatusTellsAfter(s: State, run: seq<Action>)
    requires StatusTells(s) && Legal(s, run) && NoForeignWrites(run)
    ensures StatusTells(After(s, run))
    decreases |run|
  {
    if run != [] {
      StatusTellsStep(s, run[0]);
      StatusTellsAfter(Apply(s, run[0]), run[1..]);
    }
  }
}
