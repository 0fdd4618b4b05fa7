/**
 The queue of media access jobs (app/core/media_jobs.py) under the partial unique index on active dedupe keys
 (app/core/db_bootstrap_media_jobs.py).  Times are whole seconds.
 */
module AccessJobs {
  import opened Collections
  import opened Options

  datatype Action = Grant | Revoke | Sync | Refresh

  datatype Status = Queued | Running | Succeeded | Errored | Canceled

  datatype Job = Job(
    provider: string,
    action: Action,
    user: int,
    server: int,
    library: Option<int>,
    payload: string,
    status: Status,
    processed: bool,
    success: bool,
    lockedUntil: Option<int>,
    runAfter: Option<int>,
    dedupeKey: Option<string>,
    lastError: string)

  type Jobs = map<int, Job>

  datatype Request = Request(
    provider: string,
    action: Action,
    user: int,
    server: int,
    library: Option<int>,
    key: string,
    payload: string,
    cancelReason: string)

  const AFTER_RUNNING := ":after-running"

  predicate IsAccess(action: Action) {
    action in {Grant, Revoke, Sync}
  }

  /** The job grants, revokes or syncs the access the request is about. */
  predicate Targets(job: Job, r: Request) {
    job.provider == r.provider && job.user == r.user && job.server == r.server && IsAccess(job.action)
  }

  predicate Active(job: Job) {
    job.status == Queued || job.status == Running
  }

  predicate LiveRunning(job: Job, now: int) {
    job.status == Running && !job.processed && (job.lockedUntil.None? || job.lockedUntil.value > now)
  }

  predicate HasRunning(jobs: Jobs, r: Request, now: int) {
    exists id :: id in jobs && Targets(jobs[id], r) && LiveRunning(jobs[id], now)
  }

  function EffectiveKey(jobs: Jobs, r: Request, now: int): string {
    if HasRunning(jobs, r, now) then r.key + AFTER_RUNNING else r.key
  }

  predicate Cancelable(job: Job, r: Request) {
    Targets(job, r) && job.status == Queued && !job.processed
  }

  function Canceling(jobs: Jobs, r: Request): Jobs {
    map id | id in jobs ::
      if Cancelable(jobs[id], r)
      then jobs[id].(status := Canceled, processed := true, success := false, lockedUntil := None,
                     lastError := r.cancelReason)
      else jobs[id]
  }

  function Purging(jobs: Jobs, key: string): Jobs {
    map id | id in jobs && !(jobs[id].dedupeKey == Some(key) && jobs[id].processed) :: jobs[id]
  }

  /** An active row with this key makes the unique index reject another one. */
  predicate KeyTaken(jobs: Jobs, key: string) {
    exists id :: id in jobs && Active(jobs[id]) && jobs[id].dedupeKey == Some(key)
  }

  function NewJob(r: Request, key: string, runAfter: Option<int>): Job {
    Job(r.provider, r.action, r.user, r.server, r.library, r.payload, Queued, false, false, None, runAfter,
        Some(key), "")
  }

  /** _queue_access_job: the table after it and whether a row was inserted. */
  function Queue(jobs: Jobs, nextId: int, r: Request, now: int): (Jobs, bool) {
    var key := EffectiveKey(jobs, r, now);
    var cleared := Purging(Canceling(jobs, r), key);
    if KeyTaken(cleared, key) then (cleared, false)
    else (cleared[nextId := NewJob(r, key, if HasRunning(jobs, r, now) then Some(now + 120) else None)], true)
  }

  datatype Outcome = Unsupported | Stored(inserted: bool)

  class MediaJobs {
    var jobs: Jobs
    var nextId: int

    method HasRunningAccessJob(r: Request, now: int) returns (running: bool)
      ensures running == HasRunning(jobs, r, now)
    {
      var matching := set id | id in jobs && Targets(jobs[id], r) && LiveRunning(jobs[id], now);
      if HasRunning(jobs, r, now) {
        var id :| id in jobs && Targets(jobs[id], r) && LiveRunning(jobs[id], now);
        HasMember(matching, id);
      } else {
        forall id ensures id !in matching {
        }
        NoMembers(matching);
      }
      running := |matching| > 0;
    }

    method QueueAccessJob(r: Request, now: int) returns (outcome: Outcome)
      modifies this
      ensures !IsAccess(r.action) ==> outcome == Unsupported && jobs == old(jobs) && nextId == old(nextId)
      ensures IsAccess(r.action) ==>
                && outcome == Stored(Queue(old(jobs), old(nextId), r, now).1)
                && jobs == Queue(old(jobs), old(nextId), r, now).0
                && nextId == if outcome.inserted then old(nextId) + 1 else old(nextId)
    {
      if r.action !in {Grant, Revoke, Sync} {
        return Unsupported;
      }
      var running := HasRunningAccessJob(r, now);
      var key := if running then r.key + AFTER_RUNNING else r.key;
      var runAfter := if running then Some(now + 120) else None;
      jobs := Canceling(jobs, r);
      jobs := Purging(jobs, key);
      if KeyTaken(jobs, key) {
        return Stored(false);
      }
      jobs := jobs[nextId := NewJob(r, key, runAfter)];
      nextId := nextId + 1;
      outcome := Stored(true);
    }
  }

  // ----- one call

  ghost predicate IdsBelow(jobs: Jobs, nextId: int) {
    forall id :: id in jobs ==> id < nextId
  }

  /** The partial unique index. */
  ghost predicate ActiveKeysUnique(jobs: Jobs) {
    forall a, b ::
      (a in jobs && b in jobs && a != b && Active(jobs[a]) && Active(jobs[b]) && jobs[a].dedupeKey.Some?
       ==> jobs[a].dedupeKey != jobs[b].dedupeKey)
  }

  /** An access job that a worker has still to run. */
  predicate Pending(job: Job) {
    IsAccess(job.action) && job.status == Queued && !job.processed
  }

  /** Unfinished active rows with the key a call will use belong to the call's provider, user and server. */
  ghost predicate KeyDiscipline(jobs: Jobs, r: Request) {
    forall id ::
      (id in jobs && Active(jobs[id]) && !jobs[id].processed
       && jobs[id].dedupeKey in {Some(r.key), Some(r.key + AFTER_RUNNING)}
       ==> Targets(jobs[id], r))
  }

  /**
   For every table: the request is refused exactly when an unprocessed active row that the call does not cancel has
   its effective key.
   */
  lemma RefusedIff(jobs: Jobs, nextId: int, r: Request, now: int)
    ensures !Queue(jobs, nextId, r, now).1 <==>
              exists id :: id in jobs && Active(jobs[id]) && !jobs[id].processed && !Cancelable(jobs[id], r)
                           && jobs[id].dedupeKey == Some(EffectiveKey(jobs, r, now))
  {
    var key := EffectiveKey(jobs, r, now);
    var canceled := Canceling(jobs, r);
    var cleared := Purging(canceled, key);
    if KeyTaken(cleared, key) {
      var id :| id in cleared && Active(cleared[id]) && cleared[id].dedupeKey == Some(key);
      assert jobs[id] == cleared[id];
    }
    forall id | id in jobs && Active(jobs[id]) && !jobs[id].processed && !Cancelable(jobs[id], r)
                && jobs[id].dedupeKey == Some(key)
      ensures KeyTaken(cleared, key)
    {
      assert canceled[id] == jobs[id] && id in cleared;
    }
  }

  /** With disciplined keys, it is refused exactly when a running row holds the effective key. */
  lemma RefusedIffRunningHoldsKey(jobs: Jobs, nextId: int, r: Request, now: int)
    requires KeyDiscipline(jobs, r)
    ensures !Queue(jobs, nextId, r, now).1 <==>
              exists id :: id in jobs && jobs[id].status == Running && !jobs[id].processed
                           && jobs[id].dedupeKey == Some(EffectiveKey(jobs, r, now))
  {
    RefusedIff(jobs, nextId, r, now);
    forall id | id in jobs && Active(jobs[id]) && !jobs[id].processed
                && jobs[id].dedupeKey == Some(EffectiveKey(jobs, r, now))
      ensures Cancelable(jobs[id], r) <==> jobs[id].status == Queued
    {
    }
  }

  /** Running rows, and rows of other users, servers or providers that are not finished, are untouched. */
  lemma OthersUntouched(jobs: Jobs, nextId: int, r: Request, now: int, id: int)
    requires IdsBelow(jobs, nextId) && id in jobs && !jobs[id].processed && !Cancelable(jobs[id], r)
    ensures var after := Queue(jobs, nextId, r, now).0;
            id in after && after[id] == jobs[id]
  {
    assert Canceling(jobs, r)[id] == jobs[id];
  }

  /**
   From every table: the only pending access job left for the request's triple is its own, which exists unless it
   was refused.
   */
  lemma OwnJobIsTheOnlyQueued(jobs: Jobs, nextId: int, r: Request, now: int, id: int)
    requires IdsBelow(jobs, nextId) && IsAccess(r.action)
    ensures var (after, inserted) := Queue(jobs, nextId, r, now);
            (id in after && Targets(after[id], r) && Pending(after[id])) <==> (inserted && id == nextId)
    ensures var (after, inserted) := Queue(jobs, nextId, r, now);
            inserted ==> after[nextId].payload == r.payload && after[nextId].action == r.action
  {
    var canceled := Canceling(jobs, r);
    assert id in jobs ==> !Pending(canceled[id]) || !Targets(canceled[id], r);
  }

  lemma IndexKept(jobs: Jobs, nextId: int, r: Request, now: int)
    requires IdsBelow(jobs, nextId) && ActiveKeysUnique(jobs)
    ensures var (after, inserted) := Queue(jobs, nextId, r, now);
            ActiveKeysUnique(after) && IdsBelow(after, if inserted then nextId + 1 else nextId)
  {
    var key := EffectiveKey(jobs, r, now);
    var cleared := Purging(Canceling(jobs, r), key);
    forall id | id in cleared && Active(cleared[id]) ensures id in jobs && cleared[id] == jobs[id] {
    }
    assert ActiveKeysUnique(cleared) && IdsBelow(cleared, nextId);
  }

  /** What a call leaves: old rows as they were or canceled, and at most its own new one. */
  lemma RowsAfter(jobs: Jobs, nextId: int, r: Request, now: int, id: int)
    requires IdsBelow(jobs, nextId) && id in Queue(jobs, nextId, r, now).0
    ensures var (after, inserted) := Queue(jobs, nextId, r, now);
            if inserted && id == nextId
            then after[id] == NewJob(r, EffectiveKey(jobs, r, now), after[id].runAfter)
            else
              id in jobs
              && (after[id] == jobs[id] || (Cancelable(jobs[id], r) && after[id] == Canceling(jobs, r)[id]))
  {
  }

  /**
   A newer request can be lost: the follow-up job of an earlier request is itself running and holds the key, so
   the request is refused and nothing is queued for its triple.
   */
  lemma RequestCanBeLost()
    ensures var r := Request("plex", Revoke, 1, 1, None, "k", "{}", "");
            var jobs := map[1 := NewJob(r, "k:after-running", None).(status := Running)];
            && ActiveKeysUnique(jobs) && KeyDiscipline(jobs, r)
            && !Queue(jobs, 2, r, 0).1
            && forall id :: id in Queue(jobs, 2, r, 0).0 ==> Queue(jobs, 2, r, 0).0[id].status != Queued
  {
    var r := Request("plex", Revoke, 1, 1, None, "k", "{}", "");
    var jobs := map[1 := NewJob(r, "k:after-running", None).(status := Running)];
    assert Targets(jobs[1], r) && LiveRunning(jobs[1], 0);
    assert HasRunning(jobs, r, 0);
    assert EffectiveKey(jobs, r, 0) == "k" + AFTER_RUNNING == "k:after-running";
    RefusedIffRunningHoldsKey(jobs, 2, r, 0);
    assert jobs[1].status == Running;
  }
}
