/**
 The access job table over runs of everything that writes it: requests (app/core/media_jobs.py), the Plex worker
 (app/tasks/apply_plex_access_updates.py), the Jellyfin worker (app/tasks/apply_jellyfin_access_updates.py), the
 reactivation of a subscription (app/api/subscriptions.py), the merge of users (app/core/user_merge.py), clean-ups and
 monitoring jobs.
 */
module AccessJobRuns {
  import opened Collections
  import opened Options
  import opened AccessJobs

  /** (provider, user, server) */
  type Triple = (string, int, int)

  function TripleOf(job: Job): Triple {
    (job.provider, job.user, job.server)
  }

  /** A job of the Plex worker. */
  predicate OfPlex(job: Job) {
    IsAccess(job.action) && job.provider == "plex"
  }

  datatype Event =
    | Enqueue(request: Request, at: int)
    | Claim(id: int, lockedUntil: int)
    | Requeue(id: int, runAfter: int)
    | RecoverStale(at: int)
    | Finish(id: int, succeeded: bool)
    | JellyfinDone(id: int)
    | CancelUser(user: int)
    | Reassign(master: int, other: int)
    | Discard(id: int)
    | Monitor(id: int, job: Job)

  /** Another active row has the key. */
  predicate KeyHeldByOther(jobs: Jobs, id: int, key: Option<string>) {
    key.Some? && exists other :: other in jobs && other != id && Active(jobs[other]) && jobs[other].dedupeKey == key
  }

  /** The UPDATE after a failed attempt or a pending invite succeeds; the unique index can reject it. */
  predicate Requeues(jobs: Jobs, id: int) {
    id in jobs && OfPlex(jobs[id]) && !KeyHeldByOther(jobs, id, jobs[id].dedupeKey)
  }

  predicate Stale(job: Job, now: int) {
    OfPlex(job) && job.status == Running && job.lockedUntil.Some? && job.lockedUntil.value <= now
  }

  function Recovering(jobs: Jobs, now: int): Jobs {
    map id | id in jobs ::
      if Stale(jobs[id], now) then jobs[id].(status := Queued, lockedUntil := None) else jobs[id]
  }

  function CancelingUser(jobs: Jobs, user: int): Jobs {
    map id | id in jobs ::
      if OfPlex(jobs[id]) && jobs[id].user == user && (Active(jobs[id]) || !jobs[id].processed)
      then jobs[id].(status := Canceled, processed := true, success := false, lockedUntil := None)
      else jobs[id]
  }

  function MovedUser(user: int, master: int, other: int): int {
    if user == other then master else user
  }

  function Reassigning(jobs: Jobs, master: int, other: int): Jobs {
    map id | id in jobs :: jobs[id].(user := MovedUser(jobs[id].user, master, other))
  }

  /** Monitoring jobs come and go in rows and under keys of their own. */
  predicate Monitors(jobs: Jobs, nextId: int, id: int, job: Job) {
    && !IsAccess(job.action)
    && (if id in jobs then !IsAccess(jobs[id].action) else id == nextId)
    && (Active(job) ==> !KeyHeldByOther(jobs, id, job.dedupeKey))
  }

  /** The table and the next id after one statement; a statement whose WHERE finds no row changes nothing. */
  function Step(jobs: Jobs, nextId: int, e: Event): (Jobs, int) {
    match e
    case Enqueue(r, now) =>
      var (after, inserted) := Queue(jobs, nextId, r, now);
      (after, if inserted then nextId + 1 else nextId)
    case Claim(id, lockedUntil) =>
      (if id in jobs && OfPlex(jobs[id]) && Pending(jobs[id])
       then jobs[id := jobs[id].(status := Running, lockedUntil := Some(lockedUntil))] else jobs, nextId)
    case Requeue(id, runAfter) =>
      (if Requeues(jobs, id)
       then jobs[id := jobs[id].(status := Queued, processed := false, success := false,
                                 runAfter := Some(runAfter), lockedUntil := None)] else jobs, nextId)
    case RecoverStale(now) => (Recovering(jobs, now), nextId)
    case Finish(id, succeeded) =>
      (if id in jobs && OfPlex(jobs[id])
       then jobs[id := jobs[id].(status := if succeeded then Succeeded else Errored, processed := true,
                                 success := succeeded, lockedUntil := None)] else jobs, nextId)
    case JellyfinDone(id) =>
      (if id in jobs && IsAccess(jobs[id].action) && jobs[id].provider == "jellyfin"
       then jobs[id := jobs[id].(processed := true, success := true)] else jobs, nextId)
    case CancelUser(user) => (CancelingUser(jobs, user), nextId)
    case Reassign(master, other) => (Reassigning(jobs, master, other), nextId)
    case Discard(id) => (jobs - {id}, nextId)
    case Monitor(id, job) =>
      if Monitors(jobs, nextId, id, job) then (jobs[id := job], if id == nextId then nextId + 1 else nextId)
      else (jobs, nextId)
  }

  // ----- what every run keeps

  /** What the keys are for: access jobs of one triple, or (None) monitoring jobs. */
  type Owner = string -> Option<Triple>

  ghost predicate KeysOwned(jobs: Jobs, owner: Owner) {
    forall id :: id in jobs && jobs[id].dedupeKey.Some? ==>
      if IsAccess(jobs[id].action) then owner(jobs[id].dedupeKey.value) == Some(TripleOf(jobs[id]))
      else owner(jobs[id].dedupeKey.value) == None
  }

  /** Jobs of the Plex worker are unprocessed while active, and no other access job is ever marked running. */
  ghost predicate WorkersApart(jobs: Jobs) {
    && (forall id :: id in jobs && OfPlex(jobs[id]) && Active(jobs[id]) ==> !jobs[id].processed)
    && (forall id :: id in jobs && IsAccess(jobs[id].action) && jobs[id].status == Running ==> OfPlex(jobs[id]))
  }

  ghost predicate Sound(jobs: Jobs, nextId: int, owner: Owner) {
    IdsBelow(jobs, nextId) && ActiveKeysUnique(jobs) && WorkersApart(jobs) && KeysOwned(jobs, owner)
  }

  predicate Conforms(r: Request, owner: Owner) {
    owner(r.key) == owner(r.key + AFTER_RUNNING) == Some((r.provider, r.user, r.server))
  }

  /** Callers use keys of the triple they ask for. */
  predicate Allowed(e: Event, owner: Owner) {
    match e
    case Enqueue(r, _) => IsAccess(r.action) && Conforms(r, owner)
    case Monitor(_, job) => job.dedupeKey.Some? ==> owner(job.dedupeKey.value) == None
    case _ => true
  }

  function MovedTriple(t: Triple, master: int, other: int): Triple {
    (t.0, MovedUser(t.1, master, other), t.2)
  }

  /** After a merge the keys of the merged user's accounts are the master's. */
  function OwnerAfter(owner: Owner, e: Event): Owner {
    if e.Reassign? then
      key => if owner(key).Some? then Some(MovedTriple(owner(key).value, e.master, e.other)) else None
    else owner
  }

  lemma EnqueueKeepsSound(jobs: Jobs, nextId: int, r: Request, now: int, owner: Owner)
    requires Sound(jobs, nextId, owner) && IsAccess(r.action) && Conforms(r, owner)
    ensures var (after, inserted) := Queue(jobs, nextId, r, now);
            Sound(after, if inserted then nextId + 1 else nextId, owner)
  {
    var (after, inserted) := Queue(jobs, nextId, r, now);
    IndexKept(jobs, nextId, r, now);
    forall id | id in after
      ensures OfPlex(after[id]) && Active(after[id]) ==> !after[id].processed
      ensures IsAccess(after[id].action) && after[id].status == Running ==> OfPlex(after[id])
      ensures after[id].dedupeKey.Some? ==>
                if IsAccess(after[id].action) then owner(after[id].dedupeKey.value) == Some(TripleOf(after[id]))
                else owner(after[id].dedupeKey.value) == None
    {
      RowsAfter(jobs, nextId, r, now, id);
    }
  }

  /** One row changes and keeps its key and triple; it gets active only if no other active row has its key. */
  lemma UpdateKeepsSound(jobs: Jobs, nextId: int, id: int, job: Job, owner: Owner)
    requires Sound(jobs, nextId, owner) && id in jobs
    requires job.dedupeKey == jobs[id].dedupeKey && TripleOf(job) == TripleOf(jobs[id]) && job.action == jobs[id].action
    requires Active(job) ==> Active(jobs[id]) || !KeyHeldByOther(jobs, id, job.dedupeKey)
    requires OfPlex(job) && Active(job) ==> !job.processed
    requires IsAccess(job.action) && job.status == Running ==> OfPlex(job)
    ensures Sound(jobs[id := job], nextId, owner)
  {
  }

  /** Every statement of a worker, a reactivation, a merge or a clean-up keeps the table sound. */
  lemma StepKeepsSound(jobs: Jobs, nextId: int, e: Event, owner: Owner)
    requires Sound(jobs, nextId, owner) && Allowed(e, owner)
    ensures Sound(Step(jobs, nextId, e).0, Step(jobs, nextId, e).1, OwnerAfter(owner, e))
  {
    match e
    case Enqueue(r, now) => EnqueueKeepsSound(jobs, nextId, r, now, owner);
    case Claim(id, _) => RowStepKeepsSound(jobs, nextId, e, owner);
    case Requeue(id, _) => RowStepKeepsSound(jobs, nextId, e, owner);
    case RecoverStale(_) => BatchKeepsSound(jobs, nextId, e, owner);
    case Finish(id, _) => RowStepKeepsSound(jobs, nextId, e, owner);
    case JellyfinDone(id) => RowStepKeepsSound(jobs, nextId, e, owner);
    case CancelUser(_) => BatchKeepsSound(jobs, nextId, e, owner);
    case Reassign(_, _) => ReassignKeepsSound(jobs, nextId, e.master, e.other, owner);
    case Discard(_) =>
    case Monitor(id, job) => MonitorKeepsSound(jobs, nextId, id, job, owner);
  }

  lemma RowStepKeepsSound(jobs: Jobs, nextId: int, e: Event, owner: Owner)
    requires Sound(jobs, nextId, owner) && (e.Claim? || e.Requeue? || e.Finish? || e.JellyfinDone?)
    ensures Sound(Step(jobs, nextId, e).0, nextId, owner) && Step(jobs, nextId, e).1 == nextId
  {
    var after := Step(jobs, nextId, e).0;
    if after != jobs {
      assert after == jobs[e.id := after[e.id]];
      UpdateKeepsSound(jobs, nextId, e.id, after[e.id], owner);
    }
  }

  lemma BatchKeepsSound(jobs: Jobs, nextId: int, e: Event, owner: Owner)
    requires Sound(jobs, nextId, owner) && (e.RecoverStale? || e.CancelUser?)
    ensures Sound(Step(jobs, nextId, e).0, nextId, owner) && Step(jobs, nextId, e).1 == nextId
  {
    var after := Step(jobs, nextId, e).0;
    forall id | id in after
      ensures id in jobs && after[id].dedupeKey == jobs[id].dedupeKey && TripleOf(after[id]) == TripleOf(jobs[id])
      ensures after[id].action == jobs[id].action && (Active(after[id]) ==> Active(jobs[id]))
      ensures Active(after[id]) ==> after[id].processed == jobs[id].processed
      ensures after[id].status == Running ==> jobs[id].status == Running
    {
    }
  }

  lemma ReassignKeepsSound(jobs: Jobs, nextId: int, master: int, other: int, owner: Owner)
    requires Sound(jobs, nextId, owner)
    ensures Sound(Reassigning(jobs, master, other), nextId, OwnerAfter(owner, Reassign(master, other)))
  {
  }

  lemma MonitorKeepsSound(jobs: Jobs, nextId: int, id: int, job: Job, owner: Owner)
    requires Sound(jobs, nextId, owner) && Allowed(Monitor(id, job), owner)
    ensures var (after, next) := Step(jobs, nextId, Monitor(id, job));
            Sound(after, next, owner)
  {
  }

  ghost predicate LegalRun(jobs: Jobs, nextId: int, run: seq<Event>, owner: Owner)
    decreases |run|
  {
    run == [] || (
      && Allowed(run[0], owner)
      && var (next, id) := Step(jobs, nextId, run[0]);
      LegalRun(next, id, run[1..], OwnerAfter(owner, run[0])))
  }

  function AfterRun(jobs: Jobs, nextId: int, run: seq<Event>): (Jobs, int)
    decreases |run|
  {
    if run == [] then (jobs, nextId) else
      var (next, id) := Step(jobs, nextId, run[0]);
      AfterRun(next, id, run[1..])
  }

  function OwnerAtEnd(owner: Owner, run: seq<Event>): Owner
    decreases |run|
  {
    if run == [] then owner else OwnerAtEnd(OwnerAfter(owner, run[0]), run[1..])
  }

  /** Every run keeps active keys unique, Plex jobs unprocessed while active, and keys with their triples. */
  lemma {:induction false} EveryRunIsSound(jobs: Jobs, nextId: int, run: seq<Event>, owner: Owner)
    requires Sound(jobs, nextId, owner) && LegalRun(jobs, nextId, run, owner)
    ensures Sound(AfterRun(jobs, nextId, run).0, AfterRun(jobs, nextId, run).1, OwnerAtEnd(owner, run))
    decreases |run|
  {
    if run != [] {
      var (next, id) := Step(jobs, nextId, run[0]);
      StepKeepsSound(jobs, nextId, run[0], owner);
      EveryRunIsSound(next, id, run[1..], OwnerAfter(owner, run[0]));
    }
  }

  lemma RefusedWhenSound(jobs: Jobs, nextId: int, owner: Owner, r: Request, now: int)
    requires Sound(jobs, nextId, owner) && IsAccess(r.action) && Conforms(r, owner)
    ensures !Queue(jobs, nextId, r, now).1 <==>
              exists k :: k in jobs && jobs[k].status == Running
                          && jobs[k].dedupeKey == Some(EffectiveKey(jobs, r, now))
    ensures r.provider != "plex" ==> Queue(jobs, nextId, r, now).1
  {
    RefusedIffRunningHoldsKey(jobs, nextId, r, now);
    forall k | k in jobs && jobs[k].status == Running && jobs[k].dedupeKey == Some(EffectiveKey(jobs, r, now))
      ensures !jobs[k].processed && r.provider == "plex"
    {
      assert owner(jobs[k].dedupeKey.value) == Some((r.provider, r.user, r.server));
      assert OfPlex(jobs[k]);
    }
  }

  /**
   After every run a request is refused exactly when a running row holds its effective key; so requests for Jellyfin,
   whose jobs are never marked running, are never refused.
   */
  lemma RefusedInRun(jobs: Jobs, nextId: int, run: seq<Event>, owner: Owner, r: Request, now: int)
    requires Sound(jobs, nextId, owner) && LegalRun(jobs, nextId, run, owner)
    requires IsAccess(r.action) && Conforms(r, OwnerAtEnd(owner, run))
    ensures var (table, id) := AfterRun(jobs, nextId, run);
            && (!Queue(table, id, r, now).1 <==>
                  exists k :: k in table && table[k].status == Running
                              && table[k].dedupeKey == Some(EffectiveKey(table, r, now)))
            && (r.provider != "plex" ==> Queue(table, id, r, now).1)
  {
    EveryRunIsSound(jobs, nextId, run, owner);
    var (table, id) := AfterRun(jobs, nextId, run);
    RefusedWhenSound(table, id, OwnerAtEnd(owner, run), r, now);
  }

  // ----- one pending job for each triple

  ghost predicate OnePending(jobs: Jobs) {
    forall a, b ::
      (a in jobs && b in jobs && Pending(jobs[a]) && Pending(jobs[b]) && TripleOf(jobs[a]) == TripleOf(jobs[b])
       ==> a == b)
  }

  ghost predicate PendingFor(jobs: Jobs, id: int, t: Triple) {
    id in jobs && Pending(jobs[id]) && TripleOf(jobs[id]) == t
  }

  ghost predicate WillPend(jobs: Jobs, id: int, now: int, t: Triple) {
    id in jobs && TripleOf(jobs[id]) == t && (Pending(jobs[id]) || (Stale(jobs[id], now) && !jobs[id].processed))
  }

  /** What one can see before a statement: it makes no second job of a triple pending. */
  ghost predicate Harmless(jobs: Jobs, e: Event) {
    match e
    case Requeue(id, _) => Requeues(jobs, id) ==> forall b :: PendingFor(jobs, b, TripleOf(jobs[id])) ==> b == id
    case RecoverStale(now) =>
      forall a, b ::
        (a in jobs && Stale(jobs[a], now) && !jobs[a].processed && WillPend(jobs, b, now, TripleOf(jobs[a]))
         ==> a == b)
    case Reassign(master, other) =>
      forall a, b ::
        (a in jobs && Pending(jobs[a]) && jobs[a].user == other
         && PendingFor(jobs, b, (jobs[a].provider, master, jobs[a].server))
         ==> a == b)
    case _ => true
  }

  lemma EnqueueKeepsOnePending(jobs: Jobs, nextId: int, r: Request, now: int)
    requires OnePending(jobs) && IdsBelow(jobs, nextId) && IsAccess(r.action)
    ensures OnePending(Queue(jobs, nextId, r, now).0)
  {
    var (after, inserted) := Queue(jobs, nextId, r, now);
    forall id | id in after && Pending(after[id])
      ensures if Targets(after[id], r) then inserted && id == nextId else id in jobs && after[id] == jobs[id]
    {
      OwnJobIsTheOnlyQueued(jobs, nextId, r, now, id);
      RowsAfter(jobs, nextId, r, now, id);
    }
  }

  lemma RequeueKeepsOnePendingIff(jobs: Jobs, nextId: int, id: int, runAfter: int)
    requires OnePending(jobs)
    ensures var e := Requeue(id, runAfter);
            OnePending(Step(jobs, nextId, e).0) <==> Harmless(jobs, e)
  {
    var after := Step(jobs, nextId, Requeue(id, runAfter)).0;
    if Requeues(jobs, id) {
      var t := TripleOf(jobs[id]);
      assert PendingFor(after, id, t);
      forall b | OnePending(after) && PendingFor(jobs, b, t) ensures b == id {
        assert b != id ==> PendingFor(after, b, t);
      }
      forall a, b | Harmless(jobs, Requeue(id, runAfter)) && a in after && b in after && Pending(after[a])
                    && Pending(after[b]) && TripleOf(after[a]) == TripleOf(after[b])
        ensures a == b
      {
        assert a != id ==> PendingFor(jobs, a, TripleOf(after[b]));
        assert b != id ==> PendingFor(jobs, b, TripleOf(after[a]));
      }
    }
  }

  lemma RecoverKeepsOnePendingIff(jobs: Jobs, nextId: int, now: int)
    requires OnePending(jobs)
    ensures OnePending(Recovering(jobs, now)) <==> Harmless(jobs, RecoverStale(now))
  {
    var after := Recovering(jobs, now);
    forall id, t ensures PendingFor(after, id, t) <==> WillPend(jobs, id, now, t) {
    }
    forall a, b | a in after && b in after && Pending(after[a]) && Pending(after[b])
                  && TripleOf(after[a]) == TripleOf(after[b]) && Harmless(jobs, RecoverStale(now))
      ensures a == b
    {
      assert PendingFor(after, a, TripleOf(after[b])) && PendingFor(after, b, TripleOf(after[a]));
    }
    forall a, b | OnePending(after) && a in jobs && Stale(jobs[a], now) && !jobs[a].processed
                  && WillPend(jobs, b, now, TripleOf(jobs[a]))
      ensures a == b
    {
      assert PendingFor(after, a, TripleOf(jobs[a])) && PendingFor(after, b, TripleOf(jobs[a]));
    }
  }

  lemma ReassignKeepsOnePendingIff(jobs: Jobs, master: int, other: int)
    requires OnePending(jobs)
    ensures OnePending(Reassigning(jobs, master, other)) <==> Harmless(jobs, Reassign(master, other))
  {
    var after, e := Reassigning(jobs, master, other), Reassign(master, other);
    forall a, b | OnePending(after) && a in jobs && Pending(jobs[a]) && jobs[a].user == other
                  && PendingFor(jobs, b, (jobs[a].provider, master, jobs[a].server))
      ensures a == b
    {
      assert PendingFor(after, a, TripleOf(after[a])) && PendingFor(after, b, TripleOf(after[a]));
    }
    forall a, b | Harmless(jobs, e) && a in after && b in after && Pending(after[a]) && Pending(after[b])
                  && TripleOf(after[a]) == TripleOf(after[b])
      ensures a == b
    {
      assert Pending(jobs[a]) && Pending(jobs[b]);
      if jobs[a].user != jobs[b].user {
        assert jobs[a].user == other ==> PendingFor(jobs, b, (jobs[a].provider, master, jobs[a].server));
        assert jobs[b].user == other ==> PendingFor(jobs, a, (jobs[b].provider, master, jobs[b].server));
      }
    }
  }

  /** A statement keeps at most one pending job for each triple exactly if it is harmless; requests always do. */
  lemma StepKeepsOnePendingIff(jobs: Jobs, nextId: int, e: Event)
    requires OnePending(jobs) && IdsBelow(jobs, nextId) && (e.Enqueue? ==> IsAccess(e.request.action))
    ensures OnePending(Step(jobs, nextId, e).0) <==> Harmless(jobs, e)
  {
    match e
    case Enqueue(r, now) => EnqueueKeepsOnePending(jobs, nextId, r, now);
    case Requeue(id, runAfter) => RequeueKeepsOnePendingIff(jobs, nextId, id, runAfter);
    case RecoverStale(now) => RecoverKeepsOnePendingIff(jobs, nextId, now);
    case Reassign(master, other) => ReassignKeepsOnePendingIff(jobs, master, other);
    case _ => OtherStepsKeepOnePending(jobs, nextId, e);
  }

  lemma OtherStepsKeepOnePending(jobs: Jobs, nextId: int, e: Event)
    requires OnePending(jobs) && (e.Claim? || e.Finish? || e.JellyfinDone? || e.CancelUser? || e.Discard? || e.Monitor?)
    ensures OnePending(Step(jobs, nextId, e).0)
  {
    var after := Step(jobs, nextId, e).0;
    forall id | id in after && Pending(after[id])
      ensures id in jobs && Pending(jobs[id]) && TripleOf(after[id]) == TripleOf(jobs[id])
    {
    }
  }

  /** At most one pending job for each triple, now and after every statement of the run. */
  ghost predicate AlwaysOnePending(jobs: Jobs, nextId: int, run: seq<Event>)
    decreases |run|
  {
    var next := if run == [] then (jobs, nextId) else Step(jobs, nextId, run[0]);
    OnePending(jobs) && (run == [] || AlwaysOnePending(next.0, next.1, run[1..]))
  }

  ghost predicate AllHarmless(jobs: Jobs, nextId: int, run: seq<Event>)
    decreases |run|
  {
    run == [] ||
    (Harmless(jobs, run[0]) && AllHarmless(Step(jobs, nextId, run[0]).0, Step(jobs, nextId, run[0]).1, run[1..]))
  }

  /** Over a run there is never a second pending access job of one triple if and only if every statement is harmless. */
  lemma {:induction false} OnePendingInRunIff(jobs: Jobs, nextId: int, run: seq<Event>, owner: Owner)
    requires OnePending(jobs) && Sound(jobs, nextId, owner) && LegalRun(jobs, nextId, run, owner)
    ensures AlwaysOnePending(jobs, nextId, run) <==> AllHarmless(jobs, nextId, run)
    decreases |run|
  {
    if run != [] {
      var (next, id) := Step(jobs, nextId, run[0]);
      StepKeepsOnePendingIff(jobs, nextId, run[0]);
      StepKeepsSound(jobs, nextId, run[0], owner);
      if OnePending(next) {
        OnePendingInRunIff(next, id, run[1..], OwnerAfter(owner, run[0]));
      }
    }
  }

  // ----- runs that are reached

  lemma {:induction false} OneMore(jobs: Jobs, nextId: int, run: seq<Event>, e: Event, owner: Owner)
    requires LegalRun(jobs, nextId, run, owner) && Allowed(e, OwnerAtEnd(owner, run))
    ensures LegalRun(jobs, nextId, run + [e], owner)
    ensures AfterRun(jobs, nextId, run + [e]) == Step(AfterRun(jobs, nextId, run).0, AfterRun(jobs, nextId, run).1, e)
    ensures OwnerAtEnd(owner, run + [e]) == OwnerAfter(OwnerAtEnd(owner, run), e)
    decreases |run|
  {
    if run == [] {
      assert [] + [e] == [e] && [e][1..] == [];
    } else {
      var (next, id) := Step(jobs, nextId, run[0]);
      assert (run + [e])[1..] == run[1..] + [e];
      OneMore(next, id, run[1..], e, OwnerAfter(owner, run[0]));
    }
  }

  function ExampleOwner(key: string): Option<Triple> {
    Some(("plex", 1, 1))
  }

  function Ask(action: Action, key: string): Request {
    Request("plex", action, 1, 1, None, key, "{}", "")
  }

  lemma AskFirst(key: string)
    ensures Step(map[], 1, Enqueue(Ask(Grant, key), 0)) == (map[1 := NewJob(Ask(Grant, key), key, None)], 2)
  {
    assert !HasRunning(map[], Ask(Grant, key), 0);
    assert Purging(Canceling(map[], Ask(Grant, key)), key) == map[];
  }

  /** The first job, claimed. */
  function FirstRunning(key: string): Job {
    NewJob(Ask(Grant, key), key, None).(status := Running, lockedUntil := Some(600))
  }

  lemma ClaimFirst(key: string)
    ensures Step(map[1 := NewJob(Ask(Grant, key), key, None)], 2, Claim(1, 600)) == (map[1 := FirstRunning(key)], 2)
  {
    var jobs := map[1 := NewJob(Ask(Grant, key), key, None)];
    assert OfPlex(jobs[1]) && Pending(jobs[1]);
    assert jobs[1 := FirstRunning(key)] == map[1 := FirstRunning(key)];
  }

  /** The job queued while the first one runs. */
  function FollowUp(key: string): Job {
    NewJob(Ask(Sync, key), key + AFTER_RUNNING, Some(130))
  }

  lemma AskWhileRunning(first: string, second: string)
    requires first != second + AFTER_RUNNING
    ensures Step(map[1 := FirstRunning(first)], 2, Enqueue(Ask(Sync, second), 10))
            == (map[1 := FirstRunning(first), 2 := FollowUp(second)], 3)
  {
    var jobs := map[1 := FirstRunning(first)];
    assert Targets(jobs[1], Ask(Sync, second)) && LiveRunning(jobs[1], 10);
    assert Purging(Canceling(jobs, Ask(Sync, second)), second + AFTER_RUNNING) == jobs;
    assert jobs[2 := FollowUp(second)] == map[1 := FirstRunning(first), 2 := FollowUp(second)];
  }

  /** A request, its claim, and another request meanwhile. */
  function ThreeEvents(first: string, second: string): seq<Event> {
    [] + [Enqueue(Ask(Grant, first), 0)] + [Claim(1, 600)] + [Enqueue(Ask(Sync, second), 10)]
  }

  lemma AfterThree(first: string, second: string)
    requires first != second + AFTER_RUNNING
    ensures LegalRun(map[], 1, ThreeEvents(first, second), ExampleOwner)
    ensures OwnerAtEnd(ExampleOwner, ThreeEvents(first, second)) == ExampleOwner
    ensures AfterRun(map[], 1, ThreeEvents(first, second)) == (map[1 := FirstRunning(first), 2 := FollowUp(second)], 3)
  {
    var e1, e2, e3 := Enqueue(Ask(Grant, first), 0), Claim(1, 600), Enqueue(Ask(Sync, second), 10);
    OneMore(map[], 1, [], e1, ExampleOwner);
    AskFirst(first);
    OneMore(map[], 1, [] + [e1], e2, ExampleOwner);
    ClaimFirst(first);
    OneMore(map[], 1, [] + [e1] + [e2], e3, ExampleOwner);
    AskWhileRunning(first, second);
  }

  /** A failed attempt puts a job back beside the newer one that was queued while it ran. */
  lemma RequeueMakesTwoPending()
    ensures var run := ThreeEvents("a", "b") + [Requeue(1, 620)];
            && Sound(map[], 1, ExampleOwner) && LegalRun(map[], 1, run, ExampleOwner)
            && var table := AfterRun(map[], 1, run).0;
               PendingFor(table, 1, ("plex", 1, 1)) && PendingFor(table, 2, ("plex", 1, 1)) && !OnePending(table)
  {
    assert ("b" + AFTER_RUNNING)[0] == 'b';
    AfterThree("a", "b");
    OneMore(map[], 1, ThreeEvents("a", "b"), Requeue(1, 620), ExampleOwner);
    var jobs := map[1 := FirstRunning("a"), 2 := FollowUp("b")];
    assert jobs[1].dedupeKey.value[0] == 'a' && jobs[2].dedupeKey.value[0] == 'b';
    assert Requeues(jobs, 1);
    var table := AfterRun(map[], 1, ThreeEvents("a", "b") + [Requeue(1, 620)]).0;
    assert PendingFor(table, 1, ("plex", 1, 1)) && PendingFor(table, 2, ("plex", 1, 1));
  }

  /** The run after which a revocation is lost: the follow-up is itself running. */
  function LosingRun(key: string): seq<Event> {
    ThreeEvents(key, key) + [Finish(1, true)] + [Claim(2, 900)]
  }

  lemma FollowUpRuns(key: string)
    ensures var finished := Step(map[1 := FirstRunning(key), 2 := FollowUp(key)], 3, Finish(1, true));
            var table := Step(finished.0, 3, Claim(2, 900)).0;
            && finished.1 == 3 && table.Keys == {1, 2} && table[1].status == Succeeded && table[1].processed
            && table[2] == FollowUp(key).(status := Running, lockedUntil := Some(900))
  {
    var finished := Step(map[1 := FirstRunning(key), 2 := FollowUp(key)], 3, Finish(1, true)).0;
    assert OfPlex(finished[2]) && Pending(finished[2]);
  }

  lemma RevocationIsRefused(table: Jobs, key: string)
    requires table.Keys == {1, 2} && table[1].status == Succeeded && table[1].processed
    requires table[2] == FollowUp(key).(status := Running, lockedUntil := Some(900))
    ensures var after := Queue(table, 3, Ask(Revoke, key), 20);
            !after.1 && forall id :: id in after.0 ==> after.0[id].status != Queued
  {
    var r := Ask(Revoke, key);
    assert Targets(table[2], r) && LiveRunning(table[2], 20) && !Cancelable(table[2], r);
    RefusedIff(table, 3, r, 20);
    forall id | id in Queue(table, 3, r, 20).0 ensures id in table {
    }
  }

  /**
   A newer request can be lost: from the empty table a run leads to a revocation that is refused, with nothing queued.
   */
  lemma RunLosesRequest(key: string)
    ensures LegalRun(map[], 1, LosingRun(key) + [Enqueue(Ask(Revoke, key), 20)], ExampleOwner)
    ensures var (table, nextId) := AfterRun(map[], 1, LosingRun(key));
            var after := Queue(table, nextId, Ask(Revoke, key), 20);
            !after.1 && forall id :: id in after.0 ==> after.0[id].status != Queued
  {
    assert |key + AFTER_RUNNING| > |key|;
    AfterThree(key, key);
    OneMore(map[], 1, ThreeEvents(key, key), Finish(1, true), ExampleOwner);
    OneMore(map[], 1, ThreeEvents(key, key) + [Finish(1, true)], Claim(2, 900), ExampleOwner);
    OneMore(map[], 1, LosingRun(key), Enqueue(Ask(Revoke, key), 20), ExampleOwner);
    FollowUpRuns(key);
    RevocationIsRefused(AfterRun(map[], 1, LosingRun(key)).0, key);
  }

  // ----- how many jobs can be pending

  function PendingIds(jobs: Jobs, t: Triple): set<int> {
    set id | id in jobs && Pending(jobs[id]) && TripleOf(jobs[id]) == t
  }

  /** The pending jobs of the triple, and the one that the worker has in hand. */
  function Open(jobs: Jobs, hand: Option<int>, t: Triple): set<int> {
    var held := hand.Some? && hand.value in jobs && TripleOf(jobs[hand.value]) == t;
    PendingIds(jobs, t) + if held then {hand.value} else {}
  }

  /** One worker: it claims with empty hands and ends what it has in hand.  There are no merges. */
  predicate InOrder(hand: Option<int>, e: Event) {
    match e
    case Claim(_, _) => hand.None?
    case RecoverStale(_) => hand.None?
    case Requeue(id, _) => hand == Some(id)
    case Finish(id, _) => hand == Some(id)
    case Reassign(_, _) => false
    case _ => true
  }

  function HandAfter(jobs: Jobs, hand: Option<int>, e: Event): Option<int> {
    match e
    case Claim(id, _) => if id in jobs && OfPlex(jobs[id]) && Pending(jobs[id]) then Some(id) else hand
    case Requeue(_, _) => None
    case Finish(_, _) => None
    case _ => hand
  }

  ghost predicate OneWorker(jobs: Jobs, nextId: int, run: seq<Event>, hand: Option<int>)
    decreases |run|
  {
    run == [] ||
    (InOrder(hand, run[0])
     && OneWorker(Step(jobs, nextId, run[0]).0, Step(jobs, nextId, run[0]).1, run[1..], HandAfter(jobs, hand, run[0])))
  }

  /** Whatever runs is in the worker's hand, and that is a job of the Plex worker, unless it was discarded. */
  ghost predicate InHand(jobs: Jobs, nextId: int, hand: Option<int>) {
    && (forall id :: id in jobs && OfPlex(jobs[id]) && jobs[id].status == Running ==> hand == Some(id))
    && (hand.Some? ==> hand.value < nextId && (hand.value in jobs ==> OfPlex(jobs[hand.value])))
  }

  lemma StepKeepsInHand(jobs: Jobs, nextId: int, e: Event, hand: Option<int>, owner: Owner)
    requires Sound(jobs, nextId, owner) && Allowed(e, owner) && InOrder(hand, e) && InHand(jobs, nextId, hand)
    ensures InHand(Step(jobs, nextId, e).0, Step(jobs, nextId, e).1, HandAfter(jobs, hand, e))
  {
    var after := Step(jobs, nextId, e).0;
    forall id | id in after && e.Enqueue? && id != nextId
      ensures id in jobs && OfPlex(after[id]) == OfPlex(jobs[id])
      ensures after[id].status == Running ==> after[id] == jobs[id]
    {
      RowsAfter(jobs, nextId, e.request, e.at, id);
    }
    if e.Enqueue? && nextId in after {
      RowsAfter(jobs, nextId, e.request, e.at, nextId);
    }
  }

  lemma RowsOfOthersStay(jobs: Jobs, nextId: int, r: Request, now: int, id: int)
    requires IdsBelow(jobs, nextId) && IsAccess(r.action) && id in Queue(jobs, nextId, r, now).0
    ensures var after := Queue(jobs, nextId, r, now).0;
            && (id != nextId ==> id in jobs && TripleOf(after[id]) == TripleOf(jobs[id]))
            && (Pending(after[id]) ==>
                  if Targets(after[id], r) then id == nextId else id in jobs && after[id] == jobs[id])
  {
    OwnJobIsTheOnlyQueued(jobs, nextId, r, now, id);
    RowsAfter(jobs, nextId, r, now, id);
  }

  lemma OwnTripleAfterEnqueue(jobs: Jobs, nextId: int, r: Request, now: int, hand: Option<int>)
    requires IdsBelow(jobs, nextId) && IsAccess(r.action)
    ensures Open(Queue(jobs, nextId, r, now).0, hand, (r.provider, r.user, r.server))
            <= {nextId} + if hand.Some? then {hand.value} else {}
  {
    var after, t := Queue(jobs, nextId, r, now).0, (r.provider, r.user, r.server);
    forall id | id in PendingIds(after, t) ensures id == nextId {
      RowsOfOthersStay(jobs, nextId, r, now, id);
    }
  }

  lemma OtherTripleAfterEnqueue(jobs: Jobs, nextId: int, r: Request, now: int, hand: Option<int>, t: Triple)
    requires IdsBelow(jobs, nextId) && IsAccess(r.action) && hand != Some(nextId)
    requires t != (r.provider, r.user, r.server)
    ensures Open(Queue(jobs, nextId, r, now).0, hand, t) <= Open(jobs, hand, t)
  {
    var after := Queue(jobs, nextId, r, now).0;
    forall id | id in Open(after, hand, t) ensures id in Open(jobs, hand, t) {
      RowsOfOthersStay(jobs, nextId, r, now, id);
    }
  }

  lemma EnqueueKeepsTwo(jobs: Jobs, nextId: int, r: Request, now: int, hand: Option<int>, t: Triple)
    requires IdsBelow(jobs, nextId) && IsAccess(r.action) && |Open(jobs, hand, t)| <= 2 && hand != Some(nextId)
    ensures |Open(Queue(jobs, nextId, r, now).0, hand, t)| <= 2
  {
    var open := Open(Queue(jobs, nextId, r, now).0, hand, t);
    if t == (r.provider, r.user, r.server) {
      OwnTripleAfterEnqueue(jobs, nextId, r, now, hand);
      SubsetSize(open, {nextId} + if hand.Some? then {hand.value} else {});
    } else {
      OtherTripleAfterEnqueue(jobs, nextId, r, now, hand, t);
      SubsetSize(open, Open(jobs, hand, t));
    }
  }

  /** Only the job in hand can become pending, and rows keep their triples. */
  lemma RowsInOrder(jobs: Jobs, nextId: int, e: Event, hand: Option<int>, owner: Owner, id: int)
    requires Sound(jobs, nextId, owner) && InOrder(hand, e) && InHand(jobs, nextId, hand) && !e.Enqueue?
    requires id in Step(jobs, nextId, e).0 && IsAccess(Step(jobs, nextId, e).0[id].action)
    ensures id in jobs && TripleOf(Step(jobs, nextId, e).0[id]) == TripleOf(jobs[id])
    ensures Pending(Step(jobs, nextId, e).0[id]) ==> Pending(jobs[id]) || hand == Some(id)
  {
  }

  lemma OpenShrinks(jobs: Jobs, nextId: int, e: Event, hand: Option<int>, owner: Owner, t: Triple)
    requires Sound(jobs, nextId, owner) && Allowed(e, owner) && InOrder(hand, e) && InHand(jobs, nextId, hand)
    requires !e.Enqueue?
    ensures Open(Step(jobs, nextId, e).0, HandAfter(jobs, hand, e), t) <= Open(jobs, hand, t)
  {
    var (after, next) := Step(jobs, nextId, e);
    StepKeepsInHand(jobs, nextId, e, hand, owner);
    forall id | id in Open(after, HandAfter(jobs, hand, e), t) ensures id in Open(jobs, hand, t) {
      assert id in after && IsAccess(after[id].action);
      RowsInOrder(jobs, nextId, e, hand, owner, id);
    }
  }

  lemma StepKeepsTwo(jobs: Jobs, nextId: int, e: Event, hand: Option<int>, owner: Owner, t: Triple)
    requires Sound(jobs, nextId, owner) && Allowed(e, owner) && InOrder(hand, e) && InHand(jobs, nextId, hand)
    requires |Open(jobs, hand, t)| <= 2
    ensures |Open(Step(jobs, nextId, e).0, HandAfter(jobs, hand, e), t)| <= 2
  {
    if e.Enqueue? {
      EnqueueKeepsTwo(jobs, nextId, e.request, e.at, hand, t);
    } else {
      OpenShrinks(jobs, nextId, e, hand, owner, t);
      SubsetSize(Open(Step(jobs, nextId, e).0, HandAfter(jobs, hand, e), t), Open(jobs, hand, t));
    }
  }

  /**
   With one worker that has one job in hand, and without merges, at most two access jobs of one provider, user and
   server are pending after every run: RequeueMakesTwoPending reaches two.
   */
  lemma {:induction false} AtMostTwoPending(jobs: Jobs, nextId: int, run: seq<Event>, owner: Owner, hand: Option<int>,
                                            t: Triple)
    requires Sound(jobs, nextId, owner) && LegalRun(jobs, nextId, run, owner) && OneWorker(jobs, nextId, run, hand)
    requires InHand(jobs, nextId, hand) && |Open(jobs, hand, t)| <= 2
    ensures |PendingIds(AfterRun(jobs, nextId, run).0, t)| <= 2
    decreases |run|
  {
    if run == [] {
      SubsetSize(PendingIds(jobs, t), Open(jobs, hand, t));
    } else {
      var (next, id) := Step(jobs, nextId, run[0]);
      StepKeepsSound(jobs, nextId, run[0], owner);
      StepKeepsInHand(jobs, nextId, run[0], hand, owner);
      StepKeepsTwo(jobs, nextId, run[0], hand, owner, t);
      AtMostTwoPending(next, id, run[1..], OwnerAfter(owner, run[0]), HandAfter(jobs, hand, run[0]), t);
    }
  }
}
