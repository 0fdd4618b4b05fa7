/**
 What a request for access leaves in the job table, row by row and column by column, and which account a forced
 synchronisation works for.
 */
module AccessRows {
  import opened AccessJobRuns
  import opened AccessJobs
  import opened Options
  import opened SyncFanOut

  /** Grants, revocations and synchronisations for the provider, user and server of the request. */
  predicate SameTarget(job: Job, r: Request) {
    && job.provider == r.provider && job.user == r.user && job.server == r.server
    && (job.action == Grant || job.action == Revoke || job.action == Sync)
  }

  /** A worker is busy with a job of the target, under a lock that is not over. */
  ghost predicate Busy(jobs: Jobs, r: Request, now: int) {
    exists id :: id in jobs && SameTarget(jobs[id], r) && jobs[id].status == Running && !jobs[id].processed
                 && (jobs[id].lockedUntil == None || jobs[id].lockedUntil.value > now)
  }

  /** The request replaces the job: it is of the same target and nobody has begun it. */
  predicate Replaced(job: Job, r: Request) {
    SameTarget(job, r) && job.status == Queued && !job.processed
  }

  /** The key under which the request is stored. */
  ghost function StoredKey(jobs: Jobs, r: Request, now: int): string {
    if Busy(jobs, r, now) then r.key + ":after-running" else r.key
  }

  lemma BusyIff(jobs: Jobs, r: Request, now: int)
    ensures HasRunning(jobs, r, now) <==> Busy(jobs, r, now)
    ensures EffectiveKey(jobs, r, now) == StoredKey(jobs, r, now)
  {
    forall id | id in jobs ensures Targets(jobs[id], r) <==> SameTarget(jobs[id], r) {
    }
    assert AFTER_RUNNING == ":after-running";
  }

  /** An old row goes exactly if it has the stored key and is finished or replaced; replaced rows are canceled. */
  lemma OldRowAfter(jobs: Jobs, nextId: int, r: Request, now: int, id: int)
    requires IdsBelow(jobs, nextId) && id in jobs
    ensures var after, was := Queue(jobs, nextId, r, now).0, jobs[id];
            && (id in after <==>
                  !(was.dedupeKey == Some(StoredKey(jobs, r, now)) && (was.processed || Replaced(was, r))))
            && (id in after ==>
                  after[id] == if Replaced(was, r)
                               then Job(was.provider, was.action, was.user, was.server, was.library, was.payload,
                                        Canceled, true, false, None, was.runAfter, was.dedupeKey, r.cancelReason)
                               else was)
  {
    BusyIff(jobs, r, now);
    assert Cancelable(jobs[id], r) <==> Replaced(jobs[id], r);
  }

  /**
   The only new row is the request itself, queued under the stored key, and two minutes later if a worker is busy with
   the target.
   */
  lemma NewRowAfter(jobs: Jobs, nextId: int, r: Request, now: int)
    requires IdsBelow(jobs, nextId)
    ensures var (after, inserted) := Queue(jobs, nextId, r, now);
            && (forall id :: id in after && id !in jobs ==> id == nextId)
            && (nextId in after <==> inserted)
            && (inserted ==>
                  after[nextId] == Job(r.provider, r.action, r.user, r.server, r.library, r.payload, Queued, false,
                                       false, None, if Busy(jobs, r, now) then Some(now + 120) else None,
                                       Some(StoredKey(jobs, r, now)), ""))
  {
    BusyIff(jobs, r, now);
  }

  /** It is inserted exactly if no unfinished row with the stored key is active, other than the replaced ones. */
  lemma InsertedIff(jobs: Jobs, nextId: int, r: Request, now: int)
    requires IdsBelow(jobs, nextId)
    ensures Queue(jobs, nextId, r, now).1 <==>
              forall id :: id in jobs && jobs[id].dedupeKey == Some(StoredKey(jobs, r, now)) && !jobs[id].processed
                           && (jobs[id].status == Queued || jobs[id].status == Running)
                           ==> Replaced(jobs[id], r)
  {
    BusyIff(jobs, r, now);
    RefusedIff(jobs, nextId, r, now);
    forall id | id in jobs ensures Cancelable(jobs[id], r) <==> Replaced(jobs[id], r) {
    }
  }

  // ----- what becomes of a job

  /** A grant, revocation or synchronisation of the Plex worker. */
  predicate IsPlexJob(job: Job) {
    job.provider == "plex" && (job.action == Grant || job.action == Revoke || job.action == Sync)
  }

  /** The Plex worker takes exactly its jobs that nobody has begun, and only one at a time. */
  lemma ClaimIs(jobs: Jobs, nextId: int, id: int, until: int)
    ensures Step(jobs, nextId, Claim(id, until)).0 ==
            if id in jobs && IsPlexJob(jobs[id]) && jobs[id].status == Queued && !jobs[id].processed
            then jobs[id := jobs[id].(status := Running, lockedUntil := Some(until))] else jobs
  {
  }

  /** An attempt that is put back leaves the job as it was, to be run later. */
  lemma RetriedIsAsBefore(jobs: Jobs, nextId: int, id: int, until: int, runAfter: int)
    requires ActiveKeysUnique(jobs) && id in jobs && IsPlexJob(jobs[id]) && Pending(jobs[id])
    ensures var claimed := Step(jobs, nextId, Claim(id, until));
            Step(claimed.0, claimed.1, Requeue(id, runAfter)).0
            == jobs[id := jobs[id].(runAfter := Some(runAfter), success := false, lockedUntil := None)]
  {
    ClaimIs(jobs, nextId, id, until);
    var claimed := Step(jobs, nextId, Claim(id, until)).0;
    assert forall other :: other in claimed && other != id ==> claimed[other] == jobs[other];
  }

  /** A claim whose worker died is taken back when its lock is over, and not before. */
  lemma RecoveredIsAsBefore(jobs: Jobs, nextId: int, id: int, until: int, now: int)
    requires id in jobs && IsPlexJob(jobs[id]) && Pending(jobs[id])
    ensures var claimed := Step(jobs, nextId, Claim(id, until));
            var after := Step(claimed.0, claimed.1, RecoverStale(now)).0;
            id in after && after[id] == if until <= now then jobs[id].(lockedUntil := None) else claimed.0[id]
  {
    ClaimIs(jobs, nextId, id, until);
  }

  /** A finished job is processed, with its outcome, and free; no other row changes. */
  lemma FinishedIs(jobs: Jobs, nextId: int, id: int, succeeded: bool)
    requires id in jobs && IsPlexJob(jobs[id])
    ensures Step(jobs, nextId, Finish(id, succeeded)).0
            == jobs[id := jobs[id].(status := if succeeded then Succeeded else Errored, processed := true,
                                    success := succeeded, lockedUntil := None)]
  {
  }

  /** The Jellyfin worker marks its job done and leaves the status. */
  lemma JellyfinDoneIs(jobs: Jobs, nextId: int, id: int)
    requires id in jobs
    ensures Step(jobs, nextId, JellyfinDone(id)).0 ==
            if jobs[id].provider == "jellyfin" && jobs[id].action in {Grant, Revoke, Sync}
            then jobs[id := jobs[id].(processed := true, success := true)] else jobs
  {
  }

  /** A reactivation ends the unfinished Plex jobs of its user as canceled, and touches no others. */
  lemma CancelUserIs(jobs: Jobs, nextId: int, user: int, id: int)
    requires id in jobs
    ensures var was, after := jobs[id], Step(jobs, nextId, CancelUser(user)).0;
            id in after && after[id] ==
            if IsPlexJob(was) && was.user == user
               && (was.status == Queued || was.status == Running || !was.processed)
            then was.(status := Canceled, processed := true, success := false, lockedUntil := None) else was
  {
  }

  /** A merge hands the jobs of the merged user to the master, and a clean-up removes one row; nothing else changes. */
  lemma MovedAndDiscarded(jobs: Jobs, nextId: int, master: int, other: int, gone: int, id: int)
    requires id in jobs
    ensures var after := Step(jobs, nextId, Reassign(master, other)).0;
            id in after && after[id] == if jobs[id].user == other then jobs[id].(user := master) else jobs[id]
    ensures var after := Step(jobs, nextId, Discard(gone)).0;
            (id in after <==> id != gone) && (id in after ==> after[id] == jobs[id])
  {
  }

  /** Monitoring writes its own rows: an access job is never replaced, and an active key is never doubled. */
  lemma MonitoredIs(jobs: Jobs, nextId: int, id: int, job: Job)
    ensures var (after, next) := Step(jobs, nextId, Monitor(id, job));
            && (after != jobs ==> after == jobs[id := job] && job.action == Refresh)
            && (job.action == Refresh && (if id in jobs then jobs[id].action == Refresh else id == nextId)
                && (Active(job) && job.dedupeKey.Some? ==>
                      forall o :: o in jobs && o != id && Active(jobs[o]) ==> jobs[o].dedupeKey != job.dedupeKey)
                ==> after == jobs[id := job] && next == if id == nextId then nextId + 1 else nextId)
            && (forall o :: o in jobs && jobs[o].action != Refresh ==> o in after && after[o] == jobs[o])
  {
  }

  // ----- the preferred account

  /** An account of the user on the server. */
  predicate Has(accounts: Accounts, user: int, server: int, id: int) {
    id in accounts && accounts[id].user == Some(user) && accounts[id].server == server && accounts[id].isPlex
  }

  /**
   Accounts of others before owners; then accepted ones; then those with an external id; then those that are not
   unfriended; then the lower id.
   */
  predicate NoWorse(a: Account, idA: int, b: Account, idB: int) {
    && (a.role == Owner ==> b.role == Owner)
    && ((a.role == Owner) == (b.role == Owner) ==>
          && (b.hasAccepted ==> a.hasAccepted)
          && (a.hasAccepted == b.hasAccepted ==>
                && (b.hasExternalId ==> a.hasExternalId)
                && (a.hasExternalId == b.hasExternalId ==>
                      && (a.role == Unfriended ==> b.role == Unfriended)
                      && ((a.role == Unfriended) == (b.role == Unfriended) ==> idA <= idB))))
  }

  /** The preferred account of a server is the user's one there that no other one of theirs outdoes. */
  lemma PreferredIff(accounts: Accounts, user: int, server: int, id: int)
    ensures IsPreferred(accounts, user, server, id)
            <==> Has(accounts, user, server, id)
                 && forall o :: Has(accounts, user, server, o) ==> NoWorse(accounts[id], id, accounts[o], o)
  {
    forall o | Has(accounts, user, server, id) && Has(accounts, user, server, o) && o != id
      ensures Preferred(accounts, id, o) <==> NoWorse(accounts[id], id, accounts[o], o)
    {
    }
  }

  /** The rows are the user's accounts on Plex servers, each once, by server and then in order of preference. */
  lemma SelectedIff(accounts: Accounts, user: int, rows: seq<Row>)
    ensures Selected(accounts, user, rows)
            <==> && (forall row :: row in rows <==>
                       Has(accounts, user, row.server, row.account) && accounts[row.account].onPlexServer)
                 && (forall i, j :: 0 <= i < j < |rows| ==>
                       rows[i] != rows[j] && Follows(accounts, rows[i], rows[j]))
  {
    if forall row :: row in rows ==> row.account in accounts {
      forall i, j | 0 <= i < j < |rows|
        ensures RowBefore(accounts, rows[i], rows[j]) <==> rows[i] != rows[j] && Follows(accounts, rows[i], rows[j])
      {
        PreferredIsNoWorse(accounts, rows[i].account, rows[j].account);
      }
    }
  }

  /** The second row may stand after the first. */
  predicate Follows(accounts: Accounts, a: Row, b: Row) {
    && a.account in accounts && b.account in accounts && a.server <= b.server
    && (a.server == b.server ==> NoWorse(accounts[a.account], a.account, accounts[b.account], b.account))
  }

  lemma PreferredIsNoWorse(accounts: Accounts, a: int, b: int)
    requires a in accounts && b in accounts
    ensures Preferred(accounts, a, b) <==> a != b && NoWorse(accounts[a], a, accounts[b], b)
  {
  }

  /** The servers that get a job are the Plex servers on which the user has an account. */
  lemma ServersAre(accounts: Accounts, user: int, rows: seq<Row>, server: int)
    requires Selected(accounts, user, rows) && ServersAgree(accounts)
    ensures server in Servers(Firsts(rows))
            <==> exists id :: Has(accounts, user, server, id) && accounts[id].onPlexServer
  {
    FanOutRefinesPreference(accounts, user, rows);
    forall id ensures Linked(accounts, user, Row(server, id))
                      <==> Has(accounts, user, server, id) && accounts[id].onPlexServer {
    }
  }

  /** Each is a synchronisation of the whole server, not of one library. */
  lemma ForcedJobIs(jobs: Jobs, nextId: int, queued: int, user: int, texts: Texts, c: Row, now: int)
    requires IdsBelow(jobs, nextId)
    ensures var (after, next, total) := QueueOne(jobs, nextId, queued, SyncRequest(user, texts, c), now);
            total > queued ==>
              && total == queued + 1 && next == nextId + 1 && nextId in after
              && after[nextId].provider == "plex" && after[nextId].action == Sync
              && after[nextId].user == user && after[nextId].server == c.server && after[nextId].library == None
              && after[nextId].payload == texts.payload(c)
  {
    NewRowAfter(jobs, nextId, SyncRequest(user, texts, c), now);
  }
}
