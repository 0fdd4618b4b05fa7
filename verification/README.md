# Verified model of VODUM's queues, limiters, merges and caches

VODUM is a Flask and SQLite application that manages the users of Plex and Jellyfin servers. This project models the
parts of it that are state machines or reconciliation algorithms and proves what they keep over every run. A table is
a map from row ids to records (or a sequence, where the order of a query matters), one database statement or one
region under a lock is one atomic step, and time is an input that only moves forward. Where the original updates an
object, a table or a dictionary in place, a class does the same and its methods are proved against specification
functions; the theorems are about those functions and about runs of them. What an operation decides is also stated
without those functions, on the columns of the rows it reads: the files `LoginVerdicts`, `AccessMergeRows`,
`LibraryRows`, `SwitchVerdicts`, `SyncVerdicts`, `TaskOrder`, `TaskRows`, `AccessRows`, `ExpirationChoice`,
`SlotChoice` and `ProfileColumns` hold these statements.

| files | what they model |
|---|---|
| `TaskTable`, `TaskProtocol`, `TaskDrain`, `TaskWorker`, `TaskWatchdog`, `TaskOrder`, `TaskRows` | the task queue: any number of callers, one leased worker, the watchdog and the boot reset, in every interleaving of their statements; in which order tasks are executed, and what becomes of their rows |
| `LoginLimiter`, `LoginVerdicts` | the gate before the login form: locks, windows and counters per address and per e-mail, and who is let in |
| `LibrarySync`, `LibraryReconcile`, `LibraryRows` | the reconciliation of a server's libraries through two live indexes |
| `AccessMerge`, `AccessMergeRows`, `ProfileMerge`, `ProfilePreview`, `ProfileColumns`, `UserMerge`, `ForeignKeys`, `Text` | the merge of two users, the preview of it, and what the database deletes with the merged user |
| `AccessJobs`, `AccessJobRuns`, `AccessRows`, `SyncFanOut` | the access job queue under its partial unique index, runs of everything that writes it, and the forced synchronisation that feeds it |
| `ExpirationTemplates`, `ExpirationPick`, `ExpirationChoice`, `SlotSelection`, `SlotChoice` | choosing message templates by time window and by rank |
| `SwitchGrace`, `SwitchVerdicts`, `SyncDedupe`, `SyncVerdicts`, `HouseholdDedupe`, `HouseholdMemory`, `SessionIdentity` | caches that change the verdict about streams over time |
| `RateLimiter`, `AggregateCache`, `AggregateRuns` | the request spacing and the aggregate cache, under many threads |
| `Options`, `Collections`, `Ordering`, `Grouping` | shared: optional values, finite sums, cardinalities and least elements, a stable sort, grouping by a key |

`dafny verify dfyconfig.toml` checks the whole project.

## Results worth knowing

Some statements one would like to make about the code are false. For each of them there is a proof that it fails and,
where a caller can check one, the exact condition under which it holds.

- The watchdog leaves live tasks alone only while no more than 30 minutes pass between its look at the lease and its
  UPDATE; for every longer delay there is a run in which it resets a task that a worker is executing
  (`OverdueWatchdogResetsLiveTask`).
- A synchronisation with distinct section ids gives every reported library its row exactly if no library with a new
  section id carries the name and type of a row whose section is still reported, and no two libraries with new section
  ids share name and type (`AllMatchedIff`). The first synchronisation of a server with two libraries of one name and
  type leaves one row for both (`FirstSyncExample`).
- A newer access request is lost when a running job holds the key it would be stored under (`RefusedInRun`, `RunLosesRequest`).
- There can be two pending access jobs for one user and server: a failed attempt is put back beside the newer request
  that was queued while it ran (`RequeueMakesTwoPending`). A statement keeps at most one exactly if it is harmless, that
  is, if no other pending job has the triple of a job it puts back, recovers or reassigns (`OnePendingInRunIff`). With one worker
  and without merges there are never more than two (`AtMostTwoPending`).
- A merge loses data when tables that it does not move mention the merged user or a duplicate media user, and only then
  (`MergeLosesNothingIff`, `ReferralIsLost`).
- A media user whose external id is the literal placeholder of the merge's query is treated as one without an external
  id (`AccessMergeRows.StaysIff`).
- A login lock can end almost two seconds early, because stored times drop microseconds (`LockEndsEarly`); the
  sliding window is proved with that loss.
- An input session of the household merge is certain to be kept or merged exactly if its key is new to the call
  (`AlwaysAccountedIffKeyIsFresh`).
- The household memory does not fade after 300 seconds: a stopped stream is kept by a call exactly if its user presents
  something at most 300 seconds after it was last kept and nothing outdoes it, and being kept renews it
  (`StoppedIsKeptIff`, `RenewedThroughoutIff`).
- Clearing the aggregate cache takes full effect exactly if no call is in flight (`ClearIsCompleteIff`); an entry can be
  followed by an older one exactly if a call in flight for its key began before it (`NeverOlderIff`).
- A Plex server key changes when it is normalised again exactly if blanks stand before its trailing slashes
  (`KeyIsStableIff`).

The function comment of the forced Plex synchronisation (`app/core/user_sync_jobs.py:71-79`) speaks of cancelling the
active jobs of the user and server; the insertion it calls cancels the queued ones and leaves a running one alone.
The model follows the code.

## Model

| member | source | states |
|---|---|---|
| `TaskProtocol.NoLostWakeup` | `app/tasks_engine.py:514-599` | whenever an enabled task is queued, in any interleaving of callers, kickers, watchdogs and workers, the lease is claimed or some thread will still look at the queue |
| `TaskProtocol.NothingLeftAtQuiescence` | `app/tasks_engine.py:593-599` | when every thread has ended, no enabled task is queued and the lease is free |
| `TaskProtocol.SingleWorker` | `app/tasks_engine.py:101-118` | at most one thread is ever between claiming and releasing the lease, so at most one fetches and runs tasks, and the lease is claimed meanwhile |
| `TaskProtocol.WatchdogSparesLiveTasks` | `app/tasks_engine.py:331-360` | the watchdog UPDATE leaves the row of a task that a live worker executes unchanged, even if the lease was claimed after its check, if at most 30 minutes separate the two |
| `TaskWatchdog.OverdueWatchdogResetsLiveTask` | `app/tasks_engine.py:331-360` | for every delay beyond 30 minutes there is a run in which the watchdog resets the row of a task that is being executed |
| `TaskProtocol.QueuedCountIsDirtyBit` | `app/tasks_engine.py:491-507` | queued_count is 1 exactly if a request took effect after the last start of the task, be it an enqueue or an execution that armed the task, else 0; every start serves a request not served before; every request is followed by a start or still queued |
| `TaskProtocol.QueueSteps` | `app/tasks/media_jobs_worker.py:18-43` | the counters change with requests, executions that arm the stream enforcer, and starts, and with nothing else |
| `TaskProtocol.InvariantAfter` | `app/tasks_engine.py:542-599` | mutual exclusion, consistency of the fetched task, no lost wakeup and the watchdog bound hold together after every run |
| `TaskProtocol.DirtyBitAfter` | `app/tasks_engine.py:491-507` | the dirty bit and the alternation of requests and starts hold after every run |
| `TaskProtocol.ExclusivePreserved` | `app/tasks_engine.py:101-118` | every step keeps the lease claimed exactly while one thread holds it |
| `TaskProtocol.WakefulPreserved` | `app/tasks_engine.py:514-599` | every step, including the release before the re-check, keeps queued work covered by the lease or by a pending check |
| `TaskProtocol.WatchfulPreserved` | `app/tasks_engine.py:331-360` | while a watchdog acts on a free lease, whatever is executing was marked running after its look |
| `TaskProtocol.ConsistentPreserved` | `app/tasks_engine.py:545-578` | the task a worker has fetched is still queued, enabled and unstarted when the worker marks it running |
| `TaskDrain.EverySchedulerDrains` | `app/tasks_engine.py:542-599` | once callers stop, every scheduler of the threads, with any finite number of clock ticks and foreign writes before each of its steps, reaches the end after finitely many rounds, with nothing queued and the lease free |
| `TaskDrain.StepDecreases` | `app/tasks_engine.py:542-599` | every step of a thread lowers the triple (unwritten requests, queued units with what executions may still arm, remaining statements) lexicographically |
| `TaskDrain.ArmingConsumes` | `app/tasks/media_jobs_worker.py:18-43` | an execution that arms the stream enforcer costs more of the measure than it adds to the queue |
| `TaskDrain.RoundIsCloser` | `app/tasks_engine.py:542-599` | any finite noise of the environment followed by one step of a thread lowers the measure |
| `TaskDrain.EnvironmentKeepsMeasure` | `app/tasks_engine.py:542-599` | the clock and other writers of status and updated_at leave queued units and distances alone |
| `TaskDrain.NoDeadlock` | `app/tasks_engine.py:101-118` | a thread that has not ended can always take its next step |
| `TaskTable.NextExists` | `app/tasks_engine.py:547-565` | whenever some enabled task is queued the SELECT has exactly one first row |
| `TaskOrder.NextIff` | `app/tasks_engine.py:553-563` | the query returns the enabled and queued task that may pass all others: the monitoring refresh is never passed over, the media jobs worker only by it, the stream enforcer only by those two, the collection of sessions passes nothing else, and among the rest the row updated earlier goes first, then the lower id |
| `TaskOrder.ExecutedInTurn` | `app/tasks_engine.py:547-578` | whatever is queued when the uninterrupted worker executes a task may be passed by it |
| `TaskOrder.StartedInTurn` | `app/tasks_engine.py:547-578` | in every interleaving, a started task could pass everything queued when it was fetched, and what is queued at its start is unchanged since or was updated no earlier |
| `TaskOrder.EarlierGoesFirst` | `app/tasks_engine.py:559-563` | of two tasks of one kind, the one whose row was updated later when it was fetched is not started while the other is queued |
| `TaskOrder.FetchedBefore` | `app/tasks_engine.py:545-578` | a thread that holds a fetched task fetched it at some moment of the run, and rows changed since then carry a later time |
| `TaskWorker.TaskEngine.EnqueueTask` | `app/tasks_engine.py:476-512` | accepts exactly enabled tasks under the cron switch, leaves the task waiting and the lease claimed, and starts a worker only if the lease was free |
| `TaskWorker.TaskEngine.KickWorkerIfNeeded` | `app/tasks_engine.py:514-539` | claims the lease exactly if it is free and work is queued |
| `TaskWorker.TaskEngine.RecoverStuckTasks` | `app/tasks_engine.py:331-360` | does nothing while the lease is claimed, else resets exactly the running rows older than the limit |
| `TaskWorker.TaskEngine.RunTask` | `app/core/tasks/execution.py:55-96` | the row after a whole execution, whether the task succeeds or fails, is the one Ran describes; other rows stay |
| `TaskWorker.Ran` | `app/tasks_engine.py:139-199` | an executed task is not left running and consumes one queued unit; a failure schedules a later retry exactly while retries are left, and a success clears the counters |
| `TaskWorker.TaskEngine.RunWorker` | `app/tasks_engine.py:542-599` | without interference the worker runs each queued unit of the enabled tasks exactly once, each time the first in the order of the SELECT, touches no other row, and ends with an empty queue and a free lease |
| `TaskWorker.ExecutedStep` | `app/tasks_engine.py:574-578` | one more execution keeps the account of units and their order, and shrinks what is owed |
| `TaskRows.SoloExecution` | `app/core/tasks/execution.py:55-96` | undisturbed, the statements of the protocol from the start of a task to its end do to the table what the runner does, whether the task succeeds or fails |
| `TaskRows.FailuresBackOff` | `app/tasks_engine.py:139-199` | the n-th failure in a row plans a retry after 1, 5, 15 and then 30 minutes while n does not exceed the allowed retries, and none later |
| `TaskRows.NoRetryWhileExecuting` | `app/tasks_engine.py:139-199` | in every interleaving a task whose execution has not ended has no planned retry |
| `TaskRows.StatusTellsAfter` | `app/tasks_engine.py:139-199` | over every run without foreign writes a task shown as queued is queued and one shown as failed is not |
| `TaskRows.RequestIsServed` | `app/tasks_engine.py:491-507` | an idle task that is requested and succeeds is as before but for the record of the success |
| `TaskRows.RequestIs` | `app/tasks_engine.py:491-507` | a request queues an enabled task once, leaves it shown as running if it is, and changes nothing else |
| `TaskRows.RefusedRequest` | `app/tasks_engine.py:476-489` | a request for a missing or disabled task changes nothing and starts no worker |
| `TaskRows.EndsAtOnce` | `app/tasks_engine.py:331-348` | a kick or a watchdog with nothing to do ends at once and changes nothing |
| `TaskRows.StartIs` | `app/core/tasks/execution.py:69-70` | a start takes one queued unit and clears the error and the planned retry |
| `TaskRows.ArmingIs` | `app/tasks/media_jobs_worker.py:18-43` | an execution that arms the stream enforcer queues it exactly if it is enabled, not queued and not running |
| `TaskRows.OnlyMediaJobsArm` | `app/tasks/media_jobs_worker.py:18-43` | only executions of the media jobs worker arm a task, and only the stream enforcer |
| `TaskRows.FailsafeIs` | `app/core/tasks/execution.py:94-100` | the failsafe ends an execution that left its task running, with an error in the row |
| `TaskRows.FailsafeIff` | `app/core/tasks/execution.py:94-100` | it is used exactly if the row still says running |
| `TaskRows.WatchdogIs` | `app/tasks_engine.py:350-358` | the watchdog resets exactly the running rows of more than 30 minutes ago, says so, and leaves their queue |
| `TaskRows.BootIs` | `app/core/tasks/runtime.py:25-34` | at boot the status of every enabled task that did not fail is told by its queue |
| `LoginLimiter.SlidingWindow` | `app/routes/auth.py:105-180` | on a microsecond clock, for M attempts, any max(2, 2M-1) consecutive evaluated failures of one address or e-mail without a success between them span at least the shorter of window minus one second and lock minus two seconds, after any history |
| `LoginVerdicts.VerdictIs` | `app/routes/auth.py:481-534` | for every table and request: let in exactly if neither the address nor the e-mail has a whole second of lock left, the e-mail is not blank and the credentials are right; blocked exactly if one of them has, for the whole seconds left to the address if it is locked, else to the e-mail; rejected otherwise |
| `LoginVerdicts.AcceptedInRun` | `app/routes/auth.py:503-534` | in every run whoever is let in has an e-mail, the right credentials and no lock |
| `LoginVerdicts.LockHolds` | `app/routes/auth.py:494-501` | a lock holds over every run that ends a second before it: no request of its key is evaluated and the row stays as it is |
| `LoginVerdicts.RowRecordsFailures` | `app/routes/auth.py:112-153` | after every run from the empty table a row tells the times of the first and the last of the latest evaluated failures of its key, all in one window, and a lock exactly if their number is the limit |
| `LoginVerdicts.RecordsFailure` | `app/routes/auth.py:112-153` | one more evaluated failure keeps that account |
| `LoginLimiter.QuotaIsTight` | `app/routes/auth.py:112-153` | for M >= 2 there is a run in which one failure fewer fits into one microsecond |
| `LoginLimiter.AuthGate.LoginSubmit` | `app/routes/auth.py:481-534` | checks the address, then the e-mail, then the credentials; a blocked request is not evaluated, a failure is registered and a success resets both rows |
| `LoginLimiter.AuthGate.IsLoginLocked` | `app/routes/auth.py:172-180` | locked exactly while at least one whole second remains, and an expired lock is wiped |
| `LoginLimiter.AuthGate.RegisterFailedLogin` | `app/routes/auth.py:112-153` | restarts the window when it is over, counts the failure and reports a lock exactly when this failure starts one |
| `LoginLimiter.RowStep` | `app/routes/auth.py:489-534` | what one request does to one row: nothing if it does not concern it, else by verdict |
| `LoginLimiter.TracksStep` | `app/routes/auth.py:112-153` | one more evaluated failure inside the span keeps the count of failures bounded by the row |
| `LoginLimiter.SegmentBound` | `app/routes/auth.py:105-180` | the bound for a run without success from any plausible row |
| `LoginLimiter.LockBlocks` | `app/routes/auth.py:172-180` | after the failure that starts a lock every request of that key is blocked, whatever its credentials, until exactly one second before the stored end of the lock |
| `LoginLimiter.LockEndsEarly` | `app/routes/auth.py:105-109` | with one attempt allowed, two failures less than lock minus one second apart are both evaluated |
| `LoginLimiter.StillLocked` | `app/routes/auth.py:105-109` | no lock set at or after a time ends within lock minus two seconds of it |
| `LoginLimiter.BlockedChangesNothing` | `app/routes/auth.py:494-501` | a blocked request changes no row except by wiping an expired lock |
| `LoginLimiter.RestartedWindow` | `app/routes/auth.py:112-153` | a row whose window is over takes as many failures at once as the limit allows |
| `LibraryReconcile.Reconciled` | `app/core/plex_library_sync.py:83-200` | with distinct sections, no takeover and no two new libraries of one identity, every reported library has exactly one row, that of its section, else the first of its identity, else a new one, and every row of the server belongs to a reported library |
| `LibraryReconcile.AllMatchedIff` | `app/core/plex_library_sync.py:83-200` | with distinct sections alone: every reported library ends up with exactly the row that stands for it if and only if there is no takeover and no two new libraries share an identity |
| `LibraryRows.KeptRowsStayTrue` | `app/core/plex_library_sync.py:107-200` | for every report with distinct sections, a row that remains keeps its section, or else the folded name and type it had; access links remain exactly if their rows do |
| `LibraryRows.AllServedIff` | `app/core/plex_library_sync.py:83-200` | the same equivalence on the columns alone: every reported library ends with one row, the old row of its section, else the first old row with its folded name and type, else a new one, if and only if no such row belongs to a reported section and no two libraries of unknown sections agree in both |
| `LibraryRows.OldRowIffAlike` | `app/core/plex_library_sync.py:120-165` | a library of an unknown section is given an old row exactly if some old row has its folded name and type |
| `LibraryRows.TracedStep` | `app/core/plex_library_sync.py:107-168` | one pass of the loop keeps every old row under its section, or under its folded name and type |
| `LibraryRows.ConditionsIff` | `app/core/plex_library_sync.py:83-145` | the two conditions, on the columns and on the indexes, are the same |
| `LibraryReconcile.SharedIdentityFails` | `app/core/plex_library_sync.py:127-145` | two new libraries of one identity never both have a row |
| `LibraryReconcile.TakeoverFails` | `app/core/plex_library_sync.py:127-145` | with a takeover some reported library does not have its row, whatever else is reported |
| `LibraryReconcile.FirstSyncExample` | `app/core/plex_library_sync.py:146-165` | a first synchronisation of two libraries of one name and type leaves one row, of the second section |
| `LibraryReconcile.GoneExactly` | `app/core/plex_library_sync.py:189-200` | with distinct sections, no takeover and no two new libraries of one identity, the deleted rows, and with them their access links, are exactly those that stand for no reported library |
| `LibraryReconcile.KeepsReportedIffNoTakeover` | `app/core/plex_library_sync.py:120-145` | if no new library shares its identity with another reported one: rows of reported sections keep id and section if and only if there is no takeover |
| `LibraryReconcile.NoTakeoverKeeps` | `app/core/plex_library_sync.py:120-200` | for every report without a takeover, rows of reported sections keep id and section |
| `LibraryReconcile.TakenBackExample` | `app/core/plex_library_sync.py:127-145` | a takeover by a library of the same name is undone when the known one is processed after it, and leaves the new one without a row |
| `LibraryReconcile.TakeoverLoses` | `app/core/plex_library_sync.py:127-145` | a takeover by a library with an identity of its own leaves a reported section without its row |
| `LibraryReconcile.TakeoverExample` | `app/core/plex_library_sync.py:121-145` | a renamed library whose old name a new one carries loses its row to it |
| `LibraryReconcile.UniqueNeverViolated` | `app/core/plex_library_sync.py:107-165` | after every single pass of the loop, for any report, no two rows of one server share a section id |
| `LibraryReconcile.LoopExact` | `app/core/plex_library_sync.py:107-165` | the section index agrees with the table throughout the loop |
| `LibraryReconcile.SectionIndexOf` | `app/core/plex_library_sync.py:83-87` | the section index holds every row with a section and nothing else |
| `LibraryReconcile.IdentityIndexOf` | `app/core/plex_library_sync.py:88-92` | the identity index holds the first row of every identity |
| `LibraryReconcile.MatchedRekey` | `app/core/plex_library_sync.py:127-145` | re-keying a row by identity keeps every other library settled or as before |
| `LibrarySync.Database.SyncPlexLibraries` | `app/core/plex_library_sync.py:59-200` | the table, the access links and the next id after the two loops are those of the specification |
| `LibrarySync.Database.MatchLibraries` | `app/core/plex_library_sync.py:107-168` | the loop that matches, re-keys and inserts |
| `LibrarySync.Database.DeleteUnmatched` | `app/core/plex_library_sync.py:189-200` | deletes the unmatched rows and the links to them and nothing else |
| `AccessMerge.AccessConserved` | `app/core/user_merge.py:105-187` | the libraries the merged user reaches are the union of those of both users; the second user owns nothing afterwards; links refer to existing media users |
| `AccessMergeRows.NoTwinsLeft` | `app/core/user_merge.py:110-187` | afterwards no two typed media users of the master agree in server, type, external id and user name |
| `AccessMergeRows.StaysIff` | `app/core/user_merge.py:128-187` | a media user of either user is deleted exactly if it has a type and one of theirs with the same four values is preferred to it, by details, raw data and lower id; the others keep every column |
| `AccessMergeRows.SingleStays` | `app/core/user_merge.py:110-135` | a media user that differs from all others of both users in one of the four values survives |
| `AccessMergeRows.TwinSurvives` | `app/core/user_merge.py:128-187` | every media user has a survivor with the same four values, preferred to all others of them, that holds its libraries |
| `AccessMergeRows.LinksComeFromTwins` | `app/core/user_merge.py:171-187` | every link afterwards comes from a link of the same media user or of one with the same four values |
| `AccessMerge.SurvivorOf` | `app/core/user_merge.py:130-187` | every media user of either user has a survivor of its group that holds at least its libraries, the only one of its group when it has a server type |
| `AccessMerge.SurvivorHoldsUnion` | `app/core/user_merge.py:171-187` | a surviving media user holds exactly the libraries of its group |
| `AccessMerge.ThirdUsersUntouched` | `app/core/user_merge.py:105-187` | media users of others keep their rows and links |
| `AccessMerge.AccessTables.MergeAccess` | `app/core/user_merge.py:52-187` | moving, grouping and folding leave the folded tables, whatever order the groups are taken in |
| `AccessMerge.FoldOne` | `app/core/user_merge.py:163-187` | folding one group with its best row keeps the account of folded groups |
| `AccessMerge.KeeperExists` | `app/core/user_merge.py:131-163` | the query over a group has exactly one first row |
| `AccessMerge.KeyedConserved` | `app/core/user_merge.py:58-97` | identities and sent mails: no key of either user is lost or doubled, other users keep their rows, uniqueness is kept |
| `ProfilePreview.PreviewAgreesWithMerge` | `app/core/user_merge.py:189-371` | for all pairs of users every field of the preview equals the merged row, up to blanks at the ends and blank against null |
| `ProfileColumns.CompletedColumns` | `app/core/user_merge.py:197-200` | names and renewal data are taken from the second user exactly where the first has none and the second has some |
| `ProfileColumns.KeptColumns` | `app/core/user_merge.py:189-260` | user name, status and creation date stay |
| `ProfileColumns.SecondAddressIs` | `app/core/user_merge.py:224-246` | the second address is the first user's, else the first of the second user's addresses that is not the primary one, else null |
| `ProfileColumns.NotesUntouchedIff` | `app/core/user_merge.py:215-253` | the notes stay as they were exactly if they hold the line of every displaced address and the second user's notes |
| `ProfileColumns.NotesExtend` | `app/core/user_merge.py:215-222` | the merged notes begin with the first user's and go on in new lines |
| `ProfileColumns.DisplacedIsNoted` | `app/core/user_merge.py:224-234` | an address that found no column stands in the notes on a line that says so |
| `ProfileColumns.StringLessIff` | `app/core/user_merge.py:16-22` | the order of dates: at the first difference the lower character, or the shorter text, comes first |
| `ProfilePreview.NothingIsLost` | `app/core/user_merge.py:206-253` | the stored row has the primary address of the first user, else of the second, and each non-blank address of either user is its primary or second address, both up to case, or part of its notes |
| `ProfilePreview.CaseVariantIsDropped` | `app/core/user_merge.py:212-239` | an example: with the addresses A and a the stored row has A only |
| `ProfilePreview.StoredAsDrafted` | `app/core/user_merge.py:244-260` | the stored addresses and notes are those the nested helpers computed |
| `ProfilePreview.NotesSurvive` | `app/core/user_merge.py:203-253` | the notes of both users are part of the stored notes |
| `ProfilePreview.SourcesAreTrue` | `app/core/user_merge.py:265-371` | what the preview says about the origin of a value is true of that value |
| `ProfilePreview.EmailOnlyFills` | `app/core/user_merge.py:236-245` | the address of the second user is taken only if the first has none |
| `ProfilePreview.SecondOnlyFills` | `app/core/user_merge.py:224-246` | a second address of the first user is never replaced |
| `ProfilePreview.LaterExpirationWins` | `app/core/user_merge.py:192-195` | the merged expiration is one of the two dates and no earlier than either |
| `ProfilePreview.BuildMergePreview` | `app/core/user_merge.py:265-371` | the preview and its sources as computed, with one source for every shown column |
| `ProfileMerge.MergeProfile` | `app/core/user_merge.py:189-260` | the assignments of the UPDATE |
| `ProfileMerge.MergeDraft.PushSecond` | `app/core/user_merge.py:224-234` | an additional address fills the second one or goes to the notes, unless it is already there |
| `ProfileMerge.MergeDraft.AddNoteLine` | `app/core/user_merge.py:215-222` | a line is appended once |
| `UserMerge.UserDatabase.MergeVodumUsers` | `app/core/user_merge.py:24-263` | all tables after the merge, and what the foreign keys of the tables it does not move delete or set to null; nothing changes when the ids are equal or a user is missing |
| `UserMerge.NothingLeftToCascade` | `app/core/user_merge.py:262-263` | of the four moved tables, no media user blocks the DELETE of the second user and no identity, mail or job goes with it |
| `UserMerge.MergeLosesNothingIff` | `app/core/user_merge.py:182-263` | of the tables that are not moved, a merge loses no row and no reference if and only if, before it, none of their rows mentions the second user or a duplicate media user |
| `AccessMerge.FoldedIffDuplicate` | `app/core/user_merge.py:105-187` | the media users that a merge deletes are exactly the typed ones of either user with a better one of the same group among their accounts |
| `UserMerge.RowsLostExactly` | `app/core/user_merge.py:262-263` | the rows that go are the deleted ones, the children of the second user, and the events and steps below those |
| `UserMerge.RelatedStayIntact` | `app/core/user_merge.py:182-263` | after a merge no foreign key dangles |
| `UserMerge.ReferralIsLost` | `tables.sql:435-513` | a referral of a third user and its history are deleted, and the third user loses the referrer |
| `UserMerge.MigrationIsLost` | `tables.sql:1281-1324` | a migration of the merged user is deleted with its steps |
| `ForeignKeys.DoomedIsLeast` | `tables.sql:435-513` | what a DELETE takes along is the least set closed under ON DELETE CASCADE |
| `ForeignKeys.DeleteKeepsIntact` | `tables.sql:435-513` | a DELETE leaves every remaining reference valid and touches no row without a reference to what goes |
| `ForeignKeys.NothingElseLostIff` | `tables.sql:435-513` | a DELETE changes nothing else exactly if no other row mentions what is deleted |
| `ForeignKeys.LostExactly` | `tables.sql:1281-1324` | under the schema, cascades from users end after two levels |
| `AccessJobs.RefusedIffRunningHoldsKey` | `app/core/media_jobs.py:41-117` | with keys that belong to one target: refused exactly if an unprocessed running job holds the key it would be stored under |
| `AccessJobs.RefusedIff` | `app/core/media_jobs.py:41-117` | for every table: refused exactly if an unprocessed active job that is not cancelled holds the key |
| `AccessRows.InsertedIff` | `app/core/media_jobs.py:52-117` | the same on the columns: inserted exactly if every unfinished active row with the stored key is one that the request replaces |
| `AccessRows.NewRowAfter` | `app/core/media_jobs.py:90-117` | the only new row is the request, queued under its key, or two minutes later under the key for a busy target |
| `AccessRows.OldRowAfter` | `app/core/media_jobs.py:54-88` | an old row goes exactly if it has the stored key and is finished or replaced; replaced rows are canceled with the reason, all others stay as they are |
| `AccessJobRuns.RefusedInRun` | `app/core/media_jobs.py:41-117` | after every run a request is refused exactly if a running job holds its effective key, and a Jellyfin request never is |
| `AccessJobs.OwnJobIsTheOnlyQueued` | `app/core/media_jobs.py:54-117` | from every table: after a request the only pending access job of its provider, user and server is the inserted one, if any |
| `AccessJobs.OthersUntouched` | `app/core/media_jobs.py:54-88` | running jobs and jobs of other users and servers stay as they are |
| `AccessJobs.IndexKept` | `app/core/db_bootstrap_media_jobs.py:28-32` | every request keeps the keys of active jobs unique |
| `AccessJobRuns.EveryRunIsSound` | `app/core/media_jobs.py:12-117` | over every run of requests, both workers, reactivations, merges, clean-ups and monitoring jobs: unique active keys, Plex jobs unprocessed while active, no other access job running, keys with their targets |
| `AccessJobRuns.OnePendingInRunIff` | `app/tasks/apply_plex_access_updates.py:805-981` | over a run there is never a second pending access job of one provider, user and server if and only if every statement is harmless; requests, claims, ends and cancellations always are |
| `AccessJobRuns.StepKeepsOnePendingIff` | `app/tasks/apply_plex_access_updates.py:805-981` | the same for one statement |
| `AccessJobRuns.RequeueKeepsOnePendingIff` | `app/tasks/apply_plex_access_updates.py:921-981` | putting a job back keeps at most one pending exactly if no other job of its target is pending |
| `AccessJobRuns.RecoverKeepsOnePendingIff` | `app/tasks/apply_plex_access_updates.py:808-822` | the same for the recovery of stale locks |
| `AccessJobRuns.ReassignKeepsOnePendingIff` | `app/core/user_merge.py:99-103` | the same for the merge of two users |
| `AccessJobRuns.RequeueMakesTwoPending` | `app/tasks/apply_plex_access_updates.py:965-981` | a run in which a failed grant is put back beside the sync that was queued meanwhile |
| `AccessJobRuns.AtMostTwoPending` | `app/tasks/apply_plex_access_updates.py:843-981` | with one worker that has one job in hand, and without merges, at most two access jobs of one provider, user and server are pending after every run |
| `AccessJobRuns.StepKeepsSound` | `app/tasks/apply_jellyfin_access_updates.py:132-143` | every statement keeps the table sound, also the Jellyfin completion that leaves the status queued |
| `AccessRows.ClaimIs` | `app/tasks/apply_plex_access_updates.py:855-870` | the Plex worker takes exactly its jobs that nobody has begun |
| `AccessRows.RetriedIsAsBefore` | `app/tasks/apply_plex_access_updates.py:921-981` | an attempt that is put back leaves the job as it was, to be run later |
| `AccessRows.RecoveredIsAsBefore` | `app/tasks/apply_plex_access_updates.py:808-822` | a claim whose worker died is taken back when its lock is over, and not before |
| `AccessRows.CancelUserIs` | `app/api/subscriptions.py:50-99` | a reactivation ends the unfinished Plex jobs of its user as canceled and touches no others |
| `AccessJobs.RequestCanBeLost` | `app/core/media_jobs.py:52-117` | from a table with a running after-running job a revocation is refused and nothing is queued |
| `AccessJobRuns.RunLosesRequest` | `app/core/media_jobs.py:41-117` | a run from the empty table, with claims and an end between the requests, leads there |
| `AccessJobs.MediaJobs.QueueAccessJob` | `app/core/media_jobs.py:30-117` | the three statements and the insertion, as a function of the table |
| `AccessJobs.MediaJobs.HasRunningAccessJob` | `app/core/media_jobs.py:12-27` | whether a running access job of the target exists |
| `SyncFanOut.FanOutRefinesPreference` | `app/core/user_sync_jobs.py:80-110` | scanning the sorted rows and skipping seen servers makes exactly one call per linked Plex server, each for the media user that the query for that server alone prefers |
| `SyncFanOut.PreferredAccountsAreQueued` | `app/core/user_sync_jobs.py:80-147` | afterwards every linked server has a pending sync job whose payload is that of the preferred media user there, unless a running job has one of its keys |
| `SyncFanOut.EveryCallIsServed` | `app/core/user_sync_jobs.py:105-138` | later insertions do not cancel earlier ones of the loop |
| `SyncFanOut.FirstIsPreferred` | `app/core/user_sync_jobs.py:80-110` | the first row of a server in the scan is the preferred media user there |
| `SyncFanOut.FirstsCoverServers` | `app/core/user_sync_jobs.py:96-103` | the calls have distinct servers and leave none out |
| `SyncFanOut.FanOutKeepsSound` | `app/core/user_sync_jobs.py:71-147` | the forced synchronisation keeps the job table sound and, where it held, one pending job for each target, and its result counts the inserted jobs |
| `SyncFanOut.GetPreferredPlexMediaUserId` | `app/core/user_sync_jobs.py:10-28` | the least media user in the order of five keys, or none if the user has none on the server |
| `SyncFanOut.PreferredExists` | `app/core/user_sync_jobs.py:10-28` | every linked server has a preferred media user |
| `AccessRows.PreferredIff` | `app/core/user_sync_jobs.py:17-26` | the preferred media user, column by column: not an owner, accepted, with an external id, not unfriended, the lowest id |
| `AccessRows.ServersAre` | `app/core/user_sync_jobs.py:80-103` | the servers that get a job are the Plex servers on which the user has an account |
| `AccessRows.SelectedIff` | `app/core/user_sync_jobs.py:80-103` | the rows of the scan are the user's accounts on Plex servers, each once, by server and then in order of preference, column by column |
| `AccessRows.ForcedJobIs` | `app/core/user_sync_jobs.py:105-138` | each job is a synchronisation of the whole server |
| `SyncFanOut.ForceQueueFullPlexSync` | `app/core/user_sync_jobs.py:96-147` | the loop queues one job for each first row |
| `ExpirationTemplates.OneSlotPerDay` | `app/core/expiration_template_selection.py:52-73` | on any day at most one before or after value is active |
| `ExpirationTemplates.CoveredIffActive` | `app/core/expiration_template_selection.py:52-73` | a day has an active value exactly if it is at most the greatest before value, or overdue with a before value 0 or at least the least after value |
| `ExpirationTemplates.SlotsMoveForward` | `app/core/expiration_template_selection.py:52-73` | as days pass the active value only moves forward on the timeline |
| `ExpirationTemplates.FindSlot` | `app/core/expiration_template_selection.py:52-73` | finds the active value of a covered day |
| `ExpirationPick.PickExpirationTemplate` | `app/core/expiration_template_selection.py:76-117` | none exactly if no template is in play, else the best by subscription scope, provider and least id |
| `ExpirationPick.InPlayShareOneSlot` | `app/core/expiration_template_selection.py:87-100` | the templates in play on a day are exactly the applicable ones of one value |
| `ExpirationPick.InPlayIffCovered` | `app/core/expiration_template_selection.py:87-102` | some template is in play exactly if the applicable values cover the day |
| `ExpirationPick.PickIgnoresOrder` | `app/core/expiration_template_selection.py:104-105` | with distinct ids the pick does not depend on the order of the rows |
| `ExpirationChoice.ActiveIsNearest` | `app/core/expiration_template_selection.py:52-73` | the active value is the least before value that has not passed, after expiry the greatest after value that has been reached, and until the first of those the before value 0 |
| `ExpirationChoice.InPlayIff` | `app/core/expiration_template_selection.py:76-100` | a template is in play exactly if it fits subscription and provider and none of the fitting ones is nearer |
| `ExpirationChoice.BestIs` | `app/core/expiration_template_selection.py:104-105` | the pick is in play and no worse than any other: templates of one subscription first, then those for all, then others; among those providers of the user, then all, then others; then the lower id |
| `ExpirationChoice.QueueProviderIs` | `app/core/expiration_template_selection.py:106-117` | the mail is queued for a provider of the user if they have any |
| `ExpirationPick.NormalizedDaysAreSlots` | `app/core/communication_template_rules.py:43-63` | a stored rule has exactly one of the two values and it is not negative, as the windows need |
| `SlotSelection.SelectionIsBestPerSlot` | `app/core/communication_template_selection.py:55-107` | the output holds exactly one template for every slot with an eligible row, each the best of its slot, in output order |
| `SlotSelection.SelectionIgnoresRowOrder` | `app/core/communication_template_selection.py:55-107` | with distinct ids every permutation of the rows gives the same output |
| `SlotSelection.SelectBestTemplates` | `app/core/communication_template_selection.py:55-107` | the filtering, sorting and first-per-slot loops compute the selection |
| `SlotSelection.FirstsLead` | `app/core/communication_template_selection.py:88-100` | the first row of a slot in rank order leads its slot |
| `SlotChoice.SelectedIff` | `app/core/communication_template_selection.py:55-107` | with distinct ids exactly the fitting rows are selected that none of their slot outdoes, all in terms of the columns |
| `SlotChoice.SameSlotIff` | `app/core/communication_template_selection.py:45-52` | which rows compete: those of equal delay, of equal direction, or of equal days before and after, by event |
| `SlotChoice.RankIs` | `app/core/communication_template_selection.py:13-42` | who outdoes whom: scope, provider, direction, lower id |
| `SlotChoice.OutputOrder` | `app/core/communication_template_selection.py:101-107` | the output is in the order of days before, days after and id, a missing number counting as 999999 |
| `SwitchGrace.DeferralIsBounded` | `app/core/policy_transition_grace.py:80-112` | every deferral is within 300 seconds of a granted first sighting that nothing cleared, and under 600 seconds after the newest start seen then |
| `SwitchVerdicts.DefersIff` | `app/core/policy_transition_grace.py:80-112` | for every cache and call: deferred exactly if the count is one over the limit and the first session that plays what another one plays under another key was first seen so less than 300 seconds ago, or only now and within 300 seconds of its start |
| `SwitchVerdicts.OneOverWithPair` | `app/core/policy_transition_grace.py:85-96` | a deferral is of one stream over the limit, with two sessions of one thing under two session keys |
| `SwitchVerdicts.RememberedAfter` | `app/core/policy_transition_grace.py:80-112` | what is remembered after a call: nothing of its policy and user if the count is not one over the limit, and of the others what is at most 3600 seconds old |
| `SwitchVerdicts.OtherCountsEndGrace` | `app/core/policy_transition_grace.py:85-92` | a deferral after a call with another count goes back to a switch newly deferred in between |
| `SwitchVerdicts.PlaySameIff` | `app/core/policy_transition_grace.py:23-35` | which sessions play the same thing, by series, season and title, movie title, media key or title |
| `SwitchVerdicts.LooksAtFirst` | `app/core/policy_transition_grace.py:50-64` | the switch looked at is that of the first session that takes part in one |
| `SwitchGrace.GrantsAreFarApart` | `app/core/policy_transition_grace.py:82-112` | without a clear between them two grants for one key are more than 3600 seconds apart |
| `SwitchGrace.LastingSwitchIsEnforced` | `app/core/policy_transition_grace.py:98-112` | between 300 and 3600 seconds after a grant the same switch is not deferred |
| `SwitchGrace.SightingWasGranted` | `app/core/policy_transition_grace.py:82-112` | every remembered sighting is the time of an uncleared grant of the run |
| `SwitchGrace.SightingStays` | `app/core/policy_transition_grace.py:82-92` | a sighting stays until it is cleared or 3600 seconds old |
| `SwitchGrace.ProbableSwitchIs` | `app/core/policy_transition_grace.py:50-64` | an identity is returned exactly if some identity has two sessions with two session keys |
| `SwitchGrace.ProbableSwitchIdentity` | `app/core/policy_transition_grace.py:50-64` | the grouping loops find the first such identity |
| `SwitchGrace.TransitionGrace.ShouldDeferStreamViolation` | `app/core/policy_transition_grace.py:67-112` | the verdict and the remembered sightings of one call |
| `SyncDedupe.GraceLastsTwoRuns` | `app/core/stream_sync_dedupe.py:13-66` | while the calls that present one weak overlap come at most 360 seconds apart, it collapses to its newest session in the first two of them and never after |
| `SyncVerdicts.EndpointKeeps` | `app/core/stream_sync_dedupe.py:26-66` | of several sessions of an endpoint only the one heard of last is kept exactly if its machine is known, or all started within 120 seconds of it and two runs of the last 360 seconds have not spent the grace; else all are |
| `SyncVerdicts.PresentsIff` | `app/core/stream_sync_dedupe.py:38-56` | a call counts a run for an endpoint exactly if several of its sessions, of no known machine, started together |
| `SyncVerdicts.RememberedRuns` | `app/core/stream_sync_dedupe.py:13-18` | the runs remembered after a call, on the columns of the cache |
| `SyncVerdicts.NewestRepresents` | `app/core/stream_sync_dedupe.py:41-46` | the representative was heard of last, and among equals was presented first |
| `SyncVerdicts.KeyIs` | `app/core/stream_sync_dedupe.py:21-23` | an overlap is known by policy, user, endpoint and how often each server, session key and media family occurs |
| `SyncDedupe.PauseRestartsGrace` | `app/core/stream_sync_dedupe.py:13-18` | after a longer pause the next call collapses it again |
| `SyncDedupe.KeepsEveryEndpoint` | `app/core/stream_sync_dedupe.py:26-66` | nothing is invented or doubled; every endpoint keeps a session; a strong endpoint keeps its newest only; sessions without an endpoint all stay |
| `SyncDedupe.CallPerEndpoint` | `app/core/stream_sync_dedupe.py:38-66` | every endpoint is decided as if it were alone in the call |
| `SyncDedupe.CallPerKey` | `app/core/stream_sync_dedupe.py:54-56` | a call counts one more run for the keys it presents and leaves all others |
| `SyncDedupe.CacheCounts` | `app/core/stream_sync_dedupe.py:54-56` | over a run the cache counts the presentations of a key until its entry is too old |
| `SyncDedupe.CountsAlong` | `app/core/stream_sync_dedupe.py:54-56` | the same along any sequence of caches that the calls could have left |
| `SyncDedupe.BucketIs` | `app/core/stream_sync_dedupe.py:38-43` | the sorted bucket holds the sessions of its endpoint, the newest first |
| `Grouping.GroupInOrder` | `app/core/stream_sync_dedupe.py:28-36` | the grouping loop finds the keys in order, their items, and the items without a key |
| `Grouping.GroupCount` | `app/core/stream_sync_dedupe.py:28-36` | each item is in the group of its key, as often as in the list |
| `Grouping.KeysBySight` | `app/core/stream_sync_dedupe.py:28-36` | keys stand in the order of their first items |
| `Ordering.SortByIsStable` | `app/core/stream_sync_dedupe.py:41-41` | sorting keeps the order of equal elements |
| `SyncDedupe.SyncGrace.DeduplicateUserStreamSessions` | `app/core/stream_sync_dedupe.py:26-66` | the kept sessions and the cache of one call |
| `SyncDedupe.SyncGrace.KeepFromEndpoint` | `app/core/stream_sync_dedupe.py:40-65` | one pass over an endpoint |
| `HouseholdDedupe.CallAccountsForEveryKey` | `app/core/stream_household_dedupe.py:13-83` | every presented or remembered key is accounted for by a session considered under it, which is kept or of the household of a kept one |
| `HouseholdDedupe.KeptAreDissimilar` | `app/core/stream_household_dedupe.py:50-83` | the kept sessions are presented or remembered and pairwise of different households and keys |
| `HouseholdDedupe.AlwaysAccountedIffKeyIsFresh` | `app/core/stream_household_dedupe.py:21-48` | an input session is certain to be kept or merged if and only if it has a key that no earlier input and no remembered session of their users has |
| `HouseholdDedupe.ConsideredIs` | `app/core/stream_household_dedupe.py:18-48` | exactly one session of every presented or remembered key is considered |
| `HouseholdDedupe.KeepAllIs` | `app/core/stream_household_dedupe.py:50-71` | the greedy loop leaves dissimilar sessions that account for all others |
| `HouseholdDedupe.EarlierSessionsWin` | `app/core/stream_household_dedupe.py:50-71` | sessions considered earlier win over later ones of their household, and the first one is always kept |
| `HouseholdDedupe.MemoryIs` | `app/core/stream_household_dedupe.py:71-83` | after a call the memory of a user is what was recent, then what was kept, cut to the newest 25 |
| `HouseholdDedupe.MemoryIsBounded` | `app/core/stream_household_dedupe.py:71-83` | over every run each user has at most 25 remembered sessions, all keyed and their own |
| `HouseholdMemory.StoppedStreamNeverFades` | `app/core/stream_household_dedupe.py:34-83` | the case of one live and one stopped stream: the stopped one is kept in every call of a run of any length |
| `HouseholdMemory.StoppedIsKeptIff` | `app/core/stream_household_dedupe.py:34-71` | for any call and memory: a remembered session that is not presented is kept if and only if its user presents something, it was last kept at most 300 seconds ago, and nothing before it has its key or its household |
| `HouseholdMemory.RenewedIff` | `app/core/stream_household_dedupe.py:71-83` | a kept session is stamped anew exactly if fewer than 25 sessions of its user are kept after it |
| `HouseholdMemory.RenewedThroughoutIff` | `app/core/stream_household_dedupe.py:34-83` | over any run that does not present it, a session is kept and stamped anew in every call if and only if every call meets these conditions |
| `HouseholdMemory.KeptBecauseKeptRecently` | `app/core/stream_household_dedupe.py:95-111` | in every run from the empty memory a session kept without being presented was kept by a call at most 300 seconds before: after a longer gap it is gone |
| `HouseholdMemory.EntriesWereKept` | `app/core/stream_household_dedupe.py:71-83` | every remembered entry was written by an earlier call that kept its session |
| `HouseholdMemory.StoppedStreamFromEmpty` | `app/core/stream_household_dedupe.py:34-83` | the state is reached from the empty memory by presenting both streams once |
| `HouseholdMemory.EnrichIsFirsts` | `app/core/stream_household_dedupe.py:21-48` | what is considered are the first sessions under their keys among the inputs, each followed by the memory of its user |
| `HouseholdDedupe.SeenKeyIsNotLookedAt` | `app/core/stream_household_dedupe.py:24-28` | a session under a seen key has no influence on what is considered |
| `HouseholdDedupe.RecentSessions.CleanupRecentSessionCache` | `app/core/stream_household_dedupe.py:95-119` | keeps the sessions of at most 300 seconds and drops users without any |
| `HouseholdDedupe.RecentSessions.DeduplicateHouseholdSessions` | `app/core/stream_household_dedupe.py:13-93` | the kept sessions and the memory after one call |
| `HouseholdDedupe.EnrichSessions` | `app/core/stream_household_dedupe.py:18-48` | the nested loops that collect what is considered |
| `SessionIdentity.ScoreIsSymmetric` | `app/core/stream_session_identity.py:70-92` | the score and the verdict do not depend on the order of the sessions |
| `SessionIdentity.HouseholdIff` | `app/core/stream_session_identity.py:70-92` | two sessions are of one household exactly if they share the address or machine, or the address range and one more thing, or two of: the device, the time within 90 seconds, and what plays |
| `SessionIdentity.EndpointIs` | `app/core/stream_session_identity.py:95-107` | the endpoint is the machine, else the address with the description between its outer bars, unless one is missing |
| `SessionIdentity.StrengthByEndpoint` | `app/core/stream_session_identity.py:95-107` | sessions of one endpoint are all strong, with one machine, or all weak |
| `RateLimiter.GrantsAreSpaced` | `app/core/plex_rate_limit.py:26-41` | for any number of threads and every interleaving, two grants for one server are at least a second apart |
| `RateLimiter.WindowBound` | `app/core/plex_rate_limit.py:26-41` | any n seconds see at most n + 1 grants of one server |
| `RateLimiter.WindowBoundIsTight` | `app/core/plex_rate_limit.py:31-39` | and for every n there is a run with that many |
| `RateLimiter.GrantedIff` | `app/core/plex_rate_limit.py:33-39` | a pass is granted exactly if no grant of the server is less than a second old and, before the first one, the clock has reached one second |
| `RateLimiter.PassIs` | `app/core/plex_rate_limit.py:31-41` | after a pass the thread is awake with its time recorded, or sleeps until one second after the last request with nothing recorded |
| `RateLimiter.EveryRefusalIsAnothersGrant` | `app/core/plex_rate_limit.py:31-41` | a call sleeps at most once more than others are granted the slot meanwhile |
| `RateLimiter.KeyIsStableIff` | `app/core/plex_rate_limit.py:12-28` | normalising a key again leaves it alone exactly if no blank stands before the trailing slashes |
| `RateLimiter.PlexRateLimit.WaitForPlexSlot` | `app/core/plex_rate_limit.py:26-41` | undisturbed, a call gets the slot at once or when the last request is one second old, and records that time |
| `RateLimiter.PlexRateLimit.TakeSlot` | `app/core/plex_rate_limit.py:32-39` | one pass under the lock takes the slot or changes nothing |
| `AggregateRuns.HitIsRecent` | `app/core/aggregate_cache.py:22-49` | in every interleaving a hit returns what the loader of some call for the same key returned, and that call began less than its max(1, ttl) ago |
| `AggregateRuns.SizeIsBounded` | `app/core/aggregate_cache.py:31-45` | the cache never holds more than 64 entries |
| `AggregateRuns.OnlyOldestAreEvicted` | `app/core/aggregate_cache.py:31-39` | a store drops an entry only from a full cache, and a live one only if every entry it keeps is alive and at least as new |
| `AggregateRuns.LimitOnlyForgets` | `app/core/aggregate_cache.py:31-45` | the limited cache never answers otherwise than one without a limit |
| `AggregateRuns.FewKeysAreAllKept` | `app/core/aggregate_cache.py:31-45` | with fewer than 64 keys it is the cache without a limit |
| `AggregateRuns.EntriesAreProduced` | `app/core/aggregate_cache.py:29-45` | every entry is the outcome of one call for its key and lives from the beginning of that call |
| `AggregateRuns.ClearIsCompleteIff` | `app/core/aggregate_cache.py:29-53` | after a clear only calls begun later count, however the run goes on, if and only if no call is in flight at the clear |
| `AggregateRuns.ClearMissesCallExample` | `app/core/aggregate_cache.py:29-53` | a run in which a value loaded before the clear is hit after it |
| `AggregateRuns.NeverOlderIff` | `app/core/aggregate_cache.py:29-45` | an entry is never followed by an older one, however the run goes on, if and only if no call in flight for its key began before the call that stored it |
| `AggregateRuns.NoOverlapNoReturn` | `app/core/aggregate_cache.py:29-45` | as long as calls for a key have not overlapped, what is cached for it never goes back in time |
| `AggregateRuns.ClearDoesNotReachCallsInFlight` | `app/core/aggregate_cache.py:29-53` | a call that loaded before a clear stores afterwards, for its full lifetime |
| `AggregateRuns.SlowCallOverwritesNewerValue` | `app/core/aggregate_cache.py:29-45` | a run of two overlapping calls in which the older value replaces the newer one |
| `AggregateCache.CallersOwnTheirCopy` | `app/core/aggregate_cache.py:22-49` | whatever is done to the returned and to the loaded rows, the cache keeps its contents |
| `AggregateCache.ProcessCache.CachedAggregate` | `app/core/aggregate_cache.py:13-49` | a hit returns a fresh copy and changes nothing, a miss stores a copy and returns another |
| `AggregateCache.ProcessCache.Lookup` | `app/core/aggregate_cache.py:22-27` | a hit is a fresh deep copy of the cached value |
| `AggregateCache.ProcessCache.Store` | `app/core/aggregate_cache.py:31-47` | expired entries go first, then an oldest one, and only from a full cache |
| `AggregateCache.ProcessCache.Oldest` | `app/core/aggregate_cache.py:37-39` | finds an entry created no later than any other |
| `AggregateCache.DeepCopy` | `app/core/aggregate_cache.py:27-49` | the copy is fresh throughout and equal by value |
| `AggregateCache.ProcessCache.ClearAggregateCache` | `app/core/aggregate_cache.py:52-54` | nothing is cached afterwards |

## Left out

- TaskProtocol: the worker thread always starts and the database never fails; `enabled` and the global cron switch do not change during a run, and no task row is deleted.
- TaskProtocol: scheduling of next runs and auto-enable passes after a success are not steps of the protocol; an execution arms the stream enforcer at most once, as the media jobs worker does.
- TaskWorker.TaskEngine.RunWorker: the uninterrupted worker runs tasks that arm no other; TaskProtocol has that step.
- TaskProtocol.WatchdogSparesLiveTasks: holds up to 30 minutes between check and UPDATE only, because it is false beyond (TaskWatchdog.OverdueWatchdogResetsLiveTask).
- TaskWorker.TaskEngine.RunTask: a task whose code cannot be loaded is treated like one that fails; the run starts from an existing row, and both timings inside one execution are the same instant.
- LoginLimiter: alerts and their cooldown, the redirect to the setup page, and how credentials are checked (one boolean).
- LoginLimiter.QuotaIsTight: the witness uses an address without an e-mail, because then a single row is concerned.
- LibrarySync: item counts and HTTP; stripping and case folding are a parameter, so the theorems hold for any normalisation.
- LibraryReconcile.Reconciled: needs the absence of takeovers and of new libraries that share an identity, because it is false without (LibraryReconcile.AllMatchedIff).
- LibraryReconcile.KeepsReportedIffNoTakeover: with libraries of one name a row can be taken and taken back (LibraryReconcile.TakenBackExample), so the equivalence is stated for new libraries with identities of their own.
- UserMerge.UserDatabase.MergeVodumUsers: index DDL; JSON columns are reduced to present or absent, which is all the code looks at.
- UserMerge.RelatedStayIntact: columns that hold user ids without a foreign key (`tables.sql:657-662`, `:878`, `:910`) can dangle after a merge; they are not modelled.
- UserMerge.NothingLeftToCascade: speaks of the four moved tables only, because rows of other tables do go (UserMerge.RowsLostExactly).
- Text: blanks and letter case outside ASCII.
- AccessJobs: attempt counters, lock owners, priorities and timestamps of jobs, and the error texts that workers and reactivations write.
- AccessJobRuns: of the workers only their statements on the job table, in any order; a Jellyfin failure changes none of the modelled columns.
- AccessJobRuns.EveryRunIsSound: does not promise one pending job for each target, because that is false (AccessJobRuns.OnePendingInRunIff says when it holds).
- AccessJobRuns.RefusedInRun: asks that callers use keys of the target they ask for, where a merge hands the keys of the merged user's accounts to the master; a media user moved to another user by other means is not modelled.
- SyncFanOut: the share-settings and the Jellyfin variants, which have the same shape with less to choose.
- ExpirationPick: text and number parsing of the template rows; values are taken as parsed.
- SwitchGrace, SyncDedupe: cache keys are tuples instead of joined texts, so texts that collide after joining are not modelled; dates are parsed seconds, and one call reads the clock once.
- SessionIdentity: a present but unparsable last sighting counts as absent and falls back to the start time, where the code gives up; subnets are taken as parsed prefixes.
- HouseholdMemory.StoppedStreamNeverFades: a small case, kept as an illustration of HouseholdMemory.RenewedThroughoutIff.
- HouseholdDedupe.AlwaysAccountedIffKeyIsFresh: speaks of what is certain from keys and users; a session whose key was seen can still resemble a kept one.
- RateLimiter: the wrapping of HTTP sessions, and the fairness of the lock; a waiting call can be overtaken, and the number of its sleeps is bounded by the grants of others.
- AggregateRuns: a call reads the clock just before it takes the lock, here in the same step as its lookup.
- AggregateRuns: which of several equally old entries is evicted is left open, where the code takes the first in dictionary order; aliasing of rows inside one loaded list is not preserved by the modelled copy.
- The grace for coherent address switches (`app/core/stream_ip_transition_grace.py`): its refusal branch is never reached, so it bounds nothing.
- Media job workers, the scheduler loop, configuration, routing, rendering, mail, HTTP and schema migration: environment or input and output.
