/**
 The task queue of app/tasks_engine.py as a protocol: any number of callers enqueue, kick or watch while one
 leased worker drains the table.  Each database statement and each lease operation is one atomic step, and
 every interleaving of the steps is a run.
 */
module TaskProtocol {
  import opened Options
  import opened TaskTable

  type Tid = nat

  /** Where a thread stands: the next statement it will issue. */
  datatype Pc =
    | EnqueueRead(id: int) | EnqueueWrite(id: int)
    | StartClaim | Spawning
    | KickLease | KickQuery
    | Fetch | Load(id: int) | Mark(id: int) | Execute(id: int, arms: bool) | Ending(id: int)
    | Success(id: int) | ErrorRead(id: int, message: string)
    | ErrorWrite(id: int, message: string, attempts: int, allowed: int)
    | FinalRead(id: int) | FinalWrite(id: int)
    | Release
    | WatchLease | WatchCount(since: int) | WatchWrite(since: int)
    | Boot
    | Done

  /** History: which UPDATEs changed a task's queue. */
  datatype Event = Requested(id: int) | Began(id: int)

  datatype State = State(
    now: int,
    rows: Table,
    claimed: bool,
    threads: map<Tid, Pc>,
    trace: seq<Event>)

  /** What the step itself does not determine: the SELECTed row, a new thread's id, what a task does and how it ends. */
  datatype Choice = Choice(pick: int, spawned: Tid, failure: Option<string>, armed: Option<int>)

  datatype Action =
    | Arrive(tid: Tid, entry: Pc)
    | Step(tid: Tid, choice: Choice)
    | Tick(elapsed: nat)
    | Touch(touched: int, status: Status)

  const MAX_MINUTES := 30

  function Cutoff(now: int): int {
    now - MAX_MINUTES * 60
  }

  function Put(rows: Table, id: int, f: Task -> Task): Table {
    if id in rows then rows[id := f(rows[id])] else rows
  }

  function PutAll(rows: Table, f: Task -> Task): Table {
    map id | id in rows :: f(rows[id])
  }

  /** The task that an execution arms, if the UPDATE finds it idle. */
  function ArmedBy(rows: Table, arms: bool, c: Choice): Option<int> {
    if arms && c.armed.Some? && c.armed.value in rows && IsEnforcer(rows[c.armed.value])
       && CanBeArmed(rows[c.armed.value])
    then c.armed else None
  }

  predicate SomeStuck(rows: Table, cutoff: int) {
    exists id :: id in rows && Stuck(rows[id], cutoff)
  }

  predicate IsEntry(pc: Pc) {
    pc.EnqueueRead? || pc.KickLease? || pc.WatchLease? || pc.Boot?
  }

  ghost predicate Enabled(s: State, a: Action) {
    match a
    case Arrive(t, entry) => t !in s.threads && IsEntry(entry)
    case Step(t, choice) =>
      && t in s.threads
      && s.threads[t] != Done
      && (s.threads[t].Spawning? ==> choice.spawned !in s.threads)
      && (s.threads[t].Fetch? && SomeWaiting(s.rows) ==> IsNext(s.rows, choice.pick))
    case Tick(_) => true
    case Touch(_, _) => true
  }

  /** The statement that the thread issues next, after the one at `pc`. */
  function Next(s: State, pc: Pc, c: Choice): Pc {
    match pc
    // enqueue_task
    case EnqueueRead(id) => if id in s.rows && s.rows[id].enabled then EnqueueWrite(id) else Done
    case EnqueueWrite(_) => StartClaim
    // _start_task_worker
    case StartClaim => if s.claimed then Done else Spawning
    case Spawning => Done
    // _kick_worker_if_needed
    case KickLease => if s.claimed then Done else KickQuery
    case KickQuery => if SomeWaiting(s.rows) then StartClaim else Done
    // _task_worker
    case Fetch => if SomeWaiting(s.rows) then Load(c.pick) else Release
    case Load(id) => if id in s.rows then Mark(id) else Fetch
    case Mark(id) => Execute(id, id in s.rows && ArmsEnforcer(s.rows[id]))
    case Execute(id, _) => Ending(id)
    case Ending(id) => if c.failure.None? then Success(id) else ErrorRead(id, c.failure.value)
    case Success(id) => FinalRead(id)
    case ErrorRead(id, message) =>
      if id in s.rows then ErrorWrite(id, message, s.rows[id].retryCount, s.rows[id].maxRetries)
      else ErrorWrite(id, message, 0, 0)
    case ErrorWrite(id, _, _, _) => FinalRead(id)
    case FinalRead(id) => if id in s.rows && s.rows[id].status == Running then FinalWrite(id) else Fetch
    case FinalWrite(_) => Fetch
    case Release => KickLease
    // recover_stuck_tasks
    case WatchLease => if s.claimed then Done else WatchCount(s.now)
    case WatchCount(since) => if SomeStuck(s.rows, Cutoff(s.now)) then WatchWrite(since) else Done
    case WatchWrite(_) => Done
    // recover_state
    case Boot => KickLease
    case Done => Done
  }

  /** What the UPDATE at `pc` makes of the row `id`; `armed` is the row that an execution arms. */
  function Updated(pc: Pc, armed: Option<int>, now: int, id: int, task: Task): Task {
    match pc
    case EnqueueWrite(i) => if i == id then Enqueued(task, now) else task
    case Mark(i) => if i == id then Started(task, now) else task
    case Execute(_, _) => if armed == Some(id) then Armed(task, now) else task
    case Success(i) => if i == id then Succeeded(task, now) else task
    case ErrorWrite(i, message, attempts, allowed) =>
      if i == id then Errored(task, message, attempts, allowed, now) else task
    case FinalWrite(i) => if i == id then Finalized(task, now) else task
    case WatchWrite(_) => Recovered(task, Cutoff(now), now)
    case Boot => Rebooted(task, now)
    case _ => task
  }

  /** The requests and starts that the UPDATE at `pc` brings about. */
  function Events(rows: Table, pc: Pc, armed: Option<int>): seq<Event> {
    match pc
    case EnqueueWrite(id) => if id in rows && rows[id].enabled then [Requested(id)] else []
    case Mark(id) => [Began(id)]
    case Execute(_, _) => if armed.Some? then [Requested(armed.value)] else []
    case _ => []
  }

  function ApplyStep(s: State, t: Tid, c: Choice): State
    requires t in s.threads
  {
    var pc := s.threads[t];
    var armed := if pc.Execute? then ArmedBy(s.rows, pc.arms, c) else None;
    State(
      s.now,
      map id | id in s.rows :: Updated(pc, armed, s.now, id, s.rows[id]),
      if pc.StartClaim? then true else if pc.Release? then false else s.claimed,
      if pc.Spawning? then s.threads[t := Done][c.spawned := Fetch] else s.threads[t := Next(s, pc, c)],
      s.trace + Events(s.rows, pc, armed))
  }

  function Apply(s: State, a: Action): State
    requires a.Step? ==> a.tid in s.threads
  {
    match a
    case Arrive(t, entry) => s.(threads := s.threads[t := entry])
    case Step(t, choice) => ApplyStep(s, t, choice)
    case Tick(elapsed) => s.(now := s.now + elapsed)
    case Touch(id, status) =>
      s.(rows := map i | i in s.rows ::
           if i == id then s.rows[i].(status := status, updatedAt := s.now) else s.rows[i])
  }

  ghost predicate Legal(s: State, run: seq<Action>)
    decreases |run|
  {
    run == [] || (Enabled(s, run[0]) && Legal(Apply(s, run[0]), run[1..]))
  }

  ghost function After(s: State, run: seq<Action>): State
    requires Legal(s, run)
    decreases |run|
  {
    if run == [] then s else After(Apply(s, run[0]), run[1..])
  }

  /** Start-up: no thread runs, and nothing is queued unless the boot recovery is about to kick the worker. */
  ghost predicate Initial(s: State) {
    && !s.claimed
    && s.trace == []
    && (s.threads == map[] || s.threads == map[0 := Boot])
    && (s.threads == map[] ==> !SomeWaiting(s.rows))
  }

  // ----- invariants

  /** The thread owns the lease: it claimed it and has not released it. */
  predicate Holds(pc: Pc) {
    match pc
    case Spawning | Fetch | Load(_) | Mark(_) | Execute(_, _) | Ending(_) | Success(_) | ErrorRead(_, _)
       | ErrorWrite(_, _, _, _) | FinalRead(_) | FinalWrite(_) | Release => true
    case _ => false
  }

  /** The thread will still look at the lease or the queue before it ends. */
  predicate WillCheck(pc: Pc) {
    pc.StartClaim? || pc.KickLease? || pc.KickQuery? || pc.Boot?
  }

  /** The thread is between marking `id` running and leaving run_task. */
  predicate Executing(pc: Pc, id: int) {
    match pc
    case Execute(i, _) => i == id
    case Ending(i) => i == id
    case Success(i) => i == id
    case ErrorRead(i, _) => i == id
    case ErrorWrite(i, _, _, _) => i == id
    case FinalRead(i) => i == id
    case FinalWrite(i) => i == id
    case _ => false
  }

  predicate About(pc: Pc, id: int) {
    pc == Load(id) || pc == Mark(id)
  }

  predicate Watching(pc: Pc, since: int) {
    pc == WatchCount(since) || pc == WatchWrite(since)
  }

  ghost predicate SomeHolder(s: State) {
    exists t :: t in s.threads && Holds(s.threads[t])
  }

  ghost predicate Exclusive(s: State) {
    && (s.claimed <==> SomeHolder(s))
    && forall t, u :: t in s.threads && u in s.threads && Holds(s.threads[t]) && Holds(s.threads[u]) ==> t == u
  }

  ghost predicate Checking(s: State) {
    exists t :: t in s.threads && WillCheck(s.threads[t])
  }

  ghost predicate Wakeful(s: State) {
    SomeWaiting(s.rows) ==> s.claimed || Checking(s)
  }

  ghost predicate Consistent(s: State) {
    forall t, id :: t in s.threads ==> Grounded(s.rows, s.threads[t], id)
  }

  /** The task that the thread fetched still waits, and the one that it executes exists. */
  predicate Grounded(rows: Table, pc: Pc, id: int) {
    && (About(pc, id) ==> id in rows && Waiting(rows[id]))
    && (Executing(pc, id) ==> id in rows)
  }

  /** While the watchdog acts on a lease it saw free, whatever a worker executes was marked after that. */
  ghost predicate Watchful(s: State) {
    forall w, since :: w in s.threads && Watching(s.threads[w], since) ==> AllMarkedSince(s, since)
  }

  ghost predicate AllMarkedSince(s: State, since: int) {
    since <= s.now && forall t, id :: t in s.threads && Executing(s.threads[t], id) ==> MarkedSince(s.rows, id, since)
  }

  predicate MarkedSince(rows: Table, id: int, since: int) {
    id in rows && rows[id].updatedAt >= since
  }

  /** One thread moves without gaining or giving up the lease. */
  lemma MoveKeepsExclusive(s: State, r: State, t: Tid, pc: Pc)
    requires Exclusive(s) && r.threads == s.threads[t := pc] && r.claimed == s.claimed
    requires Holds(pc) <==> t in s.threads && Holds(s.threads[t])
    ensures Exclusive(r)
  {
    if SomeHolder(s) {
      var h :| h in s.threads && Holds(s.threads[h]);
      assert Holds(r.threads[h]);
    }
  }

  lemma ClaimKeepsExclusive(s: State, r: State, t: Tid, pc: Pc)
    requires Exclusive(s) && !s.claimed && r.threads == s.threads[t := pc] && r.claimed && Holds(pc)
    ensures Exclusive(r)
  {
    assert !SomeHolder(s);
    assert Holds(r.threads[t]);
  }

  lemma ReleaseKeepsExclusive(s: State, r: State, t: Tid, pc: Pc)
    requires Exclusive(s) && t in s.threads && Holds(s.threads[t])
    requires r.threads == s.threads[t := pc] && !r.claimed && !Holds(pc)
    ensures Exclusive(r)
  {
  }

  lemma SpawnKeepsExclusive(s: State, r: State, t: Tid, worker: Tid)
    requires Exclusive(s) && t in s.threads && Holds(s.threads[t]) && worker !in s.threads
    requires r.threads == s.threads[t := Done][worker := Fetch] && r.claimed == s.claimed
    ensures Exclusive(r)
  {
    assert SomeHolder(s);
    assert Holds(r.threads[worker]);
  }

  lemma ExclusivePreserved(s: State, a: Action)
    requires Exclusive(s) && Enabled(s, a)
    ensures Exclusive(Apply(s, a))
  {
    var r := Apply(s, a);
    match a
    case Arrive(t, entry) => MoveKeepsExclusive(s, r, t, entry);
    case Step(t, c) =>
      if s.threads[t].StartClaim? && !s.claimed {
        ClaimKeepsExclusive(s, r, t, Spawning);
      } else if s.threads[t].Release? {
        ReleaseKeepsExclusive(s, r, t, KickLease);
      } else if s.threads[t].Spawning? {
        SpawnKeepsExclusive(s, r, t, c.spawned);
      } else {
        MoveKeepsExclusive(s, r, t, r.threads[t]);
      }
    case Tick(_) => assert SomeHolder(r) <==> SomeHolder(s);
    case Touch(_, _) => assert SomeHolder(r) <==> SomeHolder(s);
  }

  /** Only the stepping thread moves; a new thread enters as a worker or a caller. */
  lemma OthersStay(s: State, a: Action, t: Tid)
    requires Enabled(s, a) && t in Apply(s, a).threads && !(a.Step? && a.tid == t)
    ensures var pc := Apply(s, a).threads[t];
            (t in s.threads && pc == s.threads[t]) || pc == Fetch || IsEntry(pc)
  {
  }

  lemma AboutStarts(s: State, a: Action, t: Tid, id: int)
    requires Enabled(s, a) && t in Apply(s, a).threads && About(Apply(s, a).threads[t], id)
    ensures t in s.threads
    ensures About(s.threads[t], id)
            || (a.Step? && a.tid == t && s.threads[t] == Fetch && id in s.rows && Waiting(s.rows[id]))
    ensures a.Step? && a.tid == t ==> s.threads[t] != Mark(id)
  {
    if !(a.Step? && a.tid == t) {
      OthersStay(s, a, t);
    }
  }

  lemma WaitingStays(s: State, a: Action, id: int)
    requires Enabled(s, a) && id in s.rows && Waiting(s.rows[id])
    requires a.Step? ==> s.threads[a.tid] != Mark(id)
    ensures id in Apply(s, a).rows && Waiting(Apply(s, a).rows[id])
  {
  }

  lemma WatchStarts(s: State, a: Action, w: Tid, since: int)
    requires Enabled(s, a) && w in Apply(s, a).threads && Watching(Apply(s, a).threads[w], since)
    ensures (w in s.threads && Watching(s.threads[w], since))
            || (a.Step? && a.tid == w && s.threads[w] == WatchLease && !s.claimed && since == s.now)
  {
    if !(a.Step? && a.tid == w) {
      OthersStay(s, a, w);
    }
  }

  lemma ExecutionStarts(s: State, a: Action, t: Tid, id: int)
    requires Consistent(s) && Enabled(s, a) && t in Apply(s, a).threads && Executing(Apply(s, a).threads[t], id)
    ensures (t in s.threads && Executing(s.threads[t], id))
            || (a.Step? && a.tid == t && s.threads[t] == Mark(id) && id in s.rows
                && Apply(s, a).rows[id].updatedAt == s.now)
  {
    if !(a.Step? && a.tid == t) {
      OthersStay(s, a, t);
    } else if s.threads[t] == Mark(id) {
      assert Grounded(s.rows, s.threads[t], id);
    }
  }

  lemma ConsistentAt(s: State, a: Action, t: Tid, id: int)
    requires Exclusive(s) && Consistent(s) && Enabled(s, a) && t in Apply(s, a).threads
    ensures Grounded(Apply(s, a).rows, Apply(s, a).threads[t], id)
  {
    if About(Apply(s, a).threads[t], id) {
      AboutStarts(s, a, t, id);
      assert Holds(s.threads[t]);
      assert Grounded(s.rows, s.threads[t], id);
      WaitingStays(s, a, id);
    } else if Executing(Apply(s, a).threads[t], id) {
      ExecutionStarts(s, a, t, id);
      assert t in s.threads ==> Grounded(s.rows, s.threads[t], id);
      UpdatesAdvance(s, a, id);
    }
  }

  lemma ConsistentPreserved(s: State, a: Action)
    requires Exclusive(s) && Consistent(s) && Enabled(s, a)
    ensures Consistent(Apply(s, a))
  {
    var r := Apply(s, a);
    forall t, id | t in r.threads ensures Grounded(r.rows, r.threads[t], id) {
      ConsistentAt(s, a, t, id);
    }
  }

  lemma WakefulPreserved(s: State, a: Action)
    requires Exclusive(s) && Wakeful(s) && Enabled(s, a)
    ensures Wakeful(Apply(s, a))
  {
    var r := Apply(s, a);
    if SomeWaiting(r.rows) && !r.claimed {
      if a.Step? && WillCheck(r.threads[a.tid]) {
        assert Checking(r);
      } else {
        QueueGrowsOnlyByEnqueue(s, a);
        assert !s.claimed;
        assert a.Step? ==> !Holds(s.threads[a.tid]);
        var t :| t in s.threads && WillCheck(s.threads[t]);
        assert t in r.threads && WillCheck(r.threads[t]);
      }
    }
  }

  /** A task waits after a step only if it waited before or the step is an enqueue's UPDATE or an execution's. */
  lemma QueueGrowsOnlyByEnqueue(s: State, a: Action)
    requires Enabled(s, a) && SomeWaiting(Apply(s, a).rows)
    ensures SomeWaiting(s.rows) || (a.Step? && (s.threads[a.tid].EnqueueWrite? || s.threads[a.tid].Execute?))
  {
    var r := Apply(s, a);
    var id :| id in r.rows && Waiting(r.rows[id]);
    if !(a.Step? && (s.threads[a.tid].EnqueueWrite? || s.threads[a.tid].Execute?)) {
      assert id in s.rows && Waiting(s.rows[id]);
    }
  }

  lemma UpdatesAdvance(s: State, a: Action, id: int)
    requires Enabled(s, a) && id in s.rows
    ensures id in Apply(s, a).rows
    ensures Apply(s, a).rows[id].updatedAt in {s.rows[id].updatedAt, s.now}
  {
  }

  lemma WatchedExecutionIsRecent(s: State, a: Action, w: Tid, since: int, t: Tid, id: int)
    requires Exclusive(s) && Consistent(s) && Watchful(s) && Enabled(s, a)
    requires w in Apply(s, a).threads && Watching(Apply(s, a).threads[w], since)
    requires t in Apply(s, a).threads && Executing(Apply(s, a).threads[t], id)
    ensures MarkedSince(Apply(s, a).rows, id, since)
  {
    WatchStarts(s, a, w, since);
    ExecutionStarts(s, a, t, id);
    assert w in s.threads && Watching(s.threads[w], since) ==> AllMarkedSince(s, since);
    if !(a.Step? && a.tid == t && s.threads[t] == Mark(id)) {
      assert Holds(s.threads[t]) && SomeHolder(s);
      assert MarkedSince(s.rows, id, since);
      UpdatesAdvance(s, a, id);
    }
  }

  lemma WatchfulPreserved(s: State, a: Action)
    requires Exclusive(s) && Consistent(s) && Watchful(s) && Enabled(s, a)
    ensures Watchful(Apply(s, a))
  {
    var r := Apply(s, a);
    forall w, since | w in r.threads && Watching(r.threads[w], since) ensures AllMarkedSince(r, since) {
      WatchStarts(s, a, w, since);
      assert w in s.threads && Watching(s.threads[w], since) ==> AllMarkedSince(s, since);
      forall t, id | t in r.threads && Executing(r.threads[t], id) ensures MarkedSince(r.rows, id, since) {
        WatchedExecutionIsRecent(s, a, w, since, t, id);
      }
    }
  }

  // ----- queued_count is an exact dirty bit

  /** The latest recorded event of `id` is a request. */
  predicate Pending(trace: seq<Event>, id: int) {
    trace != [] &&
    var last := trace[|trace| - 1];
    if last == Requested(id) then true
    else if last == Began(id) then false
    else Pending(trace[..|trace| - 1], id)
  }

  ghost predicate DirtyBit(s: State) {
    forall id :: id in s.rows ==> s.rows[id].queuedCount == if Pending(s.trace, id) then 1 else 0
  }

  ghost predicate Alternating(trace: seq<Event>) {
    forall j, id :: 0 <= j < |trace| && trace[j] == Began(id) ==> Pending(trace[..j], id)
  }

  /** The step is the UPDATE of a request for the task, or of an execution that arms it. */
  predicate Requests(s: State, a: Action, id: int) {
    a.Step? && a.tid in s.threads &&
    match s.threads[a.tid]
    case EnqueueWrite(i) => i == id
    case Execute(_, arms) => ArmedBy(s.rows, arms, a.choice) == Some(id)
    case _ => false
  }

  /** The ways a step can affect the queue counters and the history. */
  lemma QueueSteps(s: State, a: Action, id: int)
    requires Enabled(s, a) && id in s.rows
    ensures var r := Apply(s, a);
            id in r.rows && r.rows.Keys == s.rows.Keys &&
            var was, count := s.rows[id].queuedCount, r.rows[id].queuedCount;
            if r.trace == s.trace then count == was
            else if Requests(s, a, id) then
              r.trace == s.trace + [Requested(id)] && count == if was > 0 then was else 1
            else a.Step? && if s.threads[a.tid] == Mark(id) then
              r.trace == s.trace + [Began(id)] && count == if was > 0 then was - 1 else 0
            else
              count == was && |r.trace| == |s.trace| + 1 && r.trace[..|s.trace|] == s.trace
              && r.trace[|s.trace|] !in {Requested(id), Began(id)}
  {
    var r := Apply(s, a);
    if r.trace != s.trace {
      assert a.Step? && |r.trace| == |s.trace| + 1 && r.trace[..|s.trace|] == s.trace;
    }
  }

  lemma DirtyBitPreserved(s: State, a: Action)
    requires DirtyBit(s) && Enabled(s, a)
    ensures DirtyBit(Apply(s, a))
  {
    var r := Apply(s, a);
    forall id | id in r.rows ensures r.rows[id].queuedCount == if Pending(r.trace, id) then 1 else 0 {
      QueueSteps(s, a, id);
      if r.trace != s.trace {
        assert r.trace[..|r.trace| - 1] == s.trace;
      }
    }
  }

  /** A task is only ever marked running to serve a request it has not served yet. */
  lemma AlternatingPreserved(s: State, a: Action)
    requires Consistent(s) && DirtyBit(s) && Alternating(s.trace) && Enabled(s, a)
    ensures Alternating(Apply(s, a).trace)
  {
    var r := Apply(s, a);
    forall j, id | 0 <= j < |r.trace| && r.trace[j] == Began(id) ensures Pending(r.trace[..j], id) {
      if j < |s.trace| {
        assert r.trace[..j] == s.trace[..j];
      } else {
        assert s.threads[a.tid] == Mark(id) && r.trace[..j] == s.trace;
        assert Grounded(s.rows, s.threads[a.tid], id);
      }
    }
  }

  lemma PendingAt(trace: seq<Event>, i: nat, id: int)
    requires i < |trace| && trace[i] == Requested(id)
    requires forall j :: i < j < |trace| ==> trace[j] != Began(id)
    ensures Pending(trace, id)
    decreases |trace|
  {
    if i < |trace| - 1 {
      PendingAt(trace[..|trace| - 1], i, id);
    }
  }

  lemma {:induction false} JoinRuns(s: State, first: seq<Action>, second: seq<Action>)
    requires Legal(s, first) && Legal(After(s, first), second)
    ensures Legal(s, first + second) && After(s, first + second) == After(After(s, first), second)
    decreases |first|
  {
    if first == [] {
      assert first + second == second;
    } else {
      JoinRuns(Apply(s, first[0]), first[1..], second);
      assert (first + second)[1..] == first[1..] + second;
    }
  }

  // ----- main results over every run

  ghost predicate Invariant(s: State) {
    Exclusive(s) && Consistent(s) && Wakeful(s) && Watchful(s)
  }

  lemma InitialInvariant(s: State)
    requires Initial(s)
    ensures Invariant(s)
  {
    if s.threads != map[] {
      assert WillCheck(s.threads[0]);
    }
  }

  lemma {:induction false} InvariantAfter(s: State, run: seq<Action>)
    requires Invariant(s) && Legal(s, run)
    ensures Invariant(After(s, run))
    decreases |run|
  {
    if run != [] {
      ExclusivePreserved(s, run[0]);
      ConsistentPreserved(s, run[0]);
      WakefulPreserved(s, run[0]);
      WatchfulPreserved(s, run[0]);
      InvariantAfter(Apply(s, run[0]), run[1..]);
    }
  }

  /** At most one thread is ever inside the fetch/run loop, and only while the lease is claimed. */
  lemma SingleWorker(init: State, run: seq<Action>, t: Tid, u: Tid)
    requires Initial(init) && Legal(init, run)
    requires var s := After(init, run);
             t in s.threads && Holds(s.threads[t]) && u in s.threads && Holds(s.threads[u])
    ensures t == u && After(init, run).claimed
  {
    InitialInvariant(init);
    InvariantAfter(init, run);
  }

  /** No lost wakeup: whenever an enabled task is queued, the lease is held or some thread will still check. */
  lemma NoLostWakeup(init: State, run: seq<Action>)
    requires Initial(init) && Legal(init, run)
    requires exists id :: id in After(init, run).rows && After(init, run).rows[id].enabled
                          && After(init, run).rows[id].queuedCount > 0
    ensures After(init, run).claimed || Checking(After(init, run))
  {
    var id :| id in After(init, run).rows && After(init, run).rows[id].enabled
              && After(init, run).rows[id].queuedCount > 0;
    assert Waiting(After(init, run).rows[id]);
    InitialInvariant(init);
    InvariantAfter(init, run);
  }

  ghost predicate Quiescent(s: State) {
    forall t :: t in s.threads ==> s.threads[t] == Done
  }

  /** When every thread has ended, no enabled task is queued and the lease is free. */
  lemma NothingLeftAtQuiescence(init: State, run: seq<Action>)
    requires Initial(init) && Legal(init, run) && Quiescent(After(init, run))
    ensures !SomeWaiting(After(init, run).rows) && !After(init, run).claimed
    ensures forall id :: id in After(init, run).rows && After(init, run).rows[id].enabled ==>
              After(init, run).rows[id].queuedCount <= 0
  {
    InitialInvariant(init);
    InvariantAfter(init, run);
  }

  /**
   The watchdog never alters the row of a task a live worker executes, as long as no more than 30 minutes pass
   between its look at the lease and its UPDATE, even if the lease was claimed in between.
   */
  lemma WatchdogSparesLiveTasks(init: State, run: seq<Action>, w: Tid, since: int, c: Choice, t: Tid, id: int)
    requires Initial(init) && Legal(init, run)
    requires var s := After(init, run);
             && w in s.threads && s.threads[w] == WatchWrite(since) && s.now - since <= 1800
             && t in s.threads && Executing(s.threads[t], id)
    ensures var s := After(init, run);
            id in s.rows && Apply(s, Step(w, c)).rows[id] == s.rows[id]
  {
    InitialInvariant(init);
    InvariantAfter(init, run);
    assert Watching(After(init, run).threads[w], since);
    assert AllMarkedSince(After(init, run), since) && MarkedSince(After(init, run).rows, id, since);
  }

  lemma {:induction false} DirtyBitAfter(s: State, run: seq<Action>)
    requires Invariant(s) && DirtyBit(s) && Alternating(s.trace) && Legal(s, run)
    ensures DirtyBit(After(s, run)) && Alternating(After(s, run).trace)
    decreases |run|
  {
    if run != [] {
      DirtyBitPreserved(s, run[0]);
      AlternatingPreserved(s, run[0]);
      ExclusivePreserved(s, run[0]);
      ConsistentPreserved(s, run[0]);
      WakefulPreserved(s, run[0]);
      WatchfulPreserved(s, run[0]);
      DirtyBitAfter(Apply(s, run[0]), run[1..]);
    }
  }

  /**
   queued_count is 1 exactly when a request came after the task's last start, and 0 otherwise; every start
   serves such a request, and every request is followed by a start or is still queued.
   */
  lemma QueuedCountIsDirtyBit(init: State, run: seq<Action>, id: int)
    requires Initial(init) && Legal(init, run) && id in init.rows
    requires forall i :: i in init.rows ==> init.rows[i].queuedCount == 0
    ensures var s := After(init, run);
            && id in s.rows
            && s.rows[id].queuedCount == (if Pending(s.trace, id) then 1 else 0)
            && (forall j :: 0 <= j < |s.trace| && s.trace[j] == Began(id) ==> Pending(s.trace[..j], id))
            && (forall i :: 0 <= i < |s.trace| && s.trace[i] == Requested(id) ==>
                  s.rows[id].queuedCount == 1 || exists j :: i < j < |s.trace| && s.trace[j] == Began(id))
  {
    InitialInvariant(init);
    DirtyBitAfter(init, run);
    KeysAfter(init, run);
    var s := After(init, run);
    forall i | 0 <= i < |s.trace| && s.trace[i] == Requested(id)
      ensures s.rows[id].queuedCount == 1 || exists j :: i < j < |s.trace| && s.trace[j] == Began(id)
    {
      if forall j :: i < j < |s.trace| ==> s.trace[j] != Began(id) {
        PendingAt(s.trace, i, id);
      }
    }
  }

  lemma {:induction false} KeysAfter(s: State, run: seq<Action>)
    requires Legal(s, run)
    ensures After(s, run).rows.Keys == s.rows.Keys
    decreases |run|
  {
    if run != [] {
      assert Apply(s, run[0]).rows.Keys == s.rows.Keys;
      KeysAfter(Apply(s, run[0]), run[1..]);
    }
  }
}
