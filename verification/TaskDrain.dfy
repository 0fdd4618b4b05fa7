/**
 Termination of the task protocol: once callers stop arriving, every schedule of the threads' steps is finite
 and ends with an empty queue.
 */
module TaskDrain {
  import opened Collections
  import opened Options
  import opened TaskTable
  import opened TaskProtocol

  // ----- a measure: unwritten requests, then work, then distance of the threads to their end

  predicate Requesting(pc: Pc) {
    pc.EnqueueRead? || pc.EnqueueWrite?
  }

  /** Steps a thread can take before it ends or consumes a queued unit. */
  function Rank(pc: Pc, busy: bool): nat {
    match pc
    case Done => 0
    case WatchWrite(_) => 1
    case WatchCount(_) => 2
    case WatchLease => 3
    case EnqueueWrite(_) => 1
    case EnqueueRead(_) => 2
    case Mark(_) => 1
    case Load(_) => 2
    case Fetch => if busy then 3 else 4
    case Spawning => if busy then 4 else 5
    case StartClaim => if busy then 5 else 6
    case KickQuery => if busy then 6 else 1
    case KickLease => if busy then 7 else 2
    case Release => if busy then 8 else 3
    case Boot => 8
    case FinalWrite(_) => 9
    case FinalRead(_) => 10
    case Success(_) => 11
    case ErrorWrite(_, _, _, _) => 11
    case ErrorRead(_, _) => 12
    case Ending(_) => 13
    case Execute(_, _) => 14
  }

  function Requesters(threads: map<Tid, Pc>): map<Tid, nat> {
    map t | t in threads :: if Requesting(threads[t]) then 1 else 0
  }

  function Ranks(threads: map<Tid, Pc>, busy: bool): map<Tid, nat> {
    map t | t in threads :: Rank(threads[t], busy)
  }

  /** A queued unit of the task that arms the enforcer stands for three: its own, and what arming may add. */
  function Due(task: Task): nat {
    if ArmsEnforcer(task) then 3 * Owed(task) else Owed(task)
  }

  function Dues(rows: Table): map<int, nat> {
    map id | id in rows :: Due(rows[id])
  }

  function Credit(pc: Pc): nat {
    if pc.Execute? && pc.arms then 2 else 0
  }

  function Credits(threads: map<Tid, Pc>): map<Tid, nat> {
    map t | t in threads :: Credit(threads[t])
  }

  ghost function Unwritten(s: State): nat { Sum(Requesters(s.threads)) }

  /** What is queued, and what executions may still arm. */
  ghost function Work(s: State): nat { Sum(Dues(s.rows)) + Sum(Credits(s.threads)) }

  ghost function Distance(s: State): nat { Sum(Ranks(s.threads, SomeWaiting(s.rows))) }

  /** `r` is smaller than `s` in the lexicographic order of the three measures. */
  ghost predicate Closer(r: State, s: State) {
    || Unwritten(r) < Unwritten(s)
    || (Unwritten(r) == Unwritten(s) && Work(r) < Work(s))
    || (Unwritten(r) == Unwritten(s) && Work(r) == Work(s) && Distance(r) < Distance(s))
  }

  lemma MoveUnwritten(threads: map<Tid, Pc>, t: Tid, pc: Pc)
    ensures Sum(Requesters(threads[t := pc]))
            == Sum(Requesters(threads)) - (if t in threads && Requesting(threads[t]) then 1 else 0)
               + (if Requesting(pc) then 1 else 0)
  {
    var v: nat := if Requesting(pc) then 1 else 0;
    assert Requesters(threads[t := pc]) == Requesters(threads)[t := v];
    SumUpdate(Requesters(threads), t, v);
  }

  lemma MoveCredits(threads: map<Tid, Pc>, t: Tid, pc: Pc)
    ensures Sum(Credits(threads[t := pc]))
            == Sum(Credits(threads)) - (if t in threads then Credit(threads[t]) else 0) + Credit(pc)
  {
    assert Credits(threads[t := pc]) == Credits(threads)[t := Credit(pc)];
    SumUpdate(Credits(threads), t, Credit(pc));
  }

  lemma MoveDistance(threads: map<Tid, Pc>, t: Tid, pc: Pc, busy: bool)
    ensures Sum(Ranks(threads[t := pc], busy))
            == Sum(Ranks(threads, busy)) - (if t in threads then Rank(threads[t], busy) else 0) + Rank(pc, busy)
  {
    assert Ranks(threads[t := pc], busy) == Ranks(threads, busy)[t := Rank(pc, busy)];
    SumUpdate(Ranks(threads, busy), t, Rank(pc, busy));
  }

  /** Every statement but the enqueue's, the worker's mark and an execution's leaves what is owed alone. */
  lemma DuesKept(s: State, a: Action)
    requires Enabled(s, a)
    requires a.Step? ==> !s.threads[a.tid].EnqueueWrite? && !s.threads[a.tid].Mark?
    requires a.Step? && s.threads[a.tid].Execute? ==> !s.threads[a.tid].arms
    ensures Dues(Apply(s, a).rows) == Dues(s.rows)
    ensures SomeWaiting(Apply(s, a).rows) == SomeWaiting(s.rows)
  {
    var r := Apply(s, a);
    assert r.rows.Keys == s.rows.Keys;
    forall id | id in s.rows
      ensures r.rows[id].queuedCount == s.rows[id].queuedCount && r.rows[id].enabled == s.rows[id].enabled
      ensures r.rows[id].name == s.rows[id].name
    {
    }
    assert forall id :: id in s.rows ==> Waiting(r.rows[id]) == Waiting(s.rows[id]);
    assert forall id :: id in s.rows ==> Due(r.rows[id]) == Due(s.rows[id]);
  }

  lemma MarkConsumes(s: State, t: Tid, c: Choice)
    requires Consistent(s) && Enabled(s, Step(t, c)) && s.threads[t].Mark?
    ensures Work(Apply(s, Step(t, c))) < Work(s)
  {
    var id := s.threads[t].id;
    assert Grounded(s.rows, s.threads[t], id);
    var task := Started(s.rows[id], s.now);
    assert Dues(Apply(s, Step(t, c)).rows) == Dues(s.rows)[id := Due(task)];
    SumUpdate(Dues(s.rows), id, Due(task));
    MoveCredits(s.threads, t, Execute(id, ArmsEnforcer(s.rows[id])));
  }

  /** Arming costs the credit of the execution more than it adds to the queue. */
  lemma ArmingConsumes(s: State, t: Tid, c: Choice)
    requires Enabled(s, Step(t, c)) && s.threads[t].Execute? && s.threads[t].arms
    ensures Work(Apply(s, Step(t, c))) < Work(s)
  {
    var r := Apply(s, Step(t, c));
    MoveCredits(s.threads, t, Ending(s.threads[t].id));
    var target := ArmedBy(s.rows, true, c);
    if target.Some? {
      var due := Due(Armed(s.rows[target.value], s.now));
      assert Dues(r.rows) == Dues(s.rows)[target.value := due];
      SumUpdate(Dues(s.rows), target.value, due);
    } else {
      assert Dues(r.rows) == Dues(s.rows);
    }
  }

  /** A thread that neither enqueues, marks, arms nor spawns. */
  predicate Plain(pc: Pc) {
    !pc.EnqueueWrite? && !pc.Mark? && !pc.Spawning? && (pc.Execute? ==> !pc.arms)
  }

  /** A thread that does not spawn moves alone. */
  lemma MovesAlone(s: State, t: Tid, c: Choice)
    requires Enabled(s, Step(t, c)) && !s.threads[t].Spawning?
    ensures var r := Apply(s, Step(t, c));
            t in r.threads && r.threads == s.threads[t := r.threads[t]]
  {
  }

  /** It starts no new request, and only the worker's mark earns it a credit. */
  lemma MovesModestly(s: State, t: Tid, c: Choice)
    requires Enabled(s, Step(t, c)) && !s.threads[t].Spawning?
    ensures t in Apply(s, Step(t, c)).threads
    ensures var pc := Apply(s, Step(t, c)).threads[t];
            (Requesting(pc) ==> Requesting(s.threads[t])) && (!s.threads[t].Mark? ==> Credit(pc) == 0)
  {
  }

  /** The thread is inside run_task. */
  predicate InTask(pc: Pc) {
    pc.Execute? || pc.Ending? || pc.Success? || pc.ErrorRead? || pc.ErrorWrite? || pc.FinalRead? || pc.FinalWrite?
  }

  lemma RankFallsInTask(s: State, t: Tid, c: Choice)
    requires Enabled(s, Step(t, c)) && Plain(s.threads[t]) && InTask(s.threads[t])
    ensures t in Apply(s, Step(t, c)).threads
    ensures Rank(Apply(s, Step(t, c)).threads[t], SomeWaiting(s.rows)) < Rank(s.threads[t], SomeWaiting(s.rows))
  {
  }

  lemma RankFallsOutside(s: State, t: Tid, c: Choice)
    requires Consistent(s) && Enabled(s, Step(t, c)) && Plain(s.threads[t]) && !InTask(s.threads[t])
    ensures t in Apply(s, Step(t, c)).threads
    ensures Rank(Apply(s, Step(t, c)).threads[t], SomeWaiting(s.rows)) < Rank(s.threads[t], SomeWaiting(s.rows))
  {
    if s.threads[t].Load? {
      assert Grounded(s.rows, s.threads[t], s.threads[t].id);
    }
  }

  lemma WriteIsCloser(s: State, t: Tid, c: Choice)
    requires Enabled(s, Step(t, c)) && s.threads[t].EnqueueWrite?
    ensures Unwritten(Apply(s, Step(t, c))) < Unwritten(s)
  {
    MoveUnwritten(s.threads, t, StartClaim);
  }

  /** The claiming thread ends and its worker starts: no request is added ... */
  lemma SpawnRequests(threads: map<Tid, Pc>, t: Tid, worker: Tid)
    requires t in threads && threads[t] == Spawning && worker !in threads
    ensures Sum(Requesters(threads[t := Done][worker := Fetch])) == Sum(Requesters(threads))
    ensures Sum(Credits(threads[t := Done][worker := Fetch])) == Sum(Credits(threads))
  {
    MoveUnwritten(threads, t, Done);
    MoveUnwritten(threads[t := Done], worker, Fetch);
    MoveCredits(threads, t, Done);
    MoveCredits(threads[t := Done], worker, Fetch);
  }

  /** ... and together they are one rank lower. */
  lemma SpawnRanks(threads: map<Tid, Pc>, t: Tid, worker: Tid, busy: bool)
    requires t in threads && threads[t] == Spawning && worker !in threads
    ensures Sum(Ranks(threads[t := Done][worker := Fetch], busy)) == Sum(Ranks(threads, busy)) - 1
  {
    MoveDistance(threads, t, Done, busy);
    MoveDistance(threads[t := Done], worker, Fetch, busy);
  }

  lemma SpawnIsCloser(s: State, t: Tid, c: Choice)
    requires Enabled(s, Step(t, c)) && s.threads[t] == Spawning
    ensures Closer(Apply(s, Step(t, c)), s)
  {
    DuesKept(s, Step(t, c));
    SpawnRequests(s.threads, t, c.spawned);
    SpawnRanks(s.threads, t, c.spawned, SomeWaiting(s.rows));
  }

  lemma MoveIsCloser(s: State, t: Tid, c: Choice)
    requires Consistent(s) && Enabled(s, Step(t, c))
    requires Plain(s.threads[t])
    ensures Closer(Apply(s, Step(t, c)), s)
  {
    var pc := Apply(s, Step(t, c)).threads[t];
    DuesKept(s, Step(t, c));
    if InTask(s.threads[t]) {
      RankFallsInTask(s, t, c);
    } else {
      RankFallsOutside(s, t, c);
    }
    MovesAlone(s, t, c);
    MovesModestly(s, t, c);
    MoveUnwritten(s.threads, t, pc);
    MoveCredits(s.threads, t, pc);
    MoveDistance(s.threads, t, pc, SomeWaiting(s.rows));
  }

  lemma MarkIsCloser(s: State, t: Tid, c: Choice)
    requires Consistent(s) && Enabled(s, Step(t, c)) && s.threads[t].Mark?
    ensures Closer(Apply(s, Step(t, c)), s)
  {
    MoveUnwritten(s.threads, t, Apply(s, Step(t, c)).threads[t]);
    MarkConsumes(s, t, c);
  }

  lemma ArmingIsCloser(s: State, t: Tid, c: Choice)
    requires Enabled(s, Step(t, c)) && s.threads[t].Execute? && s.threads[t].arms
    ensures Closer(Apply(s, Step(t, c)), s)
  {
    MoveUnwritten(s.threads, t, Ending(s.threads[t].id));
    ArmingConsumes(s, t, c);
  }

  /** Every thread step brings the protocol closer to its end. */
  lemma StepDecreases(s: State, t: Tid, c: Choice)
    requires Consistent(s) && Enabled(s, Step(t, c))
    ensures Closer(Apply(s, Step(t, c)), s)
  {
    var pc := s.threads[t];
    if pc.EnqueueWrite? {
      WriteIsCloser(s, t, c);
    } else if pc.Mark? {
      MarkIsCloser(s, t, c);
    } else if pc.Execute? && pc.arms {
      ArmingIsCloser(s, t, c);
    } else if pc.Spawning? {
      SpawnIsCloser(s, t, c);
    } else {
      MoveIsCloser(s, t, c);
    }
  }

  /** Clock ticks and other writers of status and updated_at leave the measure alone. */
  lemma EnvironmentKeepsMeasure(s: State, a: Action)
    requires a.Tick? || a.Touch?
    ensures var r := Apply(s, a);
            Unwritten(r) == Unwritten(s) && Work(r) == Work(s) && Distance(r) == Distance(s)
  {
    DuesKept(s, a);
  }

  // ----- draining

  /** A thread that has not ended can always take its next step. */
  lemma NoDeadlock(s: State, t: Tid)
    requires t in s.threads && s.threads[t] != Done
    ensures exists c :: Enabled(s, Step(t, c))
  {
    var pick := 0;
    if SomeWaiting(s.rows) {
      pick := NextExists(s.rows);
    }
    var spawned := Unused(s.threads.Keys);
    assert Enabled(s, Step(t, Choice(pick, spawned, None, None)));
  }

  lemma {:induction false} Unused(ids: set<Tid>) returns (id: Tid)
    ensures forall i :: i in ids ==> i < id
    decreases |ids|
  {
    if forall i :: i !in ids {
      id := 0;
    } else {
      var i :| i in ids;
      var below := Unused(ids - {i});
      id := if below > i then below else i + 1;
      forall j | j in ids ensures j < id {
        assert j == i || j in ids - {i};
      }
    }
  }

  /** Steps of the clock and of other writers of status and updated_at. */
  predicate Environment(run: seq<Action>) {
    forall i :: 0 <= i < |run| ==> run[i].Tick? || run[i].Touch?
  }

  lemma {:induction false} EnvironmentRunKeepsMeasure(s: State, run: seq<Action>)
    requires Environment(run)
    ensures Legal(s, run)
    ensures var r := After(s, run);
            && Unwritten(r) == Unwritten(s) && Work(r) == Work(s) && Distance(r) == Distance(s)
            && r.threads == s.threads && r.claimed == s.claimed
    decreases |run|
  {
    if run != [] {
      EnvironmentKeepsMeasure(s, run[0]);
      EnvironmentRunKeepsMeasure(Apply(s, run[0]), run[1..]);
    }
  }

  /**
   In every round the environment takes any finite number of steps, and then a scheduler picks some thread's step,
   as long as a thread is alive.
   */
  datatype Scheduler = Scheduler(noise: (nat, State) -> seq<Action>, next: (nat, State) -> Action)

  ghost predicate Schedules(sch: Scheduler) {
    && (forall k, s :: Environment(sch.noise(k, s)))
    && (forall k, s :: !Quiescent(s) ==> sch.next(k, s).Step? && Enabled(s, sch.next(k, s)))
  }

  /** `run` is what the scheduler does from round `k` on. */
  ghost predicate Follows(s: State, run: seq<Action>, sch: Scheduler, k: nat)
    requires Schedules(sch)
    decreases |run|
  {
    run == [] || (
      var noise := sch.noise(k, s);
      EnvironmentRunKeepsMeasure(s, noise);
      var calm := After(s, noise);
      && |noise| < |run| && run[..|noise|] == noise
      && run[|noise|] == sch.next(k, calm) && Enabled(calm, run[|noise|])
      && Follows(Apply(calm, run[|noise|]), run[|noise| + 1..], sch, k + 1))
  }

  /** One round: the noise keeps the measure and the thread's step lowers it. */
  lemma RoundIsCloser(s: State, sch: Scheduler, k: nat)
    requires Invariant(s) && Schedules(sch) && !Quiescent(s)
    ensures Environment(sch.noise(k, s)) && Legal(s, sch.noise(k, s))
    ensures var calm := After(s, sch.noise(k, s));
            && Enabled(calm, sch.next(k, calm))
            && Closer(Apply(calm, sch.next(k, calm)), s) && Invariant(Apply(calm, sch.next(k, calm)))
  {
    var noise := sch.noise(k, s);
    EnvironmentRunKeepsMeasure(s, noise);
    var calm := After(s, noise);
    InvariantAfter(s, noise);
    assert !Quiescent(calm);
    var a := sch.next(k, calm);
    StepDecreases(calm, a.tid, a.choice);
    InvariantAfter(calm, [a]);
    assert After(calm, [a]) == Apply(calm, a);
  }

  /** A round before what the scheduler does from the next round on. */
  lemma RoundFirst(s: State, sch: Scheduler, k: nat, rest: seq<Action>) returns (run: seq<Action>)
    requires Invariant(s) && Schedules(sch) && !Quiescent(s)
    requires var noise := sch.noise(k, s);
             && Legal(s, noise)
             && var calm := After(s, noise);
                Enabled(calm, sch.next(k, calm))
                && Legal(Apply(calm, sch.next(k, calm)), rest)
                && Follows(Apply(calm, sch.next(k, calm)), rest, sch, k + 1)
    ensures Legal(s, run) && Follows(s, run, sch, k)
    ensures var calm := After(s, sch.noise(k, s));
            After(s, run) == After(Apply(calm, sch.next(k, calm)), rest)
  {
    var noise := sch.noise(k, s);
    var calm := After(s, noise);
    var step := [sch.next(k, calm)] + rest;
    run := noise + step;
    assert step[1..] == rest;
    JoinRuns(s, noise, step);
    assert run[..|noise|] == noise && run[|noise|] == step[0] && run[|noise| + 1..] == rest;
  }

  /**
   Without new callers, every scheduler reaches quiescence, with nothing queued and the lease free, whatever the clock
   and other writers do meanwhile.
   */
  lemma {:induction false} EverySchedulerDrains(s: State, sch: Scheduler, k: nat) returns (run: seq<Action>)
    requires Invariant(s) && Schedules(sch)
    ensures Legal(s, run) && Follows(s, run, sch, k)
    ensures Quiescent(After(s, run)) && !SomeWaiting(After(s, run).rows) && !After(s, run).claimed
    decreases Unwritten(s), Work(s), Distance(s)
  {
    if Quiescent(s) {
      run := [];
    } else {
      RoundIsCloser(s, sch, k);
      var calm := After(s, sch.noise(k, s));
      var rest := EverySchedulerDrains(Apply(calm, sch.next(k, calm)), sch, k + 1);
      run := RoundFirst(s, sch, k, rest);
    }
  }
}
