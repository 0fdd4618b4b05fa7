/**
 Why the watchdog theorem needs its time limit: a watchdog thread that is delayed for longer than MAX_MINUTES
 between its look at the lease and its UPDATE does reset a task that a live worker is executing.
 */
module TaskWatchdog {
  import opened Options
  import opened TaskTable
  import opened TaskProtocol

  const LIVE := Task(Named("sync_plex"), true, Idle, 0, 0, 0, None, None, None, None, 0)
  const STALE := Task(Named("check_servers"), true, Running, 0, 0, 0, None, None, None, None, -MAX_MINUTES * 60 - 1)
  const START := State(0, map[1 := LIVE, 2 := STALE], false, map[], [])
  const PICK_ONE := Choice(1, 2, None, None)

  lemma Prepend(s: State, a: Action, run: seq<Action>)
    requires Enabled(s, a) && Legal(Apply(s, a), run)
    ensures Legal(s, [a] + run) && After(s, [a] + run) == After(Apply(s, a), run)
  {
    assert ([a] + run)[1..] == run;
  }

  /** The watchdog (thread 0) saw a free lease at time 0; then thread 1 enqueued task 1 and thread 2 runs it. */
  function Delayed(delay: nat): State {
    State(delay,
          map[1 := Started(Enqueued(LIVE, 0), 0), 2 := STALE],
          true,
          map[0 := WatchWrite(0), 1 := Done, 2 := Execute(1, false)],
          [Requested(1), Began(1)])
  }

  lemma WatchdogPart() returns (run: seq<Action>, s: State)
    ensures Legal(START, run) && After(START, run) == s
    ensures s == START.(threads := map[0 := WatchWrite(0)])
  {
    var a1, a2, a3 := Arrive(0, WatchLease), Step(0, PICK_ONE), Step(0, PICK_ONE);
    var s1 := Apply(START, a1);
    var s2 := Apply(s1, a2);
    assert Stuck(s2.rows[2], Cutoff(0));
    s := Apply(s2, a3);
    run := [];
    Prepend(s2, a3, run);
    run := [a3] + run;
    Prepend(s1, a2, run);
    run := [a2] + run;
    Prepend(START, a1, run);
    run := [a1] + run;
  }

  /** A statement that only reads moves its thread and nothing else. */
  lemma ReadingStep(s: State, t: Tid, c: Choice)
    requires Enabled(s, Step(t, c))
    requires var pc := s.threads[t];
             pc.EnqueueRead? || pc.Fetch? || pc.Load? || (pc.StartClaim? && s.claimed)
    ensures Apply(s, Step(t, c)) == s.(threads := s.threads[t := Next(s, s.threads[t], c)])
  {
    assert (map id | id in s.rows :: Updated(s.threads[t], None, s.now, id, s.rows[id])) == s.rows;
  }

  /** Thread 1 is about to enqueue task 1. */
  lemma RequestPart(s: State) returns (run: seq<Action>)
    requires s == START.(threads := map[0 := WatchWrite(0)])
    ensures Legal(s, run) && After(s, run) == s.(threads := s.threads[1 := EnqueueWrite(1)])
  {
    var s1 := s.(threads := s.threads[1 := EnqueueRead(1)]);
    ReadingStep(s1, 1, PICK_ONE);
    Prepend(s1, Step(1, PICK_ONE), []);
    Prepend(s, Arrive(1, EnqueueRead(1)), [Step(1, PICK_ONE)]);
    run := [Arrive(1, EnqueueRead(1)), Step(1, PICK_ONE)];
    assert run == [Arrive(1, EnqueueRead(1))] + [Step(1, PICK_ONE)] && [Step(1, PICK_ONE)] + [] == [Step(1, PICK_ONE)];
  }

  /** The table once task 1 is queued. */
  const QUEUED := map[1 := Enqueued(LIVE, 0), 2 := STALE]

  lemma WriteStep(s: State)
    requires s == State(0, map[1 := LIVE, 2 := STALE], false, map[0 := WatchWrite(0), 1 := EnqueueWrite(1)], [])
    ensures Apply(s, Step(1, PICK_ONE))
            == State(0, QUEUED, false, map[0 := WatchWrite(0), 1 := StartClaim], [Requested(1)])
  {
  }

  lemma ClaimStep(s: State)
    requires s == State(0, QUEUED, false, map[0 := WatchWrite(0), 1 := StartClaim], [Requested(1)])
    ensures Apply(s, Step(1, PICK_ONE))
            == State(0, QUEUED, true, map[0 := WatchWrite(0), 1 := Spawning], [Requested(1)])
  {
  }

  lemma SpawnStep(s: State)
    requires s == State(0, QUEUED, true, map[0 := WatchWrite(0), 1 := Spawning], [Requested(1)])
    ensures Apply(s, Step(1, PICK_ONE)) == Spawned()
  {
  }

  /** Thread 1 has started thread 2 as the worker. */
  function Spawned(): State {
    State(0, QUEUED, true, map[0 := WatchWrite(0), 1 := Done, 2 := Fetch], [Requested(1)])
  }

  lemma EnqueuePart(s: State) returns (run: seq<Action>)
    requires s == State(0, map[1 := LIVE, 2 := STALE], false, map[0 := WatchWrite(0), 1 := EnqueueWrite(1)], [])
    ensures Legal(s, run) && After(s, run) == Spawned()
  {
    var a := Step(1, PICK_ONE);
    WriteStep(s);
    var s1 := Apply(s, a);
    ClaimStep(s1);
    var s2 := Apply(s1, a);
    SpawnStep(s2);
    Prepend(s2, a, []);
    Prepend(s1, a, [a] + []);
    Prepend(s, a, [a] + ([a] + []));
    run := [a] + ([a] + ([a] + []));
  }

  lemma MarkStep(s: State)
    requires s == Spawned().(threads := Spawned().threads[2 := Mark(1)])
    ensures Apply(s, Step(2, PICK_ONE)) == Delayed(0)
  {
    var rows := Apply(s, Step(2, PICK_ONE)).rows;
    assert rows == map[1 := Started(Enqueued(LIVE, 0), 0), 2 := STALE];
  }

  lemma WorkPart(s: State, delay: nat) returns (run: seq<Action>)
    requires s == Spawned()
    ensures Legal(s, run) && After(s, run) == Delayed(delay)
  {
    var a := Step(2, PICK_ONE);
    assert Waiting(s.rows[1]) && IsNext(s.rows, 1);
    ReadingStep(s, 2, PICK_ONE);
    var s1 := Apply(s, a);
    ReadingStep(s1, 2, PICK_ONE);
    var s2 := Apply(s1, a);
    MarkStep(s2);
    Prepend(Delayed(0), Tick(delay), []);
    Prepend(s2, a, [Tick(delay)] + []);
    Prepend(s1, a, [a] + ([Tick(delay)] + []));
    Prepend(s, a, [a] + ([a] + ([Tick(delay)] + [])));
    run := [a] + ([a] + ([a] + ([Tick(delay)] + [])));
  }

  /** For every delay beyond the limit there is a run in which the watchdog resets a task being executed. */
  lemma OverdueWatchdogResetsLiveTask(delay: nat) returns (run: seq<Action>)
    requires delay > 1800
    ensures Initial(START) && Legal(START, run) && After(START, run) == Delayed(delay)
    ensures var s := Delayed(delay);
            && s.threads[0] == WatchWrite(0) && s.now - 0 > 1800
            && Executing(s.threads[2], 1) && s.rows[1].status == Running
            && Apply(s, Step(0, PICK_ONE)).rows[1].status == Idle
  {
    var run1, s1 := WatchdogPart();
    var run2 := RequestPart(s1);
    var s2 := s1.(threads := s1.threads[1 := EnqueueWrite(1)]);
    var run3 := EnqueuePart(s2);
    var run4 := WorkPart(Spawned(), delay);
    JoinRuns(START, run1, run2);
    JoinRuns(START, run1 + run2, run3);
    JoinRuns(START, run1 + run2 + run3, run4);
    run := run1 + run2 + run3 + run4;
    ResetsRow(delay);
  }

  lemma ResetsRow(delay: nat)
    requires delay > 1800
    ensures Apply(Delayed(delay), Step(0, PICK_ONE)).rows[1].status == Idle
  {
  }
}
