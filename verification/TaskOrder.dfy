/**
 The order in which tasks are executed, told by their names and by when their rows were last updated: for the
 uninterrupted worker, and for every interleaving in which a worker fetches a task and starts it.
 */
module TaskOrder {
  import opened Options
  import opened TaskTable
  import opened TaskProtocol
  import opened TaskWorker

  /** Two tasks that the query gives the same rank: of one special name, or both without one. */
  predicate SameKind(a: Task, b: Task) {
    a.name == b.name || (a.name.Named? && b.name.Named?)
  }

  predicate IsRefresh(task: Task) {
    task.name == MonitorEnqueueRefresh
  }

  predicate IsCollect(task: Task) {
    task.name == MonitorCollectSessions
  }

  /**
   Task `a` may be picked while `b` waits.  The refresh of the monitoring is never passed over, the media jobs worker
   only by it, the stream enforcer only by those two, the collection of sessions passes nothing but its own kind, and
   among tasks of one kind the row that was updated earlier goes first, the lower id if both were updated at once.
   */
  predicate MayPass(rows: Table, a: int, b: int)
    requires a in rows && b in rows
  {
    && (IsRefresh(rows[b]) ==> IsRefresh(rows[a]))
    && (ArmsEnforcer(rows[b]) ==> IsRefresh(rows[a]) || ArmsEnforcer(rows[a]))
    && (IsEnforcer(rows[b]) ==> IsRefresh(rows[a]) || ArmsEnforcer(rows[a]) || IsEnforcer(rows[a]))
    && (IsCollect(rows[a]) ==> IsCollect(rows[b]))
    && (SameKind(rows[a], rows[b]) ==>
          rows[a].updatedAt < rows[b].updatedAt || (rows[a].updatedAt == rows[b].updatedAt && a < b))
  }

  /** The task is enabled and was requested. */
  predicate IsQueued(rows: Table, id: int) {
    id in rows && rows[id].enabled && rows[id].queuedCount > 0
  }

  /** The worker's SELECT returns the queued task that may pass all others. */
  lemma NextIff(rows: Table, id: int)
    ensures IsNext(rows, id)
            <==> IsQueued(rows, id) && forall other :: IsQueued(rows, other) && other != id ==> MayPass(rows, id, other)
  {
    forall other | id in rows && other in rows && other != id
      ensures Before(rows, id, other) <==> MayPass(rows, id, other)
    {
    }
  }

  /** The uninterrupted worker: whatever waits when a task is executed may be passed by it. */
  lemma ExecutedInTurn(before: Table, rows: Table, runs: seq<int>, clock: nat -> int, outcome: nat -> Option<string>,
                       k: nat, other: int)
    requires Executed(before, rows, runs, clock, outcome) && k < |runs| && other != runs[k]
    requires IsQueued(Replay(before, runs[..k], clock, outcome), other)
    ensures var now := Replay(before, runs[..k], clock, outcome);
            IsQueued(now, runs[k]) && MayPass(now, runs[k], other)
  {
    NextIff(Replay(before, runs[..k], clock, outcome), runs[k]);
  }

  // ----- every interleaving

  /** No row was updated in the future. */
  ghost predicate Past(s: State) {
    forall id :: id in s.rows ==> s.rows[id].updatedAt <= s.now
  }

  /** A step that changes a row stamps it. */
  lemma ChangesAreStamped(s: State, a: Action, id: int)
    requires Enabled(s, a) && id in s.rows
    ensures id in Apply(s, a).rows && s.now <= Apply(s, a).now
    ensures Apply(s, a).rows[id] == s.rows[id] || Apply(s, a).rows[id].updatedAt == s.now
  {
  }

  lemma PastPreserved(s: State, a: Action)
    requires Past(s) && Enabled(s, a)
    ensures Past(Apply(s, a))
  {
    var r := Apply(s, a);
    forall id | id in r.rows ensures r.rows[id].updatedAt <= r.now {
      assert id in s.rows;
      ChangesAreStamped(s, a, id);
    }
  }

  /** Since `before`, each row is as it was or was stamped later. */
  ghost predicate StampedSince(before: State, s: State) {
    && before.now <= s.now && s.rows.Keys == before.rows.Keys
    && forall id :: id in s.rows ==> s.rows[id] == before.rows[id] || s.rows[id].updatedAt >= before.now
  }

  lemma StampedStep(before: State, s: State, a: Action)
    requires StampedSince(before, s) && Enabled(s, a)
    ensures StampedSince(before, Apply(s, a))
  {
    var r := Apply(s, a);
    assert r.rows.Keys == s.rows.Keys;
    forall id | id in r.rows ensures r.rows[id] == before.rows[id] || r.rows[id].updatedAt >= before.now {
      ChangesAreStamped(s, a, id);
    }
  }

  lemma {:induction false} SplitRun(s: State, first: seq<Action>, second: seq<Action>)
    requires Legal(s, first + second)
    ensures Legal(s, first) && Legal(After(s, first), second)
    ensures After(s, first + second) == After(After(s, first), second)
    decreases |first|
  {
    if first == [] {
      assert first + second == second;
    } else {
      assert (first + second)[1..] == first[1..] + second;
      SplitRun(Apply(s, first[0]), first[1..], second);
    }
  }

  lemma {:induction false} PastAfter(s: State, run: seq<Action>)
    requires Past(s) && Legal(s, run)
    ensures Past(After(s, run))
    decreases |run|
  {
    if run != [] {
      PastPreserved(s, run[0]);
      PastAfter(Apply(s, run[0]), run[1..]);
    }
  }

  /** Thread `t` of `before` is about to fetch, and the query gives it `id`. */
  ghost predicate Fetches(before: State, t: Tid, id: int) {
    t in before.threads && before.threads[t] == Fetch && IsQueued(before.rows, id) && IsNext(before.rows, id)
  }

  /** A thread that holds a fetched task fetched it at some moment of the run. */
  lemma {:induction false} FetchedBefore(init: State, run: seq<Action>, t: Tid, id: int)
    returns (first: seq<Action>, rest: seq<Action>)
    requires Initial(init) && Legal(init, run)
    requires t in After(init, run).threads && About(After(init, run).threads[t], id)
    ensures run == first + rest && Legal(init, first) && Fetches(After(init, first), t, id)
    ensures StampedSince(After(init, first), After(init, run))
    decreases |run|
  {
    if run == [] {
      assert false;
    } else {
      var n := |run| - 1;
      assert run == run[..n] + [run[n]];
      SplitRun(init, run[..n], [run[n]]);
      var s := After(init, run[..n]);
      assert [run[n]][1..] == [];
      assert After(s, [run[n]]) == Apply(s, run[n]);
      AboutStarts(s, run[n], t, id);
      if About(s.threads[t], id) {
        first, rest := FetchedBefore(init, run[..n], t, id);
        rest := rest + [run[n]];
        StampedStep(After(init, first), s, run[n]);
      } else {
        first, rest := run[..n], [run[n]];
        StampedStep(s, s, run[n]);
      }
    }
  }

  /**
   In every run, when a worker starts a task it fetched that task at an earlier moment, when it could pass everything
   that waited; and whatever waits at the start has been so since then, or its row was updated no earlier than the
   fetched one.
   */
  lemma StartedInTurn(init: State, run: seq<Action>, t: Tid, id: int) returns (first: seq<Action>, rest: seq<Action>)
    requires Initial(init) && Past(init) && Legal(init, run)
    requires t in After(init, run).threads && After(init, run).threads[t] == Mark(id)
    ensures run == first + rest && Legal(init, first) && Fetches(After(init, first), t, id)
    ensures var before, s := After(init, first), After(init, run);
            forall b :: IsQueued(s.rows, b) && b != id ==>
              && b in before.rows
              && ( || (s.rows[b] == before.rows[b] && MayPass(before.rows, id, b))
                   || s.rows[b].updatedAt >= before.rows[id].updatedAt)
  {
    first, rest := FetchedBefore(init, run, t, id);
    var before := After(init, first);
    PastAfter(init, first);
    NextIff(before.rows, id);
  }

  /**
   Of two tasks of one kind, the one whose row was updated later when it was fetched is not started while the other
   waits.
   */
  lemma EarlierGoesFirst(init: State, run: seq<Action>, t: Tid, id: int, b: int)
    returns (first: seq<Action>, rest: seq<Action>)
    requires Initial(init) && Past(init) && Legal(init, run)
    requires var s := After(init, run);
             && t in s.threads && s.threads[t] == Mark(id)
             && IsQueued(s.rows, b) && b != id && id in s.rows && SameKind(s.rows[id], s.rows[b])
    ensures run == first + rest && Legal(init, first) && Fetches(After(init, first), t, id)
    ensures After(init, first).rows[id].updatedAt <= After(init, run).rows[b].updatedAt
  {
    first, rest := StartedInTurn(init, run, t, id);
    NamesAfter(init, run);
    NamesAfter(init, first);
  }

  lemma {:induction false} NamesAfter(s: State, run: seq<Action>)
    requires Legal(s, run)
    ensures After(s, run).rows.Keys == s.rows.Keys
    ensures forall id :: id in s.rows ==> After(s, run).rows[id].name == s.rows[id].name
    decreases |run|
  {
    if run != [] {
      assert Apply(s, run[0]).rows.Keys == s.rows.Keys;
      NamesAfter(Apply(s, run[0]), run[1..]);
    }
  }
}
