/**
 Which verdict a login request gets, told by the stored ends of locks, and what a row says about the failures of its
 key.
 */
module LoginVerdicts {
  import opened LoginLimiter
  import opened Options

  /** The key has a lock with at least one whole second left. */
  predicate HasLock(table: Table, key: Key, now: int) {
    && key in table && table[key].lockedUntil.Some?
    && table[key].lockedUntil.value * 1_000_000 - now >= 1_000_000
  }

  /** `n` is the number of whole seconds that the lock of the key still has. */
  predicate SecondsLeft(table: Table, key: Key, now: int, n: int)
    requires HasLock(table, key, now)
  {
    n * 1_000_000 <= table[key].lockedUntil.value * 1_000_000 - now < (n + 1) * 1_000_000
  }

  /** Neither the address nor the e-mail of the request is locked. */
  predicate Admitted(table: Table, r: Request) {
    !HasLock(table, Ip(r.ip), r.at) && (r.email == "" || !HasLock(table, Email(r.email), r.at))
  }

  /** For every table and request: who is let in, who is turned away unseen, for how long, and who is rejected. */
  lemma VerdictIs(limits: Limits, table: Table, r: Request)
    ensures var verdict := Submit(limits, table, r).1;
            && (verdict == Accepted <==> Admitted(table, r) && r.email != "" && r.credentialsOk)
            && (verdict == Rejected <==> Admitted(table, r) && (r.email == "" || !r.credentialsOk))
            && (verdict.Blocked? <==> !Admitted(table, r))
            && (verdict.Blocked? ==>
                  SecondsLeft(table, if HasLock(table, Ip(r.ip), r.at) then Ip(r.ip) else Email(r.email), r.at,
                              verdict.remaining))
  {
  }

  /** The verdict of request number `i` of a run. */
  function VerdictAt(limits: Limits, table: Table, run: seq<Request>, i: nat): Verdict
    requires i < |run|
  {
    Submit(limits, TableAfter(limits, table, run[..i]), run[i]).1
  }

  /** In every run whoever is let in has an e-mail, the right credentials, and no lock. */
  lemma AcceptedInRun(limits: Limits, table: Table, run: seq<Request>, i: nat)
    requires i < |run| && VerdictAt(limits, table, run, i) == Accepted
    ensures run[i].email != "" && run[i].credentialsOk && Admitted(TableAfter(limits, table, run[..i]), run[i])
  {
    VerdictIs(limits, TableAfter(limits, table, run[..i]), run[i]);
  }

  // ----- a lock over a run

  /** The run is over at least one second before `until`. */
  predicate Before(run: seq<Request>, until: int) {
    forall i :: 0 <= i < |run| ==> run[i].at <= (until - 1) * 1_000_000
  }

  lemma LockStays(limits: Limits, table: Table, r: Request, key: Key)
    requires HasLock(table, key, r.at)
    ensures Concerns(r, key) ==> Submit(limits, table, r).1.Blocked?
    ensures key in Submit(limits, table, r).0 && Submit(limits, table, r).0[key] == table[key]
  {
    VerdictIs(limits, table, r);
    RowStep(limits, table, r, key);
  }

  /** A lock holds over every run that ends a second before it: no request of its key is evaluated, and it stays. */
  lemma {:induction false} LockHolds(limits: Limits, table: Table, run: seq<Request>, key: Key, i: nat)
    requires key in table && table[key].lockedUntil.Some? && Before(run, table[key].lockedUntil.value)
    requires i <= |run|
    ensures var after := TableAfter(limits, table, run[..i]); key in after && after[key] == table[key]
    ensures i < |run| && Concerns(run[i], key) ==> VerdictAt(limits, table, run, i).Blocked?
  {
    if i > 0 {
      LockHolds(limits, table, run, key, i - 1);
      var before := TableAfter(limits, table, run[..i - 1]);
      LockStays(limits, before, run[i - 1], key);
      assert run[..i] == run[..i - 1] + [run[i - 1]];
      JoinTables(limits, table, run[..i - 1], [run[i - 1]], 0);
      assert [run[i - 1]][1..] == [];
      assert TableAfter(limits, before, [run[i - 1]]) == Submit(limits, before, run[i - 1]).0;
    }
    if i < |run| {
      LockStays(limits, TableAfter(limits, table, run[..i]), run[i], key);
    }
  }

  // ----- what a row records

  /**
   The row tells the last `failed` of the evaluated failures `times`: when the first and the last of them were, that
   all of them fall into one window, and a lock from the last one exactly if their number is the limit.
   */
  ghost predicate Records(limits: Limits, row: Row, times: seq<int>) {
    var n := |times|;
    && 0 <= row.failed <= n && row.failed <= limits.maxAttempts
    && if row.failed == 0 then row == Row(0, None, None, None) else
         var first, last := times[n - row.failed] / 1_000_000, times[n - 1] / 1_000_000;
         && row.first == Some(first) && row.last == Some(last)
         && row.lockedUntil == (if row.failed == limits.maxAttempts then Some(last + limits.lock) else None)
         && forall i :: n - row.failed <= i < n ==> times[i] <= (first + limits.window) * 1_000_000
  }

  lemma RecordsFailure(limits: Limits, row: Row, times: seq<int>, at: int, failedAt: int)
    requires Records(limits, row, times) && Remaining(row, at) <= 0
    ensures Records(limits, Registered(limits, Gated(row, at), failedAt), times + [failedAt])
  {
    StoredLater(failedAt, failedAt, limits.lock);
    StoredIs(failedAt);
    var after, n := Registered(limits, Gated(row, at), failedAt), |times| + 1;
    assert forall i :: 0 <= i < |times| ==> (times + [failedAt])[i] == times[i];
  }

  lemma {:induction false} RecordsAfter(limits: Limits, table: Table, run: seq<Request>, key: Key, past: seq<int>)
    requires Records(limits, RowOf(table, key), past)
    ensures Records(limits, RowOf(TableAfter(limits, table, run), key),
                    past + FailureTimes(limits, table, run, key))
    decreases |run|
  {
    if run == [] {
      assert past + [] == past;
    } else {
      var r := run[0];
      var (next, verdict) := Submit(limits, table, r);
      var rest := FailureTimes(limits, next, run[1..], key);
      RowStep(limits, table, r, key);
      if verdict == Rejected && Concerns(r, key) {
        RecordsFailure(limits, RowOf(table, key), past, r.at, r.failedAt);
        RecordsAfter(limits, next, run[1..], key, past + [r.failedAt]);
        assert past + [r.failedAt] + rest == past + ([r.failedAt] + rest);
      } else {
        RecordsAfter(limits, next, run[1..], key, past);
      }
    }
  }

  /** After every run from the empty table each row tells the latest evaluated failures of its key. */
  lemma RowRecordsFailures(limits: Limits, run: seq<Request>, key: Key)
    ensures Records(limits, RowOf(TableAfter(limits, map[], run), key), FailureTimes(limits, map[], run, key))
  {
    RecordsAfter(limits, map[], run, key, []);
    assert [] + FailureTimes(limits, map[], run, key) == FailureTimes(limits, map[], run, key);
  }
}
