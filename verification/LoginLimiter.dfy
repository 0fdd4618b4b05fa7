/**
 The login attempt limiter of app/routes/auth.py: one row per (scope, value), a restarting failure window, and a
 lock.  The clock counts microseconds, rows hold whole seconds; a request is one atomic step with the time `at` of its
 gate and the time `failedAt` at which a failure is registered.
 */
module LoginLimiter {
  import opened Options

  datatype Key = Ip(value: string) | Email(value: string)

  const SECOND := 1_000_000

  /** _dt_to_sql drops the microseconds. */
  function Stored(now: int): int { now / SECOND }

  /** Stored times are in seconds. */
  datatype Row = Row(failed: int, first: Option<int>, last: Option<int>, lockedUntil: Option<int>)

  const EMPTY := Row(0, None, None, None)

  type Table = map<Key, Row>

  datatype Settings = Settings(maxAttempts: int, window: int, lock: int)

  /** Every setting is at least 1; window and lock are whole minutes, given in seconds. */
  type Limits = s: Settings | s.maxAttempts >= 1 && s.window >= 60 && s.lock >= 60
    witness Settings(5, 900, 900)

  datatype Request = Request(ip: string, email: string, at: int, failedAt: int, credentialsOk: bool)

  datatype Verdict = Blocked(remaining: int) | Rejected | Accepted

  /** The row, as SELECTed after INSERT OR IGNORE. */
  function RowOf(table: Table, key: Key): Row {
    if key in table then table[key] else EMPTY
  }

  /** Whole seconds, rounded down. */
  function Remaining(row: Row, now: int): int {
    if row.lockedUntil.None? || row.lockedUntil.value * SECOND <= now then 0
    else (row.lockedUntil.value * SECOND - now) / SECOND
  }

  /** The row after _is_login_locked looked at it: an expired lock wipes it. */
  function Gated(row: Row, now: int): Row {
    if Remaining(row, now) <= 0 && row.lockedUntil.Some? then EMPTY else row
  }

  function Registered(limits: Limits, row: Row, now: int): Row {
    var restarts := row.first.None? || now - row.first.value * SECOND > limits.window * SECOND;
    var failed := if restarts then 1 else row.failed + 1;
    Row(failed,
        if restarts then Some(Stored(now)) else row.first,
        Some(Stored(now)),
        if failed >= limits.maxAttempts then Some(Stored(now + limits.lock * SECOND)) else None)
  }

  function Gate(table: Table, key: Key, now: int): Table {
    table[key := Gated(RowOf(table, key), now)]
  }

  function Register(limits: Limits, table: Table, key: Key, now: int): Table {
    table[key := Registered(limits, RowOf(table, key), now)]
  }

  function Reset(table: Table, key: Key): Table {
    if key in table then table[key := EMPTY] else table
  }

  function Locked(table: Table, key: Key, now: int): bool {
    Remaining(RowOf(table, key), now) > 0
  }

  /** What one POST to /login/submit does: the table after it and its verdict. */
  function Submit(limits: Limits, table: Table, r: Request): (Table, Verdict) {
    var ip, email := Ip(r.ip), Email(r.email);
    var t1 := Gate(table, ip, r.at);
    if Locked(table, ip, r.at) then
      (t1, Blocked(Remaining(RowOf(table, ip), r.at)))
    else
      var t2 := if r.email == "" then t1 else Gate(t1, email, r.at);
      if r.email != "" && Locked(t1, email, r.at) then
        (t2, Blocked(Remaining(RowOf(t1, email), r.at)))
      else if r.email == "" || !r.credentialsOk then
        var t3 := Register(limits, t2, ip, r.failedAt);
        (if r.email == "" then t3 else Register(limits, t3, email, r.failedAt), Rejected)
      else
        (Reset(Reset(t2, ip), email), Accepted)
  }

  class AuthGate {
    const limits: Limits
    var table: Table

    constructor (limits: Limits)
      ensures this.limits == limits && table == map[]
    {
      this.limits := limits;
      table := map[];
    }

    method IsLoginLocked(key: Key, now: int) returns (locked: bool, remaining: int)
      modifies this
      ensures table == Gate(old(table), key, now)
      ensures locked == Locked(old(table), key, now)
      ensures remaining == Remaining(RowOf(old(table), key), now)
    {
      var row := RowOf(table, key);
      table := table[key := row];
      remaining := Remaining(row, now);
      if remaining <= 0 && row.lockedUntil.Some? {
        ResetFailedLogin(key);
        return false, 0;
      }
      locked := remaining > 0;
    }

    method ResetFailedLogin(key: Key)
      modifies this
      ensures table == Reset(old(table), key)
    {
      if key in table {
        table := table[key := EMPTY];
      }
    }

    method RegisterFailedLogin(key: Key, now: int) returns (lockStarted: bool)
      modifies this
      ensures table == Register(limits, old(table), key, now)
      ensures lockStarted == (!Locked(old(table), key, now) && Locked(table, key, now))
    {
      var row := RowOf(table, key);
      var failed, first := 1, Stored(now);
      if row.first.Some? && now - row.first.value * SECOND <= limits.window * SECOND {
        failed, first := row.failed + 1, row.first.value;
      }
      var lockedUntil: Option<int> := None;
      lockStarted := false;
      if failed >= limits.maxAttempts {
        lockedUntil := Some(Stored(now + limits.lock * SECOND));
        lockStarted := Remaining(row, now) <= 0;
      }
      table := table[key := Row(failed, Some(first), Some(Stored(now)), lockedUntil)];
    }

    /** login_submit; `credentialsOk` stands for the email, password and one-time code checks. */
    method LoginSubmit(r: Request) returns (verdict: Verdict)
      modifies this
      ensures (table, verdict) == Submit(limits, old(table), r)
    {
      var lockedIp, remainingIp := IsLoginLocked(Ip(r.ip), r.at);
      if lockedIp {
        return Blocked(remainingIp);
      }
      if r.email != "" {
        var lockedEmail, remainingEmail := IsLoginLocked(Email(r.email), r.at);
        if lockedEmail {
          return Blocked(remainingEmail);
        }
      }
      if r.email == "" || !r.credentialsOk {
        var _ := RegisterFailedLogin(Ip(r.ip), r.failedAt);
        if r.email != "" {
          var _ := RegisterFailedLogin(Email(r.email), r.failedAt);
        }
        return Rejected;
      }
      ResetFailedLogin(Ip(r.ip));
      ResetFailedLogin(Email(r.email));
      verdict := Accepted;
    }
  }

  // ----- one key's view of a run

  predicate Concerns(r: Request, key: Key) {
    key == Ip(r.ip) || (r.email != "" && key == Email(r.email))
  }

  /** Requests in the order of a clock that never runs backwards, not before `clock`. */
  predicate Monotone(clock: int, run: seq<Request>)
    decreases |run|
  {
    run == [] || (clock <= run[0].at <= run[0].failedAt && Monotone(run[0].failedAt, run[1..]))
  }

  function TableAfter(limits: Limits, table: Table, run: seq<Request>): Table
    decreases |run|
  {
    if run == [] then table else TableAfter(limits, Submit(limits, table, run[0]).0, run[1..])
  }

  /** The times of the failures of `key` that were evaluated, that is, not blocked. */
  function FailureTimes(limits: Limits, table: Table, run: seq<Request>, key: Key): seq<int>
    decreases |run|
  {
    if run == [] then [] else
      var (next, verdict) := Submit(limits, table, run[0]);
      var rest := FailureTimes(limits, next, run[1..], key);
      if verdict == Rejected && Concerns(run[0], key) then [run[0].failedAt] + rest else rest
  }

  predicate NoSuccess(limits: Limits, table: Table, run: seq<Request>, key: Key)
    decreases |run|
  {
    run == [] ||
    var (next, verdict) := Submit(limits, table, run[0]);
    !(verdict == Accepted && Concerns(run[0], key)) && NoSuccess(limits, next, run[1..], key)
  }

  /** How one request changes the row of one key. */
  lemma RowStep(limits: Limits, table: Table, r: Request, key: Key)
    ensures var (next, verdict) := Submit(limits, table, r);
            var row, after := RowOf(table, key), RowOf(next, key);
            if !Concerns(r, key) then after == row
            else match verdict
              case Rejected => Remaining(row, r.at) <= 0
                               && after == Registered(limits, Gated(row, r.at), r.failedAt)
              case Accepted => Remaining(row, r.at) <= 0 && after == EMPTY
              case Blocked(_) => after == Gated(row, r.at) || after == row
  {
  }

  /** Rows that occur in runs whose clock has reached `clock`. */
  predicate Plausible(limits: Limits, row: Row, clock: int) {
    && 0 <= row.failed <= limits.maxAttempts
    && (row.first.None? <==> row.failed == 0)
    && (row.first.Some? ==> row.first.value <= Stored(clock))
    && (row.lockedUntil.Some? <==> row.failed == limits.maxAttempts)
  }

  lemma PlausibleStep(limits: Limits, table: Table, r: Request, key: Key, clock: int)
    requires Plausible(limits, RowOf(table, key), clock) && clock <= r.at <= r.failedAt
    ensures Plausible(limits, RowOf(Submit(limits, table, r).0, key), r.failedAt)
  {
    RowStep(limits, table, r, key);
    StoredLater(clock, r.failedAt, 0);
  }

  function Min(a: int, b: int): int { if a <= b then a else b }

  /**
   The shortest span of Quota(limits) consecutive failures: dropped microseconds cost the window up to one second and
   the lock up to two.
   */
  function Span(limits: Limits): int { Min(limits.window - 1, limits.lock - 2) * SECOND }

  function Quota(limits: Limits): int {
    if limits.maxAttempts == 1 then 2 else 2 * limits.maxAttempts - 1
  }

  /**
   `count` failures of the key were evaluated since time `start`, inclusive, all within Span of it: either no
   window restarted since then and at least one failure was counted before, or the window began with or after
   `start`.
   */
  predicate Tracks(limits: Limits, row: Row, count: int, start: int) {
    && row.first.Some? && row.failed <= limits.maxAttempts
    && ( || row.failed >= count + 1
         || (row.first.value >= Stored(start)
             && row.failed >= if limits.maxAttempts == 1 then count else count - limits.maxAttempts + 2))
    && (if row.failed >= limits.maxAttempts
        then row.lockedUntil.Some? && row.lockedUntil.value >= Stored(start) + limits.lock
        else row.lockedUntil.None?)
  }

  lemma StoredIs(t: int)
    ensures Stored(t) * SECOND <= t < Stored(t) * SECOND + SECOND
  {
  }

  lemma StoredLater(t: int, u: int, seconds: int)
    requires t <= u
    ensures Stored(t) <= Stored(u)
    ensures Stored(u + seconds * SECOND) == Stored(u) + seconds
  {
    StoredIs(t);
    StoredIs(u);
    StoredIs(u + seconds * SECOND);
  }

  /** No lock that was set at or after `start` has ended within Span of it. */
  lemma StillLocked(limits: Limits, row: Row, start: int, at: int)
    requires row.lockedUntil.Some? && row.lockedUntil.value >= Stored(start) + limits.lock
    requires at < start + Span(limits)
    ensures Remaining(row, at) > 0
  {
    StoredIs(start);
  }

  /** No window that began at or after `start` ends within Span of it. */
  lemma StillInWindow(limits: Limits, first: int, start: int, now: int)
    requires first >= Stored(start) && now < start + Span(limits)
    ensures now - first * SECOND <= limits.window * SECOND
  {
    StoredIs(start);
  }

  lemma TracksBound(limits: Limits, row: Row, count: int, start: int)
    requires Tracks(limits, row, count, start)
    ensures count < Quota(limits)
  {
  }

  /** An evaluated failure within Span of `start` is one more tracked failure. */
  lemma TracksStep(limits: Limits, row: Row, count: int, start: int, at: int, failedAt: int)
    requires Tracks(limits, row, count, start) && Remaining(row, at) <= 0
    requires start <= at <= failedAt < start + Span(limits)
    ensures Tracks(limits, Registered(limits, Gated(row, at), failedAt), count + 1, start)
  {
    StoredLater(start, failedAt, limits.lock);
    if row.lockedUntil.Some? {
      StillLocked(limits, row, start, at);
      assert false;
    }
    if row.first.value >= Stored(start) {
      StillInWindow(limits, row.first.value, start, failedAt);
    }
  }

  lemma FirstTracked(limits: Limits, row: Row, at: int, failedAt: int)
    requires Plausible(limits, row, at) && Remaining(row, at) <= 0 && at <= failedAt
    ensures Tracks(limits, Registered(limits, Gated(row, at), failedAt), 1, failedAt)
  {
    StoredLater(failedAt, failedAt, limits.lock);
  }

  /** Of the failures `times` that follow `count` others since `start`, those from number Quota on are late. */
  ghost predicate Late(limits: Limits, times: seq<int>, count: int, start: int) {
    forall i :: 0 <= i < |times| && count + i + 1 >= Quota(limits) ==> times[i] - start >= Span(limits)
  }

  lemma LateCons(limits: Limits, time: int, rest: seq<int>, count: int, start: int)
    requires Late(limits, rest, count + 1, start)
    requires count + 1 >= Quota(limits) ==> time - start >= Span(limits)
    ensures Late(limits, [time] + rest, count, start)
  {
    var times := [time] + rest;
    forall i | 0 <= i < |times| && count + i + 1 >= Quota(limits) ensures times[i] - start >= Span(limits) {
      if i > 0 {
        assert times[i] == rest[i - 1];
      }
    }
  }

  /** Failure number Quota since `start`, and every later one, is at least Span after it. */
  lemma {:induction false} LaterFailures(limits: Limits, table: Table, run: seq<Request>, key: Key,
                                         clock: int, count: nat, start: int)
    requires Monotone(clock, run) && NoSuccess(limits, table, run, key)
    requires start <= clock
    requires clock >= start + Span(limits) || Tracks(limits, RowOf(table, key), count, start)
    ensures Late(limits, FailureTimes(limits, table, run, key), count, start)
    decreases |run|
  {
    if run != [] {
      var r := run[0];
      var (next, verdict) := Submit(limits, table, r);
      RowStep(limits, table, r, key);
      var failed := verdict == Rejected && Concerns(r, key);
      if r.failedAt < start + Span(limits) && failed {
        TracksStep(limits, RowOf(table, key), count, start, r.at, r.failedAt);
        TracksBound(limits, RowOf(next, key), count + 1, start);
      }
      if failed {
        LaterFailures(limits, next, run[1..], key, r.failedAt, count + 1, start);
        LateCons(limits, r.failedAt, FailureTimes(limits, next, run[1..], key), count, start);
      } else {
        LaterFailures(limits, next, run[1..], key, r.failedAt, count, start);
      }
    }
  }

  lemma {:induction false} SegmentBound(limits: Limits, table: Table, run: seq<Request>, key: Key, clock: int)
    requires Monotone(clock, run) && NoSuccess(limits, table, run, key)
    requires Plausible(limits, RowOf(table, key), clock)
    ensures var times := FailureTimes(limits, table, run, key);
            |times| >= Quota(limits) ==> times[Quota(limits) - 1] - times[0] >= Span(limits)
    decreases |run|
  {
    if run != [] {
      var r := run[0];
      var (next, verdict) := Submit(limits, table, r);
      RowStep(limits, table, r, key);
      PlausibleStep(limits, table, r, key, clock);
      if verdict == Rejected && Concerns(r, key) {
        FirstTracked(limits, RowOf(table, key), r.at, r.failedAt);
        LaterFailures(limits, next, run[1..], key, r.failedAt, 1, r.failedAt);
        LateCons(limits, r.failedAt, FailureTimes(limits, next, run[1..], key), 0, r.failedAt);
      } else {
        SegmentBound(limits, next, run[1..], key, r.failedAt);
      }
    }
  }

  lemma {:induction false} PlausibleAfter(limits: Limits, table: Table, run: seq<Request>, key: Key, clock: int)
    requires Monotone(clock, run) && Plausible(limits, RowOf(table, key), clock)
    ensures Plausible(limits, RowOf(TableAfter(limits, table, run), key), EndOf(clock, run))
    decreases |run|
  {
    if run != [] {
      PlausibleStep(limits, table, run[0], key, clock);
      PlausibleAfter(limits, Submit(limits, table, run[0]).0, run[1..], key, run[0].failedAt);
    }
  }

  function EndOf(clock: int, run: seq<Request>): int
    decreases |run|
  {
    if run == [] then clock else EndOf(run[0].failedAt, run[1..])
  }

  /**
   The sliding window: after any history from an empty table, in any further stretch of requests without a
   successful login of `key`, any max(2, 2M-1) consecutive evaluated failures of `key` span at least
   min(window - 1, lock - 2) seconds.
   */
  lemma SlidingWindow(limits: Limits, history: seq<Request>, run: seq<Request>, key: Key, clock: int)
    requires Monotone(clock, history) && Monotone(EndOf(clock, history), run)
    requires NoSuccess(limits, TableAfter(limits, map[], history), run, key)
    ensures var times := FailureTimes(limits, TableAfter(limits, map[], history), run, key);
            |times| >= Quota(limits) ==> times[Quota(limits) - 1] - times[0] >= Span(limits)
  {
    PlausibleAfter(limits, map[], history, key, clock);
    SegmentBound(limits, TableAfter(limits, map[], history), run, key, EndOf(clock, history));
  }

  // ----- the bound is tight

  /** `n` failures of one address at one time, with no e-mail. */
  function Burst(ip: string, n: nat, now: int): (run: seq<Request>)
    ensures |run| == n
  {
    if n == 0 then [] else [Request(ip, "", now, now, false)] + Burst(ip, n - 1, now)
  }

  /** A burst that fits the window and does not overfill the counter is evaluated in full. */
  lemma {:induction false} BurstFails(limits: Limits, table: Table, ip: string, n: nat, now: int, clock: int)
    requires clock <= now
    requires var row := RowOf(table, Ip(ip));
             n > 0 ==> row.lockedUntil.None? && row.first.Some?
                       && now - row.first.value * SECOND <= limits.window * SECOND
                       && row.failed + n <= limits.maxAttempts
    ensures Monotone(clock, Burst(ip, n, now)) && EndOf(clock, Burst(ip, n, now)) == (if n == 0 then clock else now)
    ensures NoSuccess(limits, table, Burst(ip, n, now), Ip(ip))
    ensures FailureTimes(limits, table, Burst(ip, n, now), Ip(ip)) == seq(n, i => now)
    ensures var row := RowOf(table, Ip(ip));
            var after := RowOf(TableAfter(limits, table, Burst(ip, n, now)), Ip(ip));
            && after.first == row.first && after.failed == row.failed + n
            && (row.lockedUntil.None? && after.failed < limits.maxAttempts ==> after.lockedUntil.None?)
    decreases n
  {
    var burst := Burst(ip, n, now);
    if n > 0 {
      assert burst[1..] == Burst(ip, n - 1, now);
      BurstFails(limits, Submit(limits, table, burst[0]).0, ip, n - 1, now, now);
    }
  }

  lemma {:induction false} JoinTables(limits: Limits, table: Table, first: seq<Request>, second: seq<Request>,
                                      clock: int)
    ensures TableAfter(limits, table, first + second) == TableAfter(limits, TableAfter(limits, table, first), second)
    ensures Monotone(clock, first + second) == (Monotone(clock, first) && Monotone(EndOf(clock, first), second))
    decreases |first|
  {
    if first == [] {
      assert first + second == second;
    } else {
      assert (first + second)[1..] == first[1..] + second;
      JoinTables(limits, Submit(limits, table, first[0]).0, first[1..], second, first[0].failedAt);
    }
  }

  lemma {:induction false} JoinFailures(limits: Limits, table: Table, first: seq<Request>, second: seq<Request>,
                                        key: Key)
    ensures FailureTimes(limits, table, first + second, key)
            == FailureTimes(limits, table, first, key)
               + FailureTimes(limits, TableAfter(limits, table, first), second, key)
    ensures NoSuccess(limits, table, first + second, key)
            == (NoSuccess(limits, table, first, key)
                && NoSuccess(limits, TableAfter(limits, table, first), second, key))
    decreases |first|
  {
    if first == [] {
      assert first + second == second;
    } else {
      assert (first + second)[1..] == first[1..] + second;
      JoinFailures(limits, Submit(limits, table, first[0]).0, first[1..], second, key);
    }
  }

  lemma JoinRuns(limits: Limits, table: Table, first: seq<Request>, second: seq<Request>, key: Key, clock: int)
    ensures TableAfter(limits, table, first + second) == TableAfter(limits, TableAfter(limits, table, first), second)
    ensures FailureTimes(limits, table, first + second, key)
            == FailureTimes(limits, table, first, key)
               + FailureTimes(limits, TableAfter(limits, table, first), second, key)
    ensures NoSuccess(limits, table, first + second, key)
            == (NoSuccess(limits, table, first, key)
                && NoSuccess(limits, TableAfter(limits, table, first), second, key))
    ensures Monotone(clock, first + second) == (Monotone(clock, first) && Monotone(EndOf(clock, first), second))
  {
    JoinTables(limits, table, first, second, clock);
    JoinFailures(limits, table, first, second, key);
  }

  /**
   For M >= 2 the quota cannot be lowered: 2M-2 consecutive failures of one key can be evaluated within a
   microsecond.
   */
  lemma QuotaIsTight(limits: Limits, ip: string) returns (history: seq<Request>, run: seq<Request>)
    requires limits.maxAttempts >= 2
    ensures Monotone(0, history) && Monotone(EndOf(0, history), run)
    ensures NoSuccess(limits, TableAfter(limits, map[], history), run, Ip(ip))
    ensures var times := FailureTimes(limits, TableAfter(limits, map[], history), run, Ip(ip));
            |times| == Quota(limits) - 1 && times[|times| - 1] - times[0] <= 1
  {
    var m, w := limits.maxAttempts, limits.window * SECOND;
    var first := Request(ip, "", 0, 0, false);
    history := [first];
    OneRequest(limits, map[], first, Ip(ip), 0);
    RowStep(limits, map[], first, Ip(ip));
    var t0 := Submit(limits, map[], first).0;
    var late := Burst(ip, m - 2, w);
    BurstFails(limits, t0, ip, m - 2, w, 0);
    var t1 := TableAfter(limits, t0, late);
    var rest := RestartedWindow(limits, t1, ip, w + 1, EndOf(0, late));
    JoinRuns(limits, t0, late, rest, Ip(ip), 0);
    run := late + rest;
  }

  /** A row one failure short of the lock, its window just over: a new window takes as many failures as the limit. */
  lemma RestartedWindow(limits: Limits, table: Table, ip: string, now: int, clock: int) returns (run: seq<Request>)
    requires limits.maxAttempts >= 2 && clock <= now
    requires var row := RowOf(table, Ip(ip));
             row.lockedUntil.None? && row.first.Some? && now - row.first.value * SECOND > limits.window * SECOND
    ensures Monotone(clock, run) && NoSuccess(limits, table, run, Ip(ip))
    ensures FailureTimes(limits, table, run, Ip(ip)) == seq(limits.maxAttempts, i => now)
  {
    var restart, fill := Request(ip, "", now, now, false), Burst(ip, limits.maxAttempts - 1, now);
    OneRequest(limits, table, restart, Ip(ip), clock);
    RowStep(limits, table, restart, Ip(ip));
    var t2 := Submit(limits, table, restart).0;
    StoredIs(now);
    BurstFails(limits, t2, ip, limits.maxAttempts - 1, now, now);
    JoinRuns(limits, table, [restart], fill, Ip(ip), clock);
    run := [restart] + fill;
    assert seq(limits.maxAttempts, i => now) == [now] + seq(limits.maxAttempts - 1, i => now);
  }

  lemma OneRequest(limits: Limits, table: Table, r: Request, key: Key, clock: int)
    ensures TableAfter(limits, table, [r]) == Submit(limits, table, r).0
    ensures FailureTimes(limits, table, [r], key)
            == if Submit(limits, table, r).1 == Rejected && Concerns(r, key) then [r.failedAt] else []
    ensures Submit(limits, table, r).1 != Accepted ==> NoSuccess(limits, table, [r], key)
    ensures EndOf(clock, [r]) == r.failedAt
    ensures clock <= r.at <= r.failedAt ==> Monotone(clock, [r])
  {
    assert [r][1..] == [];
  }

  // ----- the lock itself

  /**
   A failure that starts a lock blocks every request of that key, whatever its credentials, until exactly one second
   before the stored end of the lock.
   */
  lemma LockBlocks(limits: Limits, table: Table, failure: Request, key: Key, r: Request, clock: int)
    requires Plausible(limits, RowOf(table, key), clock) && clock <= failure.at <= failure.failedAt <= r.at
    requires Concerns(failure, key) && Concerns(r, key) && Submit(limits, table, failure).1 == Rejected
    requires var after := Submit(limits, table, failure).0;
             RowOf(after, key).failed >= limits.maxAttempts
    ensures var after := Submit(limits, table, failure).0;
            r.at <= (Stored(failure.failedAt) + limits.lock - 1) * SECOND <==> Locked(after, key, r.at)
    ensures r.at <= (Stored(failure.failedAt) + limits.lock - 1) * SECOND ==>
              Submit(limits, Submit(limits, table, failure).0, r).1.Blocked?
  {
    RowStep(limits, table, failure, key);
    StoredLater(failure.failedAt, failure.failedAt, limits.lock);
  }

  /** A blocked request changes no row's content except by wiping locks that have expired. */
  lemma BlockedChangesNothing(limits: Limits, table: Table, r: Request, key: Key)
    requires Submit(limits, table, r).1.Blocked?
    ensures var row, after := RowOf(table, key), RowOf(Submit(limits, table, r).0, key);
            after == row || (after == EMPTY && row.lockedUntil.Some? && Remaining(row, r.at) == 0)
  {
    RowStep(limits, table, r, key);
  }

  /** A lock can end almost two seconds early: with one attempt allowed, two failures less than that apart. */
  lemma LockEndsEarly(limits: Limits, ip: string) returns (run: seq<Request>)
    requires limits.maxAttempts == 1
    ensures Monotone(0, run) && NoSuccess(limits, map[], run, Ip(ip))
    ensures FailureTimes(limits, map[], run, Ip(ip)) == [SECOND - 1, (limits.lock - 1) * SECOND + 1]
  {
    var second := (limits.lock - 1) * SECOND + 1;
    var a, b := Request(ip, "", SECOND - 1, SECOND - 1, false), Request(ip, "", second, second, false);
    run := [a, b];
    StoredLater(SECOND - 1, SECOND - 1, limits.lock);
    RowStep(limits, map[], a, Ip(ip));
    var next := Submit(limits, map[], a).0;
    assert RowOf(next, Ip(ip)).lockedUntil == Some(limits.lock);
    RowStep(limits, next, b, Ip(ip));
    OneRequest(limits, map[], a, Ip(ip), 0);
    OneRequest(limits, next, b, Ip(ip), SECOND - 1);
    JoinRuns(limits, map[], [a], [b], Ip(ip), 0);
    assert [a] + [b] == run;
  }
}
