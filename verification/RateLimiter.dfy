/** The request spacing of app/core/plex_rate_limit.py: one request per second and Plex server. */
module RateLimiter {
  import opened Text

  const MIN_INTERVAL := 1.0

  function StripSlashes(s: string): string {
    if s != "" && s[|s| - 1] == '/' then StripSlashes(s[..|s| - 1]) else s
  }

  /** _normalize_server_key of a text. */
  function ServerKey(raw: string): string {
    Lower(StripSlashes(Strip(raw)))
  }

  /** _LAST_REQUEST_AT */
  type Slots = map<string, real>

  /** When the next slot is free: one interval after the last request, or after the clock's zero. */
  function DueAt(last: Slots, key: string): real {
    MIN_INTERVAL + if key in last then last[key] else 0.0
  }

  function Remaining(last: Slots, key: string, now: real): real {
    MIN_INTERVAL - (now - if key in last then last[key] else 0.0)
  }

  class PlexRateLimit {
    var lastRequestAt: Slots

    /** One pass under the lock: the slot is taken, or the time to sleep is returned. */
    method TakeSlot(key: string, now: real) returns (remaining: real)
      modifies this
      ensures remaining == Remaining(old(lastRequestAt), key, now)
      ensures lastRequestAt == if remaining <= 0.0 then old(lastRequestAt)[key := now] else old(lastRequestAt)
    {
      var last := if key in lastRequestAt then lastRequestAt[key] else 0.0;
      remaining := MIN_INTERVAL - (now - last);
      if remaining <= 0.0 {
        lastRequestAt := lastRequestAt[key := now];
      }
    }

    /**
     The whole wait when no other thread takes the server's slot meanwhile; every sleep overruns by `late` seconds.
     It ends at once, or the overrun after the last request is one interval old.
     */
    method WaitForPlexSlot(server: string, start: real, late: real) returns (now: real)
      requires late >= 0.0
      modifies this
      ensures ServerKey(server) == "" ==> now == start && lastRequestAt == old(lastRequestAt)
      ensures ServerKey(server) != "" ==>
                var due := DueAt(old(lastRequestAt), ServerKey(server));
                && now == (if start >= due then start else due + late)
                && lastRequestAt == old(lastRequestAt)[ServerKey(server) := now]
    {
      var key := ServerKey(server);
      now := start;
      if key == "" {
        return;
      }
      ghost var due := DueAt(lastRequestAt, key);
      while true
        invariant lastRequestAt == old(lastRequestAt)
        invariant now == start || (start < due && now == due + late)
        decreases now < due
      {
        var remaining := TakeSlot(key, now);
        if remaining <= 0.0 {
          return;
        }
        now := now + remaining + late;
      }
    }
  }

  // ----- any number of threads

  type Thread = nat

  /** A thread asleep between two passes of its loop. */
  datatype Sleeper = Sleeper(key: string, until: real)

  datatype State = State(last: Slots, asleep: map<Thread, Sleeper>)

  /** A pass under the lock: the first one of a call, or one after a sleep. */
  datatype Step = Enter(thread: Thread, server: string, now: real) | Wake(thread: Thread, now: real)

  /** A thread in its sleep does nothing, and no sleep is shorter than asked for. */
  predicate Legal(s: State, step: Step) {
    match step
    case Enter(t, _, _) => t !in s.asleep
    case Wake(t, now) => t in s.asleep && s.asleep[t].until <= now
  }

  function KeyOf(s: State, step: Step): string {
    match step
    case Enter(_, server, _) => ServerKey(server)
    case Wake(t, _) => if t in s.asleep then s.asleep[t].key else ""
  }

  predicate Granted(s: State, step: Step) {
    KeyOf(s, step) != "" && Remaining(s.last, KeyOf(s, step), step.now) <= 0.0
  }

  predicate Refused(s: State, step: Step) {
    KeyOf(s, step) != "" && !Granted(s, step)
  }

  function Apply(s: State, step: Step): State {
    var key := KeyOf(s, step);
    if key == "" then s
    else if Granted(s, step) then State(s.last[key := step.now], s.asleep - {step.thread})
    else State(s.last, s.asleep[step.thread := Sleeper(key, step.now + Remaining(s.last, key, step.now))])
  }

  /**
   After a pass the thread is awake and its time recorded, if the last request of the server is at least a second old;
   else it sleeps until that moment, and nothing is recorded.
   */
  lemma PassIs(s: State, step: Step)
    requires Legal(s, step) && KeyOf(s, step) != ""
    ensures var key, after := KeyOf(s, step), Apply(s, step);
            var due := 1.0 + if key in s.last then s.last[key] else 0.0;
            if step.now >= due
            then step.thread !in after.asleep && after.last == s.last[key := step.now]
            else after.last == s.last && after.asleep == s.asleep[step.thread := Sleeper(key, due)]
  {
  }

  const Initial := State(map[], map[])

  function After(run: seq<Step>): State {
    if run == [] then Initial else Apply(After(run[..|run| - 1]), run[|run| - 1])
  }

  /** A run of the limiter on a monotone clock. */
  predicate Run(run: seq<Step>) {
    run == [] ||
    var n := |run| - 1;
    && Run(run[..n])
    && Legal(After(run[..n]), run[n])
    && (n > 0 ==> run[n - 1].now <= run[n].now)
  }

  /** The times at which slots of one server were granted. */
  function Grants(run: seq<Step>, key: string): seq<real> {
    if run == [] then [] else
      var n := |run| - 1;
      var before := After(run[..n]);
      Grants(run[..n], key) + if Granted(before, run[n]) && KeyOf(before, run[n]) == key then [run[n].now] else []
  }

  predicate Spaced(times: seq<real>) {
    forall i, j :: 0 <= i < j < |times| ==> times[j] - times[i] >= MIN_INTERVAL
  }

  /** The table remembers the latest grant, and that one is in the past. */
  lemma {:induction false} TableHoldsLatestGrant(run: seq<Step>, key: string)
    requires Run(run) && key != ""
    ensures var g := Grants(run, key);
            && (key in After(run).last <==> g != [])
            && (g != [] ==> After(run).last[key] == g[|g| - 1] <= run[|run| - 1].now)
    decreases |run|
  {
    if run != [] {
      TableHoldsLatestGrant(run[..|run| - 1], key);
    }
  }

  /** In every interleaving, two grants for one server are at least a second apart. */
  lemma {:induction false} GrantsAreSpaced(run: seq<Step>, key: string)
    requires Run(run) && key != ""
    ensures Spaced(Grants(run, key))
    decreases |run|
  {
    if run != [] {
      GrantsAreSpaced(run[..|run| - 1], key);
      TableHoldsLatestGrant(run[..|run| - 1], key);
    }
  }

  /** The grants in the closed interval from `a` to `b`. */
  function Within(times: seq<real>, a: real, b: real): seq<real> {
    if times == [] then [] else
      var n := |times| - 1;
      Within(times[..n], a, b) + if a <= times[n] <= b then [times[n]] else []
  }

  lemma {:induction false} WithinIsSpaced(times: seq<real>, a: real, b: real)
    requires Spaced(times)
    ensures Spaced(Within(times, a, b))
    ensures forall x :: x in Within(times, a, b) ==> a <= x <= b && x in times
    decreases |times|
  {
    if times != [] {
      var n := |times| - 1;
      var some := Within(times[..n], a, b);
      WithinIsSpaced(times[..n], a, b);
      forall i | 0 <= i < |some| ensures times[n] - some[i] >= MIN_INTERVAL {
        assert some[i] in some;
        var j :| 0 <= j < n && times[j] == some[i];
      }
    }
  }

  lemma {:induction false} SpacedSpan(times: seq<real>, i: nat)
    requires Spaced(times) && i < |times|
    ensures times[i] - times[0] >= i as real
    decreases i
  {
    if i > 0 {
      SpacedSpan(times, i - 1);
      assert times[i] - times[i - 1] >= MIN_INTERVAL;
    }
  }

  lemma SpacedWindow(times: seq<real>, from: real, seconds: nat)
    requires Spaced(times) && forall x :: x in times ==> from <= x <= from + seconds as real
    ensures |times| <= seconds + 1
  {
    if times != [] {
      SpacedSpan(times, |times| - 1);
      assert times[0] in times && times[|times| - 1] in times;
    }
  }

  /** Any `seconds` long interval sees at most one grant more than it has seconds. */
  lemma WindowBound(run: seq<Step>, key: string, from: real, seconds: nat)
    requires Run(run) && key != ""
    ensures |Within(Grants(run, key), from, from + seconds as real)| <= seconds + 1
  {
    GrantsAreSpaced(run, key);
    WithinIsSpaced(Grants(run, key), from, from + seconds as real);
    SpacedWindow(Within(Grants(run, key), from, from + seconds as real), from, seconds);
  }

  /** One call a second, the first at second one. */
  function Metronome(server: string, n: nat): seq<Step> {
    if n == 0 then [] else Metronome(server, n - 1) + [Enter(0, server, n as real)]
  }

  /** The state after the n-th tick. */
  function Ticked(key: string, n: nat): State {
    State(if n == 0 then map[] else map[key := n as real], map[])
  }

  lemma TickIsGranted(server: string, n: nat)
    requires ServerKey(server) != ""
    ensures var s, tick := Ticked(ServerKey(server), n), Enter(0, server, (n + 1) as real);
            Legal(s, tick) && Granted(s, tick) && Apply(s, tick) == Ticked(ServerKey(server), n + 1)
  {
    assert Remaining(Ticked(ServerKey(server), n).last, ServerKey(server), (n + 1) as real) <= 0.0;
  }

  lemma {:induction false} MetronomeRuns(server: string, n: nat)
    requires ServerKey(server) != ""
    ensures var run := Metronome(server, n);
            && Run(run) && |run| == n && After(run) == Ticked(ServerKey(server), n)
            && (n > 0 ==> run[n - 1].now == n as real)
  {
    if n > 0 {
      MetronomeRuns(server, n - 1);
      TickIsGranted(server, n - 1);
      assert Metronome(server, n)[..n - 1] == Metronome(server, n - 1);
    }
  }

  /** The bound is reached: such calls are all granted, n + 1 of them in n seconds. */
  lemma {:induction false} WindowBoundIsTight(server: string, n: nat, until: real)
    requires ServerKey(server) != "" && until >= n as real
    ensures Run(Metronome(server, n)) && |Within(Grants(Metronome(server, n), ServerKey(server)), 1.0, until)| == n
  {
    MetronomeRuns(server, n);
    if n > 0 {
      WindowBoundIsTight(server, n - 1, until);
      MetronomeRuns(server, n - 1);
      TickIsGranted(server, n - 1);
      var before := Metronome(server, n - 1);
      assert Metronome(server, n)[..n - 1] == before;
      var g := Grants(before, ServerKey(server));
      assert Grants(Metronome(server, n), ServerKey(server)) == g + [n as real];
      assert (g + [n as real])[..|g|] == g;
    }
  }

  lemma FreeIff(last: Slots, key: string, g: seq<real>, now: real)
    requires Spaced(g) && (key in last <==> g != []) && (g != [] ==> last[key] == g[|g| - 1])
    ensures Remaining(last, key, now) <= 0.0
            <==> (forall x :: x in g ==> now - x >= MIN_INTERVAL) && (g == [] ==> now >= MIN_INTERVAL)
  {
    if g != [] {
      assert g[|g| - 1] in g;
      forall x | x in g ensures x <= g[|g| - 1] {
      }
    }
  }

  /**
   A pass is granted exactly if no grant for its server is less than a second old, and, as long as there was none,
   the clock has reached one second.
   */
  lemma GrantedIff(run: seq<Step>, step: Step)
    requires Run(run) && Legal(After(run), step) && KeyOf(After(run), step) != ""
    ensures var g := Grants(run, KeyOf(After(run), step));
            Granted(After(run), step)
            <==> (forall x :: x in g ==> step.now - x >= MIN_INTERVAL) && (g == [] ==> step.now >= MIN_INTERVAL)
  {
    var key := KeyOf(After(run), step);
    TableHoldsLatestGrant(run, key);
    GrantsAreSpaced(run, key);
    FreeIff(After(run).last, key, Grants(run, key), step.now);
  }

  // ----- waiting

  /** The passes of one thread that were refused, from step `i` on. */
  function Refusals(run: seq<Step>, i: nat, t: Thread): nat
    requires i <= |run|
    decreases |run|
  {
    if i == |run| then 0 else
      var n := |run| - 1;
      Refusals(run[..n], i, t) + if run[n].thread == t && Refused(After(run[..n]), run[n]) then 1 else 0
  }

  /** From step `i` on the thread is in one call for the server, and it is still waiting. */
  ghost predicate InCall(run: seq<Step>, i: nat, t: Thread, key: string)
    requires i <= |run|
    decreases |run|
  {
    i == |run| ||
    var n := |run| - 1;
    && InCall(run[..n], i, t, key)
    && (run[n].thread == t ==> (n == i <==> run[n].Enter?) && KeyOf(After(run[..n]), run[n]) == key)
    && (n == i ==> run[n].thread == t)
    && t in After(run).asleep
    && After(run).asleep[t].key == key
  }

  /** The thread sleeps for the server, `refusals` times so far, with `others` grants meanwhile. */
  ghost predicate Waits(s: State, t: Thread, key: string, refusals: int, others: int) {
    && t in s.asleep && s.asleep[t].key == key
    && refusals <= others + 1
    && (refusals == others + 1 ==> s.asleep[t].until == DueAt(s.last, key))
  }

  lemma FirstRefusal(s: State, step: Step, key: string)
    requires Legal(s, step) && KeyOf(s, step) == key && key != ""
    requires step.thread in Apply(s, step).asleep && step.Enter?
    ensures Refused(s, step) && Waits(Apply(s, step), step.thread, key, 1, 0)
  {
  }

  lemma WaitingStep(s: State, step: Step, t: Thread, key: string, refusals: int, others: int)
    requires Legal(s, step) && key != "" && Waits(s, t, key, refusals, others)
    requires t in Apply(s, step).asleep && (step.thread == t ==> step.Wake?)
    ensures Waits(Apply(s, step), t, key,
                  refusals + (if step.thread == t && Refused(s, step) then 1 else 0),
                  others + (if Granted(s, step) && KeyOf(s, step) == key then 1 else 0))
  {
  }

  /**
   A call is refused at most once more than other calls for the same server are granted meanwhile: without
   competitors it sleeps once.
   */
  lemma {:induction false} EveryRefusalIsAnothersGrant(run: seq<Step>, i: nat, t: Thread, key: string)
    requires Run(run) && i < |run| && key != "" && InCall(run, i, t, key)
    ensures var others := |Grants(run, key)| - |Grants(run[..i], key)|;
            Refusals(run, i, t) <= others + 1 && Waits(After(run), t, key, Refusals(run, i, t), others)
    decreases |run|
  {
    var n := |run| - 1;
    var s, step := After(run[..n]), run[n];
    if i == n {
      assert run[..i] == run[..n];
      FirstRefusal(s, step, key);
      assert Refusals(run[..n], i, t) == 0;
    } else {
      assert run[..n][..i] == run[..i];
      EveryRefusalIsAnothersGrant(run[..n], i, t, key);
      WaitingStep(s, step, t, key, Refusals(run[..n], i, t), |Grants(run[..n], key)| - |Grants(run[..i], key)|);
    }
  }

  // ----- server keys

  lemma {:induction false} StripSlashesEnds(s: string)
    ensures var r := StripSlashes(s);
            (r == "" || r[|r| - 1] != '/') && |r| <= |s| && r == s[..|r|]
    decreases |s|
  {
    if s != "" && s[|s| - 1] == '/' {
      StripSlashesEnds(s[..|s| - 1]);
    }
  }

  lemma {:induction false} StripShortens(s: string)
    requires !IsStripped(s)
    ensures |Strip(s)| < |s|
  {
    StripLeftEnds(s);
    StripRightEnds(StripLeft(s));
  }

  lemma LowerKeepsShape(s: string)
    ensures IsStripped(Lower(s)) <==> IsStripped(s)
    ensures Lower(Lower(s)) == Lower(s)
    ensures s != "" && s[|s| - 1] != '/' ==> Lower(s)[|s| - 1] != '/'
  {
  }

  /**
   A key is normalised again when it is handed on as a server; it stays the same, and so does the slot, exactly if no
   blank stands before the trailing slashes.
   */
  lemma KeyIsStableIff(raw: string)
    ensures ServerKey(ServerKey(raw)) == ServerKey(raw) <==> IsStripped(StripSlashes(Strip(raw)))
  {
    var bare := StripSlashes(Strip(raw));
    StripSlashesEnds(Strip(raw));
    LowerKeepsShape(bare);
    BareKeyIsStableIff(Lower(bare), bare);
  }

  lemma BareKeyIsStableIff(key: string, bare: string)
    requires key == Lower(bare) == Lower(key) && (key == "" || key[|key| - 1] != '/')
    ensures ServerKey(key) == key <==> IsStripped(key)
  {
    if IsStripped(key) {
      StrippedIsFixed(key);
    } else {
      StripShortens(key);
      StripSlashesEnds(Strip(key));
    }
  }
}
