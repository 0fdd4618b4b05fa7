/** Calls of app/core/aggregate_cache.py by many threads: the lookup and the store are atomic, the load is not. */
module AggregateRuns {
  import opened Options
  import opened Collections
  import opened AggregateCache

  type Thread = nat

  /** A call that missed: before and after its loader returned. */
  datatype Phase =
    | Loading(key: string, ttl: int, start: real)
    | Loaded(key: string, ttl: int, start: real, value: Value)

  datatype State = State(cache: Cache, calls: map<Thread, Phase>)

  datatype Step =
    | Look(thread: Thread, key: string, ttl: int, now: real)
    | Load(thread: Thread, value: Value)
    | Raise(thread: Thread)
    | Put(thread: Thread, victim: Option<string>)
    | Clear

  predicate Legal(s: State, step: Step) {
    match step
    case Look(t, _, _, _) => t !in s.calls
    case Load(t, _) => t in s.calls && s.calls[t].Loading?
    case Raise(t) => t in s.calls && s.calls[t].Loading?
    case Put(t, victim) => t in s.calls && s.calls[t].Loaded? && IsVictim(s.cache, s.calls[t].start, victim)
    case Clear => true
  }

  function Apply(s: State, step: Step): State
    requires Legal(s, step)
  {
    match step
    case Look(t, key, ttl, now) =>
      if Hits(s.cache, key, now) then s else State(s.cache, s.calls[t := Loading(key, ttl, now)])
    case Load(t, value) =>
      var c := s.calls[t];
      State(s.cache, s.calls[t := Loaded(c.key, c.ttl, c.start, value)])
    case Raise(t) => State(s.cache, s.calls - {t})
    case Put(t, victim) =>
      var c := s.calls[t];
      State(Stored(s.cache, c.key, c.ttl, c.start, c.value, victim), s.calls - {t})
    case Clear => State(map[], s.calls)
  }

  /** The state after a run of legal steps, if it is one. */
  function After(run: seq<Step>): Option<State> {
    if run == [] then Some(State(map[], map[])) else
      var before, step := After(run[..|run| - 1]), run[|run| - 1];
      if before.Some? && Legal(before.value, step) then Some(Apply(before.value, step)) else None
  }

  /** The time of the latest lookup. */
  function Clock(run: seq<Step>): real {
    if run == [] then 0.0 else
      var step := run[|run| - 1];
      if step.Look? then step.now else Clock(run[..|run| - 1])
  }

  predicate Monotone(run: seq<Step>) {
    run == [] ||
    var before, step := run[..|run| - 1], run[|run| - 1];
    Monotone(before) && (step.Look? ==> Clock(before) <= step.now)
  }

  /** A run of the cache on a monotone clock. */
  predicate Run(run: seq<Step>) {
    After(run).Some? && Monotone(run)
  }

  lemma RunBefore(run: seq<Step>)
    requires Run(run) && run != []
    ensures Run(run[..|run| - 1]) && Legal(After(run[..|run| - 1]).value, run[|run| - 1])
    ensures After(run).value == Apply(After(run[..|run| - 1]).value, run[|run| - 1])
  {
  }

  // ----- size

  lemma RoomIsSmall(cache: Cache, now: real, victim: Option<string>)
    requires IsVictim(cache, now, victim) && |cache| <= MAX_ENTRIES
    ensures |Room(cache, now, victim)| < MAX_ENTRIES
  {
    var trimmed := Trimmed(cache, now);
    assert |trimmed| == |trimmed.Keys| && |cache| == |cache.Keys|;
    SubsetSize(trimmed.Keys, cache.Keys);
    if victim.Some? {
      assert Room(cache, now, victim).Keys == trimmed.Keys - {victim.value};
      assert |Room(cache, now, victim)| == |trimmed.Keys - {victim.value}|;
    }
  }

  lemma StoredFits(cache: Cache, key: string, ttl: int, start: real, value: Value, victim: Option<string>)
    requires IsVictim(cache, start, victim) && |cache| <= MAX_ENTRIES
    ensures |Stored(cache, key, ttl, start, value, victim)| <= MAX_ENTRIES
  {
    var room := Room(cache, start, victim);
    var after := Stored(cache, key, ttl, start, value, victim);
    RoomIsSmall(cache, start, victim);
    assert after.Keys == room.Keys + {key};
    assert |after| == |after.Keys| && |room| == |room.Keys|;
  }

  /**
   A store drops an entry of a full cache only, and a live one only if every entry it keeps is alive and at least as
   new.
   */
  lemma OnlyOldestAreEvicted(cache: Cache, now: real, victim: Option<string>, key: string)
    requires IsVictim(cache, now, victim) && key in cache && key !in Room(cache, now, victim)
    ensures |cache| >= 64
    ensures cache[key].expiresAt <= now
            || forall k :: k in Room(cache, now, victim) ==>
                 k in cache && cache[k].expiresAt > now && cache[key].createdAt <= cache[k].createdAt
  {
    var trimmed := Trimmed(cache, now);
    if key in trimmed {
      assert |trimmed| == |trimmed.Keys| && |cache| == |cache.Keys|;
      SubsetSize(trimmed.Keys, cache.Keys);
    }
  }

  /** The cache never holds more than 64 entries, however calls interleave. */
  lemma {:induction false} SizeIsBounded(run: seq<Step>)
    requires Run(run)
    ensures |After(run).value.cache| <= 64
    decreases |run|
  {
    if run != [] {
      RunBefore(run);
      SizeIsBounded(run[..|run| - 1]);
      var s, step := After(run[..|run| - 1]).value, run[|run| - 1];
      if step.Put? {
        var c := s.calls[step.thread];
        StoredFits(s.cache, c.key, c.ttl, c.start, c.value, step.victim);
      }
    }
  }

  // ----- where values come from

  predicate By(step: Step, t: Thread) {
    !step.Clear? && step.thread == t
  }

  /** The latest step of the thread is this lookup. */
  ghost predicate Looked(run: seq<Step>, t: Thread, key: string, ttl: int, start: real) {
    run != [] &&
    var step := run[|run| - 1];
    if By(step, t) then step == Look(t, key, ttl, start) else Looked(run[..|run| - 1], t, key, ttl, start)
  }

  /** The latest steps of the thread are this lookup and the return of the loader with this value. */
  ghost predicate Returned(run: seq<Step>, t: Thread, key: string, ttl: int, start: real, value: Value) {
    run != [] &&
    var before, step := run[..|run| - 1], run[|run| - 1];
    if By(step, t) then step == Load(t, value) && Looked(before, t, key, ttl, start)
    else Returned(before, t, key, ttl, start, value)
  }

  /** A call that began at `start` for this key stored the value its own loader returned. */
  ghost predicate Produced(run: seq<Step>, key: string, ttl: int, start: real, value: Value) {
    run != [] &&
    var before, step := run[..|run| - 1], run[|run| - 1];
    || (step.Put? && Returned(before, step.thread, key, ttl, start, value))
    || Produced(before, key, ttl, start, value)
  }

  lemma {:induction false} CallsAreTracked(run: seq<Step>, t: Thread)
    requires Run(run) && t in After(run).value.calls
    ensures var c := After(run).value.calls[t];
            match c
            case Loading(key, ttl, start) => Looked(run, t, key, ttl, start)
            case Loaded(key, ttl, start, value) => Returned(run, t, key, ttl, start, value)
    decreases |run|
  {
    RunBefore(run);
    var before, step := run[..|run| - 1], run[|run| - 1];
    if t in After(before).value.calls {
      CallsAreTracked(before, t);
    }
  }

  ghost predicate FromCall(run: seq<Step>, key: string, e: Entry) {
    exists ttl :: Produced(run, key, ttl, e.createdAt, e.value) && e.expiresAt == e.createdAt + Lifetime(ttl)
  }

  /** Every entry is the outcome of one call for its key, and lives from the beginning of that call. */
  lemma {:induction false} EntriesAreProduced(run: seq<Step>, key: string)
    requires Run(run) && key in After(run).value.cache
    ensures FromCall(run, key, After(run).value.cache[key])
    decreases |run|
  {
    RunBefore(run);
    var before, step := run[..|run| - 1], run[|run| - 1];
    var s, e := After(before).value, After(run).value.cache[key];
    if step.Put? && s.calls[step.thread].key == key {
      CallsAreTracked(before, step.thread);
      assert Produced(run, key, s.calls[step.thread].ttl, e.createdAt, e.value);
    } else {
      assert key in s.cache && s.cache[key] == e;
      EntriesAreProduced(before, key);
      var ttl :| Produced(before, key, ttl, e.createdAt, e.value) && e.expiresAt == e.createdAt + Lifetime(ttl);
      assert Produced(run, key, ttl, e.createdAt, e.value);
    }
  }

  lemma {:induction false} LookedInThePast(run: seq<Step>, t: Thread, key: string, ttl: int, start: real)
    requires Monotone(run) && Looked(run, t, key, ttl, start)
    ensures start <= Clock(run)
    decreases |run|
  {
    if !By(run[|run| - 1], t) {
      LookedInThePast(run[..|run| - 1], t, key, ttl, start);
    }
  }

  lemma {:induction false} ReturnedInThePast(run: seq<Step>, t: Thread, key: string, ttl: int, start: real,
                                             value: Value)
    requires Monotone(run) && Returned(run, t, key, ttl, start, value)
    ensures start <= Clock(run)
    decreases |run|
  {
    if By(run[|run| - 1], t) {
      LookedInThePast(run[..|run| - 1], t, key, ttl, start);
    } else {
      ReturnedInThePast(run[..|run| - 1], t, key, ttl, start, value);
    }
  }

  lemma {:induction false} ProducedInThePast(run: seq<Step>, key: string, ttl: int, start: real, value: Value)
    requires Monotone(run) && Produced(run, key, ttl, start, value)
    ensures start <= Clock(run)
    decreases |run|
  {
    var before, step := run[..|run| - 1], run[|run| - 1];
    if step.Put? && Returned(before, step.thread, key, ttl, start, value) {
      ReturnedInThePast(before, step.thread, key, ttl, start, value);
    } else {
      ProducedInThePast(before, key, ttl, start, value);
    }
  }

  /** Less than `ttl` seconds after the start, or less than one. */
  predicate Alive(start: real, ttl: int, now: real) {
    now < start + 1.0 || now < start + ttl as real
  }

  /**
   A hit returns what the loader of some call for the same key returned, and that call began less than its own
   lifetime ago.
   */
  lemma HitIsRecent(run: seq<Step>, look: Step)
    requires Run(run + [look]) && look.Look? && Hits(After(run).value.cache, look.key, look.now)
    ensures var e := After(run).value.cache[look.key];
            exists ttl :: Produced(run, look.key, ttl, e.createdAt, e.value)
                          && e.createdAt <= look.now && Alive(e.createdAt, ttl, look.now)
  {
    assert (run + [look])[..|run|] == run;
    var e := After(run).value.cache[look.key];
    EntriesAreProduced(run, look.key);
    var ttl :| Produced(run, look.key, ttl, e.createdAt, e.value) && e.expiresAt == e.createdAt + Lifetime(ttl);
    ProducedInThePast(run, look.key, ttl, e.createdAt, e.value);
  }

  // ----- the cache against one without a size limit

  /** What the latest store under every key since the latest clear left behind. */
  function Unlimited(run: seq<Step>): Cache
    requires Run(run)
    decreases |run|
  {
    if run == [] then map[] else
      RunBefore(run);
      var s, step := After(run[..|run| - 1]).value, run[|run| - 1];
      var cache := Unlimited(run[..|run| - 1]);
      match step
      case Put(t, _) =>
        var c := s.calls[t];
        cache[c.key := Entry(c.value, c.start, c.start + Lifetime(c.ttl))]
      case Clear => map[]
      case _ => cache
  }

  /** The limited cache never answers otherwise than the unlimited one: it only forgets. */
  lemma {:induction false} LimitOnlyForgets(run: seq<Step>, key: string)
    requires Run(run) && key in After(run).value.cache
    ensures key in Unlimited(run) && After(run).value.cache[key] == Unlimited(run)[key]
    decreases |run|
  {
    RunBefore(run);
    var before, step := run[..|run| - 1], run[|run| - 1];
    if !(step.Put? && After(before).value.calls[step.thread].key == key) {
      LimitOnlyForgets(before, key);
    }
  }

  /** The keys of all lookups. */
  function KeysLooked(run: seq<Step>): set<string> {
    if run == [] then {} else
      var step := run[|run| - 1];
      KeysLooked(run[..|run| - 1]) + if step.Look? then {step.key} else {}
  }

  ghost predicate KeysWithin(s: State, keys: set<string>) {
    s.cache.Keys <= keys && forall t :: t in s.calls ==> s.calls[t].key in keys
  }

  lemma StepKeysWithin(s: State, step: Step, keys: set<string>)
    requires Legal(s, step) && KeysWithin(s, keys) && (step.Look? ==> step.key in keys)
    ensures KeysWithin(Apply(s, step), keys)
  {
  }

  lemma {:induction false} KeysAreLooked(run: seq<Step>)
    requires Run(run)
    ensures KeysWithin(After(run).value, KeysLooked(run))
    decreases |run|
  {
    if run != [] {
      RunBefore(run);
      var before, step := run[..|run| - 1], run[|run| - 1];
      KeysAreLooked(before);
      StepKeysWithin(After(before).value, step, KeysLooked(run));
    }
  }

  /** With fewer keys than the limit nothing is forgotten: the cache is the unlimited one. */
  lemma {:induction false} FewKeysAreAllKept(run: seq<Step>)
    requires Run(run) && |KeysLooked(run)| < 64
    ensures After(run).value.cache == Unlimited(run)
    decreases |run|
  {
    if run != [] {
      RunBefore(run);
      var before := run[..|run| - 1];
      SubsetSize(KeysLooked(before), KeysLooked(run));
      FewKeysAreAllKept(before);
      KeysAreLooked(before);
      var cache := After(before).value.cache;
      assert |cache| == |cache.Keys|;
      SubsetSize(cache.Keys, KeysLooked(before));
    }
  }

  // ----- continuing a run

  lemma Extended(run: seq<Step>, step: Step)
    requires Run(run) && Legal(After(run).value, step) && (step.Look? ==> Clock(run) <= step.now)
    ensures Run(run + [step]) && After(run + [step]).value == Apply(After(run).value, step)
  {
    assert (run + [step])[..|run|] == run;
  }

  lemma {:induction false} PrefixRuns(run: seq<Step>, rest: seq<Step>)
    requires Run(run + rest)
    ensures Run(run)
    decreases |rest|
  {
    if rest == [] {
      assert run + rest == run;
    } else {
      RunBefore(run + rest);
      assert (run + rest)[..|run + rest| - 1] == run + rest[..|rest| - 1];
      PrefixRuns(run, rest[..|rest| - 1]);
    }
  }

  lemma NextStep(run: seq<Step>, rest: seq<Step>)
    requires Run(run + rest) && rest != []
    ensures var before, step := run + rest[..|rest| - 1], rest[|rest| - 1];
            && Run(before) && Legal(After(before).value, step)
            && After(run + rest).value == Apply(After(before).value, step)
            && (step.Look? ==> Clock(before) <= step.now)
  {
    assert (run + rest)[..|run + rest| - 1] == run + rest[..|rest| - 1];
    RunBefore(run + rest);
  }

  /** A call in flight can end: its loader returns, if it has not yet, and it stores. */
  function Ending(s: State, t: Thread, value: Value, victim: Option<string>): seq<Step>
    requires t in s.calls
  {
    if s.calls[t].Loading? then [Load(t, value), Put(t, victim)] else [Put(t, victim)]
  }

  lemma EndingRuns(run: seq<Step>, t: Thread, value: Value, victim: Option<string>)
    requires Run(run) && t in After(run).value.calls
    requires IsVictim(After(run).value.cache, After(run).value.calls[t].start, victim)
    ensures var s, rest := After(run).value, Ending(After(run).value, t, value, victim);
            && Run(run + rest)
            && s.calls[t].key in After(run + rest).value.cache
            && After(run + rest).value.cache[s.calls[t].key].createdAt == s.calls[t].start
  {
    var s := After(run).value;
    if s.calls[t].Loading? {
      Extended(run, Load(t, value));
      Extended(run + [Load(t, value)], Put(t, victim));
      assert run + [Load(t, value)] + [Put(t, victim)] == run + [Load(t, value), Put(t, victim)];
    } else {
      Extended(run, Put(t, victim));
    }
  }

  lemma VictimExists(cache: Cache, now: real) returns (victim: Option<string>)
    ensures IsVictim(cache, now, victim)
  {
    var trimmed := Trimmed(cache, now);
    if |trimmed| >= MAX_ENTRIES {
      assert |trimmed| == |trimmed.Keys|;
      var older := (a, b) => a in trimmed && b in trimmed && trimmed[a].createdAt <= trimmed[b].createdAt;
      var oldest := LeastOf(trimmed.Keys, older);
      victim := Some(oldest);
    } else {
      victim := None;
    }
  }

  // ----- when clearing takes full effect

  /** Every entry was stored by a call whose lookup and load are steps of `rest`. */
  ghost predicate AllProducedIn(rest: seq<Step>, cache: Cache) {
    forall key :: key in cache ==> FromCall(rest, key, cache[key])
  }

  /** However the run goes on, no entry comes from a call that began before now. */
  ghost predicate OnlyLaterCallsCount(run: seq<Step>) {
    forall rest :: Run(run + rest) ==> AllProducedIn(rest, After(run + rest).value.cache)
  }

  /** What a call in flight has done is among the steps of `rest`. */
  ghost predicate TrackedIn(rest: seq<Step>, t: Thread, c: Phase) {
    match c
    case Loading(key, ttl, start) => Looked(rest, t, key, ttl, start)
    case Loaded(key, ttl, start, value) => Returned(rest, t, key, ttl, start, value)
  }

  lemma {:induction false} LaterCallsAreTracked(run: seq<Step>, rest: seq<Step>, t: Thread)
    requires Run(run) && Run(run + rest) && After(run).value.calls == map[]
    requires t in After(run + rest).value.calls
    ensures TrackedIn(rest, t, After(run + rest).value.calls[t])
    decreases |rest|
  {
    assert rest == [] ==> run + rest == run;
    if rest != [] {
      NextStep(run, rest);
      var before := run + rest[..|rest| - 1];
      if t in After(before).value.calls {
        LaterCallsAreTracked(run, rest[..|rest| - 1], t);
      }
    }
  }

  lemma {:induction false} LaterEntriesAreProduced(run: seq<Step>, rest: seq<Step>, key: string)
    requires Run(run) && Run(run + rest) && After(run).value == State(map[], map[])
    requires key in After(run + rest).value.cache
    ensures FromCall(rest, key, After(run + rest).value.cache[key])
    decreases |rest|
  {
    assert rest == [] ==> run + rest == run;
    if rest != [] {
      NextStep(run, rest);
      var before, step := rest[..|rest| - 1], rest[|rest| - 1];
      var s, e := After(run + before).value, After(run + rest).value.cache[key];
      if step.Put? && s.calls[step.thread].key == key {
        LaterCallsAreTracked(run, before, step.thread);
        assert Produced(rest, key, s.calls[step.thread].ttl, e.createdAt, e.value);
      } else {
        assert key in s.cache && s.cache[key] == e;
        LaterEntriesAreProduced(run, before, key);
        var ttl :| Produced(before, key, ttl, e.createdAt, e.value) && e.expiresAt == e.createdAt + Lifetime(ttl);
        assert Produced(rest, key, ttl, e.createdAt, e.value);
      }
    }
  }

  /** The end of a call alone holds no lookup. */
  lemma EndingHasNoLookup(t: Thread, value: Value, victim: Option<string>, key: string, ttl: int, start: real, v: Value)
    ensures !Produced([Put(t, victim)], key, ttl, start, v)
    ensures !Produced([Load(t, value), Put(t, victim)], key, ttl, start, v)
  {
    var both := [Load(t, value), Put(t, victim)];
    assert both[..1] == [Load(t, value)] && [Load(t, value)][..0] == [] && [Put(t, victim)][..0] == [];
    assert !Looked([], t, key, ttl, start) && !Returned([], t, key, ttl, start, v);
    assert !Produced([], key, ttl, start, v);
    assert !Returned([Load(t, value)], t, key, ttl, start, v);
    assert !Produced([Load(t, value)], key, ttl, start, v);
  }

  lemma CallInFlightCounts(run: seq<Step>, t: Thread)
    requires Run(run) && t in After(run).value.calls
    ensures !OnlyLaterCallsCount(run)
  {
    var c := After(run).value.calls[t];
    var victim := VictimExists(After(run).value.cache, c.start);
    var rest := Ending(After(run).value, t, [], victim);
    EndingRuns(run, t, [], victim);
    var e := After(run + rest).value.cache[c.key];
    forall ttl ensures !Produced(rest, c.key, ttl, e.createdAt, e.value) {
      EndingHasNoLookup(t, [], victim, c.key, ttl, e.createdAt, e.value);
    }
    assert !FromCall(rest, c.key, e);
  }

  /**
   After a clear only later calls count, however the run goes on, if and only if no call is in flight when it happens:
   a call that is stores what it loaded, or is still loading, for an earlier lookup.
   */
  lemma ClearIsCompleteIff(run: seq<Step>)
    requires Run(run)
    ensures Run(run + [Clear])
    ensures OnlyLaterCallsCount(run + [Clear]) <==> After(run).value.calls == map[]
  {
    Extended(run, Clear);
    var cleared := run + [Clear];
    if After(run).value.calls == map[] {
      forall rest | Run(cleared + rest) ensures AllProducedIn(rest, After(cleared + rest).value.cache) {
        forall key | key in After(cleared + rest).value.cache
          ensures FromCall(rest, key, After(cleared + rest).value.cache[key])
        {
          LaterEntriesAreProduced(cleared, rest, key);
        }
      }
    } else {
      HasKey(After(run).value.calls);
      var t :| t in After(run).value.calls;
      CallInFlightCounts(cleared, t);
    }
  }

  /** A call whose loader returned before the cache was cleared stores its value afterwards, for its full lifetime. */
  lemma ClearDoesNotReachCallsInFlight(run: seq<Step>, t: Thread)
    requires Run(run) && t in After(run).value.calls && After(run).value.calls[t].Loaded?
    ensures var c := After(run).value.calls[t];
            var later := run + [Clear] + [Put(t, None)];
            && Run(later)
            && After(later).value.cache.Keys == {c.key}
            && After(later).value.cache[c.key].value == c.value
            && forall now :: Hits(After(later).value.cache, c.key, now) <==> Alive(c.start, c.ttl, now)
  {
    Extended(run, Clear);
    Extended(run + [Clear], Put(t, None));
  }

  // ----- when what is cached goes back in time

  /** No call in flight for the key began before `v`, and no entry of the key is older. */
  ghost predicate NoneOlder(s: State, key: string, v: real) {
    && (forall t :: t in s.calls && s.calls[t].key == key ==> s.calls[t].start >= v)
    && (key in s.cache ==> s.cache[key].createdAt >= v)
  }

  lemma NoneOlderStep(s: State, step: Step, key: string, v: real)
    requires Legal(s, step) && NoneOlder(s, key, v) && (step.Look? ==> step.now >= v)
    ensures NoneOlder(Apply(s, step), key, v)
  {
  }

  lemma {:induction false} NoneOlderStays(run: seq<Step>, rest: seq<Step>, key: string, v: real)
    requires Run(run) && Run(run + rest) && NoneOlder(After(run).value, key, v) && v <= Clock(run)
    ensures NoneOlder(After(run + rest).value, key, v) && v <= Clock(run + rest)
    decreases |rest|
  {
    if rest == [] {
      assert run + rest == run;
    } else {
      NextStep(run, rest);
      NoneOlderStays(run, rest[..|rest| - 1], key, v);
      assert (run + rest)[..|run + rest| - 1] == run + rest[..|rest| - 1];
      NoneOlderStep(After(run + rest[..|rest| - 1]).value, rest[|rest| - 1], key, v);
    }
  }

  lemma EntryIsPast(run: seq<Step>, key: string)
    requires Run(run) && key in After(run).value.cache
    ensures After(run).value.cache[key].createdAt <= Clock(run)
  {
    var e := After(run).value.cache[key];
    EntriesAreProduced(run, key);
    var ttl :| Produced(run, key, ttl, e.createdAt, e.value) && e.expiresAt == e.createdAt + Lifetime(ttl);
    ProducedInThePast(run, key, ttl, e.createdAt, e.value);
  }

  /** However the run goes on, the key's entry is never older than `v`. */
  ghost predicate NeverOlder(run: seq<Step>, key: string, v: real) {
    forall rest :: Run(run + rest) && key in After(run + rest).value.cache ==>
      After(run + rest).value.cache[key].createdAt >= v
  }

  /**
   An entry is never followed by an older one, however the run goes on, if and only if no call in flight for its key
   began before the call that stored it.
   */
  lemma NeverOlderIff(run: seq<Step>, key: string)
    requires Run(run) && key in After(run).value.cache
    ensures var s := After(run).value;
            NeverOlder(run, key, s.cache[key].createdAt)
            <==> forall t :: t in s.calls && s.calls[t].key == key ==> s.calls[t].start >= s.cache[key].createdAt
  {
    var s := After(run).value;
    var v := s.cache[key].createdAt;
    if forall t :: t in s.calls && s.calls[t].key == key ==> s.calls[t].start >= v {
      EntryIsPast(run, key);
      forall rest | Run(run + rest) && key in After(run + rest).value.cache
        ensures After(run + rest).value.cache[key].createdAt >= v
      {
        NoneOlderStays(run, rest, key, v);
      }
    } else {
      var t :| t in s.calls && s.calls[t].key == key && s.calls[t].start < v;
      var victim := VictimExists(s.cache, s.calls[t].start);
      EndingRuns(run, t, [], victim);
    }
  }

  /** At most one call for the key is in flight. */
  ghost predicate Alone(s: State, key: string) {
    forall t, u :: t in s.calls && u in s.calls && s.calls[t].key == key && s.calls[u].key == key ==> t == u
  }

  /** At no time of the run do two calls for the key overlap. */
  ghost predicate NoOverlap(run: seq<Step>, key: string)
    requires Run(run)
  {
    Alone(After(run).value, key) && (run == [] || (RunBefore(run); NoOverlap(run[..|run| - 1], key)))
  }

  lemma {:induction false} SoleCallIsNewest(run: seq<Step>, key: string)
    requires Run(run) && NoOverlap(run, key)
    ensures var s := After(run).value;
            key in s.cache ==>
              forall t :: t in s.calls && s.calls[t].key == key ==> s.calls[t].start >= s.cache[key].createdAt
    decreases |run|
  {
    if run != [] {
      RunBefore(run);
      var before := run[..|run| - 1];
      SoleCallIsNewest(before, key);
      if run[|run| - 1].Look? && key in After(before).value.cache {
        EntryIsPast(before, key);
      }
    }
  }

  /** As long as calls for a key do not overlap, what is cached for it never goes back in time. */
  lemma NoOverlapNoReturn(run: seq<Step>, rest: seq<Step>, key: string)
    requires Run(run) && Run(run + rest) && NoOverlap(run, key)
    requires key in After(run).value.cache && key in After(run + rest).value.cache
    ensures After(run).value.cache[key].createdAt <= After(run + rest).value.cache[key].createdAt
  {
    SoleCallIsNewest(run, key);
    NeverOlderIff(run, key);
  }

  /** Two calls that overlap ... */
  function Started(key: string): seq<Step> {
    [] + [Look(1, key, 60, 1.0)] + [Look(2, key, 60, 20.0)]
  }

  /** ... and have both loaded. */
  function Overlapping(key: string, older: Value, newer: Value): seq<Step> {
    Started(key) + [Load(1, older)] + [Load(2, newer)]
  }

  lemma StartedRuns(key: string)
    ensures Run(Started(key)) && Clock(Started(key)) == 20.0
    ensures After(Started(key)).value == State(map[], map[1 := Loading(key, 60, 1.0), 2 := Loading(key, 60, 20.0)])
  {
    var first := [] + [Look(1, key, 60, 1.0)];
    Extended([], Look(1, key, 60, 1.0));
    assert After([]) == Some(State(map[], map[]));
    Extended(first, Look(2, key, 60, 20.0));
    assert (first + [Look(2, key, 60, 20.0)])[..|first|] == first;
  }

  lemma OverlappingRuns(key: string, older: Value, newer: Value)
    ensures Run(Overlapping(key, older, newer))
    ensures After(Overlapping(key, older, newer)).value
            == State(map[], map[1 := Loaded(key, 60, 1.0, older), 2 := Loaded(key, 60, 20.0, newer)])
  {
    StartedRuns(key);
    Extended(Started(key), Load(1, older));
    Extended(Started(key) + [Load(1, older)], Load(2, newer));
  }

  lemma StoredInSmallCache(cache: Cache, key: string, ttl: int, start: real, value: Value)
    requires cache.Keys <= {key}
    ensures IsVictim(cache, start, None)
    ensures Stored(cache, key, ttl, start, value, None) == map[key := Entry(value, start, start + Lifetime(ttl))]
  {
    SubsetSize(cache.Keys, {key});
    assert |cache| == |cache.Keys|;
  }

  /** The call that began first ends last, and its older value replaces the newer one. */
  lemma SlowCallOverwritesNewerValue(key: string, older: Value, newer: Value)
    ensures var run := Overlapping(key, older, newer) + [Put(2, None)];
            && Run(run) && Run(run + [Put(1, None)])
            && Hits(After(run).value.cache, key, 30.0) && After(run).value.cache[key].value == newer
            && Hits(After(run + [Put(1, None)]).value.cache, key, 30.0)
            && After(run + [Put(1, None)]).value.cache[key].value == older
  {
    var loaded := Overlapping(key, older, newer);
    OverlappingRuns(key, older, newer);
    StoredInSmallCache(map[], key, 60, 20.0, newer);
    Extended(loaded, Put(2, None));
    StoredInSmallCache(After(loaded + [Put(2, None)]).value.cache, key, 60, 1.0, older);
    Extended(loaded + [Put(2, None)], Put(1, None));
  }

  /** A call in flight when the cache is cleared: its value is cached afterwards. */
  lemma ClearMissesCallExample(key: string, stale: Value)
    ensures var run := [Look(1, key, 60, 1.0)] + [Load(1, stale)] + [Clear] + [Put(1, None)];
            Run(run) && Hits(After(run).value.cache, key, 30.0) && After(run).value.cache[key].value == stale
  {
    var looked := [Look(1, key, 60, 1.0)];
    Extended([], Look(1, key, 60, 1.0));
    assert [] + looked == looked;
    Extended(looked, Load(1, stale));
    ClearDoesNotReachCallsInFlight(looked + [Load(1, stale)], 1);
    assert Alive(1.0, 60, 30.0);
  }
}
