/**
 How long the household merge of app/core/stream_household_dedupe.py goes on counting a session that is no longer
 presented.
 */
module HouseholdMemory {
  import opened SessionIdentity
  import opened HouseholdDedupe

  // ----- the stream of sessions that a call goes through

  function SessionList(entries: seq<Cached>): seq<Session> {
    seq(|entries|, i requires 0 <= i < |entries| => entries[i].session)
  }

  /** Every input session, each followed by the remembered ones of its user. */
  function Stream(cache: Cache, sessions: seq<Session>): seq<Session> {
    if sessions == [] then [] else
      var s := sessions[|sessions| - 1];
      Stream(cache, sessions[..|sessions| - 1]) + [s] + SessionList(EntriesOf(cache, s.user))
  }

  function KeysIn(stream: seq<Session>): set<string> {
    set s | s in stream && s.sessionKey != "" :: s.sessionKey
  }

  /** The sessions that come first under their key. */
  function Firsts(stream: seq<Session>): seq<Session> {
    if stream == [] then [] else
      var s, before := stream[|stream| - 1], stream[..|stream| - 1];
      Firsts(before) + if s.sessionKey == "" || s.sessionKey in KeysIn(before) then [] else [s]
  }

  function FirstsOf(stream: seq<Session>): Considered {
    Considered(Firsts(stream), KeysIn(stream))
  }

  lemma FirstsStep(stream: seq<Session>, s: Session)
    ensures FirstsOf(stream + [s])
            == if s.sessionKey == "" || s.sessionKey in KeysIn(stream) then FirstsOf(stream)
               else Considered(Firsts(stream) + [s], KeysIn(stream) + {s.sessionKey})
  {
    assert (stream + [s])[..|stream|] == stream;
  }

  lemma CachedIsFirst(stream: seq<Session>, s: Session)
    requires s.sessionKey != ""
    ensures AddCached(FirstsOf(stream), s) == FirstsOf(stream + [s])
  {
    FirstsStep(stream, s);
  }

  lemma ListStep(stream: seq<Session>, entries: seq<Cached>)
    requires entries != []
    ensures var n := |entries| - 1;
            stream + SessionList(entries) == stream + SessionList(entries[..n]) + [entries[n].session]
  {
  }

  lemma {:induction false} CachedAreFirsts(stream: seq<Session>, entries: seq<Cached>)
    requires Keyed(entries)
    ensures AddAllCached(FirstsOf(stream), entries) == FirstsOf(stream + SessionList(entries))
    decreases |entries|
  {
    if entries == [] {
      assert stream + SessionList(entries) == stream;
    } else {
      var n := |entries| - 1;
      CachedAreFirsts(stream, entries[..n]);
      ListStep(stream, entries);
      CachedIsFirst(stream + SessionList(entries[..n]), entries[n].session);
    }
  }

  /** What a call considers are the first sessions under their keys in the stream. */
  lemma {:induction false} EnrichIsFirsts(cache: Cache, sessions: seq<Session>)
    requires Sound(cache)
    ensures Enrich(cache, sessions) == FirstsOf(Stream(cache, sessions))
    decreases |sessions|
  {
    if sessions != [] {
      var s, before := sessions[|sessions| - 1], Stream(cache, sessions[..|sessions| - 1]);
      EnrichIsFirsts(cache, sessions[..|sessions| - 1]);
      FirstsStep(before, s);
      CachedAreFirsts(before + [s], EntriesOf(cache, s.user));
    }
  }

  /** The place of the session in the stream, or the length of the stream. */
  function IndexOf(stream: seq<Session>, x: Session): nat {
    if stream == [] || stream[0] == x then 0 else 1 + IndexOf(stream[1..], x)
  }

  lemma {:induction false} IndexOfIs(stream: seq<Session>, x: Session)
    ensures IndexOf(stream, x) <= |stream|
    ensures x in stream <==> IndexOf(stream, x) < |stream|
    ensures x in stream ==> stream[IndexOf(stream, x)] == x
    ensures forall j :: 0 <= j < IndexOf(stream, x) ==> stream[j] != x
    decreases |stream|
  {
    if stream != [] && stream[0] != x {
      IndexOfIs(stream[1..], x);
      forall j | 0 <= j < IndexOf(stream, x) ensures stream[j] != x {
        assert j > 0 ==> stream[j] == stream[1..][j - 1];
      }
    }
  }

  /** Something before the session in the stream has its key, or something kept before it is of its household. */
  predicate OutdoneAt(stream: seq<Session>, i: nat, x: Session)
    requires i <= |stream|
  {
    x.sessionKey in KeysIn(stream[..i]) || Resembles(x, KeepAll(Firsts(stream[..i])))
  }

  lemma NewInStream(before: seq<Session>, x: Session)
    requires x.sessionKey != "" && x !in before
    ensures x in KeepAll(Firsts(before + [x])) <==> !OutdoneAt(before + [x], |before|, x)
  {
    assert (before + [x])[..|before|] == before;
    FirstsStep(before, x);
    KeepAllStep(Firsts(before), x);
    FirstsAreIn(before);
    KeepAllIs(Firsts(before));
  }

  lemma OldInStream(before: seq<Session>, s: Session, x: Session)
    requires x.sessionKey != "" && x in before
    ensures x in KeepAll(Firsts(before + [s])) <==> x in KeepAll(Firsts(before))
  {
    FirstsStep(before, s);
    KeepAllStep(Firsts(before), s);
    assert x.sessionKey in KeysIn(before);
  }

  lemma {:induction false} KeptFromStream(stream: seq<Session>, i: nat, x: Session)
    requires x.sessionKey != "" && i < |stream| && stream[i] == x && forall j :: 0 <= j < i ==> stream[j] != x
    ensures x in KeepAll(Firsts(stream)) <==> !OutdoneAt(stream, i, x)
    decreases |stream|
  {
    var n := |stream| - 1;
    var before := stream[..n];
    assert stream == before + [stream[n]];
    if i == n {
      NewInStream(before, x);
    } else {
      assert before[i] == x && before[..i] == stream[..i];
      KeptFromStream(before, i, x);
      OldInStream(before, stream[n], x);
    }
  }

  lemma KeepAllStep(list: seq<Session>, s: Session)
    ensures KeepAll(list + [s]) == if Resembles(s, KeepAll(list)) then KeepAll(list) else KeepAll(list) + [s]
  {
    assert (list + [s])[..|list|] == list;
  }

  lemma {:induction false} FirstsAreIn(stream: seq<Session>)
    ensures forall s :: s in Firsts(stream) ==> s in stream && s.sessionKey != ""
    decreases |stream|
  {
    if stream != [] {
      FirstsAreIn(stream[..|stream| - 1]);
    }
  }

  lemma {:induction false} InStream(cache: Cache, sessions: seq<Session>, x: Session)
    ensures x in Stream(cache, sessions)
            <==> x in sessions || exists s, e :: s in sessions && e in EntriesOf(cache, s.user) && e.session == x
    decreases |sessions|
  {
    if sessions != [] {
      var n := |sessions| - 1;
      InStream(cache, sessions[..n], x);
      assert sessions == sessions[..n] + [sessions[n]];
      InSessionList(EntriesOf(cache, sessions[n].user), x);
    }
  }

  lemma InSessionList(entries: seq<Cached>, x: Session)
    ensures x in SessionList(entries) <==> exists e :: e in entries && e.session == x
  {
    if x in SessionList(entries) {
      var i :| 0 <= i < |entries| && SessionList(entries)[i] == x;
      assert entries[i] in entries;
    }
    forall e | e in entries && e.session == x ensures x in SessionList(entries) {
      var i :| 0 <= i < |entries| && entries[i] == e;
      assert SessionList(entries)[i] == x;
    }
  }

  // ----- when a session that is no longer presented is still kept

  function StreamOf(cache: Cache, c: Call): seq<Session> {
    Stream(Cleaned(cache, c.now), c.sessions)
  }

  predicate Absent(c: Call, x: Session) {
    forall s :: s in c.sessions ==> s.sessionKey != x.sessionKey
  }

  predicate UserStreams(c: Call, user: string) {
    exists s :: s in c.sessions && s.user == user
  }

  /** The session is remembered, last kept at time `ts`. */
  ghost predicate LastKept(cache: Cache, x: Session, ts: int) {
    && Cached(x, ts) in EntriesOf(cache, x.user)
    && forall e :: e in EntriesOf(cache, x.user) && e.session == x ==> e.ts <= ts
  }

  predicate Outdone(cache: Cache, c: Call, x: Session) {
    var stream := StreamOf(cache, c);
    IndexOfIs(stream, x);
    OutdoneAt(stream, IndexOf(stream, x), x)
  }

  lemma RecentlyKeptIsInStream(cache: Cache, c: Call, x: Session, ts: int)
    requires Sound(cache) && Absent(c, x) && LastKept(cache, x, ts)
    ensures x in StreamOf(cache, c) <==> UserStreams(c, x.user) && c.now - ts <= 300
  {
    var clean := Cleaned(cache, c.now);
    InStream(clean, c.sessions, x);
    RecentIs(EntriesOf(cache, x.user), c.now);
    CleanedIsSound(cache, c.now);
    forall s, e | s in c.sessions && e in EntriesOf(clean, s.user) && e.session == x
      ensures s.user == x.user && e in EntriesOf(cache, x.user)
    {
      assert SoundFor(clean, s.user);
    }
    if UserStreams(c, x.user) && c.now - ts <= 300 {
      var s :| s in c.sessions && s.user == x.user;
      assert Cached(x, ts) in EntriesOf(clean, s.user);
    }
  }

  lemma KeptIffInStream(cache: Cache, c: Call, x: Session)
    requires Sound(cache) && x.sessionKey != ""
    ensures x in Kept(cache, c.sessions, c.now) <==> x in StreamOf(cache, c) && !Outdone(cache, c, x)
  {
    var stream := StreamOf(cache, c);
    CleanedIsSound(cache, c.now);
    EnrichIsFirsts(Cleaned(cache, c.now), c.sessions);
    IndexOfIs(stream, x);
    if x in stream {
      KeptFromStream(stream, IndexOf(stream, x), x);
    } else {
      FirstsAreIn(stream);
      KeepAllIs(Firsts(stream));
    }
  }

  /**
   The rule for any call: a remembered session that is not presented is kept if and only if its user presents some
   session, it was last kept at most 300 seconds ago, nothing considered before it has its key, and nothing kept
   before it is of its household.
   */
  lemma StoppedIsKeptIff(cache: Cache, c: Call, x: Session, ts: int)
    requires Sound(cache) && x.sessionKey != "" && Absent(c, x) && LastKept(cache, x, ts)
    ensures x in Kept(cache, c.sessions, c.now)
            <==> UserStreams(c, x.user) && c.now - ts <= 300 && !Outdone(cache, c, x)
  {
    RecentlyKeptIsInStream(cache, c, x, ts);
    KeptIffInStream(cache, c, x);
  }

  // ----- when it is stamped anew

  /** How many sessions of the same user are kept after it. */
  function KeptAfter(kept: seq<Session>, x: Session): nat {
    if kept == [] || kept[|kept| - 1] == x then 0 else
      KeptAfter(kept[..|kept| - 1], x) + if kept[|kept| - 1].user == x.user then 1 else 0
  }

  lemma {:induction false} StampedAt(kept: seq<Session>, x: Session, now: int)
    requires x in kept
    ensures var stamped, after := Stamped(kept, x.user, now), KeptAfter(kept, x);
            && after < |stamped|
            && stamped[|stamped| - 1 - after] == Cached(x, now)
            && forall j :: |stamped| - 1 - after < j < |stamped| ==> stamped[j] != Cached(x, now)
    decreases |kept|
  {
    if kept[|kept| - 1] != x {
      StampedAt(kept[..|kept| - 1], x, now);
    }
  }

  lemma LastHoldsIff(entries: seq<Cached>, stamped: seq<Cached>, e: Cached, after: nat)
    requires after < |stamped| && stamped[|stamped| - 1 - after] == e
    requires forall j :: |stamped| - 1 - after < j < |stamped| ==> stamped[j] != e
    ensures e in Last(entries + stamped) <==> after < 25
  {
    var all, last := entries + stamped, Last(entries + stamped);
    if after < 25 {
      assert last[|last| - 1 - after] == all[|all| - 1 - after] == e;
    } else {
      forall j | 0 <= j < |last| ensures last[j] != e {
        assert last[j] == stamped[|stamped| - |last| + j];
      }
    }
  }

  lemma RememberedIff(clean: Cache, kept: seq<Session>, now: int, x: Session)
    requires x in kept && |EntriesOf(clean, x.user)| <= 25
    ensures Cached(x, now) in EntriesOf(RememberAll(clean, kept, now), x.user) <==> KeptAfter(kept, x) < 25
  {
    MemoryIs(clean, kept, now, x.user);
    StampedAt(kept, x, now);
    LastHoldsIff(EntriesOf(clean, x.user), Stamped(kept, x.user, now), Cached(x, now), KeptAfter(kept, x));
  }

  /** A kept session is stamped anew exactly if fewer than 25 sessions of its user are kept after it. */
  lemma RenewedIff(cache: Cache, c: Call, x: Session)
    requires Sound(cache) && x in Kept(cache, c.sessions, c.now)
    ensures Cached(x, c.now) in EntriesOf(CacheAfter(cache, c.sessions, c.now), x.user)
            <==> KeptAfter(Kept(cache, c.sessions, c.now), x) < 25
  {
    CleanedIsSmall(cache, c.now, x.user);
    RememberedIff(Cleaned(cache, c.now), Kept(cache, c.sessions, c.now), c.now, x);
  }

  lemma CleanedIsSmall(cache: Cache, now: int, user: string)
    requires Sound(cache)
    ensures |EntriesOf(Cleaned(cache, now), user)| <= 25
  {
    CleanedIsSound(cache, now);
    assert user in Cleaned(cache, now) ==> SoundFor(Cleaned(cache, now), user);
  }

  // ----- over runs

  ghost predicate Renewed(cache: Cache, c: Call, x: Session) {
    && x in Kept(cache, c.sessions, c.now)
    && Cached(x, c.now) in EntriesOf(CacheAfter(cache, c.sessions, c.now), x.user)
  }

  /** What decides before the call and during its loop that the session is renewed. */
  predicate Renews(cache: Cache, c: Call, x: Session, ts: int) {
    && UserStreams(c, x.user)
    && c.now - ts <= 300
    && !Outdone(cache, c, x)
    && KeptAfter(Kept(cache, c.sessions, c.now), x) < 25
  }

  lemma CallRenewsIff(cache: Cache, c: Call, x: Session, ts: int)
    requires Sound(cache) && x.sessionKey != "" && Absent(c, x) && LastKept(cache, x, ts)
    ensures Renewed(cache, c, x) <==> Renews(cache, c, x, ts)
  {
    StoppedIsKeptIff(cache, c, x, ts);
    if x in Kept(cache, c.sessions, c.now) {
      RenewedIff(cache, c, x);
    }
  }

  lemma RenewedIsLastKept(cache: Cache, c: Call, x: Session, ts: int)
    requires Sound(cache) && LastKept(cache, x, ts) && Renewed(cache, c, x) && ts <= c.now
    ensures Sound(CacheAfter(cache, c.sessions, c.now)) && LastKept(CacheAfter(cache, c.sessions, c.now), x, c.now)
  {
    SoundAfter(cache, c.sessions, c.now);
    forall e | e in EntriesOf(CacheAfter(cache, c.sessions, c.now), x.user) && e.session == x ensures e.ts <= c.now {
      WhereEntriesComeFrom(cache, c, x.user, e);
    }
  }

  /** Entries after a call are entries before it that are recent, or kept sessions with the time of the call. */
  lemma WhereEntriesComeFrom(cache: Cache, c: Call, user: string, e: Cached)
    requires Sound(cache) && e in EntriesOf(CacheAfter(cache, c.sessions, c.now), user)
    ensures (e in EntriesOf(cache, user) && c.now - e.ts <= 300)
            || (e.session in Kept(cache, c.sessions, c.now) && e.ts == c.now)
  {
    var clean, kept := Cleaned(cache, c.now), Kept(cache, c.sessions, c.now);
    CleanedIsSmall(cache, c.now, user);
    MemoryIs(clean, kept, c.now, user);
    StampedIs(kept, user, c.now);
    RecentIs(EntriesOf(cache, user), c.now);
    assert e in EntriesOf(clean, user) + Stamped(kept, user, c.now);
  }

  /** Calls on a monotone clock that do not present the session. */
  ghost predicate Stopped(run: seq<Call>, x: Session, since: int)
    decreases |run|
  {
    run == [] || (Absent(run[0], x) && since <= run[0].now && Stopped(run[1..], x, run[0].now))
  }

  ghost predicate RenewedThroughout(cache: Cache, run: seq<Call>, x: Session)
    decreases |run|
  {
    run == [] ||
    (Renewed(cache, run[0], x) && RenewedThroughout(CacheAfter(cache, run[0].sessions, run[0].now), run[1..], x))
  }

  ghost predicate EveryCallRenews(cache: Cache, run: seq<Call>, x: Session, ts: int)
    decreases |run|
  {
    run == [] ||
    (Renews(cache, run[0], x, ts)
     && EveryCallRenews(CacheAfter(cache, run[0].sessions, run[0].now), run[1..], x, run[0].now))
  }

  /**
   Over a run of any calls that do not present it, a remembered session is kept and remembered anew in every call if
   and only if in every call its user presents something, at most 300 seconds after the call before, and nothing
   outdoes it or crowds it out.  The age of the session itself does not matter.
   */
  lemma {:induction false} RenewedThroughoutIff(cache: Cache, run: seq<Call>, x: Session, ts: int)
    requires Sound(cache) && x.sessionKey != "" && LastKept(cache, x, ts) && Stopped(run, x, ts)
    ensures RenewedThroughout(cache, run, x) <==> EveryCallRenews(cache, run, x, ts)
    decreases |run|
  {
    if run != [] {
      CallRenewsIff(cache, run[0], x, ts);
      if Renewed(cache, run[0], x) {
        RenewedIsLastKept(cache, run[0], x, ts);
        RenewedThroughoutIff(CacheAfter(cache, run[0].sessions, run[0].now), run[1..], x, run[0].now);
      }
    }
  }

  /** Before call `i` of a run from the empty cache. */
  function MemoryAt(run: seq<Call>, i: nat): Cache
    requires i <= |run|
  {
    CacheAt(map[], run[..i])
  }

  function KeptIn(run: seq<Call>, i: nat): seq<Session>
    requires i < |run|
  {
    Kept(MemoryAt(run, i), run[i].sessions, run[i].now)
  }

  lemma MemoryStep(run: seq<Call>, i: nat)
    requires i < |run|
    ensures MemoryAt(run, i + 1) == CacheAfter(MemoryAt(run, i), run[i].sessions, run[i].now)
  {
    assert run[..i + 1][..i] == run[..i];
  }

  /** Every entry was written by an earlier call that kept its session. */
  lemma {:induction false} EntriesWereKept(run: seq<Call>, i: nat, user: string, e: Cached) returns (j: nat)
    requires i <= |run| && e in EntriesOf(MemoryAt(run, i), user)
    ensures j < i && e.session in KeptIn(run, j) && e.ts == run[j].now
    decreases i
  {
    MemoryStep(run, i - 1);
    MemoryIsBounded(map[], run[..i - 1]);
    WhereEntriesComeFrom(MemoryAt(run, i - 1), run[i - 1], user, e);
    if e.session in KeptIn(run, i - 1) && e.ts == run[i - 1].now {
      j := i - 1;
    } else {
      j := EntriesWereKept(run, i - 1, user, e);
    }
  }

  /**
   A session that is kept without being presented was kept by some call at most 300 seconds before: after a longer
   gap it is gone.
   */
  lemma KeptBecauseKeptRecently(run: seq<Call>, i: nat, x: Session) returns (j: nat)
    requires i < |run| && Absent(run[i], x) && x in KeptIn(run, i)
    ensures j < i && x in KeptIn(run, j) && run[i].now - run[j].now <= 300
  {
    var cache := MemoryAt(run, i);
    MemoryIsBounded(map[], run[..i]);
    KeptAreDissimilar(cache, run[i].sessions, run[i].now);
    var s, e :| s in run[i].sessions && e in EntriesOf(Cleaned(cache, run[i].now), s.user) && e.session == x;
    RecentIs(EntriesOf(cache, s.user), run[i].now);
    j := EntriesWereKept(run, i, s.user, e);
  }

  // ----- a remembered session renews itself

  /** One user's live session `a` and a stopped session `x` that is not of the same household. */
  ghost predicate LiveAndStopped(a: Session, x: Session) {
    && a.user == x.user
    && a.sessionKey != "" && x.sessionKey != "" && a.sessionKey != x.sessionKey
    && !SameHousehold(x, a)
  }

  /** The user's memory holds nothing but the two sessions, the stopped one last, kept at time `ts`. */
  ghost predicate Haunted(entries: seq<Cached>, a: Session, x: Session, ts: int) {
    && entries != []
    && entries[|entries| - 1] == Cached(x, ts)
    && forall e :: e in entries ==> e.session == a || e.session == x
  }

  lemma {:induction false} HauntedAdds(entries: seq<Cached>, a: Session, x: Session)
    requires LiveAndStopped(a, x) && forall e :: e in entries ==> e.session == a || e.session == x
    ensures AddAllCached(Considered([a], {a.sessionKey}), entries)
            == if exists e :: e in entries && e.session == x then Considered([a, x], {a.sessionKey, x.sessionKey})
               else Considered([a], {a.sessionKey})
    decreases |entries|
  {
    if entries != [] {
      var n := |entries| - 1;
      assert entries == entries[..n] + [entries[n]];
      HauntedAdds(entries[..n], a, x);
    }
  }

  lemma StoppedStreamIsConsidered(cache: Cache, a: Session, x: Session)
    requires LiveAndStopped(a, x)
    requires exists ts :: Haunted(EntriesOf(cache, a.user), a, x, ts)
    ensures Enrich(cache, [a]).list == [a, x]
  {
    assert [a][..0] == [];
    HauntedAdds(EntriesOf(cache, a.user), a, x);
    assert Enrich(cache, []) == Considered([], {});
    assert AddInput(Considered([], {}), a) == Considered([a], {a.sessionKey});
  }

  lemma KeepTwo(a: Session, x: Session)
    requires !SameHousehold(x, a)
    ensures KeepAll([a, x]) == [a, x]
  {
    assert [a, x][..1] == [a] && [a][..0] == [];
    assert KeepAll([a]) == [a];
  }

  lemma CleanedStaysHaunted(cache: Cache, a: Session, x: Session, ts: int, now: int)
    requires Haunted(EntriesOf(cache, a.user), a, x, ts) && now - ts <= 300
    ensures Haunted(EntriesOf(Cleaned(cache, now), a.user), a, x, ts)
  {
    RecentIs(cache[a.user], now);
  }

  lemma RememberPair(cache: Cache, a: Session, x: Session, now: int)
    ensures RememberAll(cache, [a, x], now) == Remember(Remember(cache, a, now), x, now)
  {
    assert [a, x][..1] == [a] && [a][..0] == [];
    assert RememberAll(cache, [a], now) == Remember(cache, a, now);
  }

  lemma LastIsHaunted(entries: seq<Cached>, a: Session, x: Session, now: int)
    requires forall e :: e in entries ==> e.session == a || e.session == x
    ensures Haunted(Last(Last(entries + [Cached(a, now)]) + [Cached(x, now)]), a, x, now)
  {
    var first := Last(entries + [Cached(a, now)]);
    forall e | e in first ensures e.session == a || e.session == x {
      assert e in entries + [Cached(a, now)];
    }
    forall e | e in Last(first + [Cached(x, now)]) ensures e.session == a || e.session == x {
      assert e in first + [Cached(x, now)];
    }
  }

  lemma RememberTwo(cache: Cache, a: Session, x: Session, now: int)
    requires a.user == x.user && forall e :: e in EntriesOf(cache, a.user) ==> e.session == a || e.session == x
    ensures Haunted(EntriesOf(RememberAll(cache, [a, x], now), a.user), a, x, now)
  {
    RememberPair(cache, a, x, now);
    RememberStep(cache, a, now, a.user);
    RememberStep(Remember(cache, a, now), x, now, a.user);
    LastIsHaunted(EntriesOf(cache, a.user), a, x, now);
  }

  lemma StoppedStreamIsKept(cache: Cache, a: Session, x: Session, ts: int, now: int)
    requires LiveAndStopped(a, x) && Haunted(EntriesOf(cache, a.user), a, x, ts) && now - ts <= 300
    ensures Kept(cache, [a], now) == [a, x]
    ensures Haunted(EntriesOf(CacheAfter(cache, [a], now), a.user), a, x, now)
  {
    CleanedStaysHaunted(cache, a, x, ts, now);
    StoppedStreamIsConsidered(Cleaned(cache, now), a, x);
    KeepTwo(a, x);
    RememberTwo(Cleaned(cache, now), a, x, now);
  }

  function LastCall(run: seq<Call>, since: int): int {
    if run == [] then since else run[|run| - 1].now
  }

  /** Calls with the one live session, none more than 300 seconds after the one before it. */
  ghost predicate Watching(run: seq<Call>, a: Session, since: int) {
    run == [] ||
    var n := |run| - 1;
    && Watching(run[..n], a, since)
    && run[n].sessions == [a]
    && run[n].now - LastCall(run[..n], since) <= 300
  }

  /**
   The memory does not fade after 300 seconds: a kept session is remembered anew, so a stopped stream goes on
   being counted in every call, over runs of any length, as long as its user streams something else.
   */
  lemma {:induction false} StoppedStreamNeverFades(start: Cache, a: Session, x: Session, ts: int, run: seq<Call>)
    requires LiveAndStopped(a, x) && Haunted(EntriesOf(start, a.user), a, x, ts) && Watching(run, a, ts)
    ensures Haunted(EntriesOf(CacheAt(start, run), a.user), a, x, LastCall(run, ts))
    ensures run != [] ==> Kept(CacheAt(start, run[..|run| - 1]), [a], LastCall(run, ts)) == [a, x]
    decreases |run|
  {
    if run != [] {
      var before := run[..|run| - 1];
      StoppedStreamNeverFades(start, a, x, ts, before);
      StoppedStreamIsKept(CacheAt(start, before), a, x, LastCall(before, ts), LastCall(run, ts));
    }
  }

  /**
   From the empty memory: once both have been presented together, the stopped session is kept in every later call, for
   as long as the live one is presented every 300 seconds.
   */
  lemma StoppedStreamFromEmpty(a: Session, x: Session, since: int, run: seq<Call>)
    requires LiveAndStopped(a, x) && Watching(run, a, since)
    ensures Kept(map[], [a, x], since) == [a, x]
    ensures run != [] ==>
              var start := CacheAfter(map[], [a, x], since);
              Kept(CacheAt(start, run[..|run| - 1]), [a], LastCall(run, since)) == [a, x]
  {
    BothAreConsidered(a, x, since);
    KeepTwo(a, x);
    assert Cleaned(map[], since) == map[];
    RememberTwo(map[], a, x, since);
    StoppedStreamNeverFades(CacheAfter(map[], [a, x], since), a, x, since, run);
  }

  lemma BothAreConsidered(a: Session, x: Session, since: int)
    requires LiveAndStopped(a, x)
    ensures ConsideredBy(map[], [a, x], since) == [a, x]
  {
    assert Cleaned(map[], since) == map[];
    assert [a, x][..1] == [a] && [a][..0] == [];
    assert Enrich(map[], []) == Considered([], {});
    assert Enrich(map[], [a]) == Considered([a], {a.sessionKey});
  }
}
