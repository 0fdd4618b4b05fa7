/**
 The household merge of app/core/stream_household_dedupe.py: sessions of one call and the recently kept sessions of
 the same users are reduced to one per probable household.
 */
module HouseholdDedupe {
  import opened Options
  import opened Collections
  import opened SessionIdentity

  const MEMORY_SECONDS := 300
  const USER_LIMIT := 25

  /** A kept session and the time it was kept. */
  datatype Cached = Cached(session: Session, ts: int)

  type Cache = map<string, seq<Cached>>

  function Recent(entries: seq<Cached>, now: int): seq<Cached> {
    if entries == [] then [] else
      var n := |entries| - 1;
      Recent(entries[..n], now) + if now - entries[n].ts <= MEMORY_SECONDS then [entries[n]] else []
  }

  /** cleanup_recent_session_cache: users without a recent session are dropped. */
  function Cleaned(cache: Cache, now: int): Cache {
    map u | u in cache && Recent(cache[u], now) != [] :: Recent(cache[u], now)
  }

  function EntriesOf(cache: Cache, user: string): seq<Cached> {
    if user in cache then cache[user] else []
  }

  /** The sessions to compare so far, and their keys. */
  datatype Considered = Considered(list: seq<Session>, keys: set<string>)

  function AddInput(c: Considered, s: Session): Considered {
    if s.sessionKey != "" && s.sessionKey !in c.keys
    then Considered(c.list + [s], c.keys + {s.sessionKey})
    else c
  }

  function AddCached(c: Considered, s: Session): Considered {
    if s.sessionKey != "" && s.sessionKey in c.keys then c
    else Considered(c.list + [s], if s.sessionKey != "" then c.keys + {s.sessionKey} else c.keys)
  }

  function AddAllCached(c: Considered, entries: seq<Cached>): Considered {
    if entries == [] then c else
      var n := |entries| - 1;
      AddCached(AddAllCached(c, entries[..n]), entries[n].session)
  }

  /** Every input session, each followed by what is remembered of its user. */
  function Enrich(cache: Cache, sessions: seq<Session>): Considered {
    if sessions == [] then Considered([], {}) else
      var s := sessions[|sessions| - 1];
      AddAllCached(AddInput(Enrich(cache, sessions[..|sessions| - 1]), s), EntriesOf(cache, s.user))
  }

  predicate Resembles(s: Session, kept: seq<Session>) {
    exists x :: x in kept && SameHousehold(s, x)
  }

  /** A session is kept if none kept before it is of the same household. */
  function KeepAll(list: seq<Session>): seq<Session> {
    if list == [] then [] else
      var s, before := list[|list| - 1], KeepAll(list[..|list| - 1]);
      if Resembles(s, before) then before else before + [s]
  }

  function Last(entries: seq<Cached>): seq<Cached> {
    if |entries| > USER_LIMIT then entries[|entries| - USER_LIMIT..] else entries
  }

  function Remember(cache: Cache, s: Session, now: int): Cache {
    cache[s.user := Last(EntriesOf(cache, s.user) + [Cached(s, now)])]
  }

  function RememberAll(cache: Cache, kept: seq<Session>, now: int): Cache {
    if kept == [] then cache
    else Remember(RememberAll(cache, kept[..|kept| - 1], now), kept[|kept| - 1], now)
  }

  function ConsideredBy(cache: Cache, sessions: seq<Session>, now: int): seq<Session> {
    Enrich(Cleaned(cache, now), sessions).list
  }

  function Kept(cache: Cache, sessions: seq<Session>, now: int): seq<Session> {
    KeepAll(ConsideredBy(cache, sessions, now))
  }

  function CacheAfter(cache: Cache, sessions: seq<Session>, now: int): Cache {
    RememberAll(Cleaned(cache, now), Kept(cache, sessions, now), now)
  }

  class RecentSessions {
    var cache: Cache

    constructor ()
      ensures cache == map[]
    {
      cache := map[];
    }

    method CleanupRecentSessionCache(now: int)
      modifies this
      ensures cache == Cleaned(old(cache), now)
    {
      var todo := cache.Keys;
      while todo != {}
        invariant todo <= old(cache).Keys
        invariant forall u :: u in todo ==> u in cache && cache[u] == old(cache)[u]
        invariant forall u :: u !in todo ==> (u in cache <==> u in Cleaned(old(cache), now))
        invariant forall u :: u in cache && u !in todo ==> cache[u] == Cleaned(old(cache), now)[u]
        decreases |todo|
      {
        assert exists u :: u in todo by {
          var member := Member(todo);
        }
        var u :| u in todo;
        var kept := RecentOf(cache[u], now);
        if kept != [] {
          cache := cache[u := kept];
        } else {
          cache := cache - {u};
        }
        todo := todo - {u};
      }
    }

    method DeduplicateHouseholdSessions(sessions: seq<Session>, now: int) returns (kept: seq<Session>)
      modifies this
      ensures kept == Kept(old(cache), sessions, now)
      ensures cache == CacheAfter(old(cache), sessions, now)
    {
      CleanupRecentSessionCache(now);
      var list := EnrichSessions(cache, sessions);
      kept := [];
      ghost var start := cache;
      for i := 0 to |list|
        invariant kept == KeepAll(list[..i]) && cache == RememberAll(start, kept, now)
      {
        assert list[..i + 1][..i] == list[..i];
        var duplicate := FindSameHousehold(list[i], kept);
        if !duplicate {
          assert (kept + [list[i]])[..|kept|] == kept;
          kept := kept + [list[i]];
          RememberSession(list[i], now);
        }
      }
      assert list[..|list|] == list;
    }

    method RememberSession(s: Session, now: int)
      modifies this
      ensures cache == Remember(old(cache), s, now)
    {
      var grown := EntriesOf(cache, s.user) + [Cached(s, now)];
      if |grown| > USER_LIMIT {
        grown := grown[|grown| - USER_LIMIT..];
      }
      cache := cache[s.user := grown];
    }
  }

  method RecentOf(entries: seq<Cached>, now: int) returns (kept: seq<Cached>)
    ensures kept == Recent(entries, now)
  {
    kept := [];
    for i := 0 to |entries|
      invariant kept == Recent(entries[..i], now)
    {
      assert entries[..i + 1][..i] == entries[..i];
      if now - entries[i].ts <= MEMORY_SECONDS {
        kept := kept + [entries[i]];
      }
    }
    assert entries[..|entries|] == entries;
  }

  method FindSameHousehold(s: Session, kept: seq<Session>) returns (duplicate: bool)
    ensures duplicate <==> Resembles(s, kept)
  {
    for i := 0 to |kept|
      invariant forall j :: 0 <= j < i ==> !SameHousehold(s, kept[j])
    {
      if SameHousehold(s, kept[i]) {
        return true;
      }
    }
    return false;
  }

  method EnrichSessions(cache: Cache, sessions: seq<Session>) returns (list: seq<Session>)
    ensures list == Enrich(cache, sessions).list
  {
    var seen: set<string>;
    list, seen := [], {};
    for i := 0 to |sessions|
      invariant Considered(list, seen) == Enrich(cache, sessions[..i])
    {
      assert sessions[..i + 1][..i] == sessions[..i];
      var key := sessions[i].sessionKey;
      ghost var before := Considered(list, seen);
      if key != "" && key !in seen {
        list, seen := list + [sessions[i]], seen + {key};
      }
      assert Considered(list, seen) == AddInput(before, sessions[i]);
      list, seen := EnrichFromCache(list, seen, EntriesOf(cache, sessions[i].user));
    }
    assert sessions[..|sessions|] == sessions;
  }

  /** The inner loop over the remembered sessions of one user. */
  method EnrichFromCache(before: seq<Session>, seenBefore: set<string>, entries: seq<Cached>)
    returns (list: seq<Session>, seen: set<string>)
    ensures Considered(list, seen) == AddAllCached(Considered(before, seenBefore), entries)
  {
    list, seen := before, seenBefore;
    for i := 0 to |entries|
      invariant Considered(list, seen) == AddAllCached(Considered(before, seenBefore), entries[..i])
    {
      assert entries[..i + 1][..i] == entries[..i];
      var remembered := entries[i].session;
      if remembered.sessionKey != "" && remembered.sessionKey in seen {
        continue;
      }
      list := list + [remembered];
      if remembered.sessionKey != "" {
        seen := seen + {remembered.sessionKey};
      }
    }
    assert entries[..|entries|] == entries;
  }

  // ----- what a call considers

  predicate Keyed(entries: seq<Cached>) {
    forall x :: x in entries ==> x.session.sessionKey != ""
  }

  /** What is remembered of a user: at most 25 keyed sessions of that user. */
  predicate SoundFor(cache: Cache, u: string) {
    && |EntriesOf(cache, u)| <= 25
    && Keyed(EntriesOf(cache, u))
    && forall x :: x in EntriesOf(cache, u) ==> x.session.user == u
  }

  ghost predicate Sound(cache: Cache) {
    forall u :: u in cache ==> SoundFor(cache, u)
  }

  /** The keyed input sessions and what is remembered of the users of all input sessions. */
  function Presented(cache: Cache, sessions: seq<Session>): set<Session> {
    (set s | s in sessions && s.sessionKey != "")
    + set s, x | s in sessions && x in EntriesOf(cache, s.user) :: x.session
  }

  function Keys(sessions: set<Session>): set<string> {
    set s | s in sessions :: s.sessionKey
  }

  /** Every key once, and the keys listed are those of the sessions. */
  ghost predicate Indexed(c: Considered) {
    && (forall s :: s in c.list ==> s.sessionKey in c.keys && s.sessionKey != "")
    && (forall k :: k in c.keys ==> exists s :: s in c.list && s.sessionKey == k)
    && (forall i, j :: 0 <= i < j < |c.list| ==> c.list[i].sessionKey != c.list[j].sessionKey)
  }

  /** `after` extends `c` by some of the added sessions, one for every new key. */
  ghost predicate Grown(c: Considered, after: Considered, added: set<Session>) {
    && Indexed(after)
    && c.list <= after.list
    && after.keys == c.keys + Keys(added)
    && forall s :: s in after.list ==> s in c.list || s in added
  }

  lemma CachedGrows(c: Considered, s: Session)
    requires Indexed(c) && s.sessionKey != ""
    ensures Grown(c, AddCached(c, s), {s})
  {
    assert Keys({s}) == {s.sessionKey};
    if s.sessionKey !in c.keys {
      AppendIndexes(c, s);
    }
  }

  lemma AppendIndexes(c: Considered, s: Session)
    requires Indexed(c) && s.sessionKey != "" && s.sessionKey !in c.keys
    ensures Indexed(Considered(c.list + [s], c.keys + {s.sessionKey}))
  {
    var after := Considered(c.list + [s], c.keys + {s.sessionKey});
    assert s in after.list;
    forall k | k in after.keys ensures exists x :: x in after.list && x.sessionKey == k {
      if k != s.sessionKey {
        var x :| x in c.list && x.sessionKey == k;
        assert x in after.list;
      }
    }
  }

  lemma GrownTwice(a: Considered, b: Considered, c: Considered, first: set<Session>, second: set<Session>)
    requires Grown(a, b, first) && Grown(b, c, second)
    ensures Grown(a, c, first + second)
  {
    assert Keys(first + second) == Keys(first) + Keys(second);
  }

  function SessionsOf(entries: seq<Cached>): set<Session> {
    set x | x in entries :: x.session
  }

  lemma {:induction false} AllCachedGrow(c: Considered, entries: seq<Cached>)
    requires Indexed(c) && Keyed(entries)
    ensures Grown(c, AddAllCached(c, entries), SessionsOf(entries))
    decreases |entries|
  {
    if entries == [] {
      assert Keys(SessionsOf(entries)) == {};
    } else {
      var n := |entries| - 1;
      assert entries == entries[..n] + [entries[n]];
      AllCachedGrow(c, entries[..n]);
      CachedGrows(AddAllCached(c, entries[..n]), entries[n].session);
      GrownTwice(c, AddAllCached(c, entries[..n]), AddAllCached(c, entries),
                 SessionsOf(entries[..n]), {entries[n].session});
      assert SessionsOf(entries) == SessionsOf(entries[..n]) + {entries[n].session};
    }
  }

  function Own(s: Session): set<Session> {
    if s.sessionKey == "" then {} else {s}
  }

  lemma InputGrows(c: Considered, s: Session)
    requires Indexed(c)
    ensures Grown(c, AddInput(c, s), Own(s))
  {
    if s.sessionKey != "" && s.sessionKey !in c.keys {
      AppendIndexes(c, s);
    }
  }

  lemma StepGrows(c: Considered, cache: Cache, s: Session)
    requires Indexed(c) && Sound(cache)
    ensures Grown(c, AddAllCached(AddInput(c, s), EntriesOf(cache, s.user)),
                  Own(s) + SessionsOf(EntriesOf(cache, s.user)))
  {
    InputGrows(c, s);
    AllCachedGrow(AddInput(c, s), EntriesOf(cache, s.user));
    GrownTwice(c, AddInput(c, s), AddAllCached(AddInput(c, s), EntriesOf(cache, s.user)),
               Own(s), SessionsOf(EntriesOf(cache, s.user)));
  }

  lemma PresentedStep(cache: Cache, before: seq<Session>, s: Session)
    ensures Presented(cache, before + [s])
            == Presented(cache, before) + (Own(s) + SessionsOf(EntriesOf(cache, s.user)))
  {
    var all := before + [s];
    assert s in all;
    forall x | x in Presented(cache, before) + (Own(s) + SessionsOf(EntriesOf(cache, s.user)))
      ensures x in Presented(cache, all)
    {
      if x in SessionsOf(EntriesOf(cache, s.user)) {
        var y :| y in EntriesOf(cache, s.user) && y.session == x;
      }
    }
  }

  /**
   Exactly one session of every key that is presented or remembered is considered, and nothing else is: no stream is
   counted twice under one key.
   */
  lemma {:induction false} ConsideredIs(cache: Cache, sessions: seq<Session>)
    requires Sound(cache)
    ensures Grown(Considered([], {}), Enrich(cache, sessions), Presented(cache, sessions))
    decreases |sessions|
  {
    if sessions == [] {
      assert Keys(Presented(cache, sessions)) == {};
    } else {
      var n := |sessions| - 1;
      ConsideredIs(cache, sessions[..n]);
      StepGrows(Enrich(cache, sessions[..n]), cache, sessions[n]);
      PresentedStep(cache, sessions[..n], sessions[n]);
      assert sessions == sessions[..n] + [sessions[n]];
      GrownTwice(Considered([], {}), Enrich(cache, sessions[..n]), Enrich(cache, sessions),
                 Presented(cache, sessions[..n]), Own(sessions[n]) + SessionsOf(EntriesOf(cache, sessions[n].user)));
    }
  }

  // ----- what a call keeps

  ghost predicate Dissimilar(kept: seq<Session>) {
    forall i, j :: 0 <= i < j < |kept| ==> !SameHousehold(kept[i], kept[j]) && !SameHousehold(kept[j], kept[i])
  }

  /** The session stays, or one of its household does. */
  predicate Accounted(s: Session, kept: seq<Session>) {
    s in kept || Resembles(s, kept)
  }

  /** The greedy loop leaves one session of every household: dissimilar ones that account for all others. */
  lemma {:induction false} KeepAllIs(list: seq<Session>)
    ensures Dissimilar(KeepAll(list))
    ensures forall s :: s in KeepAll(list) ==> s in list
    ensures forall s :: s in list ==> Accounted(s, KeepAll(list))
    decreases |list|
  {
    if list != [] {
      var s, before := list[|list| - 1], KeepAll(list[..|list| - 1]);
      KeepAllIs(list[..|list| - 1]);
      assert list == list[..|list| - 1] + [s];
      forall x | x in before ensures SameHousehold(s, x) <==> SameHousehold(x, s) {
        ScoreIsSymmetric(s, x);
      }
      forall x | x in list ensures Accounted(x, KeepAll(list)) {
        if x != s {
          assert Accounted(x, before);
        }
      }
    }
  }

  lemma {:induction false} KeptStayKept(list: seq<Session>, i: nat)
    requires i <= |list|
    ensures KeepAll(list[..i]) <= KeepAll(list)
    decreases |list|
  {
    if i == |list| {
      assert list[..i] == list;
    } else {
      var before := list[..|list| - 1];
      assert before[..i] == list[..i];
      KeptStayKept(before, i);
      assert KeepAll(before) <= KeepAll(list);
    }
  }

  /** Earlier sessions win: each is accounted for by itself or one before it, and the first is always kept. */
  lemma EarlierSessionsWin(list: seq<Session>, i: nat)
    requires i < |list|
    ensures KeepAll(list[..i + 1]) <= KeepAll(list) && Accounted(list[i], KeepAll(list[..i + 1]))
    ensures var begin := list[..i + 1];
            forall s :: s in KeepAll(begin) ==> s in begin
    ensures i == 0 ==> KeepAll(list[..i + 1]) == [list[0]]
  {
    KeptStayKept(list, i + 1);
    KeepAllIs(list[..i + 1]);
    assert list[..i + 1][i] in list[..i + 1];
    assert i == 0 ==> list[..i + 1][..0] == [];
  }

  lemma CleanedIsSound(cache: Cache, now: int)
    requires Sound(cache)
    ensures Sound(Cleaned(cache, now))
  {
    forall u | u in Cleaned(cache, now) ensures SoundFor(Cleaned(cache, now), u) {
      assert SoundFor(cache, u);
      RecentIs(cache[u], now);
    }
  }

  lemma {:induction false} RecentIs(entries: seq<Cached>, now: int)
    ensures |Recent(entries, now)| <= |entries|
    ensures forall x :: x in Recent(entries, now) <==> x in entries && now - x.ts <= 300
    decreases |entries|
  {
    if entries != [] {
      RecentIs(entries[..|entries| - 1], now);
    }
  }

  /** Sessions considered under distinct keys: those that are kept differ in household and in key. */
  lemma KeptOf(all: Considered, added: set<Session>)
    requires Grown(Considered([], {}), all, added)
    ensures Dissimilar(KeepAll(all.list))
    ensures forall x :: x in KeepAll(all.list) ==> x in added
  {
    KeepAllIs(all.list);
  }

  lemma OneKeptPerKey(all: Considered, x: Session, y: Session)
    requires Indexed(all) && x in KeepAll(all.list) && y in KeepAll(all.list) && x.sessionKey == y.sessionKey
    ensures x == y
  {
    KeepAllIs(all.list);
    var i :| 0 <= i < |all.list| && all.list[i] == x;
    var j :| 0 <= j < |all.list| && all.list[j] == y;
  }

  lemma KeyIsAccounted(all: Considered, added: set<Session>, s: Session) returns (x: Session)
    requires Grown(Considered([], {}), all, added) && s in added
    ensures x in added && x.sessionKey == s.sessionKey && Accounted(x, KeepAll(all.list))
  {
    assert s.sessionKey in all.keys;
    x :| x in all.list && x.sessionKey == s.sessionKey;
    KeepAllIs(all.list);
  }

  lemma ConsideredByCall(cache: Cache, sessions: seq<Session>, now: int)
    requires Sound(cache)
    ensures var clean := Cleaned(cache, now);
            Sound(clean) && Grown(Considered([], {}), Enrich(clean, sessions), Presented(clean, sessions))
  {
    CleanedIsSound(cache, now);
    ConsideredIs(Cleaned(cache, now), sessions);
  }

  /** One call: the kept sessions are presented or remembered, pairwise of different households and keys. */
  lemma KeptAreDissimilar(cache: Cache, sessions: seq<Session>, now: int)
    requires Sound(cache)
    ensures var kept := Kept(cache, sessions, now);
            && Dissimilar(kept)
            && (forall x :: x in kept ==> x in Presented(Cleaned(cache, now), sessions))
            && (forall x, y :: x in kept && y in kept && x.sessionKey == y.sessionKey ==> x == y)
  {
    var all := Enrich(Cleaned(cache, now), sessions);
    ConsideredByCall(cache, sessions, now);
    KeptOf(all, Presented(Cleaned(cache, now), sessions));
    forall x, y | x in KeepAll(all.list) && y in KeepAll(all.list) && x.sessionKey == y.sessionKey ensures x == y {
      OneKeptPerKey(all, x, y);
    }
  }

  /** Whatever is presented or remembered under some key is accounted for by a session considered under that key. */
  lemma CallAccountsForEveryKey(cache: Cache, sessions: seq<Session>, now: int, s: Session) returns (x: Session)
    requires Sound(cache) && s in Presented(Cleaned(cache, now), sessions)
    ensures x in Presented(Cleaned(cache, now), sessions) && x.sessionKey == s.sessionKey
    ensures Accounted(x, Kept(cache, sessions, now))
  {
    ConsideredByCall(cache, sessions, now);
    x := KeyIsAccounted(Enrich(Cleaned(cache, now), sessions), Presented(Cleaned(cache, now), sessions), s);
  }

  // ----- when an input session itself is accounted for

  function KeysBefore(cache: Cache, sessions: seq<Session>, i: nat, now: int): set<string>
    requires i <= |sessions|
  {
    Keys(Presented(Cleaned(cache, now), sessions[..i]))
  }

  lemma {:induction false} EnrichExtends(cache: Cache, sessions: seq<Session>, i: nat)
    requires Sound(cache) && i <= |sessions|
    ensures Enrich(cache, sessions[..i]).list <= Enrich(cache, sessions).list
    decreases |sessions|
  {
    var n := |sessions| - 1;
    if i == |sessions| {
      assert sessions[..i] == sessions;
    } else {
      EnrichExtends(cache, sessions[..n], i);
      assert sessions[..n][..i] == sessions[..i];
      ConsideredIs(cache, sessions[..n]);
      StepGrows(Enrich(cache, sessions[..n]), cache, sessions[n]);
    }
  }

  lemma FreshKeyIsConsidered(cache: Cache, sessions: seq<Session>, i: nat)
    requires Sound(cache) && i < |sessions|
    requires sessions[i].sessionKey != "" && sessions[i].sessionKey !in Keys(Presented(cache, sessions[..i]))
    ensures sessions[i] in Enrich(cache, sessions).list
  {
    var before, s := Enrich(cache, sessions[..i]), sessions[i];
    ConsideredIs(cache, sessions[..i]);
    InputGrows(before, s);
    AllCachedGrow(AddInput(before, s), EntriesOf(cache, s.user));
    assert s in AddInput(before, s).list;
    assert sessions[..i + 1][..i] == sessions[..i];
    assert s in Enrich(cache, sessions[..i + 1]).list;
    EnrichExtends(cache, sessions, i + 1);
  }

  lemma SeenInputIsSkipped(cache: Cache, before: seq<Session>, was: Session, s: Session)
    requires Sound(cache) && s.sessionKey == was.sessionKey && s.user == was.user
    requires s.sessionKey == "" || s.sessionKey in Keys(Presented(cache, before))
    ensures AddInput(Enrich(cache, before), s) == AddInput(Enrich(cache, before), was)
  {
    ConsideredIs(cache, before);
  }

  lemma EnrichStep(cache: Cache, before: seq<Session>, s: Session)
    ensures Enrich(cache, before + [s]) == AddAllCached(AddInput(Enrich(cache, before), s), EntriesOf(cache, s.user))
  {
    assert (before + [s])[..|before|] == before;
  }

  lemma {:induction false} SeenKeyIsNotLookedAt(cache: Cache, sessions: seq<Session>, i: nat, s: Session)
    requires Sound(cache) && i < |sessions| && s.sessionKey == sessions[i].sessionKey && s.user == sessions[i].user
    requires s.sessionKey == "" || s.sessionKey in Keys(Presented(cache, sessions[..i]))
    ensures Enrich(cache, sessions[i := s]) == Enrich(cache, sessions)
    decreases |sessions|
  {
    var n := |sessions| - 1;
    var before := sessions[..n];
    assert sessions == before + [sessions[n]];
    EnrichStep(cache, before, sessions[n]);
    if i == n {
      SeenInputIsSkipped(cache, before, sessions[i], s);
      assert sessions[i := s] == before + [s];
      EnrichStep(cache, before, s);
    } else {
      assert before[..i] == sessions[..i];
      SeenKeyIsNotLookedAt(cache, before, i, s);
      assert sessions[i := s] == before[i := s] + [sessions[n]];
      EnrichStep(cache, before[i := s], sessions[n]);
    }
  }

  /** A session with nothing but a key, a user and a family name. */
  function Nondescript(key: string, user: string, family: string): Session {
    Session(key, "", user, "", "", None, "", "", "", "", "", family, None, None)
  }

  lemma NondescriptIsUnlikeAll(key: string, user: string, family: string, kept: seq<Session>)
    ensures !Resembles(Nondescript(key, user, family), kept)
  {
    forall x | x in kept ensures HouseholdScore(Nondescript(key, user, family), x) == 0 {
    }
  }

  lemma FreeFamily(all: Considered, key: string) returns (family: string)
    requires Indexed(all)
    ensures forall x :: x in all.list ==> x.sessionKey != key || x.family != family
  {
    family := "";
    if key in all.keys {
      var f :| f in all.list && f.sessionKey == key;
      family := f.family + "x";
      forall x | x in all.list && x.sessionKey == key ensures x.family != family {
        var i :| 0 <= i < |all.list| && all.list[i] == x;
        var j :| 0 <= j < |all.list| && all.list[j] == f;
        assert i == j;
      }
    }
  }

  lemma UnlistedFamily(cache: Cache, sessions: seq<Session>, key: string) returns (family: string)
    requires Sound(cache)
    ensures forall x :: x in Enrich(cache, sessions).list ==> x.sessionKey != key || x.family != family
  {
    ConsideredIs(cache, sessions);
    family := FreeFamily(Enrich(cache, sessions), key);
  }

  /** The input session at `i` is kept or merged into its household, whatever it looks like. */
  ghost predicate AlwaysAccounted(cache: Cache, sessions: seq<Session>, i: nat, now: int)
    requires i < |sessions|
  {
    forall s: Session :: s.sessionKey == sessions[i].sessionKey && s.user == sessions[i].user ==>
      Accounted(s, Kept(cache, sessions[i := s], now))
  }

  /**
   An input session is certain to be kept or merged exactly if it has a key that no earlier input session and no
   remembered session of their users has; otherwise an older copy under the same key can stand in for it.
   */
  lemma AlwaysAccountedIffKeyIsFresh(cache: Cache, sessions: seq<Session>, i: nat, now: int)
    requires Sound(cache) && i < |sessions|
    ensures AlwaysAccounted(cache, sessions, i, now)
            <==> sessions[i].sessionKey != "" && sessions[i].sessionKey !in KeysBefore(cache, sessions, i, now)
  {
    var key, user := sessions[i].sessionKey, sessions[i].user;
    if key != "" && key !in KeysBefore(cache, sessions, i, now) {
      forall s: Session | s.sessionKey == key && s.user == user
        ensures Accounted(s, Kept(cache, sessions[i := s], now))
      {
        FreshIsAccounted(cache, sessions[i := s], i, now, s, sessions);
      }
    } else {
      var s := LostCopy(cache, sessions, i, now);
    }
  }

  lemma FreshIsAccounted(cache: Cache, sessions: seq<Session>, i: nat, now: int, s: Session, was: seq<Session>)
    requires Sound(cache) && i < |sessions| && sessions[i] == s && i < |was| && sessions == was[i := s]
    requires s.sessionKey != "" && s.sessionKey !in KeysBefore(cache, was, i, now)
    ensures Accounted(s, Kept(cache, sessions, now))
  {
    assert sessions[..i] == was[..i];
    CleanedIsSound(cache, now);
    FreshKeyIsConsidered(Cleaned(cache, now), sessions, i);
    KeepAllIs(ConsideredBy(cache, sessions, now));
  }

  lemma LostCopy(cache: Cache, sessions: seq<Session>, i: nat, now: int) returns (s: Session)
    requires Sound(cache) && i < |sessions|
    requires sessions[i].sessionKey == "" || sessions[i].sessionKey in KeysBefore(cache, sessions, i, now)
    ensures s.sessionKey == sessions[i].sessionKey && s.user == sessions[i].user
    ensures !Accounted(s, Kept(cache, sessions[i := s], now))
  {
    var key := sessions[i].sessionKey;
    CleanedIsSound(cache, now);
    var family := UnlistedFamily(Cleaned(cache, now), sessions, key);
    s := Nondescript(key, sessions[i].user, family);
    SeenKeyIsNotLookedAt(Cleaned(cache, now), sessions, i, s);
    KeepAllIs(ConsideredBy(cache, sessions, now));
    NondescriptIsUnlikeAll(key, sessions[i].user, family, Kept(cache, sessions, now));
  }

  // ----- what is remembered

  /** The kept sessions of one user, stamped with the time of the call. */
  function Stamped(kept: seq<Session>, user: string, now: int): seq<Cached> {
    if kept == [] then [] else
      var s := kept[|kept| - 1];
      Stamped(kept[..|kept| - 1], user, now) + if s.user == user then [Cached(s, now)] else []
  }

  lemma LastTwice(entries: seq<Cached>, x: Cached)
    ensures Last(Last(entries) + [x]) == Last(entries + [x])
  {
  }

  lemma RememberStep(cache: Cache, s: Session, now: int, user: string)
    ensures EntriesOf(Remember(cache, s, now), user)
            == if s.user == user then Last(EntriesOf(cache, user) + [Cached(s, now)]) else EntriesOf(cache, user)
  {
  }

  lemma StampedStep(entries: seq<Cached>, kept: seq<Session>, user: string, now: int)
    requires kept != []
    ensures var s, before := kept[|kept| - 1], entries + Stamped(kept[..|kept| - 1], user, now);
            entries + Stamped(kept, user, now) == if s.user == user then before + [Cached(s, now)] else before
  {
  }

  /** After a call each user's memory is what was recent and then what was kept, cut to the newest 25. */
  lemma {:induction false} MemoryIs(cache: Cache, kept: seq<Session>, now: int, user: string)
    requires |EntriesOf(cache, user)| <= 25
    ensures EntriesOf(RememberAll(cache, kept, now), user) == Last(EntriesOf(cache, user) + Stamped(kept, user, now))
    decreases |kept|
  {
    if kept == [] {
      assert EntriesOf(cache, user) + [] == EntriesOf(cache, user);
    } else {
      var n := |kept| - 1;
      MemoryIs(cache, kept[..n], now, user);
      RememberStep(RememberAll(cache, kept[..n], now), kept[n], now, user);
      StampedStep(EntriesOf(cache, user), kept, user, now);
      LastTwice(EntriesOf(cache, user) + Stamped(kept[..n], user, now), Cached(kept[n], now));
    }
  }

  lemma {:induction false} StampedIs(kept: seq<Session>, user: string, now: int)
    ensures forall x :: x in Stamped(kept, user, now) ==> x.session in kept && x.session.user == user && x.ts == now
    decreases |kept|
  {
    if kept != [] {
      StampedIs(kept[..|kept| - 1], user, now);
    }
  }

  lemma MemoryStaysSound(cache: Cache, kept: seq<Session>, now: int, u: string)
    requires SoundFor(cache, u) && forall s :: s in kept ==> s.sessionKey != ""
    ensures SoundFor(RememberAll(cache, kept, now), u)
  {
    MemoryIs(cache, kept, now, u);
    StampedIs(kept, u, now);
    var grown := EntriesOf(cache, u) + Stamped(kept, u, now);
    forall x | x in Last(grown) ensures x in grown {
    }
  }

  lemma KeptAreKeyed(cache: Cache, sessions: seq<Session>)
    requires Sound(cache)
    ensures forall s :: s in KeepAll(Enrich(cache, sessions).list) ==> s.sessionKey != ""
  {
    ConsideredIs(cache, sessions);
    KeepAllIs(Enrich(cache, sessions).list);
  }

  lemma SoundAfter(cache: Cache, sessions: seq<Session>, now: int)
    requires Sound(cache)
    ensures Sound(CacheAfter(cache, sessions, now))
  {
    var clean, kept := Cleaned(cache, now), Kept(cache, sessions, now);
    CleanedIsSound(cache, now);
    KeptAreKeyed(clean, sessions);
    forall u | u in RememberAll(clean, kept, now) ensures SoundFor(RememberAll(clean, kept, now), u) {
      assert u in clean ==> SoundFor(clean, u);
      MemoryStaysSound(clean, kept, now, u);
    }
  }

  datatype Call = Call(sessions: seq<Session>, now: int)

  function CacheAt(start: Cache, run: seq<Call>): Cache {
    if run == [] then start else
      var n := |run| - 1;
      CacheAfter(CacheAt(start, run[..n]), run[n].sessions, run[n].now)
  }

  /** Over every run a user's memory holds at most 25 sessions, all keyed and the user's own. */
  lemma {:induction false} MemoryIsBounded(start: Cache, run: seq<Call>)
    requires Sound(start)
    ensures Sound(CacheAt(start, run))
    decreases |run|
  {
    if run != [] {
      MemoryIsBounded(start, run[..|run| - 1]);
      SoundAfter(CacheAt(start, run[..|run| - 1]), run[|run| - 1].sessions, run[|run| - 1].now);
    }
  }
}
