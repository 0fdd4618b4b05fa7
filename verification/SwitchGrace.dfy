/**
 The device-switch grace of app/core/policy_transition_grace.py.  Session texts are taken as cleaned (trimmed, lower
 case, null as ""), and cache keys as tuples.
 */
module SwitchGrace {
  import opened Options
  import opened Grouping

  const GRACE: real := 300.0
  const RETENTION: real := 3600.0

  datatype Session = Session(
    mediaType: string,
    series: string,
    season: string,
    title: string,
    mediaKey: string,
    sessionKey: string,
    startedAt: Option<real>,
    lastSeenAt: Option<real>)

  datatype Identity =
    | Episode(series: string, season: string, title: string)
    | Movie(title: string)
    | MediaKey(key: string)
    | Title(title: string)
    | Unidentified

  function PlaybackIdentity(s: Session): Identity {
    if s.mediaType in {"episode", "series", "show"} && s.series != "" && s.title != "" then
      Episode(s.series, s.season, s.title)
    else if s.mediaType in {"movie", "film"} && s.title != "" then Movie(s.title)
    else if s.mediaKey != "" then MediaKey(s.mediaKey)
    else if s.title != "" then Title(s.title)
    else Unidentified
  }

  /** The sessions of one identity, in order. */
  function Matches(sessions: seq<Session>, id: Identity): seq<Session> {
    GroupOf(PlaybackIdentity, sessions, id)
  }

  function SessionKeys(sessions: seq<Session>): set<string> {
    set s | s in sessions && s.sessionKey != "" :: s.sessionKey
  }

  /** At least two sessions, under at least two session keys, play the same thing. */
  predicate Switches(sessions: seq<Session>, id: Identity) {
    |Matches(sessions, id)| >= 2 && |SessionKeys(Matches(sessions, id))| >= 2
  }

  /** Identities in the order in which the dictionary meets them. */
  function Order(sessions: seq<Session>): seq<Identity> {
    KeysInOrder(PlaybackIdentity, Unidentified, sessions)
  }

  /** The first identity of `order` that is a switch among `sessions`. */
  function FirstSwitch(sessions: seq<Session>, order: seq<Identity>): Identity {
    if order == [] then Unidentified
    else if Switches(sessions, order[0]) then order[0]
    else FirstSwitch(sessions, order[1..])
  }

  function ProbableSwitch(sessions: seq<Session>): Identity {
    FirstSwitch(sessions, Order(sessions))
  }

  method ProbableSwitchIdentity(sessions: seq<Session>) returns (identity: Identity)
    ensures identity == ProbableSwitch(sessions)
  {
    var order, grouped, _ := GroupInOrder(PlaybackIdentity, Unidentified, sessions);
    for i := 0 to |order|
      invariant FirstSwitch(sessions, order) == FirstSwitch(sessions, order[i..])
    {
      var matches := grouped[order[i]];
      if |matches| < 2 || |SessionKeys(matches)| < 2 {
        continue;
      }
      return order[i];
    }
    identity := Unidentified;
  }

  /** The answer is a switch if there is one at all. */
  lemma ProbableSwitchIs(sessions: seq<Session>)
    ensures var id := ProbableSwitch(sessions);
            if id == Unidentified
            then forall i :: 0 <= i < |sessions| && PlaybackIdentity(sessions[i]) != Unidentified ==>
                   !Switches(sessions, PlaybackIdentity(sessions[i]))
            else Switches(sessions, id)
  {
    OrderHolds(sessions);
    FirstSwitchIs(sessions, Order(sessions));
  }

  lemma OrderHolds(sessions: seq<Session>)
    ensures forall i :: 0 <= i < |sessions| && PlaybackIdentity(sessions[i]) != Unidentified ==>
              PlaybackIdentity(sessions[i]) in Order(sessions)
    ensures Unidentified !in Order(sessions)
  {
    KeysAre(PlaybackIdentity, Unidentified, sessions);
    forall i | 0 <= i < |sessions| && PlaybackIdentity(sessions[i]) != Unidentified
      ensures Matches(sessions, PlaybackIdentity(sessions[i])) != []
    {
      GroupCount(PlaybackIdentity, sessions, PlaybackIdentity(sessions[i]), sessions[i]);
      assert sessions[i] in multiset(sessions);
    }
  }

  lemma {:induction false} FirstSwitchIs(sessions: seq<Session>, order: seq<Identity>)
    requires Unidentified !in order
    ensures var id := FirstSwitch(sessions, order);
            if id == Unidentified then forall o :: o in order ==> !Switches(sessions, o) else Switches(sessions, id)
    decreases |order|
  {
    if order != [] && !Switches(sessions, order[0]) {
      FirstSwitchIs(sessions, order[1..]);
      assert forall o :: o in order <==> o == order[0] || o in order[1..];
    }
  }

  // ----- the grace

  datatype Key = Key(policy: int, user: string, identity: Identity)

  type Cache = map<Key, real>

  datatype Call = Call(policy: int, user: string, sessions: seq<Session>, limit: int, count: int, now: real)

  /** `_timestamp(started_at) or _timestamp(last_seen_at)` */
  function StartOf(s: Session): Option<real> {
    if s.startedAt.Some? && s.startedAt.value != 0.0 then s.startedAt else s.lastSeenAt
  }

  /** The newest known start among the sessions of one identity. */
  function NewestStart(sessions: seq<Session>, id: Identity): Option<real> {
    if sessions == [] then None else
      var n := |sessions| - 1;
      var before, start := NewestStart(sessions[..n], id), StartOf(sessions[n]);
      if PlaybackIdentity(sessions[n]) != id || start.None? then before
      else if before.None? || before.value < start.value then start
      else before
  }

  function Evicted(cache: Cache, now: real): Cache {
    map k | k in cache && !(now - cache[k] > RETENTION) :: cache[k]
  }

  function WithoutUser(cache: Cache, policy: int, user: string): Cache {
    map k | k in cache && !(k.policy == policy && k.user == user) :: cache[k]
  }

  /** Anything but one stream over the limit ends every grace of that policy and user. */
  predicate Clears(c: Call) {
    c.count != c.limit + 1
  }

  function KeyOf(c: Call): Key {
    Key(c.policy, c.user, ProbableSwitch(c.sessions))
  }

  predicate Fresh(c: Call) {
    var newest := NewestStart(c.sessions, ProbableSwitch(c.sessions));
    newest.Some? && 0.0 <= c.now - newest.value <= GRACE
  }

  /** should_defer_stream_violation: the cache after the call and the verdict. */
  function Decide(cache: Cache, c: Call): (Cache, bool) {
    var kept := Evicted(cache, c.now);
    if Clears(c) then (WithoutUser(kept, c.policy, c.user), false)
    else if ProbableSwitch(c.sessions) == Unidentified then (kept, false)
    else if KeyOf(c) in kept then (kept, c.now - kept[KeyOf(c)] < GRACE)
    else if !Fresh(c) then (kept, false)
    else (kept[KeyOf(c) := c.now], true)
  }

  class TransitionGrace {
    var firstSeen: Cache

    method ShouldDeferStreamViolation(c: Call) returns (defer: bool)
      modifies this
      ensures (firstSeen, defer) == Decide(old(firstSeen), c)
    {
      firstSeen := map k | k in firstSeen && !(c.now - firstSeen[k] > RETENTION) :: firstSeen[k];
      if c.count <= c.limit || c.count != c.limit + 1 {
        firstSeen := WithoutUser(firstSeen, c.policy, c.user);
        return false;
      }
      var identity := ProbableSwitchIdentity(c.sessions);
      if identity == Unidentified {
        return false;
      }
      var key := Key(c.policy, c.user, identity);
      if key !in firstSeen {
        var newest := NewestStart(c.sessions, identity);
        if newest.None? || !(0.0 <= c.now - newest.value <= GRACE) {
          return false;
        }
        firstSeen := firstSeen[key := c.now];
      }
      defer := c.now - firstSeen[key] < GRACE;
    }
  }

  // ----- runs

  predicate MonotoneClock(run: seq<Call>) {
    forall i, j :: 0 <= i < j < |run| ==> run[i].now <= run[j].now
  }

  /** The cache before call number `i`, starting from an empty cache. */
  function CacheAt(run: seq<Call>, i: nat): Cache
    requires i <= |run|
  {
    if i == 0 then map[] else Decide(CacheAt(run, i - 1), run[i - 1]).0
  }

  predicate Defers(run: seq<Call>, i: nat)
    requires i < |run|
  {
    Decide(CacheAt(run, i), run[i]).1
  }

  /** Call `i` records a first sighting of `key`. */
  predicate Grants(run: seq<Call>, i: nat, key: Key)
    requires i < |run|
  {
    Defers(run, i) && KeyOf(run[i]) == key && key !in Evicted(CacheAt(run, i), run[i].now)
  }

  /** No call in between ends the graces of the key's policy and user. */
  predicate Uncleared(run: seq<Call>, from: nat, to: nat, key: Key)
    requires to <= |run|
  {
    forall i :: from <= i < to ==> !(Clears(run[i]) && run[i].policy == key.policy && run[i].user == key.user)
  }

  /** A sighting in the cache after a call was there before, uncleared, or is the one the call records. */
  lemma SightingAfterCall(cache: Cache, c: Call, key: Key)
    requires key in Decide(cache, c).0
    ensures var after := Decide(cache, c).0;
            if key in Evicted(cache, c.now)
            then after[key] == cache[key] && !(Clears(c) && c.policy == key.policy && c.user == key.user)
            else KeyOf(c) == key && after[key] == c.now && Decide(cache, c).1
  {
  }

  /** Every cached sighting was recorded by an earlier granting call, and not cleared since. */
  lemma {:induction false} SightingWasGranted(run: seq<Call>, i: nat, key: Key) returns (g: nat)
    requires i <= |run| && key in CacheAt(run, i)
    ensures g < i && Grants(run, g, key) && CacheAt(run, i)[key] == run[g].now && Uncleared(run, g + 1, i, key)
    decreases i
  {
    var before := CacheAt(run, i - 1);
    SightingAfterCall(before, run[i - 1], key);
    if key in Evicted(before, run[i - 1].now) {
      g := SightingWasGranted(run, i - 1, key);
    } else {
      g := i - 1;
    }
  }

  /**
   Every deferral is less than 300 s after the recorded first sighting of its key, and less than 600 s after the
   newest start that the granting call saw.
   */
  lemma DeferralIsBounded(run: seq<Call>, j: nat) returns (g: nat)
    requires j < |run| && MonotoneClock(run) && Defers(run, j)
    ensures g <= j && Grants(run, g, KeyOf(run[j])) && Uncleared(run, g + 1, j, KeyOf(run[j]))
    ensures 0.0 <= run[j].now - run[g].now < 300.0
    ensures var newest := NewestStart(run[g].sessions, KeyOf(run[j]).identity);
            newest.Some? && 0.0 <= run[j].now - newest.value < 600.0
  {
    var key := KeyOf(run[j]);
    if key in Evicted(CacheAt(run, j), run[j].now) {
      g := SightingWasGranted(run, j, key);
    } else {
      g := j;
    }
    assert Fresh(run[g]);
  }

  /** A recorded sighting stays until it is cleared or a call comes more than an hour later. */
  lemma {:induction false} SightingStays(run: seq<Call>, g: nat, j: nat, key: Key)
    requires g < j <= |run| && Grants(run, g, key) && Uncleared(run, g + 1, j, key)
    requires forall i :: g < i < j ==> run[i].now - run[g].now <= RETENTION
    ensures key in CacheAt(run, j) && CacheAt(run, j)[key] == run[g].now
    decreases j
  {
    if g < j - 1 {
      SightingStays(run, g, j - 1, key);
    }
  }

  /** Without a clear in between, two grants of one key are more than 3600 s apart. */
  lemma GrantsAreFarApart(run: seq<Call>, g: nat, h: nat, key: Key)
    requires g < h < |run| && MonotoneClock(run) && Grants(run, g, key) && Grants(run, h, key)
    requires Uncleared(run, g + 1, h, key)
    ensures run[h].now - run[g].now > 3600.0
  {
    if run[h].now - run[g].now <= RETENTION {
      SightingStays(run, g, h, key);
    }
  }

  /**
   So a switch that lasts is enforced: from 300 s after a grant until an hour after it, no call defers the key
   unless the key was cleared in between.
   */
  lemma LastingSwitchIsEnforced(run: seq<Call>, g: nat, j: nat, key: Key)
    requires g < j < |run| && MonotoneClock(run) && Grants(run, g, key) && KeyOf(run[j]) == key
    requires Uncleared(run, g + 1, j, key) && 300.0 <= run[j].now - run[g].now <= 3600.0
    ensures !Defers(run, j)
  {
    SightingStays(run, g, j, key);
  }
}
