/**
 When the device-switch grace defers a violation, told by the count, the limit and the columns of the sessions, and
 what a call with any other count does to the graces of its policy and user.
 */
module SwitchVerdicts {
  import opened Collections
  import opened Grouping
  import opened Options
  import opened SwitchGrace

  // ----- two sessions that play the same thing

  predicate IsEpisode(s: Session) {
    (s.mediaType == "episode" || s.mediaType == "series" || s.mediaType == "show") && s.series != "" && s.title != ""
  }

  predicate IsMovie(s: Session) {
    (s.mediaType == "movie" || s.mediaType == "film") && s.title != ""
  }

  predicate IsOther(s: Session) {
    !IsEpisode(s) && !IsMovie(s)
  }

  /** Equal series, season and title; else equal movie titles; else equal media keys; else, without those, titles. */
  predicate PlaySame(a: Session, b: Session) {
    || (IsEpisode(a) && IsEpisode(b) && a.series == b.series && a.season == b.season && a.title == b.title)
    || (IsMovie(a) && IsMovie(b) && a.title == b.title)
    || (IsOther(a) && IsOther(b) && a.mediaKey != "" && a.mediaKey == b.mediaKey)
    || (IsOther(a) && IsOther(b) && a.mediaKey == "" && b.mediaKey == "" && a.title != "" && a.title == b.title)
  }

  lemma PlaySameIff(a: Session, b: Session)
    ensures PlaySame(a, b) <==> PlaybackIdentity(a) == PlaybackIdentity(b) && PlaybackIdentity(a) != Unidentified
  {
  }

  /** Sessions `i` and `j` play the same thing under two session keys. */
  predicate SwitchPair(sessions: seq<Session>, i: int, j: int)
    requires 0 <= i < |sessions| && 0 <= j < |sessions|
  {
    && PlaySame(sessions[i], sessions[j])
    && sessions[i].sessionKey != "" && sessions[j].sessionKey != ""
    && sessions[i].sessionKey != sessions[j].sessionKey
  }

  /** Session `k` plays what some two sessions with two session keys play. */
  ghost predicate InSwitch(sessions: seq<Session>, k: int)
    requires 0 <= k < |sessions|
  {
    exists i, j :: 0 <= i < |sessions| && 0 <= j < |sessions| && SwitchPair(sessions, i, j)
                   && PlaySame(sessions[i], sessions[k])
  }

  lemma InMatches(sessions: seq<Session>, id: Identity, s: Session)
    ensures s in Matches(sessions, id) <==> s in sessions && PlaybackIdentity(s) == id
  {
    GroupCount(PlaybackIdentity, sessions, id, s);
    assert s in Matches(sessions, id) <==> s in multiset(Matches(sessions, id));
    assert s in sessions <==> s in multiset(sessions);
  }

  lemma PairSwitches(sessions: seq<Session>, id: Identity, i: nat, j: nat)
    requires i < |sessions| && j < |sessions| && SwitchPair(sessions, i, j) && PlaybackIdentity(sessions[i]) == id
    ensures Switches(sessions, id)
  {
    var a, b, matches := sessions[i], sessions[j], Matches(sessions, id);
    PlaySameIff(a, b);
    InMatches(sessions, id, a);
    InMatches(sessions, id, b);
    var keys := SessionKeys(matches);
    assert a.sessionKey in keys && b.sessionKey in keys;
    SubsetSize({a.sessionKey, b.sessionKey}, keys);
    var m :| 0 <= m < |matches| && matches[m] == a;
    var n :| 0 <= n < |matches| && matches[n] == b;
    assert m != n;
  }

  lemma SwitchHasPair(sessions: seq<Session>, id: Identity) returns (i: nat, j: nat)
    requires Switches(sessions, id) && id != Unidentified
    ensures i < |sessions| && j < |sessions| && SwitchPair(sessions, i, j) && PlaybackIdentity(sessions[i]) == id
  {
    var matches := Matches(sessions, id);
    var keys := SessionKeys(matches);
    var k := Member(keys);
    assert |keys - {k}| == |keys| - 1;
    var l := Member(keys - {k});
    var a :| a in matches && a.sessionKey == k && k != "";
    var b :| b in matches && b.sessionKey == l && l != "";
    InMatches(sessions, id, a);
    InMatches(sessions, id, b);
    i :| 0 <= i < |sessions| && sessions[i] == a;
    j :| 0 <= j < |sessions| && sessions[j] == b;
    PlaySameIff(a, b);
  }

  lemma InSwitchIff(sessions: seq<Session>, k: nat)
    requires k < |sessions|
    ensures InSwitch(sessions, k)
            <==> PlaybackIdentity(sessions[k]) != Unidentified && Switches(sessions, PlaybackIdentity(sessions[k]))
  {
    var id := PlaybackIdentity(sessions[k]);
    if InSwitch(sessions, k) {
      var i, j :| 0 <= i < |sessions| && 0 <= j < |sessions| && SwitchPair(sessions, i, j)
                  && PlaySame(sessions[i], sessions[k]);
      PlaySameIff(sessions[i], sessions[k]);
      PairSwitches(sessions, id, i, j);
    }
    if id != Unidentified && Switches(sessions, id) {
      var i, j := SwitchHasPair(sessions, id);
      PlaySameIff(sessions[i], sessions[k]);
    }
  }

  // ----- which switch is looked at

  /** The first session that takes part in a switch. */
  ghost predicate FirstInSwitch(sessions: seq<Session>, k: int) {
    0 <= k < |sessions| && InSwitch(sessions, k) && forall i :: 0 <= i < k ==> !InSwitch(sessions, i)
  }

  lemma {:induction false} FirstSwitchAt(sessions: seq<Session>, order: seq<Identity>) returns (m: nat)
    requires Unidentified !in order && FirstSwitch(sessions, order) != Unidentified
    ensures m < |order| && order[m] == FirstSwitch(sessions, order) && Switches(sessions, order[m])
    ensures forall l :: 0 <= l < m ==> !Switches(sessions, order[l])
    decreases |order|
  {
    m := 0;
    if !Switches(sessions, order[0]) {
      m := FirstSwitchAt(sessions, order[1..]);
      m := m + 1;
      assert forall l :: 0 < l < m ==> order[l] == order[1..][l - 1];
    }
  }

  lemma {:induction false} LeastOfKey(sessions: seq<Session>, id: Identity, k: nat) returns (least: nat)
    requires k < |sessions| && PlaybackIdentity(sessions[k]) == id
    ensures least <= k && PlaybackIdentity(sessions[least]) == id
    ensures forall i :: 0 <= i < least ==> PlaybackIdentity(sessions[i]) != id
    decreases k
  {
    least := k;
    if i :| 0 <= i < k && PlaybackIdentity(sessions[i]) == id {
      least := LeastOfKey(sessions, id, i);
    }
  }

  /** Identities before the chosen one do not switch, and later ones are first seen later. */
  lemma NoneBefore(sessions: seq<Session>, m: nat, k: nat, q: nat)
    requires m < |Order(sessions)| && q < k < |sessions|
    requires forall l :: 0 <= l < m ==> !Switches(sessions, Order(sessions)[l])
    requires forall i :: 0 <= i < k ==> PlaybackIdentity(sessions[i]) != Order(sessions)[m]
    ensures !InSwitch(sessions, q)
  {
    InSwitchIff(sessions, q);
    if InSwitch(sessions, q) {
      var order := Order(sessions);
      OrderHolds(sessions);
      var l :| 0 <= l < |order| && order[l] == PlaybackIdentity(sessions[q]);
      var p := KeysBySight(PlaybackIdentity, Unidentified, sessions, m, l, q);
    }
  }

  /** The call looks at what the first session that takes part in a switch plays, if there is one. */
  lemma LooksAtFirst(sessions: seq<Session>) returns (k: nat)
    ensures if ProbableSwitch(sessions) == Unidentified
            then forall i :: 0 <= i < |sessions| ==> !InSwitch(sessions, i)
            else FirstInSwitch(sessions, k) && PlaybackIdentity(sessions[k]) == ProbableSwitch(sessions)
  {
    k := 0;
    ProbableSwitchIs(sessions);
    OrderHolds(sessions);
    if ProbableSwitch(sessions) == Unidentified {
      forall i | 0 <= i < |sessions| ensures !InSwitch(sessions, i) {
        InSwitchIff(sessions, i);
      }
    } else {
      var m := FirstSwitchAt(sessions, Order(sessions));
      var i, j := SwitchHasPair(sessions, ProbableSwitch(sessions));
      k := LeastOfKey(sessions, ProbableSwitch(sessions), i);
      InSwitchIff(sessions, k);
      forall q | 0 <= q < k ensures !InSwitch(sessions, q) {
        NoneBefore(sessions, m, k, q);
      }
    }
  }

  // ----- the verdict

  /** A start that is missing or zero is replaced by the last sighting. */
  predicate BeganWithin(s: Session, from: real, to: real) {
    if s.startedAt.None? || s.startedAt.value == 0.0 then s.lastSeenAt.Some? && from <= s.lastSeenAt.value <= to
    else from <= s.startedAt.value <= to
  }

  predicate BeganAfter(s: Session, time: real) {
    if s.startedAt.None? || s.startedAt.value == 0.0 then s.lastSeenAt.Some? && s.lastSeenAt.value > time
    else s.startedAt.value > time
  }

  /** Some session that plays what session `k` plays began within the last 300 s, and none of them in the future. */
  predicate JustSwitched(sessions: seq<Session>, k: int, now: real)
    requires 0 <= k < |sessions|
  {
    && (exists i :: 0 <= i < |sessions| && PlaySame(sessions[i], sessions[k])
                    && BeganWithin(sessions[i], now - 300.0, now))
    && (forall i :: 0 <= i < |sessions| && PlaySame(sessions[i], sessions[k]) ==> !BeganAfter(sessions[i], now))
  }

  lemma {:induction false} NewestStartIs(sessions: seq<Session>, id: Identity)
    ensures var newest := NewestStart(sessions, id);
            && (newest.Some? ==> exists i :: 0 <= i < |sessions| && PlaybackIdentity(sessions[i]) == id
                                             && StartOf(sessions[i]) == newest)
            && (forall i :: 0 <= i < |sessions| && PlaybackIdentity(sessions[i]) == id
                            && StartOf(sessions[i]).Some? ==>
                  newest.Some? && StartOf(sessions[i]).value <= newest.value)
    decreases |sessions|
  {
    if sessions != [] {
      var n := |sessions| - 1;
      NewestStartIs(sessions[..n], id);
      var newest := NewestStart(sessions, id);
      assert forall i :: 0 <= i < n ==> sessions[..n][i] == sessions[i];
      if newest.Some? && newest == NewestStart(sessions[..n], id) {
        var i :| 0 <= i < n && PlaybackIdentity(sessions[..n][i]) == id && StartOf(sessions[..n][i]) == newest;
        assert StartOf(sessions[i]) == newest;
      }
    }
  }

  lemma FreshIff(c: Call, k: nat)
    requires k < |c.sessions| && PlaybackIdentity(c.sessions[k]) == ProbableSwitch(c.sessions) != Unidentified
    ensures Fresh(c) <==> JustSwitched(c.sessions, k, c.now)
  {
    var id := ProbableSwitch(c.sessions);
    NewestStartIs(c.sessions, id);
    forall i | 0 <= i < |c.sessions|
      ensures PlaySame(c.sessions[i], c.sessions[k]) <==> PlaybackIdentity(c.sessions[i]) == id
    {
      PlaySameIff(c.sessions[i], c.sessions[k]);
    }
  }

  /** The key was first seen at most an hour ago. */
  predicate Remembered(cache: Cache, key: Key, now: real) {
    key in cache && now - cache[key] <= 3600.0
  }

  /** The switch of session `k` is looked at, and was first seen less than 300 s ago, or only now and in time. */
  ghost predicate Excused(cache: Cache, c: Call, k: int) {
    && FirstInSwitch(c.sessions, k)
    && var key := Key(c.policy, c.user, PlaybackIdentity(c.sessions[k]));
    if Remembered(cache, key, c.now) then c.now - cache[key] < 300.0 else JustSwitched(c.sessions, k, c.now)
  }

  /** For every cache: a violation is deferred exactly if it is by one stream and a switch excuses it. */
  lemma DefersIff(cache: Cache, c: Call)
    ensures Decide(cache, c).1 <==> c.count == c.limit + 1 && exists k :: Excused(cache, c, k)
  {
    var k := LooksAtFirst(c.sessions);
    forall i | FirstInSwitch(c.sessions, i) ensures ProbableSwitch(c.sessions) != Unidentified && i == k {
    }
    if ProbableSwitch(c.sessions) != Unidentified {
      FreshIff(c, k);
      assert Excused(cache, c, k) <==> exists i :: Excused(cache, c, i);
    }
  }

  /** So only one stream over the limit is ever deferred, and only with two sessions of one thing under two keys. */
  lemma OneOverWithPair(cache: Cache, c: Call) returns (i: nat, j: nat)
    requires Decide(cache, c).1
    ensures c.count == c.limit + 1
    ensures i < |c.sessions| && j < |c.sessions| && SwitchPair(c.sessions, i, j)
  {
    DefersIff(cache, c);
    var k :| Excused(cache, c, k);
    i, j :| 0 <= i < |c.sessions| && 0 <= j < |c.sessions| && SwitchPair(c.sessions, i, j)
            && PlaySame(c.sessions[i], c.sessions[k]);
  }

  /**
   What is remembered after a call: what was first seen at most an hour ago, unless the count is not one over the limit
   and the key is of this policy and user; and the switch that the call defers.
   */
  lemma RememberedAfter(cache: Cache, c: Call, key: Key)
    ensures var (after, deferred) := Decide(cache, c);
            && (key in after <==>
                  || (Remembered(cache, key, c.now)
                      && (c.count == c.limit + 1 || key.policy != c.policy || key.user != c.user))
                  || (deferred && key.policy == c.policy && key.user == c.user
                      && key.identity == ProbableSwitch(c.sessions)))
            && (key in after ==> after[key] == if Remembered(cache, key, c.now) then cache[key] else c.now)
  {
  }

  /** Call `g` of the run defers a switch of the key that is not remembered. */
  predicate NewlyDeferred(run: seq<Call>, g: nat, key: Key)
    requires g < |run|
  {
    Defers(run, g) && !Remembered(CacheAt(run, g), key, run[g].now)
    && run[g].policy == key.policy && run[g].user == key.user
  }

  /**
   After a call with any other count its policy and user start anew: a later deferral for them goes back to a switch
   that was newly deferred in between, less than 300 s before.
   */
  lemma OtherCountsEndGrace(run: seq<Call>, i: nat, j: nat) returns (g: nat)
    requires i < j < |run| && MonotoneClock(run) && Defers(run, j)
    requires run[i].count != run[i].limit + 1 && run[i].policy == run[j].policy && run[i].user == run[j].user
    ensures i < g <= j && NewlyDeferred(run, g, KeyOf(run[j]))
    ensures 0.0 <= run[j].now - run[g].now < 300.0
  {
    g := DeferralIsBounded(run, j);
    OneOverWithPairAt(run, g);
    assert Clears(run[i]);
  }

  lemma OneOverWithPairAt(run: seq<Call>, g: nat)
    requires g < |run| && Defers(run, g)
    ensures run[g].count == run[g].limit + 1
  {
    var i, j := OneOverWithPair(CacheAt(run, g), run[g]);
  }
}
