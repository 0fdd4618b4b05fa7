/**
 What the same-device overlap grace keeps, told by endpoints, machines, times and counted runs: one session stands for
 an endpoint exactly if its machine is known, or if its sessions started together and few runs have said so.
 */
module SyncVerdicts {
  import opened Collections
  import opened Grouping
  import opened Options
  import opened Ordering
  import opened SessionIdentity
  import opened SyncDedupe

  /** `a` was heard of later than `b`: by the last sighting, else by the start; an unknown time is the earliest. */
  predicate HeardLater(a: Session, b: Session) {
    var x, y := if a.lastSeenAt.Some? then a.lastSeenAt else a.startedAt,
                if b.lastSeenAt.Some? then b.lastSeenAt else b.startedAt;
    x.Some? && (y.None? || x.value > y.value)
  }

  /** Both starts are known, or else the last sightings, and at most 120 seconds apart. */
  predicate StartedTogether(a: Session, b: Session) {
    var x, y := if a.startedAt.Some? then a.startedAt else a.lastSeenAt,
                if b.startedAt.Some? then b.startedAt else b.lastSeenAt;
    x.Some? && y.Some? && -120 <= x.value - y.value <= 120
  }

  /** No session of the endpoint was heard of later than number `i`, and none presented before it as late. */
  ghost predicate Represents(sessions: seq<Session>, e: string, i: int) {
    && 0 <= i < |sessions| && EndpointOf(sessions[i]) == e
    && (forall j :: 0 <= j < |sessions| && EndpointOf(sessions[j]) == e ==> !HeardLater(sessions[j], sessions[i]))
    && (forall j :: 0 <= j < i && EndpointOf(sessions[j]) == e ==> HeardLater(sessions[i], sessions[j]))
  }

  /** Some other session of the endpoint did not start together with number `i`. */
  ghost predicate Apart(sessions: seq<Session>, e: string, i: int)
    requires 0 <= i < |sessions|
  {
    exists j :: 0 <= j < |sessions| && j != i && EndpointOf(sessions[j]) == e
                && !StartedTogether(sessions[i], sessions[j])
  }

  lemma AgeOrder(a: Session, b: Session)
    ensures LexLess(AgeKey(a), AgeKey(b)) <==> HeardLater(a, b)
  {
    LexPair(AgeKey(a), AgeKey(b));
  }

  lemma LexPair(a: seq<int>, b: seq<int>)
    requires 1 <= |a| <= 2 && 1 <= |b| <= 2
    ensures LexLess(a, b) <==> a[0] < b[0] || (a[0] == b[0] && |b| == 2 && (|a| == 1 || a[1] < b[1]))
  {
    assert LexLess(a[1..], b[1..]) <==> |b| == 2 && (|a| == 1 || a[1] < b[1]);
  }

  // ----- positions in the group of an endpoint

  /** The places of an endpoint's sessions in the list. */
  function Places(sessions: seq<Session>, e: string): seq<int> {
    if sessions == [] then [] else
      var n := |sessions| - 1;
      Places(sessions[..n], e) + if EndpointOf(sessions[n]) == e then [n] else []
  }

  lemma {:induction false} PlacesAre(sessions: seq<Session>, e: string)
    ensures var at, group := Places(sessions, e), Group(sessions, e);
            && |at| == |group|
            && (forall k :: 0 <= k < |at| ==>
                  0 <= at[k] < |sessions| && sessions[at[k]] == group[k] && EndpointOf(group[k]) == e)
            && (forall k, l :: 0 <= k < l < |at| ==> at[k] < at[l])
    ensures forall j :: 0 <= j < |sessions| && EndpointOf(sessions[j]) == e ==> j in Places(sessions, e)
    decreases |sessions|
  {
    if sessions != [] {
      var n := |sessions| - 1;
      PlacesAre(sessions[..n], e);
      assert forall j :: 0 <= j < n ==> sessions[..n][j] == sessions[j];
    }
  }

  /** The newest session of a bucket is the representative of its endpoint. */
  lemma NewestRepresents(c: Call, e: string) returns (i: nat)
    requires Group(c.sessions, e) != []
    ensures Represents(c.sessions, e, i) && c.sessions[i] == BucketOf(c, e).sorted[0]
  {
    var at, group := Places(c.sessions, e), Group(c.sessions, e);
    PlacesAre(c.sessions, e);
    var k := SortedHead(AgeKey, group);
    i := at[k];
    forall j | 0 <= j < |c.sessions| && EndpointOf(c.sessions[j]) == e
      ensures !HeardLater(c.sessions[j], c.sessions[i])
      ensures j < i ==> HeardLater(c.sessions[i], c.sessions[j])
    {
      var l :| 0 <= l < |at| && at[l] == j;
      AgeOrder(group[l], group[k]);
      AgeOrder(group[k], group[l]);
    }
  }

  /** Some other session of the endpoint equals `s`. */
  ghost predicate Elsewhere(sessions: seq<Session>, e: string, i: int, s: Session) {
    exists j :: 0 <= j < |sessions| && j != i && EndpointOf(sessions[j]) == e && sessions[j] == s
  }

  lemma ElsewhereIff(sessions: seq<Session>, e: string, k: nat, s: Session)
    requires k < |Places(sessions, e)| == |Group(sessions, e)|
    ensures var group := Group(sessions, e);
            Elsewhere(sessions, e, Places(sessions, e)[k], s)
            <==> exists l :: 0 <= l < |group| && l != k && group[l] == s
  {
    var at, group := Places(sessions, e), Group(sessions, e);
    PlacesAre(sessions, e);
    if l :| 0 <= l < |group| && l != k && group[l] == s {
      assert sessions[at[l]] == s && at[l] != at[k];
    }
    if j :| 0 <= j < |sessions| && j != at[k] && EndpointOf(sessions[j]) == e && sessions[j] == s {
      var l :| 0 <= l < |at| && at[l] == j;
      assert group[l] == s;
    }
  }

  /** The sessions of a bucket after the newest are those at the other places of its endpoint. */
  lemma RestOfBucket(c: Call, e: string, i: nat, s: Session)
    requires Represents(c.sessions, e, i)
    ensures var sorted := BucketOf(c, e).sorted;
            sorted != [] && sorted[0] == c.sessions[i] && (s in sorted[1..] <==> Elsewhere(c.sessions, e, i, s))
  {
    var at, group := Places(c.sessions, e), Group(c.sessions, e);
    PlacesAre(c.sessions, e);
    var first := NewestRepresents(c, e);
    assert i == first;
    var k :| 0 <= k < |at| && at[k] == i;
    SortByProperties(AgeKey, group);
    RestOfPermutation(group, SortBy(AgeKey, group), k, s);
    ElsewhereIff(c.sessions, e, k, s);
  }

  lemma OverlapsIff(c: Call, e: string, i: nat)
    requires Represents(c.sessions, e, i)
    ensures BucketOf(c, e).sorted != [] && BucketOf(c, e).sorted[0] == c.sessions[i]
    ensures Overlaps(BucketOf(c, e).sorted) <==> !Apart(c.sessions, e, i)
  {
    var sorted := BucketOf(c, e).sorted;
    RestOfBucket(c, e, i, c.sessions[i]);
    forall j | 0 <= j < |c.sessions| && j != i && EndpointOf(c.sessions[j]) == e
      ensures c.sessions[j] in sorted[1..]
    {
      RestOfBucket(c, e, i, c.sessions[j]);
    }
    forall s | s in sorted[1..] && !StartedTogether(sorted[0], s) ensures Apart(c.sessions, e, i) {
      RestOfBucket(c, e, i, s);
    }
    assert sorted[if sorted == [] then 0 else 1..] == sorted[1..];
    assert forall s :: StartDelta(sorted[0], s) <= TRANSITION_SECONDS <==> StartedTogether(sorted[0], s);
  }

  // ----- the verdict

  /** What a session adds to the key of a weak overlap. */
  function PartOf(s: Session): (string, string, string) {
    (s.server, s.sessionKey, s.family)
  }

  lemma {:induction false} PartsCount(group: seq<Session>, part: (string, string, string))
    ensures PartsOf(group)[part] == |GroupOf(PartOf, group, part)|
    decreases |group|
  {
    if group != [] {
      var n := |group| - 1;
      PartsCount(group[..n], part);
      var parts := seq(|group|, i requires 0 <= i < |group| => (group[i].server, group[i].sessionKey, group[i].family));
      var front := seq(n, i requires 0 <= i < n => (group[..n][i].server, group[..n][i].sessionKey,
                                                    group[..n][i].family));
      assert parts == front + [PartOf(group[n])];
      assert PartsOf(group) == multiset(parts) && PartsOf(group[..n]) == multiset(front);
    }
  }

  /** The overlap's key: policy, user, endpoint, and how often each server, session key and family occurs. */
  lemma KeyIs(c: Call, e: string, part: (string, string, string))
    ensures var key := BucketOf(c, e).key;
            && key.policy == c.policy && key.user == c.user && key.endpoint == e
            && key.parts[part] == |GroupOf(PartOf, BucketOf(c, e).sorted, part)|
  {
    PartsCount(BucketOf(c, e).sorted, part);
  }

  /** Two runs have counted the overlap, the last of them at most 360 seconds ago. */
  predicate Spent(cache: Cache, c: Call, e: string) {
    var key := BucketOf(c, e).key;
    key in cache && c.now - cache[key].ts <= 360 && cache[key].runs >= 2
  }

  /**
   Of several sessions of an endpoint only the representative is kept exactly if its machine is known, or they all
   started together with it and the grace is not spent; otherwise all of them are.
   */
  lemma EndpointKeeps(cache: Cache, c: Call, e: string, i: nat)
    requires |c.sessions| >= 2 && e != "" && Represents(c.sessions, e, i)
    ensures var kept, group := Group(Deduplicate(cache, c).1, e), Group(c.sessions, e);
            if |group| > 1
               && (c.sessions[i].machine != "" || (!Apart(c.sessions, e, i) && !Spent(cache, c, e)))
            then kept == [c.sessions[i]]
            else multiset(kept) == multiset(group)
  {
    var b := BucketOf(c, e);
    CallPerEndpoint(cache, c, e);
    OverlapsIff(c, e, i);
    BucketIs(c, e);
    assert b.strong <==> c.sessions[i].machine != "" by {
      assert b.sorted[0] in b.sorted;
      forall s | s in b.sorted ensures Endpoint(s).1 == Endpoint(b.sorted[0]).1 {
        StrengthByEndpoint(s, b.sorted[0]);
      }
    }
  }

  /** A key is remembered after a call with its count of runs: one more, at this time, if it was just presented. */
  lemma RememberedRuns(cache: Cache, c: Call, k: GraceKey)
    requires |c.sessions| >= 2
    ensures var after, recent := Deduplicate(cache, c).0, k in cache && c.now - cache[k].ts <= 360;
            if Presents(c, k) then k in after && after[k] == Entry(if recent then cache[k].runs + 1 else 1, c.now)
            else (k in after <==> recent) && (k in after ==> after[k] == cache[k])
  {
    CallPerKey(cache, c, k);
  }

  /** A call presents the key of an endpoint if several sessions of it, of no known machine, started together. */
  lemma PresentsIff(c: Call, e: string, i: nat)
    requires Represents(c.sessions, e, i) && e != ""
    ensures Presents(c, BucketOf(c, e).key)
            <==> |Group(c.sessions, e)| > 1 && c.sessions[i].machine == "" && !Apart(c.sessions, e, i)
  {
    var b := BucketOf(c, e);
    OverlapsIff(c, e, i);
    BucketIs(c, e);
    PlacesAre(c.sessions, e);
    KeysAre(EndpointOf, "", c.sessions);
    assert b.strong <==> c.sessions[i].machine != "" by {
      assert b.sorted[0] in b.sorted;
      forall s | s in b.sorted ensures Endpoint(s).1 == Endpoint(b.sorted[0]).1 {
        StrengthByEndpoint(s, b.sorted[0]);
      }
    }
  }
}
