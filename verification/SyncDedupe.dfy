/** The same-device overlap grace of app/core/stream_sync_dedupe.py. */
module SyncDedupe {
  import opened Ordering
  import opened Grouping
  import opened SessionIdentity

  const TRANSITION_SECONDS := 120
  const MEMORY_SECONDS := 300
  const GRACE_RUNS := 2

  /** The eviction age: the larger of three transition times and the household memory, 360 seconds. */
  const TTL := if TRANSITION_SECONDS * 3 >= MEMORY_SECONDS then TRANSITION_SECONDS * 3 else MEMORY_SECONDS

  /** _grace_key, with the sorted list of parts as a multiset. */
  datatype GraceKey = GraceKey(policy: int, user: string, endpoint: string, parts: multiset<(string, string, string)>)

  datatype Entry = Entry(runs: int, ts: int)

  type Cache = map<GraceKey, Entry>

  datatype Call = Call(policy: int, user: string, sessions: seq<Session>, now: int)

  function Evicted(cache: Cache, now: int): Cache {
    map k | k in cache && !(now - cache[k].ts > TTL) :: cache[k]
  }

  function EndpointOf(s: Session): string {
    Endpoint(s).0
  }

  /** The sessions of one endpoint, or of none if it is "", in order. */
  function Group(sessions: seq<Session>, endpoint: string): seq<Session> {
    GroupOf(EndpointOf, sessions, endpoint)
  }

  /** The endpoints in the order of their first session. */
  function Endpoints(sessions: seq<Session>): seq<string> {
    KeysInOrder(EndpointOf, "", sessions)
  }

  predicate Strong(group: seq<Session>) {
    exists s :: s in group && Endpoint(s).1
  }

  /** Newest first, sessions without a time last. */
  function AgeKey(s: Session): seq<int> {
    var seen := Or(s.lastSeenAt, s.startedAt);
    if seen.None? then [1] else [0, -seen.value]
  }

  /** All start within the transition time of the first one. */
  predicate Overlaps(sorted: seq<Session>) {
    forall s :: s in sorted[if sorted == [] then 0 else 1..] ==> StartDelta(sorted[0], s) <= TRANSITION_SECONDS
  }

  function PartsOf(group: seq<Session>): multiset<(string, string, string)> {
    multiset(seq(|group|, i requires 0 <= i < |group| => (group[i].server, group[i].sessionKey, group[i].family)))
  }

  /** The sessions of one endpoint, newest first, with what decides their fate. */
  datatype Bucket = Bucket(endpoint: string, sorted: seq<Session>, strong: bool, overlaps: bool, key: GraceKey)

  function BucketOf(c: Call, endpoint: string): Bucket {
    var sorted := SortBy(AgeKey, Group(c.sessions, endpoint));
    Bucket(endpoint, sorted, Strong(sorted), Overlaps(sorted), GraceKey(c.policy, c.user, endpoint, PartsOf(sorted)))
  }

  function BucketsOf(c: Call, order: seq<string>): seq<Bucket> {
    seq(|order|, i requires 0 <= i < |order| => BucketOf(c, order[i]))
  }

  /** Several sessions of one weak endpoint that started together. */
  predicate WeakOverlap(b: Bucket) {
    |b.sorted| > 1 && !b.strong && b.overlaps
  }

  function RunsOf(cache: Cache, key: GraceKey): int {
    if key in cache then cache[key].runs else 0
  }

  /** What one endpoint keeps, given the runs counted for it before. */
  function Kept(b: Bucket, runs: int): seq<Session> {
    if |b.sorted| <= 1 then b.sorted
    else if b.strong then [b.sorted[0]]
    else if b.overlaps && runs + 1 <= GRACE_RUNS then [b.sorted[0]]
    else b.sorted
  }

  function CacheAfter(now: int, cache: Cache, b: Bucket): Cache {
    if WeakOverlap(b) then cache[b.key := Entry(RunsOf(cache, b.key) + 1, now)] else cache
  }

  /** One pass of the loop over endpoints: the cache and everything kept so far. */
  function Pass(now: int, s: (Cache, seq<Session>), b: Bucket): (Cache, seq<Session>) {
    (CacheAfter(now, s.0, b), s.1 + Kept(b, RunsOf(s.0, b.key)))
  }

  function Loop(now: int, s: (Cache, seq<Session>), bs: seq<Bucket>): (Cache, seq<Session>) {
    if bs == [] then s else
      var n := |bs| - 1;
      Pass(now, Loop(now, s, bs[..n]), bs[n])
  }

  /** deduplicate_user_stream_sessions: the cache after the call and the sessions kept. */
  function Deduplicate(cache: Cache, c: Call): (Cache, seq<Session>) {
    if |c.sessions| < 2 then (cache, c.sessions)
    else Loop(c.now, (Evicted(cache, c.now), Group(c.sessions, "")), BucketsOf(c, Endpoints(c.sessions)))
  }

  class SyncGrace {
    var cache: Cache

    method DeduplicateUserStreamSessions(c: Call) returns (kept: seq<Session>)
      modifies this
      ensures (cache, kept) == Deduplicate(old(cache), c)
    {
      if |c.sessions| < 2 {
        return c.sessions;
      }
      cache := map k | k in cache && !(c.now - cache[k].ts > TTL) :: cache[k];
      var order, groups, passthrough := GroupInOrder(EndpointOf, "", c.sessions);
      kept := KeepFromEndpoints(c, order, groups, passthrough);
    }

    method KeepFromEndpoints(c: Call, order: seq<string>, groups: map<string, seq<Session>>, first: seq<Session>)
      returns (kept: seq<Session>)
      requires forall e :: e in order ==> e in groups && groups[e] == Group(c.sessions, e)
      modifies this
      ensures (cache, kept) == Loop(c.now, (old(cache), first), BucketsOf(c, order))
    {
      kept := first;
      ghost var bs := BucketsOf(c, order);
      for i := 0 to |order|
        invariant (cache, kept) == Loop(c.now, (old(cache), first), bs[..i])
      {
        assert bs[..i + 1][..i] == bs[..i];
        kept := KeepFromEndpoint(c, order[i], groups[order[i]], kept);
      }
      assert bs[..|bs|] == bs;
    }

    /** The body of the loop over endpoint groups. */
    method KeepFromEndpoint(c: Call, endpoint: string, bucket: seq<Session>, kept: seq<Session>)
      returns (extended: seq<Session>)
      requires bucket == Group(c.sessions, endpoint)
      modifies this
      ensures (cache, extended) == Pass(c.now, (old(cache), kept), BucketOf(c, endpoint))
    {
      var sorted := SortBy(AgeKey, bucket);
      if |sorted| <= 1 {
        return kept + sorted;
      }
      if Strong(sorted) {
        return kept + [sorted[0]];
      }
      if !Overlaps(sorted) {
        return kept + sorted;
      }
      var key := GraceKey(c.policy, c.user, endpoint, PartsOf(sorted));
      var runs := RunsOf(cache, key) + 1;
      cache := cache[key := Entry(runs, c.now)];
      extended := kept + if runs <= GRACE_RUNS then [sorted[0]] else sorted;
    }
  }

  // ----- one call, seen from one endpoint

  /** A bucket: the sessions of its endpoint, each as often as presented, the newest first. */
  lemma BucketIs(c: Call, e: string)
    ensures Tidy(BucketOf(c, e)) && BucketOf(c, e).endpoint == e
    ensures multiset(BucketOf(c, e).sorted) == multiset(Group(c.sessions, e))
    ensures forall s :: s in BucketOf(c, e).sorted <==> s in c.sessions && EndpointOf(s) == e
    ensures forall s :: s in BucketOf(c, e).sorted ==> LexLeq(AgeKey(BucketOf(c, e).sorted[0]), AgeKey(s))
  {
    var sorted := BucketOf(c, e).sorted;
    SortByProperties(AgeKey, Group(c.sessions, e));
    forall s ensures s in sorted <==> s in c.sessions && EndpointOf(s) == e {
      GroupCount(EndpointOf, c.sessions, e, s);
      assert s in sorted <==> s in multiset(Group(c.sessions, e));
      assert s in c.sessions <==> s in multiset(c.sessions);
    }
    if sorted != [] {
      LexTotal(AgeKey(sorted[0]), AgeKey(sorted[0]));
    }
  }

  ghost predicate Tidy(b: Bucket) {
    && b.key.endpoint == b.endpoint
    && (forall s :: s in b.sorted ==> EndpointOf(s) == b.endpoint)
    && (b.strong ==> b.sorted != [] && b.endpoint != "")
  }

  /** One bucket per endpoint. */
  ghost predicate Separate(bs: seq<Bucket>) {
    && (forall i :: 0 <= i < |bs| ==> Tidy(bs[i]))
    && (forall i, j :: 0 <= i < j < |bs| ==> bs[i].endpoint != bs[j].endpoint)
  }

  lemma BucketsAreSeparate(c: Call, order: seq<string>)
    requires Distinct(order)
    ensures Separate(BucketsOf(c, order))
  {
    var bs := BucketsOf(c, order);
    forall i | 0 <= i < |bs| ensures Tidy(bs[i]) && bs[i].endpoint == order[i] {
      BucketIs(c, order[i]);
    }
  }

  lemma KeptIs(b: Bucket, runs: int)
    requires Tidy(b)
    ensures forall s :: s in Kept(b, runs) ==> EndpointOf(s) == b.endpoint
    ensures multiset(Kept(b, runs)) <= multiset(b.sorted)
    ensures b.sorted != [] ==> Kept(b, runs) != []
    ensures b.strong ==> Kept(b, runs) == [b.sorted[0]]
  {
    if b.sorted != [] {
      assert b.sorted == [b.sorted[0]] + b.sorted[1..];
    }
  }

  lemma PassPerEndpoint(now: int, s: (Cache, seq<Session>), b: Bucket, e: string)
    requires Tidy(b)
    ensures Group(Pass(now, s, b).1, e)
            == Group(s.1, e) + if e == b.endpoint then Kept(b, RunsOf(s.0, b.key)) else []
  {
    var kept := Kept(b, RunsOf(s.0, b.key));
    KeptIs(b, RunsOf(s.0, b.key));
    GroupJoin(EndpointOf, s.1, kept, e);
    GroupOfOneKey(EndpointOf, kept, b.endpoint, e);
  }

  lemma {:induction false} LoopSkips(now: int, s: (Cache, seq<Session>), bs: seq<Bucket>, e: string)
    requires Separate(bs) && forall i :: 0 <= i < |bs| ==> bs[i].endpoint != e
    ensures Group(Loop(now, s, bs).1, e) == Group(s.1, e)
    decreases |bs|
  {
    if bs != [] {
      var n := |bs| - 1;
      LoopSkips(now, s, bs[..n], e);
      PassPerEndpoint(now, Loop(now, s, bs[..n]), bs[n], e);
    }
  }

  /** The loop over all endpoints treats each of them as if it were alone. */
  lemma {:induction false} LoopPerEndpoint(now: int, s: (Cache, seq<Session>), bs: seq<Bucket>, i: nat)
    requires Separate(bs) && i < |bs|
    ensures Group(Loop(now, s, bs).1, bs[i].endpoint)
            == Group(s.1, bs[i].endpoint) + Kept(bs[i], RunsOf(s.0, bs[i].key))
    decreases |bs|
  {
    var n := |bs| - 1;
    var before := Loop(now, s, bs[..n]);
    assert Loop(now, s, bs) == Pass(now, before, bs[n]);
    if i == n {
      LoopSkips(now, s, bs[..n], bs[n].endpoint);
      LoopLeavesKey(now, s, bs[..n], bs[n].key);
      PassPerEndpoint(now, before, bs[n], bs[n].endpoint);
      assert RunsOf(before.0, bs[n].key) == RunsOf(s.0, bs[n].key);
    } else {
      LoopPerEndpoint(now, s, bs[..n], i);
      assert bs[..n][i] == bs[i] && bs[i].endpoint != bs[n].endpoint;
      PassPerEndpoint(now, before, bs[n], bs[i].endpoint);
    }
  }

  lemma {:induction false} LoopLeavesKey(now: int, s: (Cache, seq<Session>), bs: seq<Bucket>, k: GraceKey)
    requires forall i :: 0 <= i < |bs| ==> WeakOverlap(bs[i]) ==> bs[i].key != k
    ensures KeyEffect(now, s.0, Loop(now, s, bs).0, k, false)
    decreases |bs|
  {
    if bs != [] {
      LoopLeavesKey(now, s, bs[..|bs| - 1], k);
    }
  }

  lemma {:induction false} LoopCountsKey(now: int, s: (Cache, seq<Session>), bs: seq<Bucket>, i: nat)
    requires Separate(bs) && i < |bs| && WeakOverlap(bs[i])
    ensures KeyEffect(now, s.0, Loop(now, s, bs).0, bs[i].key, true)
    decreases |bs|
  {
    var n := |bs| - 1;
    if i == n {
      LoopLeavesKey(now, s, bs[..n], bs[n].key);
    } else {
      LoopCountsKey(now, s, bs[..n], i);
    }
  }

  /** A presented key counts one more run; any other key keeps its entry. */
  ghost predicate KeyEffect(now: int, before: Cache, after: Cache, k: GraceKey, presented: bool) {
    if presented then k in after && after[k] == Entry(RunsOf(before, k) + 1, now)
    else (k in after <==> k in before) && (k in after ==> after[k] == before[k])
  }

  /** The call reaches the grace decision with this key. */
  predicate Presents(c: Call, k: GraceKey) {
    && |c.sessions| >= 2
    && k.endpoint in Endpoints(c.sessions)
    && WeakOverlap(BucketOf(c, k.endpoint))
    && k == BucketOf(c, k.endpoint).key
  }

  /** The runs counted for a key when the call decides. */
  function RunsBefore(cache: Cache, c: Call, k: GraceKey): int {
    RunsOf(Evicted(cache, c.now), k)
  }

  lemma CallPerKey(cache: Cache, c: Call, k: GraceKey)
    ensures var after := Deduplicate(cache, c).0;
            if |c.sessions| < 2 then after == cache
            else KeyEffect(c.now, Evicted(cache, c.now), after, k, Presents(c, k))
  {
    if |c.sessions| >= 2 {
      var order := Endpoints(c.sessions);
      var s := (Evicted(cache, c.now), Group(c.sessions, ""));
      KeysAre(EndpointOf, "", c.sessions);
      BucketsAreSeparate(c, order);
      if Presents(c, k) {
        var i :| 0 <= i < |order| && order[i] == k.endpoint;
        LoopCountsKey(c.now, s, BucketsOf(c, order), i);
      } else {
        LoopLeavesKey(c.now, s, BucketsOf(c, order), k);
      }
    }
  }

  /** What one call keeps of each endpoint; sessions without an endpoint are all kept. */
  lemma CallPerEndpoint(cache: Cache, c: Call, e: string)
    requires |c.sessions| >= 2
    ensures Group(Deduplicate(cache, c).1, e)
            == if e == "" then Group(c.sessions, "")
               else Kept(BucketOf(c, e), RunsBefore(cache, c, BucketOf(c, e).key))
  {
    var s := (Evicted(cache, c.now), Group(c.sessions, ""));
    var order := Endpoints(c.sessions);
    KeysAre(EndpointOf, "", c.sessions);
    BucketsAreSeparate(c, order);
    PassthroughIsBlank(c.sessions, e);
    if e in order {
      var i :| 0 <= i < |order| && order[i] == e;
      LoopPerEndpoint(c.now, s, BucketsOf(c, order), i);
    } else {
      LoopSkips(c.now, s, BucketsOf(c, order), e);
      BucketIs(c, e);
    }
  }

  lemma PassthroughIsBlank(sessions: seq<Session>, e: string)
    ensures Group(Group(sessions, ""), e) == if e == "" then Group(sessions, "") else []
  {
    var blank := Group(sessions, "");
    forall x | x in blank ensures EndpointOf(x) == "" {
      GroupCount(EndpointOf, sessions, "", x);
      assert x in multiset(blank);
    }
    GroupOfOneKey(EndpointOf, blank, "", e);
  }

  // ----- main results

  /**
   Nothing is invented or doubled; every endpoint keeps a session; a strong endpoint (one machine) keeps exactly
   one, its newest; sessions without an endpoint all stay.
   */
  lemma KeepsEveryEndpoint(cache: Cache, c: Call, e: string)
    requires |c.sessions| >= 2
    ensures var kept := Deduplicate(cache, c).1;
            && multiset(kept) <= multiset(c.sessions)
            && (Group(c.sessions, e) != [] ==> Group(kept, e) != [])
            && Group(kept, "") == Group(c.sessions, "")
            && (BucketOf(c, e).strong ==> Group(kept, e) == [BucketOf(c, e).sorted[0]])
  {
    var kept := Deduplicate(cache, c).1;
    forall s ensures multiset(kept)[s] <= multiset(c.sessions)[s] {
      NothingDoubled(cache, c, s);
    }
    var b := BucketOf(c, e);
    BucketIs(c, e);
    CallPerEndpoint(cache, c, e);
    CallPerEndpoint(cache, c, "");
    KeptIs(b, RunsBefore(cache, c, b.key));
    assert Group(c.sessions, e) != [] ==> |multiset(b.sorted)| > 0;
  }

  lemma NothingDoubled(cache: Cache, c: Call, s: Session)
    requires |c.sessions| >= 2
    ensures multiset(Deduplicate(cache, c).1)[s] <= multiset(c.sessions)[s]
  {
    var own := EndpointOf(s);
    var b := BucketOf(c, own);
    BucketIs(c, own);
    CallPerEndpoint(cache, c, own);
    GroupCount(EndpointOf, Deduplicate(cache, c).1, own, s);
    GroupCount(EndpointOf, c.sessions, own, s);
    KeptIs(b, RunsBefore(cache, c, b.key));
  }

  // ----- runs

  function CacheAt(cache: Cache, run: seq<Call>, i: nat): Cache
    requires i <= |run|
  {
    if i == 0 then cache else Deduplicate(CacheAt(cache, run, i - 1), run[i - 1]).0
  }

  /** A call as one key sees it: its time and whether it presents the key. */
  datatype Sight = Sight(now: int, presents: bool)

  function Sights(run: seq<Call>, k: GraceKey): seq<Sight> {
    seq(|run|, i requires 0 <= i < |run| => Sight(run[i].now, Presents(run[i], k)))
  }

  predicate MonotoneClock(sights: seq<Sight>) {
    forall i, j :: 0 <= i < j < |sights| ==> sights[i].now <= sights[j].now
  }

  /** How often the first `i` calls presented the key. */
  function Presentations(sights: seq<Sight>, i: nat): nat
    requires i <= |sights|
  {
    if i == 0 then 0 else Presentations(sights, i - 1) + if sights[i - 1].presents then 1 else 0
  }

  /** The time of the latest of the first `i` calls that presented the key. */
  function Latest(sights: seq<Sight>, i: nat): int
    requires i <= |sights| && Presentations(sights, i) > 0
  {
    if sights[i - 1].presents then sights[i - 1].now else Latest(sights, i - 1)
  }

  /** The calls that present the key come at most 360 seconds apart. */
  ghost predicate Steady(sights: seq<Sight>) {
    forall j :: 0 <= j < |sights| && sights[j].presents && Presentations(sights, j) > 0 ==>
      sights[j].now - Latest(sights, j) <= 360
  }

  /** The cache counts the presentations, until some call comes more than 360 seconds after the latest one. */
  ghost predicate Counted(cache: Cache, k: GraceKey, sights: seq<Sight>, i: nat)
    requires i <= |sights|
  {
    var p := Presentations(sights, i);
    if p == 0 then k !in cache
    else if k in cache then cache[k] == Entry(p, Latest(sights, i))
    else exists m :: 0 <= m < i && sights[m].now - Latest(sights, i) > 360
  }

  lemma RunsAreCounted(cache: Cache, k: GraceKey, sights: seq<Sight>, j: nat)
    requires j < |sights| && Steady(sights) && MonotoneClock(sights) && sights[j].presents
    requires Counted(cache, k, sights, j)
    ensures RunsOf(Evicted(cache, sights[j].now), k) == Presentations(sights, j)
  {
    if Presentations(sights, j) > 0 {
      assert sights[j].now - Latest(sights, j) <= TTL;
      assert k in cache;
    }
  }

  /** A call as the cache entry of one key sees it. */
  ghost predicate Moves(before: Cache, after: Cache, k: GraceKey, sight: Sight) {
    || (after == before && !sight.presents)
    || KeyEffect(sight.now, Evicted(before, sight.now), after, k, sight.presents)
  }

  lemma CallCounts(cache: Cache, after: Cache, k: GraceKey, sights: seq<Sight>, i: nat)
    requires i < |sights| && Steady(sights) && MonotoneClock(sights) && Counted(cache, k, sights, i)
    requires Moves(cache, after, k, sights[i])
    ensures Counted(after, k, sights, i + 1)
  {
    if sights[i].presents {
      RunsAreCounted(cache, k, sights, i);
    } else if Presentations(sights, i) > 0 {
      assert Latest(sights, i + 1) == Latest(sights, i);
      if k in cache && k !in after {
        assert sights[i].now - Latest(sights, i + 1) > TTL;
      }
    }
  }

  lemma {:induction false} CountsAlong(caches: seq<Cache>, k: GraceKey, sights: seq<Sight>, i: nat)
    requires |caches| == |sights| + 1 && i <= |sights| && Steady(sights) && MonotoneClock(sights)
    requires k !in caches[0] && forall j :: 0 <= j < |sights| ==> Moves(caches[j], caches[j + 1], k, sights[j])
    ensures Counted(caches[i], k, sights, i)
    decreases i
  {
    if i > 0 {
      CountsAlong(caches, k, sights, i - 1);
      CallCounts(caches[i - 1], caches[i], k, sights, i - 1);
    }
  }

  lemma CallMoves(cache: Cache, c: Call, k: GraceKey)
    ensures Moves(cache, Deduplicate(cache, c).0, k, Sight(c.now, Presents(c, k)))
  {
    CallPerKey(cache, c, k);
  }

  lemma CacheCounts(cache: Cache, run: seq<Call>, i: nat, k: GraceKey)
    requires i <= |run| && k !in cache && Steady(Sights(run, k)) && MonotoneClock(Sights(run, k))
    ensures Counted(CacheAt(cache, run, i), k, Sights(run, k), i)
  {
    var caches := seq(|run| + 1, j requires 0 <= j <= |run| => CacheAt(cache, run, j));
    forall j | 0 <= j < |run| ensures Moves(caches[j], caches[j + 1], k, Sights(run, k)[j]) {
      CallMoves(caches[j], run[j], k);
    }
    CountsAlong(caches, k, Sights(run, k), i);
  }

  /**
   While the calls that present one weak overlap come at most 360 seconds apart, its sessions are collapsed to
   the newest one in the first two of them only; from the third on all of them count.
   */
  lemma GraceLastsTwoRuns(cache: Cache, run: seq<Call>, j: nat, k: GraceKey)
    requires j < |run| && k !in cache && Presents(run[j], k)
    requires Steady(Sights(run, k)) && MonotoneClock(Sights(run, k))
    ensures var kept := Deduplicate(CacheAt(cache, run, j), run[j]).1;
            var sorted := BucketOf(run[j], k.endpoint).sorted;
            Group(kept, k.endpoint) == if Presentations(Sights(run, k), j) < 2 then [sorted[0]] else sorted
  {
    var before := CacheAt(cache, run, j);
    CacheCounts(cache, run, j, k);
    KeysAre(EndpointOf, "", run[j].sessions);
    CallPerEndpoint(before, run[j], k.endpoint);
    RunsAreCounted(before, k, Sights(run, k), j);
  }

  /** After a pause longer than 360 seconds the grace starts anew. */
  lemma PauseRestartsGrace(cache: Cache, c: Call, k: GraceKey)
    requires k in cache && c.now - cache[k].ts > 360 && Presents(c, k)
    ensures Group(Deduplicate(cache, c).1, k.endpoint) == [BucketOf(c, k.endpoint).sorted[0]]
  {
    KeysAre(EndpointOf, "", c.sessions);
    CallPerEndpoint(cache, c, k.endpoint);
  }
}
