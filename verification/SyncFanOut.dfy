/**
 The forced full Plex synchronisation of app/core/user_sync_jobs.py: one job per linked Plex server, for the
 media account that get_preferred_plex_media_user_id picks there.
 */
module SyncFanOut {
  import opened Collections
  import opened Options
  import opened AccessJobs
  import opened AccessJobRuns

  datatype Role = Owner | Unfriended | Friend

  /** A media_users row joined with its server; blank texts are already recognised. */
  datatype Account = Account(
    server: int,
    user: Option<int>,
    isPlex: bool,
    onPlexServer: bool,
    role: Role,
    hasAccepted: bool,
    hasExternalId: bool)

  type Accounts = map<int, Account>

  /** The ORDER BY shared by both queries: a is strictly preferred to b on one server. */
  predicate Preferred(accounts: Accounts, a: int, b: int)
    requires a in accounts && b in accounts
  {
    var x, y := accounts[a], accounts[b];
    if x.role.Owner? != y.role.Owner? then y.role.Owner?
    else if x.hasAccepted != y.hasAccepted then x.hasAccepted
    else if x.hasExternalId != y.hasExternalId then x.hasExternalId
    else if x.role.Unfriended? != y.role.Unfriended? then y.role.Unfriended?
    else a < b
  }

  predicate OnServer(accounts: Accounts, user: int, server: int, id: int) {
    id in accounts && accounts[id].user == Some(user) && accounts[id].server == server && accounts[id].isPlex
  }

  /** The answer of get_preferred_plex_media_user_id. */
  predicate IsPreferred(accounts: Accounts, user: int, server: int, id: int) {
    && OnServer(accounts, user, server, id)
    && forall o :: o in accounts && OnServer(accounts, user, server, o) && o != id ==> Preferred(accounts, id, o)
  }

  method GetPreferredPlexMediaUserId(accounts: Accounts, user: int, server: int) returns (id: Option<int>)
    ensures id.Some? ==> IsPreferred(accounts, user, server, id.value)
    ensures id.None? ==> forall o :: !OnServer(accounts, user, server, o)
  {
    if o :| o in accounts && OnServer(accounts, user, server, o) {
      ghost var found := PreferredExists(accounts, user, server, o);
      var best :| best in accounts && IsPreferred(accounts, user, server, best);
      id := Some(best);
    } else {
      id := None;
    }
  }

  lemma PreferredIsTotalOrder(accounts: Accounts, a: int, b: int, c: int)
    requires a in accounts && b in accounts && c in accounts
    ensures a != b ==> Preferred(accounts, a, b) != Preferred(accounts, b, a)
    ensures Preferred(accounts, a, b) && Preferred(accounts, b, c) ==> Preferred(accounts, a, c)
  {
  }

  lemma PreferredExists(accounts: Accounts, user: int, server: int, o: int) returns (best: int)
    requires OnServer(accounts, user, server, o)
    ensures IsPreferred(accounts, user, server, best)
  {
    var ids := set i | i in accounts && OnServer(accounts, user, server, i);
    assert o in ids;
    best := LeastOf(ids, (a, b) => a in accounts && b in accounts && Preferred(accounts, a, b));
    forall i | OnServer(accounts, user, server, i) && i != best ensures Preferred(accounts, best, i) {
      assert i in ids;
    }
  }

  // ----- the fan-out

  /** A row of the fan-out's SELECT. */
  datatype Row = Row(server: int, account: int)

  predicate Linked(accounts: Accounts, user: int, row: Row) {
    OnServer(accounts, user, row.server, row.account) && accounts[row.account].onPlexServer
  }

  predicate RowBefore(accounts: Accounts, a: Row, b: Row)
    requires a.account in accounts && b.account in accounts
  {
    a.server < b.server || (a.server == b.server && Preferred(accounts, a.account, b.account))
  }

  /** `rows` is the ordered answer: every linked account, by server and then by preference. */
  ghost predicate Selected(accounts: Accounts, user: int, rows: seq<Row>) {
    && (forall i :: 0 <= i < |rows| ==> Linked(accounts, user, rows[i]))
    && (forall row :: Linked(accounts, user, row) ==> row in rows)
    && (forall i, j :: 0 <= i < j < |rows| ==> RowBefore(accounts, rows[i], rows[j]))
  }

  /** The server's type is a property of the server. */
  ghost predicate ServersAgree(accounts: Accounts) {
    forall a, b :: a in accounts && b in accounts && accounts[a].server == accounts[b].server ==>
      accounts[a].onPlexServer == accounts[b].onPlexServer
  }

  function Servers(rows: seq<Row>): set<int> {
    set row | row in rows :: row.server
  }

  /** The rows that reach the insertion: the first of each server. */
  function Firsts(rows: seq<Row>): seq<Row> {
    if rows == [] then [] else
      var n := |rows| - 1;
      Firsts(rows[..n]) + if rows[n].server in Servers(rows[..n]) then [] else [rows[n]]
  }

  /** The texts of a request: dedupe key and JSON payload for a server and its account, and the cancel reason. */
  datatype Texts = Texts(key: Row -> string, payload: Row -> string, cancelReason: string)

  function SyncRequest(user: int, texts: Texts, row: Row): Request {
    Request("plex", Sync, user, row.server, None, texts.key(row), texts.payload(row),
            texts.cancelReason)
  }

  function QueueOne(jobs: Jobs, nextId: int, queued: int, r: Request, now: int): (Jobs, int, int) {
    var (after, inserted) := Queue(jobs, nextId, r, now);
    if inserted then (after, nextId + 1, queued + 1) else (after, nextId, queued)
  }

  /** The job table after the insertions for `calls`, the next id, and how many rows were inserted. */
  function QueueAll(jobs: Jobs, nextId: int, user: int, texts: Texts, calls: seq<Row>, now: int)
    : (Jobs, int, int)
  {
    if calls == [] then (jobs, nextId, 0) else
      var n := |calls| - 1;
      var (before, id, queued) := QueueAll(jobs, nextId, user, texts, calls[..n], now);
      QueueOne(before, id, queued, SyncRequest(user, texts, calls[n]), now)
  }

  /** One pass of the loop: the insertion for `row`. */
  method QueueSync(db: MediaJobs, user: int, row: Row, texts: Texts, now: int, queued: int)
    returns (total: int)
    modifies db
    ensures (db.jobs, db.nextId, total)
            == QueueOne(old(db.jobs), old(db.nextId), queued, SyncRequest(user, texts, row), now)
  {
    var outcome := db.QueueAccessJob(SyncRequest(user, texts, row), now);
    total := if outcome.inserted then queued + 1 else queued;
  }

  method ForceQueueFullPlexSync(db: MediaJobs, user: int, rows: seq<Row>, texts: Texts, now: int)
    returns (queued: int)
    modifies db
    ensures (db.jobs, db.nextId, queued)
            == QueueAll(old(db.jobs), old(db.nextId), user, texts, Firsts(rows), now)
  {
    queued := 0;
    var seenServers: set<int> := {};
    ghost var calls: seq<Row> := [];
    for i := 0 to |rows|
      invariant seenServers == Servers(rows[..i]) && calls == Firsts(rows[..i])
      invariant (db.jobs, db.nextId, queued) == QueueAll(old(db.jobs), old(db.nextId), user, texts, calls, now)
    {
      FirstsStep(rows, i);
      var row := rows[i];
      if row.server in seenServers {
        continue;
      }
      seenServers := seenServers + {row.server};
      QueueAllStep(old(db.jobs), old(db.nextId), user, texts, calls, row, now);
      queued := QueueSync(db, user, row, texts, now, queued);
      calls := calls + [row];
    }
    assert rows[..|rows|] == rows;
  }

  lemma FirstsStep(rows: seq<Row>, i: nat)
    requires i < |rows|
    ensures Servers(rows[..i + 1]) == Servers(rows[..i]) + {rows[i].server}
    ensures Firsts(rows[..i + 1])
            == Firsts(rows[..i]) + if rows[i].server in Servers(rows[..i]) then [] else [rows[i]]
  {
    assert rows[..i + 1][..i] == rows[..i];
    assert rows[..i + 1] == rows[..i] + [rows[i]];
  }

  lemma QueueAllStep(jobs: Jobs, nextId: int, user: int, texts: Texts, calls: seq<Row>, row: Row, now: int)
    ensures var (before, id, queued) := QueueAll(jobs, nextId, user, texts, calls, now);
            QueueAll(jobs, nextId, user, texts, calls + [row], now)
            == QueueOne(before, id, queued, SyncRequest(user, texts, row), now)
  {
    assert (calls + [row])[..|calls|] == calls;
  }

  // ----- main results

  /** `c` is the first row of its server. */
  ghost predicate IsFirst(rows: seq<Row>, i: int, c: Row) {
    0 <= i < |rows| && rows[i] == c && c.server !in Servers(rows[..i])
  }

  lemma {:induction false} FirstsAreFirst(rows: seq<Row>, c: Row) returns (i: int)
    requires c in Firsts(rows)
    ensures IsFirst(rows, i, c)
    decreases |rows|
  {
    var n := |rows| - 1;
    if c in Firsts(rows[..n]) {
      i := FirstsAreFirst(rows[..n], c);
      assert rows[..n][..i] == rows[..i];
    } else {
      i := n;
    }
  }

  lemma {:induction false} FirstsCoverServers(rows: seq<Row>)
    ensures Servers(Firsts(rows)) == Servers(rows)
    ensures forall i, j :: 0 <= i < j < |Firsts(rows)| ==> Firsts(rows)[i].server != Firsts(rows)[j].server
    decreases |rows|
  {
    if rows != [] {
      var n := |rows| - 1;
      FirstsCoverServers(rows[..n]);
      assert rows[..n + 1] == rows;
      FirstsStep(rows, n);
      var before, last := Firsts(rows[..n]), rows[n];
      if last.server !in Servers(rows[..n]) {
        assert Servers(before + [last]) == Servers(before) + {last.server};
        forall c | c in before ensures c.server != last.server {
          assert c.server in Servers(before);
        }
      }
    }
  }

  /**
   One insertion per distinct linked Plex server, each for the account that get_preferred_plex_media_user_id
   picks on that server.
   */
  lemma FanOutRefinesPreference(accounts: Accounts, user: int, rows: seq<Row>)
    requires Selected(accounts, user, rows) && ServersAgree(accounts)
    ensures forall c :: c in Firsts(rows) ==> IsPreferred(accounts, user, c.server, c.account)
    ensures forall s :: s in Servers(Firsts(rows)) <==> exists id :: Linked(accounts, user, Row(s, id))
    ensures forall i, j :: 0 <= i < j < |Firsts(rows)| ==> Firsts(rows)[i].server != Firsts(rows)[j].server
  {
    FirstsCoverServers(rows);
    forall c | c in Firsts(rows) ensures IsPreferred(accounts, user, c.server, c.account) {
      FirstIsPreferred(accounts, user, rows, c);
    }
    forall s | s in Servers(rows) ensures exists id :: Linked(accounts, user, Row(s, id)) {
      var row :| row in rows && row.server == s;
      assert Linked(accounts, user, Row(s, row.account));
    }
    forall s, id | Linked(accounts, user, Row(s, id)) ensures s in Servers(rows) {
      assert Row(s, id) in rows;
    }
  }

  lemma FirstIsPreferred(accounts: Accounts, user: int, rows: seq<Row>, c: Row)
    requires Selected(accounts, user, rows) && ServersAgree(accounts) && c in Firsts(rows)
    ensures IsPreferred(accounts, user, c.server, c.account)
  {
    var i := FirstsAreFirst(rows, c);
    assert Linked(accounts, user, rows[i]);
    forall j | 0 <= j < i ensures rows[j].server != c.server {
      assert rows[..i][j] in rows[..i];
    }
    forall o | OnServer(accounts, user, c.server, o) && o != c.account ensures Preferred(accounts, c.account, o) {
      assert Linked(accounts, user, Row(c.server, o));
      var j :| 0 <= j < |rows| && rows[j] == Row(c.server, o);
      assert i < j;
      assert RowBefore(accounts, rows[i], rows[j]);
    }
  }

  ghost predicate AllConform(user: int, texts: Texts, calls: seq<Row>, owner: Owner) {
    forall i :: 0 <= i < |calls| ==> Conforms(SyncRequest(user, texts, calls[i]), owner)
  }

  lemma QueueOneKeepsSound(jobs: Jobs, nextId: int, queued: int, r: Request, now: int, owner: Owner)
    requires Sound(jobs, nextId, owner) && IsAccess(r.action) && Conforms(r, owner)
    ensures var after := QueueOne(jobs, nextId, queued, r, now);
            Sound(after.0, after.1, owner) && after.2 - queued in {0, 1} && after.1 - nextId == after.2 - queued
    ensures OnePending(jobs) ==> OnePending(QueueOne(jobs, nextId, queued, r, now).0)
  {
    EnqueueKeepsSound(jobs, nextId, r, now, owner);
    if OnePending(jobs) {
      EnqueueKeepsOnePending(jobs, nextId, r, now);
    }
  }

  /**
   The forced synchronisation keeps the job table sound and, where it held, at most one pending access job for each
   triple; its result counts the inserted rows.
   */
  lemma {:induction false} FanOutKeepsSound(jobs: Jobs, nextId: int, user: int, texts: Texts, calls: seq<Row>,
                                           now: int, owner: Owner)
    requires Sound(jobs, nextId, owner) && AllConform(user, texts, calls, owner)
    ensures var after := QueueAll(jobs, nextId, user, texts, calls, now);
            Sound(after.0, after.1, owner) && 0 <= after.2 <= |calls| && after.1 == nextId + after.2
    ensures OnePending(jobs) ==> OnePending(QueueAll(jobs, nextId, user, texts, calls, now).0)
    decreases |calls|
  {
    if calls != [] {
      var n := |calls| - 1;
      FanOutKeepsSound(jobs, nextId, user, texts, calls[..n], now, owner);
      var before := QueueAll(jobs, nextId, user, texts, calls[..n], now);
      QueueOneKeepsSound(before.0, before.1, before.2, SyncRequest(user, texts, calls[n]), now, owner);
    }
  }

  /** A pending job for the row's server whose payload is the one for the row's account. */
  ghost predicate Queued(jobs: Jobs, user: int, texts: Texts, c: Row) {
    exists id :: PendingFor(jobs, id, ("plex", user, c.server)) && jobs[id].payload == texts.payload(c)
                 && jobs[id].action == Sync
  }

  /** A running row has one of the two keys of the row's request. */
  ghost predicate HeldUp(jobs: Jobs, texts: Texts, c: Row) {
    exists id :: id in jobs && jobs[id].status == Running && !jobs[id].processed
                 && jobs[id].dedupeKey in {Some(texts.key(c)), Some(texts.key(c) + AFTER_RUNNING)}
  }

  ghost predicate Served(jobs: Jobs, user: int, texts: Texts, c: Row) {
    Queued(jobs, user, texts, c) || HeldUp(jobs, texts, c)
  }

  lemma OwnCallIsServed(jobs: Jobs, nextId: int, queued: int, user: int, texts: Texts, c: Row, now: int, owner: Owner)
    requires Sound(jobs, nextId, owner) && Conforms(SyncRequest(user, texts, c), owner)
    ensures var after := QueueOne(jobs, nextId, queued, SyncRequest(user, texts, c), now).0;
            Served(after, user, texts, c)
  {
    var r := SyncRequest(user, texts, c);
    var (after, inserted) := Queue(jobs, nextId, r, now);
    OwnJobIsTheOnlyQueued(jobs, nextId, r, now, nextId);
    if inserted {
      assert PendingFor(after, nextId, ("plex", user, c.server));
    } else {
      RefusedWhenSound(jobs, nextId, owner, r, now);
      var id :| id in jobs && jobs[id].status == Running && jobs[id].dedupeKey == Some(EffectiveKey(jobs, r, now));
      assert Active(jobs[id]) && OfPlex(jobs[id]);
      OthersUntouched(jobs, nextId, r, now, id);
    }
  }

  lemma OtherCallsStayServed(jobs: Jobs, nextId: int, queued: int, user: int, texts: Texts, c: Row, d: Row, now: int,
                             owner: Owner)
    requires Sound(jobs, nextId, owner) && c.server != d.server
    requires Served(jobs, user, texts, c)
    ensures var after := QueueOne(jobs, nextId, queued, SyncRequest(user, texts, d), now).0;
            Served(after, user, texts, c)
  {
    var r := SyncRequest(user, texts, d);
    var after := Queue(jobs, nextId, r, now).0;
    if Queued(jobs, user, texts, c) {
      var id :| PendingFor(jobs, id, ("plex", user, c.server)) && jobs[id].payload == texts.payload(c)
                && jobs[id].action == Sync;
      OthersUntouched(jobs, nextId, r, now, id);
      assert PendingFor(after, id, ("plex", user, c.server));
    } else {
      var id :| id in jobs && jobs[id].status == Running && !jobs[id].processed
                && jobs[id].dedupeKey in {Some(texts.key(c)), Some(texts.key(c) + AFTER_RUNNING)};
      OthersUntouched(jobs, nextId, r, now, id);
    }
  }

  /** Every call leaves its job pending, unless a running job has one of its keys. */
  lemma {:induction false} EveryCallIsServed(jobs: Jobs, nextId: int, user: int, texts: Texts, calls: seq<Row>,
                                             now: int, owner: Owner, i: nat)
    requires Sound(jobs, nextId, owner) && AllConform(user, texts, calls, owner) && i < |calls|
    requires forall j, k :: 0 <= j < k < |calls| ==> calls[j].server != calls[k].server
    ensures var after := QueueAll(jobs, nextId, user, texts, calls, now).0;
            Served(after, user, texts, calls[i])
    decreases |calls|
  {
    var n := |calls| - 1;
    var before := QueueAll(jobs, nextId, user, texts, calls[..n], now);
    FanOutKeepsSound(jobs, nextId, user, texts, calls[..n], now, owner);
    if i == n {
      OwnCallIsServed(before.0, before.1, before.2, user, texts, calls[n], now, owner);
    } else {
      EveryCallIsServed(jobs, nextId, user, texts, calls[..n], now, owner, i);
      OtherCallsStayServed(before.0, before.1, before.2, user, texts, calls[i], calls[n], now, owner);
    }
  }

  /**
   After the forced synchronisation every linked server has a pending sync job that names the media user preferred
   there, unless a running job has one of its keys.
   */
  lemma PreferredAccountsAreQueued(accounts: Accounts, jobs: Jobs, nextId: int, user: int, texts: Texts, rows: seq<Row>,
                                   now: int, owner: Owner, server: int)
    returns (account: int)
    requires Selected(accounts, user, rows) && ServersAgree(accounts) && server in Servers(rows)
    requires Sound(jobs, nextId, owner) && AllConform(user, texts, Firsts(rows), owner)
    ensures IsPreferred(accounts, user, server, account)
    ensures var after := QueueAll(jobs, nextId, user, texts, Firsts(rows), now).0;
            Served(after, user, texts, Row(server, account))
  {
    FanOutRefinesPreference(accounts, user, rows);
    FirstsCoverServers(rows);
    var c :| c in Firsts(rows) && c.server == server;
    account := c.account;
    var i :| 0 <= i < |Firsts(rows)| && Firsts(rows)[i] == c;
    EveryCallIsServed(jobs, nextId, user, texts, Firsts(rows), now, owner, i);
  }
}
