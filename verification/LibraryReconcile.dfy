/**
 What sync_plex_libraries achieves: the UNIQUE constraint is never violated, and the reconciliation is exact
 precisely when no newly reported section takes the identity of a row whose own section is still reported.
 */
module LibraryReconcile {
  import opened LibrarySync

  /** The database and the SELECT before the synchronisation. */
  ghost predicate Before(libraries: map<int, Library>, nextId: int, server: int, rows: seq<Row>) {
    SectionsUnique(libraries) && IdsBelow(libraries, nextId) && Selected(libraries, server, rows)
  }

  // ----- the indexes describe the table

  lemma {:induction false} IndexedSections(rows: seq<Row>)
    ensures forall sec :: sec in SectionIndex(rows) <==>
              sec != "" && exists i :: 0 <= i < |rows| && rows[i].section == sec
    decreases |rows|
  {
    if rows != [] {
      var n := |rows| - 1;
      IndexedSections(rows[..n]);
      forall sec | sec in SectionIndex(rows)
        ensures sec != "" && exists i :: 0 <= i < |rows| && rows[i].section == sec
      {
        if rows[n].section != "" && sec == rows[n].section {
          assert rows[n].section == sec;
        } else {
          assert sec in SectionIndex(rows[..n]);
          var i :| 0 <= i < n && rows[..n][i].section == sec;
          assert rows[i].section == sec;
        }
      }
      forall i | 0 <= i < |rows| && rows[i].section != "" ensures rows[i].section in SectionIndex(rows) {
        assert i < n ==> rows[..n][i] == rows[i];
      }
    }
  }

  lemma {:induction false} SectionIndexOf(rows: seq<Row>)
    requires forall i, j :: 0 <= i < j < |rows| ==> rows[i].section != rows[j].section
    ensures forall sec :: sec in SectionIndex(rows) <==>
              sec != "" && exists i :: 0 <= i < |rows| && rows[i].section == sec
    ensures forall i :: 0 <= i < |rows| && rows[i].section != "" ==>
              rows[i].section in SectionIndex(rows) && SectionIndex(rows)[rows[i].section] == rows[i]
    decreases |rows|
  {
    IndexedSections(rows);
    if rows != [] {
      var n := |rows| - 1;
      SectionIndexOf(rows[..n]);
      forall i | 0 <= i < n && rows[i].section != "" ensures SectionIndex(rows)[rows[i].section] == rows[i] {
        assert rows[..n][i] == rows[i];
      }
    }
  }

  /** `rows[i]` is the first row of identity `key` in the order of the SELECT. */
  ghost predicate IsFirst(fold: string -> string, rows: seq<Row>, key: Identity, i: int) {
    && 0 <= i < |rows| && IdentityOf(fold, rows[i].name, rows[i].kind) == key
    && forall j :: 0 <= j < i ==> IdentityOf(fold, rows[j].name, rows[j].kind) != key
  }

  lemma {:induction false} IdentityIndexOf(fold: string -> string, rows: seq<Row>, key: Identity) returns (i: int)
    ensures key in IdentityIndex(fold, rows) ==>
              IsFirst(fold, rows, key, i) && IdentityIndex(fold, rows)[key] == rows[i]
    ensures key !in IdentityIndex(fold, rows) ==>
              forall j :: 0 <= j < |rows| ==> IdentityOf(fold, rows[j].name, rows[j].kind) != key
    decreases |rows|
  {
    i := 0;
    if rows != [] {
      var n := |rows| - 1;
      i := IdentityIndexOf(fold, rows[..n], key);
      assert forall j :: 0 <= j < n ==> rows[..n][j] == rows[j];
      if key !in IdentityIndex(fold, rows[..n]) {
        i := n;
      }
    }
  }

  /** Both indexes agree with the table: sections are current, and each row has at most one identity. */
  ghost predicate Exact(s: State, server: int) {
    && IdsBelow(s.libraries, s.nextId)
    && (forall sec :: sec in s.bySection ==>
          sec != "" && var id := s.bySection[sec].id;
          id in s.libraries && s.libraries[id].server == server && s.libraries[id].section == sec)
    && (forall id :: id in s.libraries && s.libraries[id].server == server && s.libraries[id].section != "" ==>
          s.libraries[id].section in s.bySection && s.bySection[s.libraries[id].section].id == id)
    && (forall key :: key in s.byIdentity ==>
          var row := s.byIdentity[key];
          row.id in s.libraries && s.libraries[row.id].server == server
          && s.libraries[row.id].section == row.section)
    && (forall k, l :: k in s.byIdentity && l in s.byIdentity && s.byIdentity[k].id == s.byIdentity[l].id ==> k == l)
  }

  lemma StartExact(fold: string -> string, libraries: map<int, Library>, nextId: int, server: int, rows: seq<Row>)
    requires Before(libraries, nextId, server, rows)
    ensures Exact(Start(fold, libraries, nextId, rows), server)
  {
    var s := Start(fold, libraries, nextId, rows);
    forall i, j | 0 <= i < j < |rows| ensures rows[i].section != rows[j].section {
      assert rows[i].id != rows[j].id;
      assert libraries[rows[i].id].section == rows[i].section && libraries[rows[j].id].section == rows[j].section;
    }
    SectionIndexOf(rows);
    forall key | key in s.byIdentity ensures exists i :: IsFirst(fold, rows, key, i) && s.byIdentity[key] == rows[i] {
      var i := IdentityIndexOf(fold, rows, key);
    }
    forall sec | sec in s.bySection
      ensures sec != "" && var id := s.bySection[sec].id;
              id in libraries && libraries[id].server == server && libraries[id].section == sec
    {
      var i :| 0 <= i < |rows| && rows[i].section == sec;
      assert s.bySection[rows[i].section] == rows[i];
    }
    forall k, l | k in s.byIdentity && l in s.byIdentity && s.byIdentity[k].id == s.byIdentity[l].id ensures k == l {
      var i :| IsFirst(fold, rows, k, i) && s.byIdentity[k] == rows[i];
      var j :| IsFirst(fold, rows, l, j) && s.byIdentity[l] == rows[j];
      assert i == j;
    }
  }

  lemma UpdateExact(server: int, s: State, r: Remote)
    requires Exact(s, server) && r.section in s.bySection
    ensures Exact(Update(s, r), server)
  {
  }

  lemma RekeyExact(fold: string -> string, server: int, s: State, r: Remote)
    requires Exact(s, server) && r.section != "" && r.section !in s.bySection && Id(fold, r) in s.byIdentity
    ensures Exact(Rekey(fold, s, r), server)
  {
    var was, after := s.byIdentity[Id(fold, r)], Rekey(fold, s, r);
    assert after.libraries == s.libraries[was.id := Library(server, r.section, r.name, r.kind)];
    forall sec | sec in after.bySection && sec != r.section
      ensures after.bySection[sec] == s.bySection[sec] && s.bySection[sec].id != was.id
    {
    }
  }

  lemma InsertExact(fold: string -> string, server: int, s: State, r: Remote)
    requires Exact(s, server) && r.section != "" && r.section !in s.bySection && Id(fold, r) !in s.byIdentity
    ensures Exact(Insert(fold, server, s, r), server)
  {
    assert s.nextId !in s.libraries;
  }

  lemma StepExact(fold: string -> string, server: int, s: State, r: Remote)
    requires Exact(s, server)
    ensures Exact(Step(fold, server, s, r), server)
  {
    if r.section != "" {
      if r.section in s.bySection {
        UpdateExact(server, s, r);
      } else if Id(fold, r) in s.byIdentity {
        RekeyExact(fold, server, s, r);
      } else {
        InsertExact(fold, server, s, r);
      }
    }
  }

  lemma {:induction false} LoopExact(fold: string -> string, server: int, s: State, remotes: seq<Remote>)
    requires Exact(s, server)
    ensures Exact(Loop(fold, server, s, remotes), server)
    decreases |remotes|
  {
    if remotes != [] {
      var n := |remotes| - 1;
      LoopExact(fold, server, s, remotes[..n]);
      StepExact(fold, server, Loop(fold, server, s, remotes[..n]), remotes[n]);
    }
  }

  /** A section that the index does not know is free. */
  lemma StepUnique(fold: string -> string, server: int, s: State, r: Remote)
    requires Exact(s, server) && SectionsUnique(s.libraries)
    ensures SectionsUnique(Step(fold, server, s, r).libraries)
  {
    if r.section != "" && r.section !in s.bySection {
      assert forall id :: id in s.libraries && s.libraries[id].server == server ==>
          s.libraries[id].section != r.section;
    }
  }

  lemma {:induction false} LoopUnique(fold: string -> string, server: int, s: State, remotes: seq<Remote>)
    requires Exact(s, server) && SectionsUnique(s.libraries)
    ensures SectionsUnique(Loop(fold, server, s, remotes).libraries)
    decreases |remotes|
  {
    if remotes != [] {
      var n := |remotes| - 1;
      LoopExact(fold, server, s, remotes[..n]);
      LoopUnique(fold, server, s, remotes[..n]);
      StepUnique(fold, server, Loop(fold, server, s, remotes[..n]), remotes[n]);
    }
  }

  /** No UPDATE or INSERT of the loop ever breaks UNIQUE(server_id, section_id), whatever the server reports. */
  lemma UniqueNeverViolated(fold: string -> string, libraries: map<int, Library>, nextId: int, server: int,
                            rows: seq<Row>, remotes: seq<Remote>, i: nat)
    requires Before(libraries, nextId, server, rows) && i <= |remotes|
    ensures SectionsUnique(Loop(fold, server, Start(fold, libraries, nextId, rows), remotes[..i]).libraries)
  {
    StartExact(fold, libraries, nextId, server, rows);
    LoopUnique(fold, server, Start(fold, libraries, nextId, rows), remotes[..i]);
  }

  // ----- the reconciliation

  /** Reported libraries with a section id have distinct section ids. */
  ghost predicate DistinctSections(remotes: seq<Remote>) {
    forall i, j :: 0 <= i < j < |remotes| && remotes[i].section != "" ==> remotes[i].section != remotes[j].section
  }

  predicate IsNew(start: State, r: Remote) {
    r.section != "" && r.section !in start.bySection
  }

  /** No two libraries with new section ids share an identity. */
  ghost predicate NewOnesDiffer(fold: string -> string, start: State, remotes: seq<Remote>) {
    forall i, j :: 0 <= i < j < |remotes| && IsNew(start, remotes[i]) && IsNew(start, remotes[j]) ==>
      Id(fold, remotes[i]) != Id(fold, remotes[j])
  }

  ghost predicate DistinctReport(fold: string -> string, start: State, remotes: seq<Remote>) {
    DistinctSections(remotes) && NewOnesDiffer(fold, start, remotes)
  }

  ghost predicate Reported(remotes: seq<Remote>, section: string) {
    section != "" && exists i :: 0 <= i < |remotes| && remotes[i].section == section
  }

  /** The library takes the row of a reported section by its identity. */
  ghost predicate TakesOver(fold: string -> string, start: State, remotes: seq<Remote>, k: nat)
    requires k < |remotes|
  {
    && IsNew(start, remotes[k]) && Id(fold, remotes[k]) in start.byIdentity
    && Reported(remotes, start.byIdentity[Id(fold, remotes[k])].section)
  }

  /** No library with a new section id takes the identity of a row whose own section is still reported. */
  ghost predicate NoTakeover(fold: string -> string, start: State, remotes: seq<Remote>) {
    forall k :: 0 <= k < |remotes| ==> !TakesOver(fold, start, remotes, k)
  }

  /** The row that should stand for `r`: the one of its section, else the first of its identity, else a new one. */
  ghost predicate StandsFor(fold: string -> string, start: State, r: Remote, id: int) {
    if r.section in start.bySection then id == start.bySection[r.section].id
    else if Id(fold, r) in start.byIdentity then id == start.byIdentity[Id(fold, r)].id
    else id >= start.nextId
  }

  /** The index entries that decide about `r` are still what they were at the start. */
  ghost predicate Pristine(fold: string -> string, start: State, s: State, r: Remote) {
    && (r.section in s.bySection <==> r.section in start.bySection)
    && (r.section in s.bySection ==> s.bySection[r.section].id == start.bySection[r.section].id)
    && (r.section !in start.bySection ==> PristineIdentity(fold, start, s, r))
  }

  ghost predicate PristineIdentity(fold: string -> string, start: State, s: State, r: Remote) {
    && (Id(fold, r) in s.byIdentity <==> Id(fold, r) in start.byIdentity)
    && (Id(fold, r) in s.byIdentity ==> s.byIdentity[Id(fold, r)] == start.byIdentity[Id(fold, r)])
  }

  ghost predicate Settled(fold: string -> string, server: int, start: State, s: State, r: Remote) {
    && r.section in s.bySection
    && var id := s.bySection[r.section].id;
    && id in s.found && id in s.libraries
    && s.libraries[id] == Library(server, r.section, r.name, r.kind)
    && StandsFor(fold, start, r, id)
  }

  /** After the first `i` reported libraries: those are settled, the others meet pristine index entries. */
  ghost predicate Matched(fold: string -> string, server: int, start: State, s: State, remotes: seq<Remote>, i: nat)
    requires i <= |remotes|
  {
    && (forall j :: i <= j < |remotes| && remotes[j].section != "" ==> Pristine(fold, start, s, remotes[j]))
    && (forall j :: 0 <= j < i && remotes[j].section != "" ==> Settled(fold, server, start, s, remotes[j]))
    && FoundFrom(s, remotes, i)
    && Framed(start, s)
  }

  /** Every matched row is the row of some reported section. */
  ghost predicate FoundFrom(s: State, remotes: seq<Remote>, i: nat)
    requires i <= |remotes|
  {
    forall id :: id in s.found ==>
      exists j :: 0 <= j < i && remotes[j].section in s.bySection && s.bySection[remotes[j].section].id == id
  }

  /** Rows not matched are untouched, and no other row appears. */
  ghost predicate Framed(start: State, s: State) {
    && s.nextId >= start.nextId
    && (forall id :: id in start.libraries ==> id in s.libraries)
    && (forall id :: id in s.libraries && id !in s.found ==>
          id in start.libraries && s.libraries[id] == start.libraries[id])
  }

  lemma UpdateSettled(fold: string -> string, server: int, start: State, s: State, r: Remote, other: Remote)
    requires Exact(s, server) && Settled(fold, server, start, s, other) && r.section in s.bySection
    requires other.section != r.section
    ensures Settled(fold, server, start, Update(s, r), other)
  {
    assert s.bySection[other.section].id != s.bySection[r.section].id;
  }

  lemma UpdateSelf(fold: string -> string, server: int, start: State, s: State, r: Remote)
    requires Exact(s, server) && r.section in s.bySection && Pristine(fold, start, s, r) && Framed(start, s)
    ensures Settled(fold, server, start, Update(s, r), r) && Framed(start, Update(s, r))
  {
  }

  lemma UpdateFound(s: State, remotes: seq<Remote>, i: nat)
    requires i < |remotes| && FoundFrom(s, remotes, i) && remotes[i].section in s.bySection
    ensures FoundFrom(Update(s, remotes[i]), remotes, i + 1)
  {
    var after := Update(s, remotes[i]);
    assert after.bySection == s.bySection;
    forall id | id in after.found
      ensures exists j :: 0 <= j < i + 1 && remotes[j].section in after.bySection
                          && after.bySection[remotes[j].section].id == id
    {
      if id in s.found {
        var j :| 0 <= j < i && remotes[j].section in s.bySection && s.bySection[remotes[j].section].id == id;
      }
    }
  }

  lemma MatchedUpdate(fold: string -> string, server: int, start: State, s: State, remotes: seq<Remote>, i: nat)
    requires i < |remotes| && DistinctReport(fold, start, remotes) && Exact(s, server)
    requires Matched(fold, server, start, s, remotes, i) && remotes[i].section in s.bySection
    ensures Matched(fold, server, start, Update(s, remotes[i]), remotes, i + 1)
  {
    var r, after := remotes[i], Update(s, remotes[i]);
    assert after.bySection == s.bySection && after.byIdentity == s.byIdentity;
    forall j | i + 1 <= j < |remotes| && remotes[j].section != "" ensures Pristine(fold, start, after, remotes[j]) {
      assert Pristine(fold, start, s, remotes[j]);
    }
    forall j | 0 <= j < i && remotes[j].section != "" ensures Settled(fold, server, start, after, remotes[j]) {
      UpdateSettled(fold, server, start, s, r, remotes[j]);
    }
    UpdateSelf(fold, server, start, s, r);
    UpdateFound(s, remotes, i);
  }

  lemma RekeyPristine(fold: string -> string, start: State, s: State, r: Remote, other: Remote)
    requires Id(fold, r) in s.byIdentity && Pristine(fold, start, s, other)
    requires other.section != r.section && (other.section !in start.bySection ==> Id(fold, other) != Id(fold, r))
    requires other.section != s.byIdentity[Id(fold, r)].section
    ensures Pristine(fold, start, Rekey(fold, s, r), other)
  {
  }

  lemma RekeySettled(fold: string -> string, server: int, start: State, s: State, r: Remote, other: Remote)
    requires Exact(s, server) && Id(fold, r) in s.byIdentity && Settled(fold, server, start, s, other)
    requires other.section != r.section && other.section != s.byIdentity[Id(fold, r)].section
    ensures Settled(fold, server, start, Rekey(fold, s, r), other)
  {
    assert s.bySection[other.section].id != s.byIdentity[Id(fold, r)].id;
  }

  lemma RekeySelf(fold: string -> string, server: int, start: State, s: State, r: Remote)
    requires Exact(s, server) && r.section !in s.bySection && Id(fold, r) in s.byIdentity
    requires Pristine(fold, start, s, r) && r.section !in start.bySection && Framed(start, s)
    ensures Settled(fold, server, start, Rekey(fold, s, r), r) && Framed(start, Rekey(fold, s, r))
  {
  }

  lemma MatchedRekey(fold: string -> string, server: int, start: State, s: State, remotes: seq<Remote>, i: nat)
    requires i < |remotes| && DistinctReport(fold, start, remotes) && NoTakeover(fold, start, remotes)
    requires Exact(s, server)
    requires Matched(fold, server, start, s, remotes, i)
    requires remotes[i].section != "" && remotes[i].section !in s.bySection && Id(fold, remotes[i]) in s.byIdentity
    ensures Matched(fold, server, start, Rekey(fold, s, remotes[i]), remotes, i + 1)
  {
    var r, after := remotes[i], Rekey(fold, s, remotes[i]);
    var was := s.byIdentity[Id(fold, r)];
    assert Pristine(fold, start, s, r);
    assert !TakesOver(fold, start, remotes, i);
    forall j | i + 1 <= j < |remotes| && remotes[j].section != "" ensures Pristine(fold, start, after, remotes[j]) {
      RekeyPristine(fold, start, s, r, remotes[j]);
    }
    forall j | 0 <= j < i && remotes[j].section != "" ensures Settled(fold, server, start, after, remotes[j]) {
      RekeySettled(fold, server, start, s, r, remotes[j]);
    }
    RekeySelf(fold, server, start, s, r);
    FoundGrows(s, after, remotes, i, was.id, was.section);
  }

  lemma InsertPristine(fold: string -> string, server: int, start: State, s: State, r: Remote, other: Remote)
    requires Pristine(fold, start, s, other) && other.section != r.section
    requires other.section !in start.bySection ==> Id(fold, other) != Id(fold, r)
    ensures Pristine(fold, start, Insert(fold, server, s, r), other)
  {
  }

  lemma InsertSettled(fold: string -> string, server: int, start: State, s: State, r: Remote, other: Remote)
    requires Exact(s, server) && Settled(fold, server, start, s, other) && other.section != r.section
    ensures Settled(fold, server, start, Insert(fold, server, s, r), other)
  {
  }

  lemma InsertSelf(fold: string -> string, server: int, start: State, s: State, r: Remote)
    requires Exact(s, server) && r.section !in s.bySection && Id(fold, r) !in s.byIdentity
    requires Pristine(fold, start, s, r) && r.section !in start.bySection && Framed(start, s)
    ensures Settled(fold, server, start, Insert(fold, server, s, r), r) && Framed(start, Insert(fold, server, s, r))
  {
    assert s.nextId !in s.libraries;
  }

  lemma MatchedInsert(fold: string -> string, server: int, start: State, s: State, remotes: seq<Remote>, i: nat)
    requires i < |remotes| && DistinctReport(fold, start, remotes) && Exact(s, server)
    requires Matched(fold, server, start, s, remotes, i)
    requires remotes[i].section != "" && remotes[i].section !in s.bySection && Id(fold, remotes[i]) !in s.byIdentity
    ensures Matched(fold, server, start, Insert(fold, server, s, remotes[i]), remotes, i + 1)
  {
    var r, after := remotes[i], Insert(fold, server, s, remotes[i]);
    forall j | i + 1 <= j < |remotes| && remotes[j].section != "" ensures Pristine(fold, start, after, remotes[j]) {
      InsertPristine(fold, server, start, s, r, remotes[j]);
    }
    forall j | 0 <= j < i && remotes[j].section != "" ensures Settled(fold, server, start, after, remotes[j]) {
      InsertSettled(fold, server, start, s, r, remotes[j]);
    }
    InsertSelf(fold, server, start, s, r);
    FoundGrows(s, after, remotes, i, s.nextId, "");
  }

  lemma FoundGrows(s: State, after: State, remotes: seq<Remote>, i: nat, id: int, dropped: string)
    requires i < |remotes| && FoundFrom(s, remotes, i) && after.found == s.found + {id}
    requires !Reported(remotes, dropped)
    requires remotes[i].section != "" && remotes[i].section !in s.bySection
    requires forall sec :: sec in s.bySection && sec != dropped ==>
               sec in after.bySection && after.bySection[sec] == s.bySection[sec]
    requires remotes[i].section in after.bySection && after.bySection[remotes[i].section].id == id
    requires "" !in s.bySection
    ensures FoundFrom(after, remotes, i + 1)
  {
    forall f | f in after.found
      ensures exists j :: 0 <= j < i + 1 && remotes[j].section in after.bySection
                          && after.bySection[remotes[j].section].id == f
    {
      if f in s.found {
        var j :| 0 <= j < i && remotes[j].section in s.bySection && s.bySection[remotes[j].section].id == f;
        assert remotes[j].section != dropped;
      }
    }
  }

  lemma {:induction false} LoopMatched(fold: string -> string, server: int, start: State, remotes: seq<Remote>, i: nat)
    requires i <= |remotes| && DistinctReport(fold, start, remotes) && NoTakeover(fold, start, remotes)
    requires Exact(start, server) && start.found == {}
    ensures Matched(fold, server, start, Loop(fold, server, start, remotes[..i]), remotes, i)
    decreases i
  {
    if i > 0 {
      LoopMatched(fold, server, start, remotes, i - 1);
      assert remotes[..i][..i - 1] == remotes[..i - 1];
      var s, r := Loop(fold, server, start, remotes[..i - 1]), remotes[i - 1];
      LoopExact(fold, server, start, remotes[..i - 1]);
      if r.section == "" {
        assert FoundFrom(s, remotes, i);
      } else if r.section in s.bySection {
        MatchedUpdate(fold, server, start, s, remotes, i - 1);
      } else if Id(fold, r) in s.byIdentity {
        MatchedRekey(fold, server, start, s, remotes, i - 1);
      } else {
        MatchedInsert(fold, server, start, s, remotes, i - 1);
      }
    }
  }

  // ----- main results

  /** The table after the deletions. */
  function Synced(fold: string -> string, server: int, start: State, rows: seq<Row>, remotes: seq<Remote>)
    : map<int, Library>
  {
    var s := Loop(fold, server, start, remotes);
    s.libraries - Gone(rows, s.found)
  }

  /** `id` is the server's one row of section `r.section`, and describes `r`. */
  ghost predicate IsRowOf(libraries: map<int, Library>, server: int, r: Remote, id: int) {
    && id in libraries && libraries[id] == Library(server, r.section, r.name, r.kind)
    && forall other ::
         (other in libraries && libraries[other].server == server && libraries[other].section == r.section
          ==> other == id)
  }

  lemma {:induction false} ReconcileLoop(fold: string -> string, libraries: map<int, Library>, nextId: int,
                                         server: int, rows: seq<Row>, remotes: seq<Remote>)
    requires Before(libraries, nextId, server, rows)
    requires var start := Start(fold, libraries, nextId, rows);
             DistinctReport(fold, start, remotes) && NoTakeover(fold, start, remotes)
    ensures var start := Start(fold, libraries, nextId, rows);
            var s := Loop(fold, server, start, remotes);
            Exact(s, server) && Matched(fold, server, start, s, remotes, |remotes|)
  {
    var start := Start(fold, libraries, nextId, rows);
    StartExact(fold, libraries, nextId, server, rows);
    LoopExact(fold, server, start, remotes);
    LoopMatched(fold, server, start, remotes, |remotes|);
    assert remotes[..|remotes|] == remotes;
  }

  /** Every reported library has exactly one row: the one that stands for it, with its section, name and type. */
  ghost predicate AllMatched(fold: string -> string, start: State, server: int, remotes: seq<Remote>,
                             after: map<int, Library>)
  {
    forall i :: 0 <= i < |remotes| && remotes[i].section != "" ==>
      exists id :: IsRowOf(after, server, remotes[i], id) && StandsFor(fold, start, remotes[i], id)
  }

  /**
   Every reported library has exactly one row, which describes it and is the row of its section, else the first
   row of its identity, else a new row; every row of the server is the row of a reported library; other servers
   are untouched.
   */
  lemma Reconciled(fold: string -> string, libraries: map<int, Library>, nextId: int, server: int,
                   rows: seq<Row>, remotes: seq<Remote>)
    requires Before(libraries, nextId, server, rows)
    requires var start := Start(fold, libraries, nextId, rows);
             DistinctReport(fold, start, remotes) && NoTakeover(fold, start, remotes)
    ensures var start := Start(fold, libraries, nextId, rows);
            var after := Synced(fold, server, start, rows, remotes);
            && AllMatched(fold, start, server, remotes, after)
            && (forall id :: id in after && after[id].server == server ==>
                  exists i :: 0 <= i < |remotes| && remotes[i].section != "" && IsRowOf(after, server, remotes[i], id))
            && (forall id :: id in libraries && libraries[id].server != server ==>
                  id in after && after[id] == libraries[id])
  {
    ReconcileLoop(fold, libraries, nextId, server, rows, remotes);
    var start := Start(fold, libraries, nextId, rows);
    var s, after := Loop(fold, server, start, remotes), Synced(fold, server, start, rows, remotes);
    forall i | 0 <= i < |remotes| && remotes[i].section != ""
      ensures exists id :: IsRowOf(after, server, remotes[i], id) && StandsFor(fold, start, remotes[i], id)
    {
      assert Settled(fold, server, start, s, remotes[i]);
      SettledSurvives(fold, server, start, s, rows, remotes[i]);
    }
    forall id | id in after && after[id].server == server
      ensures exists i :: 0 <= i < |remotes| && remotes[i].section != "" && IsRowOf(after, server, remotes[i], id)
    {
      FoundOrGone(libraries, server, rows, s, start, id);
      var j :| 0 <= j < |remotes| && remotes[j].section in s.bySection && s.bySection[remotes[j].section].id == id;
      assert Settled(fold, server, start, s, remotes[j]);
      SettledSurvives(fold, server, start, s, rows, remotes[j]);
    }
    OthersKept(fold, libraries, nextId, server, rows, remotes, s);
  }

  lemma SettledSurvives(fold: string -> string, server: int, start: State, s: State, rows: seq<Row>, r: Remote)
    requires Exact(s, server) && Settled(fold, server, start, s, r) && r.section != ""
    ensures IsRowOf(s.libraries - Gone(rows, s.found), server, r, s.bySection[r.section].id)
  {
  }

  lemma FoundOrGone(libraries: map<int, Library>, server: int, rows: seq<Row>, s: State, start: State, id: int)
    requires Selected(libraries, server, rows) && start.libraries == libraries && Framed(start, s)
    requires id in s.libraries && s.libraries[id].server == server && id !in Gone(rows, s.found)
    ensures id in s.found
  {
  }

  lemma OthersKept(fold: string -> string, libraries: map<int, Library>, nextId: int, server: int,
                   rows: seq<Row>, remotes: seq<Remote>, s: State)
    requires Before(libraries, nextId, server, rows)
    requires Matched(fold, server, Start(fold, libraries, nextId, rows), s, remotes, |remotes|)
    requires "" !in s.bySection
    ensures forall id :: id in libraries && libraries[id].server != server ==>
              id in s.libraries - Gone(rows, s.found) && s.libraries[id] == libraries[id]
  {
    var start := Start(fold, libraries, nextId, rows);
    StartExact(fold, libraries, nextId, server, rows);
    forall id | id in libraries && libraries[id].server != server
      ensures id !in s.found && id !in Gone(rows, s.found)
    {
      forall j | 0 <= j < |remotes| && remotes[j].section in s.bySection
        ensures s.bySection[remotes[j].section].id != id
      {
        assert Settled(fold, server, start, s, remotes[j]);
      }
    }
  }

  /** The deleted rows, and with them their access links, are exactly those that stand for no reported library. */
  lemma GoneExactly(fold: string -> string, libraries: map<int, Library>, nextId: int, server: int,
                    rows: seq<Row>, remotes: seq<Remote>, id: int)
    requires Before(libraries, nextId, server, rows)
    requires var start := Start(fold, libraries, nextId, rows);
             DistinctReport(fold, start, remotes) && NoTakeover(fold, start, remotes)
    requires id in libraries && libraries[id].server == server
    ensures var start := Start(fold, libraries, nextId, rows);
            id in Gone(rows, Loop(fold, server, start, remotes).found)
            <==> forall i :: 0 <= i < |remotes| && remotes[i].section != "" ==>
                   !StandsFor(fold, start, remotes[i], id)
  {
    ReconcileLoop(fold, libraries, nextId, server, rows, remotes);
    var start := Start(fold, libraries, nextId, rows);
    var s := Loop(fold, server, start, remotes);
    var k :| 0 <= k < |rows| && rows[k].id == id;
    assert id in Gone(rows, s.found) <==> id !in s.found;
    forall i | 0 <= i < |remotes| && remotes[i].section != "" && StandsFor(fold, start, remotes[i], id)
      ensures id in s.found
    {
      assert Settled(fold, server, start, s, remotes[i]);
    }
    if id in s.found {
      var j :| 0 <= j < |remotes| && remotes[j].section in s.bySection && s.bySection[remotes[j].section].id == id;
      assert Settled(fold, server, start, s, remotes[j]);
    }
  }

  // ----- exactly when rows of reported sections keep them

  /** Every row whose section is still reported is still there, with the same id and section. */
  ghost predicate KeepsReported(libraries: map<int, Library>, server: int, remotes: seq<Remote>,
                                after: map<int, Library>)
  {
    forall id :: id in libraries && libraries[id].server == server && Reported(remotes, libraries[id].section) ==>
      id in after && after[id].server == server && after[id].section == libraries[id].section
  }

  /** Sections that are still reported keep their rows in the index, and no entry names the row of one of them anew. */
  ghost predicate Keeping(fold: string -> string, start: State, s: State, remotes: seq<Remote>, i: nat)
    requires i <= |remotes|
  {
    && (forall sec :: sec in start.bySection && Reported(remotes, sec) ==>
          sec in s.bySection && s.bySection[sec].id == start.bySection[sec].id)
    && (forall key :: key in s.byIdentity ==>
          (key in start.byIdentity && s.byIdentity[key] == start.byIdentity[key])
          || s.byIdentity[key].section !in start.bySection)
    && (forall j :: 0 <= j < i && remotes[j].section in start.bySection ==>
          start.bySection[remotes[j].section].id in s.found)
  }

  lemma KeepingStep(fold: string -> string, server: int, start: State, s: State, remotes: seq<Remote>, i: nat)
    requires i < |remotes| && NoTakeover(fold, start, remotes) && Exact(start, server)
    requires Keeping(fold, start, s, remotes, i)
    ensures Keeping(fold, start, Step(fold, server, s, remotes[i]), remotes, i + 1)
  {
    var r := remotes[i];
    if r.section != "" {
      assert Reported(remotes, r.section);
      if r.section !in s.bySection && Id(fold, r) in s.byIdentity {
        assert IsNew(start, r) && !TakesOver(fold, start, remotes, i);
        assert s.byIdentity[Id(fold, r)].section in start.bySection ==>
            !Reported(remotes, s.byIdentity[Id(fold, r)].section);
      }
    }
  }

  lemma {:induction false} LoopKeeps(fold: string -> string, server: int, start: State, remotes: seq<Remote>, i: nat)
    requires i <= |remotes| && NoTakeover(fold, start, remotes) && Exact(start, server)
    ensures Keeping(fold, start, Loop(fold, server, start, remotes[..i]), remotes, i)
    decreases i
  {
    if i > 0 {
      LoopKeeps(fold, server, start, remotes, i - 1);
      assert remotes[..i][..i - 1] == remotes[..i - 1];
      KeepingStep(fold, server, start, Loop(fold, server, start, remotes[..i - 1]), remotes, i - 1);
    }
  }

  /** For any report without a takeover, rows of reported sections keep id and section. */
  lemma NoTakeoverKeeps(fold: string -> string, libraries: map<int, Library>, nextId: int, server: int,
                        rows: seq<Row>, remotes: seq<Remote>)
    requires Before(libraries, nextId, server, rows)
    requires NoTakeover(fold, Start(fold, libraries, nextId, rows), remotes)
    ensures KeepsReported(libraries, server, remotes,
                          Synced(fold, server, Start(fold, libraries, nextId, rows), rows, remotes))
  {
    var start := Start(fold, libraries, nextId, rows);
    var s := Loop(fold, server, start, remotes);
    StartExact(fold, libraries, nextId, server, rows);
    LoopKeeps(fold, server, start, remotes, |remotes|);
    LoopExact(fold, server, start, remotes);
    assert remotes[..|remotes|] == remotes;
    forall id | id in libraries && libraries[id].server == server && Reported(remotes, libraries[id].section)
      ensures id in s.found && id in s.libraries && s.libraries[id].server == server
      ensures s.libraries[id].section == libraries[id].section
    {
      var sec := libraries[id].section;
      assert sec in start.bySection && start.bySection[sec].id == id;
      var i :| 0 <= i < |remotes| && remotes[i].section == sec;
      assert s.bySection[sec].id == id;
    }
  }

  /** The identity of a new library is that of no other reported one. */
  ghost predicate OwnIdentity(fold: string -> string, remotes: seq<Remote>, k: nat)
    requires k < |remotes|
  {
    forall j :: 0 <= j < |remotes| && j != k && remotes[j].section != "" ==>
      Id(fold, remotes[j]) != Id(fold, remotes[k])
  }

  /**
   Before the `k`-th library is processed its index entry is pristine; and once it has taken over that row, no other
   library takes it back.
   */
  ghost predicate Taken(fold: string -> string, start: State, s: State, remotes: seq<Remote>, k: nat, i: nat)
    requires k < |remotes| && i <= |remotes| && Id(fold, remotes[k]) in start.byIdentity
  {
    var id := start.byIdentity[Id(fold, remotes[k])].id;
    && (i <= k ==> remotes[k].section !in s.bySection && PristineIdentity(fold, start, s, remotes[k]))
    && (i > k ==> id in s.found && id in s.libraries && s.libraries[id].section == remotes[k].section
                  && Id(fold, remotes[k]) in s.byIdentity && s.byIdentity[Id(fold, remotes[k])].id == id)
  }

  lemma TakenStep(fold: string -> string, server: int, start: State, s: State, remotes: seq<Remote>, k: nat, i: nat)
    requires i < |remotes| && k < |remotes| && DistinctSections(remotes) && OwnIdentity(fold, remotes, k)
    requires Exact(start, server) && Exact(s, server)
    requires remotes[k].section != "" && Id(fold, remotes[k]) in start.byIdentity
    requires Taken(fold, start, s, remotes, k, i)
    ensures Taken(fold, start, Step(fold, server, s, remotes[i]), remotes, k, i + 1)
  {
    assert i != k && remotes[i].section != "" ==> Id(fold, remotes[i]) != Id(fold, remotes[k]);
  }

  lemma {:induction false} LoopTaken(fold: string -> string, server: int, start: State, remotes: seq<Remote>,
                                     k: nat, i: nat)
    requires i <= |remotes| && k < |remotes| && DistinctSections(remotes) && OwnIdentity(fold, remotes, k)
    requires Exact(start, server) && IsNew(start, remotes[k]) && Id(fold, remotes[k]) in start.byIdentity
    ensures Taken(fold, start, Loop(fold, server, start, remotes[..i]), remotes, k, i)
    decreases i
  {
    if i > 0 {
      LoopTaken(fold, server, start, remotes, k, i - 1);
      assert remotes[..i][..i - 1] == remotes[..i - 1];
      LoopExact(fold, server, start, remotes[..i - 1]);
      TakenStep(fold, server, start, Loop(fold, server, start, remotes[..i - 1]), remotes, k, i - 1);
    }
  }

  /** A library that takes over the row of a reported section leaves that row under its own section. */
  lemma TakeoverLoses(fold: string -> string, libraries: map<int, Library>, nextId: int, server: int,
                      rows: seq<Row>, remotes: seq<Remote>, k: nat)
    requires Before(libraries, nextId, server, rows) && DistinctSections(remotes) && k < |remotes|
    requires OwnIdentity(fold, remotes, k) && TakesOver(fold, Start(fold, libraries, nextId, rows), remotes, k)
    ensures var start := Start(fold, libraries, nextId, rows);
            !KeepsReported(libraries, server, remotes, Synced(fold, server, start, rows, remotes))
  {
    var start := Start(fold, libraries, nextId, rows);
    StartExact(fold, libraries, nextId, server, rows);
    LoopTaken(fold, server, start, remotes, k, |remotes|);
    assert remotes[..|remotes|] == remotes;
    var row := start.byIdentity[Id(fold, remotes[k])];
    assert libraries[row.id].section == row.section && row.section in start.bySection;
  }

  /**
   Rows of reported sections keep id and section exactly when there is no takeover, if no new library shares its
   identity with another reported one.
   */
  lemma KeepsReportedIffNoTakeover(fold: string -> string, libraries: map<int, Library>, nextId: int, server: int,
                                   rows: seq<Row>, remotes: seq<Remote>)
    requires Before(libraries, nextId, server, rows) && DistinctSections(remotes)
    requires var start := Start(fold, libraries, nextId, rows);
             forall k :: 0 <= k < |remotes| && IsNew(start, remotes[k]) ==> OwnIdentity(fold, remotes, k)
    ensures var start := Start(fold, libraries, nextId, rows);
            NoTakeover(fold, start, remotes)
            <==> KeepsReported(libraries, server, remotes, Synced(fold, server, start, rows, remotes))
  {
    var start := Start(fold, libraries, nextId, rows);
    if NoTakeover(fold, start, remotes) {
      NoTakeoverKeeps(fold, libraries, nextId, server, rows, remotes);
    } else {
      var k :| 0 <= k < |remotes| && TakesOver(fold, start, remotes, k);
      TakeoverLoses(fold, libraries, nextId, server, rows, remotes, k);
    }
  }

  // ----- exactly when every reported library has its row

  /** Every row inserted since the start is the one of its identity, and has the section of a processed library. */
  ghost predicate NewRowsIndexed(fold: string -> string, start: State, s: State, remotes: seq<Remote>, i: nat)
    requires i <= |remotes|
  {
    && start.nextId <= s.nextId
    && forall id :: id in s.libraries && id >= start.nextId ==>
         var library := s.libraries[id];
         var key := IdentityOf(fold, library.name, library.kind);
         && key in s.byIdentity && s.byIdentity[key].id == id
         && exists j :: 0 <= j < i && remotes[j].section == library.section
  }

  lemma NewRowsStep(fold: string -> string, server: int, start: State, s: State, remotes: seq<Remote>, i: nat)
    requires i < |remotes| && DistinctSections(remotes) && Exact(s, server)
    requires NewRowsIndexed(fold, start, s, remotes, i)
    ensures NewRowsIndexed(fold, start, Step(fold, server, s, remotes[i]), remotes, i + 1)
  {
    var r, after := remotes[i], Step(fold, server, s, remotes[i]);
    forall id | id in after.libraries && id >= start.nextId
      ensures exists j :: 0 <= j < i + 1 && remotes[j].section == after.libraries[id].section
    {
      if id in s.libraries && after.libraries[id].section == s.libraries[id].section {
        var j :| 0 <= j < i && remotes[j].section == s.libraries[id].section;
        assert remotes[j].section == after.libraries[id].section;
      } else {
        assert remotes[i].section == after.libraries[id].section;
      }
    }
  }

  lemma {:induction false} LoopIndexesNewRows(fold: string -> string, server: int, start: State, remotes: seq<Remote>,
                                              i: nat)
    requires i <= |remotes| && DistinctSections(remotes) && Exact(start, server)
    ensures NewRowsIndexed(fold, start, Loop(fold, server, start, remotes[..i]), remotes, i)
    decreases i
  {
    if i > 0 {
      LoopIndexesNewRows(fold, server, start, remotes, i - 1);
      assert remotes[..i][..i - 1] == remotes[..i - 1];
      LoopExact(fold, server, start, remotes[..i - 1]);
      NewRowsStep(fold, server, start, Loop(fold, server, start, remotes[..i - 1]), remotes, i - 1);
    }
  }

  lemma SharedIdentityFails(fold: string -> string, libraries: map<int, Library>, nextId: int, server: int,
                            rows: seq<Row>, remotes: seq<Remote>, i: nat, j: nat)
    requires Before(libraries, nextId, server, rows) && DistinctSections(remotes) && i < j < |remotes|
    requires var start := Start(fold, libraries, nextId, rows);
             IsNew(start, remotes[i]) && IsNew(start, remotes[j]) && Id(fold, remotes[i]) == Id(fold, remotes[j])
    ensures var start := Start(fold, libraries, nextId, rows);
            !AllMatched(fold, start, server, remotes, Synced(fold, server, start, rows, remotes))
  {
    var start := Start(fold, libraries, nextId, rows);
    var s, after := Loop(fold, server, start, remotes), Synced(fold, server, start, rows, remotes);
    StartExact(fold, libraries, nextId, server, rows);
    LoopIndexesNewRows(fold, server, start, remotes, |remotes|);
    assert remotes[..|remotes|] == remotes;
  }

  lemma TakeoverFails(fold: string -> string, libraries: map<int, Library>, nextId: int, server: int,
                      rows: seq<Row>, remotes: seq<Remote>, k: nat)
    requires Before(libraries, nextId, server, rows) && k < |remotes|
    requires TakesOver(fold, Start(fold, libraries, nextId, rows), remotes, k)
    ensures var start := Start(fold, libraries, nextId, rows);
            !AllMatched(fold, start, server, remotes, Synced(fold, server, start, rows, remotes))
  {
    var start := Start(fold, libraries, nextId, rows);
    var after := Synced(fold, server, start, rows, remotes);
    StartExact(fold, libraries, nextId, server, rows);
    var row := start.byIdentity[Id(fold, remotes[k])];
    var m :| 0 <= m < |remotes| && remotes[m].section == row.section;
  }

  /**
   With distinct section ids, every reported library ends up with exactly the row that stands for it if and only if no
   new library takes the row of a reported section and no two new libraries share an identity.
   */
  lemma AllMatchedIff(fold: string -> string, libraries: map<int, Library>, nextId: int, server: int,
                      rows: seq<Row>, remotes: seq<Remote>)
    requires Before(libraries, nextId, server, rows) && DistinctSections(remotes)
    ensures var start := Start(fold, libraries, nextId, rows);
            AllMatched(fold, start, server, remotes, Synced(fold, server, start, rows, remotes))
            <==> NoTakeover(fold, start, remotes) && NewOnesDiffer(fold, start, remotes)
  {
    var start := Start(fold, libraries, nextId, rows);
    if !NoTakeover(fold, start, remotes) {
      var k :| 0 <= k < |remotes| && TakesOver(fold, start, remotes, k);
      TakeoverFails(fold, libraries, nextId, server, rows, remotes, k);
    } else if !NewOnesDiffer(fold, start, remotes) {
      var i, j :| 0 <= i < j < |remotes| && IsNew(start, remotes[i]) && IsNew(start, remotes[j])
                  && Id(fold, remotes[i]) == Id(fold, remotes[j]);
      SharedIdentityFails(fold, libraries, nextId, server, rows, remotes, i, j);
    } else {
      Reconciled(fold, libraries, nextId, server, rows, remotes);
    }
  }

  // ----- examples

  lemma LoopOfTwo(fold: string -> string, server: int, start: State, a: Remote, b: Remote)
    ensures Loop(fold, server, start, [a, b]) == Step(fold, server, Step(fold, server, start, a), b)
  {
    assert [a, b][..1] == [a] && [a][..0] == [];
    assert Loop(fold, server, start, [a]) == Step(fold, server, start, a);
  }

  /** The first synchronisation of a server with two libraries of one name and type leaves one row for both. */
  lemma FirstSyncExample(fold: string -> string)
    ensures var remotes := [Remote("1", "Movies", "movie"), Remote("2", "Movies", "movie")];
            var start := Start(fold, map[], 1, []);
            && Before(map[], 1, 1, []) && DistinctSections(remotes) && NoTakeover(fold, start, remotes)
            && Synced(fold, 1, start, [], remotes) == map[1 := Library(1, "2", "Movies", "movie")]
  {
    var a, b := Remote("1", "Movies", "movie"), Remote("2", "Movies", "movie");
    var start := Start(fold, map[], 1, []);
    LoopOfTwo(fold, 1, start, a, b);
    var s := Step(fold, 1, start, a);
    assert a.section[0] == '1' && b.section[0] == '2';
    assert s == Insert(fold, 1, start, a);
    assert Step(fold, 1, s, b) == Rekey(fold, s, b);
  }

  /**
   A takeover alone need not cost a row its section: a new library of the same name takes the row and the known one,
   reported after it, takes it back.  The new library is left without a row.
   */
  lemma TakenBackExample(fold: string -> string)
    ensures var libraries := map[7 := Library(1, "1", "Movies", "movie")];
            var rows := [Row(7, "1", "Movies", "movie")];
            var remotes := [Remote("2", "Movies", "movie"), Remote("1", "Movies", "movie")];
            var start := Start(fold, libraries, 8, rows);
            && Before(libraries, 8, 1, rows) && DistinctSections(remotes) && !NoTakeover(fold, start, remotes)
            && Synced(fold, 1, start, rows, remotes) == libraries
  {
    var libraries := map[7 := Library(1, "1", "Movies", "movie")];
    var rows := [Row(7, "1", "Movies", "movie")];
    var a, b := Remote("2", "Movies", "movie"), Remote("1", "Movies", "movie");
    var start := Start(fold, libraries, 8, rows);
    assert rows[..0] == [] && rows[0].id == 7;
    assert a.section[0] == '2' && b.section[0] == '1';
    assert start.bySection == map["1" := rows[0]];
    assert start.byIdentity == map[Id(fold, a) := rows[0]];
    LoopOfTwo(fold, 1, start, a, b);
    var s := Step(fold, 1, start, a);
    assert s == Rekey(fold, start, a);
    assert s.bySection.Keys == {"2"};
    assert Step(fold, 1, s, b) == Rekey(fold, s, b);
    assert [a, b][1].section == "1" && [a, b][0] == a;
    assert TakesOver(fold, start, [a, b], 0);
  }

  /** A renamed library whose old name another, new library now carries: the new one is given its row. */
  lemma TakeoverExample()
    ensures var libraries := map[7 := Library(1, "1", "Movies", "movie")];
            var rows := [Row(7, "1", "Movies", "movie")];
            var remotes := [Remote("2", "Movies", "movie"), Remote("1", "Films", "movie")];
            var fold := (text: string) => text;
            && Before(libraries, 8, 1, rows) && DistinctSections(remotes)
            && !KeepsReported(libraries, 1, remotes, Synced(fold, 1, Start(fold, libraries, 8, rows), rows, remotes))
  {
    var libraries := map[7 := Library(1, "1", "Movies", "movie")];
    var rows := [Row(7, "1", "Movies", "movie")];
    var remotes := [Remote("2", "Movies", "movie"), Remote("1", "Films", "movie")];
    var fold := (text: string) => text;
    assert rows[0].id == 7;
    assert rows[..0] == [];
    var start := Start(fold, libraries, 8, rows);
    assert start.bySection == map["1" := rows[0]];
    assert start.byIdentity == map[("Movies", "movie") := rows[0]];
    assert remotes[1].section == "1";
    assert Reported(remotes, "1");
    assert "Movies" != "Films";
    TakeoverLoses(fold, libraries, 8, 1, rows, remotes, 0);
  }
}
