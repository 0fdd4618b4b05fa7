/**
 What a synchronisation does to each row of the libraries table, told by sections, names and types alone: a row that
 stays keeps its section or the folded name and type it had.
 */
module LibraryRows {
  import opened LibrarySync
  import opened LibraryReconcile

  // ----- a row that stays describes what it described

  /** Two libraries have the same name and the same type, up to folding. */
  predicate SameTitle(fold: string -> string, a: Library, b: Library) {
    fold(a.name) == fold(b.name) && fold(a.kind) == fold(b.kind)
  }

  /**
   After `i` reported libraries: every old row has its section or has moved to a reported one with the same folded name
   and type, and an index entry for an old row has the folded name and type that the row began with.
   */
  ghost predicate Traced(fold: string -> string, libraries: map<int, Library>, nextId: int, s: State,
                         remotes: seq<Remote>, i: nat)
    requires i <= |remotes|
  {
    && nextId <= s.nextId && libraries.Keys <= s.libraries.Keys
    && (forall id :: id in s.libraries ==> id in libraries || id >= nextId)
    && (forall key :: key in s.byIdentity && s.byIdentity[key].id in libraries ==>
          var was := libraries[s.byIdentity[key].id]; key == (fold(was.name), fold(was.kind)))
    && (forall id :: id in libraries && id in s.libraries ==>
          s.libraries[id].server == libraries[id].server
          && (s.libraries[id].section == libraries[id].section
              || (SameTitle(fold, s.libraries[id], libraries[id])
                  && exists j :: 0 <= j < i && remotes[j].section == s.libraries[id].section)))
  }

  lemma StartTraced(fold: string -> string, libraries: map<int, Library>, nextId: int, server: int, rows: seq<Row>,
                    remotes: seq<Remote>)
    requires Before(libraries, nextId, server, rows)
    ensures Traced(fold, libraries, nextId, Start(fold, libraries, nextId, rows), remotes, 0)
  {
    forall key | key in IdentityIndex(fold, rows)
      ensures var id := IdentityIndex(fold, rows)[key].id;
              id in libraries && key == (fold(libraries[id].name), fold(libraries[id].kind))
    {
      var i := IdentityIndexOf(fold, rows, key);
      assert libraries[rows[i].id] == Library(server, rows[i].section, rows[i].name, rows[i].kind);
    }
  }

  lemma TracedStep(fold: string -> string, libraries: map<int, Library>, nextId: int, server: int, s: State,
                   remotes: seq<Remote>, i: nat)
    requires i < |remotes| && DistinctSections(remotes) && Exact(s, server) && IdsBelow(libraries, nextId)
    requires Traced(fold, libraries, nextId, s, remotes, i)
    ensures Traced(fold, libraries, nextId, Step(fold, server, s, remotes[i]), remotes, i + 1)
  {
    var r, after := remotes[i], Step(fold, server, s, remotes[i]);
    forall id | id in libraries && id in after.libraries
      ensures after.libraries[id].server == libraries[id].server
      ensures after.libraries[id].section == libraries[id].section
              || (SameTitle(fold, after.libraries[id], libraries[id])
                  && exists j :: 0 <= j < i + 1 && remotes[j].section == after.libraries[id].section)
    {
      assert id in s.libraries;
      if after.libraries[id] != s.libraries[id] {
        assert remotes[i].section == after.libraries[id].section;
      }
    }
  }

  lemma {:induction false} LoopTraced(fold: string -> string, libraries: map<int, Library>, nextId: int, server: int,
                                      rows: seq<Row>, remotes: seq<Remote>, i: nat)
    requires i <= |remotes| && DistinctSections(remotes) && Before(libraries, nextId, server, rows)
    ensures Traced(fold, libraries, nextId,
                   Loop(fold, server, Start(fold, libraries, nextId, rows), remotes[..i]), remotes, i)
    decreases i
  {
    var start := Start(fold, libraries, nextId, rows);
    if i == 0 {
      StartTraced(fold, libraries, nextId, server, rows, remotes);
    } else {
      LoopTraced(fold, libraries, nextId, server, rows, remotes, i - 1);
      assert remotes[..i][..i - 1] == remotes[..i - 1];
      StartExact(fold, libraries, nextId, server, rows);
      LoopExact(fold, server, start, remotes[..i - 1]);
      TracedStep(fold, libraries, nextId, server, Loop(fold, server, start, remotes[..i - 1]), remotes, i - 1);
    }
  }

  /**
   For every report with distinct section ids: a row that remains keeps its server, and its section or else its folded
   name and type; and access links remain exactly if their rows do, so each leads to what it led to.
   */
  lemma KeptRowsStayTrue(fold: string -> string, libraries: map<int, Library>, nextId: int, server: int,
                         rows: seq<Row>, remotes: seq<Remote>, id: int)
    requires Before(libraries, nextId, server, rows) && DistinctSections(remotes) && id in libraries
    ensures var start := Start(fold, libraries, nextId, rows);
            id !in Gone(rows, Loop(fold, server, start, remotes).found)
            <==> id in Synced(fold, server, start, rows, remotes)
    ensures var after := Synced(fold, server, Start(fold, libraries, nextId, rows), rows, remotes);
            id in after ==>
              && after[id].server == libraries[id].server
              && (after[id].section == libraries[id].section
                  || (fold(after[id].name) == fold(libraries[id].name)
                      && fold(after[id].kind) == fold(libraries[id].kind)))
  {
    LoopTraced(fold, libraries, nextId, server, rows, remotes, |remotes|);
    assert remotes[..|remotes|] == remotes;
  }

  // ----- which row a reported library gets

  predicate Alike(fold: string -> string, row: Row, r: Remote) {
    fold(row.name) == fold(r.name) && fold(row.kind) == fold(r.kind)
  }

  predicate Known(rows: seq<Row>, section: string) {
    exists i :: 0 <= i < |rows| && rows[i].section == section
  }

  predicate IsUnknown(rows: seq<Row>, r: Remote) {
    r.section != "" && !Known(rows, r.section)
  }

  /** `rows[i]` is the first row with the folded name and type of the library. */
  predicate FirstAlike(fold: string -> string, rows: seq<Row>, r: Remote, i: int) {
    0 <= i < |rows| && Alike(fold, rows[i], r) && forall j :: 0 <= j < i ==> !Alike(fold, rows[j], r)
  }

  /** The first row like a library of unknown section is never one whose own section is reported. */
  ghost predicate NothingTaken(fold: string -> string, rows: seq<Row>, remotes: seq<Remote>) {
    forall k, i :: 0 <= k < |remotes| && IsUnknown(rows, remotes[k]) && FirstAlike(fold, rows, remotes[k], i) ==>
      !Reported(remotes, rows[i].section)
  }

  /** Two libraries of unknown sections differ in the folded name or in the folded type. */
  ghost predicate UnknownDiffer(fold: string -> string, rows: seq<Row>, remotes: seq<Remote>) {
    forall j, k :: 0 <= j < k < |remotes| && IsUnknown(rows, remotes[j]) && IsUnknown(rows, remotes[k]) ==>
      fold(remotes[j].name) != fold(remotes[k].name) || fold(remotes[j].kind) != fold(remotes[k].kind)
  }

  /** The row of the library's section, else the first row like it, else a row that did not exist. */
  ghost predicate Deserves(fold: string -> string, libraries: map<int, Library>, rows: seq<Row>, r: Remote, id: int) {
    && (forall i :: 0 <= i < |rows| && rows[i].section == r.section ==> id == rows[i].id)
    && (!Known(rows, r.section) ==>
          && (forall i :: FirstAlike(fold, rows, r, i) ==> id == rows[i].id)
          && ((forall i :: 0 <= i < |rows| ==> !Alike(fold, rows[i], r)) ==> id !in libraries))
  }

  lemma SectionsKnown(fold: string -> string, libraries: map<int, Library>, nextId: int, server: int, rows: seq<Row>)
    requires Before(libraries, nextId, server, rows)
    ensures var index := Start(fold, libraries, nextId, rows).bySection;
            && (forall sec :: sec in index <==> sec != "" && Known(rows, sec))
            && (forall i :: 0 <= i < |rows| && rows[i].section in index ==> index[rows[i].section] == rows[i])
  {
    forall i, j | 0 <= i < j < |rows| ensures rows[i].section != rows[j].section {
      assert rows[i].id != rows[j].id;
      assert libraries[rows[i].id].section == rows[i].section && libraries[rows[j].id].section == rows[j].section;
    }
    SectionIndexOf(rows);
  }

  lemma TitlesKnown(fold: string -> string, rows: seq<Row>, r: Remote) returns (i: int)
    ensures var index := IdentityIndex(fold, rows);
            if Id(fold, r) in index then FirstAlike(fold, rows, r, i) && index[Id(fold, r)] == rows[i]
            else forall j :: 0 <= j < |rows| ==> !Alike(fold, rows[j], r)
  {
    i := IdentityIndexOf(fold, rows, Id(fold, r));
  }

  lemma FirstAlikeIsOne(fold: string -> string, rows: seq<Row>, r: Remote, i: int, j: int)
    requires FirstAlike(fold, rows, r, i) && FirstAlike(fold, rows, r, j)
    ensures i == j
  {
  }

  lemma TakenIff(fold: string -> string, start: State, rows: seq<Row>, remotes: seq<Remote>, k: nat)
    requires k < |remotes| && IsNew(start, remotes[k]) && start.byIdentity == IdentityIndex(fold, rows)
    ensures TakesOver(fold, start, remotes, k)
            <==> exists i :: FirstAlike(fold, rows, remotes[k], i) && Reported(remotes, rows[i].section)
  {
    var i := TitlesKnown(fold, rows, remotes[k]);
    forall j | FirstAlike(fold, rows, remotes[k], j) && Id(fold, remotes[k]) in start.byIdentity ensures j == i {
      FirstAlikeIsOne(fold, rows, remotes[k], i, j);
    }
  }

  lemma ConditionsIff(fold: string -> string, libraries: map<int, Library>, nextId: int, server: int,
                      rows: seq<Row>, remotes: seq<Remote>)
    requires Before(libraries, nextId, server, rows)
    ensures var start := Start(fold, libraries, nextId, rows);
            && (NothingTaken(fold, rows, remotes) <==> NoTakeover(fold, start, remotes))
            && (UnknownDiffer(fold, rows, remotes) <==> NewOnesDiffer(fold, start, remotes))
  {
    var start := Start(fold, libraries, nextId, rows);
    SectionsKnown(fold, libraries, nextId, server, rows);
    assert forall k :: 0 <= k < |remotes| ==> IsUnknown(rows, remotes[k]) == IsNew(start, remotes[k]);
    forall k | 0 <= k < |remotes| && IsNew(start, remotes[k])
      ensures TakesOver(fold, start, remotes, k)
              <==> exists i :: FirstAlike(fold, rows, remotes[k], i) && Reported(remotes, rows[i].section)
    {
      TakenIff(fold, start, rows, remotes, k);
    }
  }

  lemma DeservesKnown(fold: string -> string, libraries: map<int, Library>, start: State, rows: seq<Row>, r: Remote,
                      id: int, k: nat)
    requires k < |rows| && rows[k].section == r.section && r.section in start.bySection
    requires forall i :: 0 <= i < |rows| && rows[i].section in start.bySection ==>
               start.bySection[rows[i].section] == rows[i]
    ensures Deserves(fold, libraries, rows, r, id) <==> StandsFor(fold, start, r, id)
  {
  }

  lemma DeservesUnknown(fold: string -> string, libraries: map<int, Library>, start: State, rows: seq<Row>, r: Remote,
                        id: int)
    requires !Known(rows, r.section) && r.section !in start.bySection
    requires start.byIdentity == IdentityIndex(fold, rows)
    requires id in libraries <==> id < start.nextId
    ensures Deserves(fold, libraries, rows, r, id) <==> StandsFor(fold, start, r, id)
  {
    var i := TitlesKnown(fold, rows, r);
    forall j | FirstAlike(fold, rows, r, j) && Id(fold, r) in start.byIdentity ensures j == i {
      FirstAlikeIsOne(fold, rows, r, i, j);
    }
  }

  lemma DeservesIff(fold: string -> string, libraries: map<int, Library>, nextId: int, server: int, rows: seq<Row>,
                    r: Remote, id: int)
    requires Before(libraries, nextId, server, rows) && r.section != ""
    requires id in libraries || id >= nextId
    ensures Deserves(fold, libraries, rows, r, id) <==> StandsFor(fold, Start(fold, libraries, nextId, rows), r, id)
  {
    var start := Start(fold, libraries, nextId, rows);
    SectionsKnown(fold, libraries, nextId, server, rows);
    if Known(rows, r.section) {
      var k :| 0 <= k < |rows| && rows[k].section == r.section;
      DeservesKnown(fold, libraries, start, rows, r, id, k);
    } else {
      DeservesUnknown(fold, libraries, start, rows, r, id);
    }
  }

  /** Every reported library has one row, and it is the row that the library deserves. */
  ghost predicate AllServed(fold: string -> string, libraries: map<int, Library>, server: int, rows: seq<Row>,
                            remotes: seq<Remote>, after: map<int, Library>)
  {
    forall k :: 0 <= k < |remotes| && remotes[k].section != "" ==>
      exists id :: IsRowOf(after, server, remotes[k], id) && Deserves(fold, libraries, rows, remotes[k], id)
  }

  /**
   With distinct section ids alone: every reported library ends with one row, with its section, name and type, that is
   the old row of its section, else the first old row with its folded name and type, else a new row, if and only if
   nothing is taken from a reported section and the libraries of unknown sections differ.
   */
  lemma AllServedIff(fold: string -> string, libraries: map<int, Library>, nextId: int, server: int,
                     rows: seq<Row>, remotes: seq<Remote>)
    requires Before(libraries, nextId, server, rows) && DistinctSections(remotes)
    ensures AllServed(fold, libraries, server, rows, remotes,
                      Synced(fold, server, Start(fold, libraries, nextId, rows), rows, remotes))
            <==> NothingTaken(fold, rows, remotes) && UnknownDiffer(fold, rows, remotes)
  {
    var start := Start(fold, libraries, nextId, rows);
    var after := Synced(fold, server, start, rows, remotes);
    ConditionsIff(fold, libraries, nextId, server, rows, remotes);
    AllMatchedIff(fold, libraries, nextId, server, rows, remotes);
    LoopTraced(fold, libraries, nextId, server, rows, remotes, |remotes|);
    assert remotes[..|remotes|] == remotes;
    forall k, id | 0 <= k < |remotes| && remotes[k].section != "" && IsRowOf(after, server, remotes[k], id)
      ensures Deserves(fold, libraries, rows, remotes[k], id) <==> StandsFor(fold, start, remotes[k], id)
    {
      DeservesIff(fold, libraries, nextId, server, rows, remotes[k], id);
    }
  }

  /** So a library of unknown section is given an old row exactly if some old row is like it. */
  lemma OldRowIffAlike(fold: string -> string, libraries: map<int, Library>, nextId: int, server: int,
                       rows: seq<Row>, remotes: seq<Remote>, k: nat, id: int)
    requires Before(libraries, nextId, server, rows) && DistinctSections(remotes)
    requires NothingTaken(fold, rows, remotes) && UnknownDiffer(fold, rows, remotes)
    requires k < |remotes| && IsUnknown(rows, remotes[k])
    requires IsRowOf(Synced(fold, server, Start(fold, libraries, nextId, rows), rows, remotes), server, remotes[k], id)
    ensures id in libraries <==> exists i :: 0 <= i < |rows| && Alike(fold, rows[i], remotes[k])
  {
    AllServedIff(fold, libraries, nextId, server, rows, remotes);
    var i := TitlesKnown(fold, rows, remotes[k]);
  }
}
