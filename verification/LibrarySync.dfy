/**
 sync_plex_libraries of app/core/plex_library_sync.py: reconciling one server's rows with the libraries the server
 reports, through two live indexes.  Remote fields are taken as already stripped; `fold` is the normalisation
 (strip and case folding) of names and types.
 */
module LibrarySync {

  datatype Library = Library(server: int, section: string, name: string, kind: string)

  datatype Remote = Remote(section: string, name: string, kind: string)

  /** One row of the initial SELECT. */
  datatype Row = Row(id: int, section: string, name: string, kind: string)

  type Identity = (string, string)

  /** The libraries table, the next row id, and the loop's three dictionaries. */
  datatype State = State(
    libraries: map<int, Library>,
    nextId: int,
    bySection: map<string, Row>,
    byIdentity: map<Identity, Row>,
    found: set<int>)

  function IdentityOf(fold: string -> string, name: string, kind: string): Identity {
    (fold(name), fold(kind))
  }

  function Id(fold: string -> string, r: Remote): Identity {
    IdentityOf(fold, r.name, r.kind)
  }

  // ----- the indexes

  function SectionIndex(rows: seq<Row>): map<string, Row> {
    if rows == [] then map[] else
      var n := |rows| - 1;
      var index := SectionIndex(rows[..n]);
      if rows[n].section != "" then index[rows[n].section := rows[n]] else index
  }

  function IdentityIndex(fold: string -> string, rows: seq<Row>): map<Identity, Row> {
    if rows == [] then map[] else
      var n := |rows| - 1;
      var index := IdentityIndex(fold, rows[..n]);
      var key := IdentityOf(fold, rows[n].name, rows[n].kind);
      if key in index then index else index[key := rows[n]]
  }

  // ----- the loop

  /** The section is known: the row keeps its id and section. */
  function Update(s: State, r: Remote): State
    requires r.section in s.bySection
  {
    var id := s.bySection[r.section].id;
    s.(libraries := if id in s.libraries
                    then s.libraries[id := s.libraries[id].(name := r.name, kind := r.kind)]
                    else s.libraries,
       found := s.found + {id})
  }

  /** The section is new but the identity is known: the row of that identity moves to the new section. */
  function Rekey(fold: string -> string, s: State, r: Remote): State
    requires Id(fold, r) in s.byIdentity
  {
    var was := s.byIdentity[Id(fold, r)];
    var row := Row(was.id, r.section, r.name, r.kind);
    s.(libraries := if was.id in s.libraries
                    then s.libraries[was.id := Library(s.libraries[was.id].server, r.section, r.name, r.kind)]
                    else s.libraries,
       bySection := (s.bySection - {was.section})[r.section := row],
       byIdentity := s.byIdentity[Id(fold, r) := row],
       found := s.found + {was.id})
  }

  function Insert(fold: string -> string, server: int, s: State, r: Remote): State {
    var row := Row(s.nextId, r.section, r.name, r.kind);
    State(s.libraries[s.nextId := Library(server, r.section, r.name, r.kind)],
          s.nextId + 1,
          s.bySection[r.section := row],
          s.byIdentity[Id(fold, r) := row],
          s.found + {s.nextId})
  }

  function Step(fold: string -> string, server: int, s: State, r: Remote): State {
    if r.section == "" then s
    else if r.section in s.bySection then Update(s, r)
    else if Id(fold, r) in s.byIdentity then Rekey(fold, s, r)
    else Insert(fold, server, s, r)
  }

  function Loop(fold: string -> string, server: int, s: State, remotes: seq<Remote>): State {
    if remotes == [] then s else
      var n := |remotes| - 1;
      Step(fold, server, Loop(fold, server, s, remotes[..n]), remotes[n])
  }

  function Start(fold: string -> string, libraries: map<int, Library>, nextId: int, rows: seq<Row>): State {
    State(libraries, nextId, SectionIndex(rows), IdentityIndex(fold, rows), {})
  }

  function Gone(rows: seq<Row>, found: set<int>): set<int> {
    set i | 0 <= i < |rows| && rows[i].id !in found :: rows[i].id
  }

  /** `rows` is the SELECT's answer for `server`, in whatever order the database returns it. */
  ghost predicate Selected(libraries: map<int, Library>, server: int, rows: seq<Row>) {
    && (forall i :: 0 <= i < |rows| ==>
          rows[i].id in libraries
          && libraries[rows[i].id] == Library(server, rows[i].section, rows[i].name, rows[i].kind))
    && (forall i, j :: 0 <= i < j < |rows| ==> rows[i].id != rows[j].id)
    && (forall id :: id in libraries && libraries[id].server == server ==>
          exists i :: 0 <= i < |rows| && rows[i].id == id)
  }

  /** UNIQUE(server_id, section_id). */
  ghost predicate SectionsUnique(libraries: map<int, Library>) {
    forall a, b :: a in libraries && b in libraries && a != b ==>
      libraries[a].server != libraries[b].server || libraries[a].section != libraries[b].section
  }

  ghost predicate IdsBelow(libraries: map<int, Library>, nextId: int) {
    forall id :: id in libraries ==> id < nextId
  }

  class Database {
    var libraries: map<int, Library>
    var links: set<(int, int)>
    var nextId: int

    ghost predicate Valid()
      reads this
    {
      SectionsUnique(libraries) && IdsBelow(libraries, nextId)
    }

    /** The whole synchronisation; `rows` is what the SELECT returned. */
    method SyncPlexLibraries(fold: string -> string, server: int, rows: seq<Row>, remotes: seq<Remote>)
      requires Valid() && Selected(libraries, server, rows)
      modifies this
      ensures var s := Loop(fold, server, Start(fold, old(libraries), old(nextId), rows), remotes);
              && libraries == s.libraries - Gone(rows, s.found)
              && links == (set l | l in old(links) && l.1 !in Gone(rows, s.found))
              && nextId == s.nextId
    {
      var bySection, byIdentity := BuildIndexes(fold, rows);
      var found := MatchLibraries(fold, server, bySection, byIdentity, remotes);
      DeleteUnmatched(rows, found);
    }

    method BuildIndexes(fold: string -> string, rows: seq<Row>)
      returns (bySection: map<string, Row>, byIdentity: map<Identity, Row>)
      ensures bySection == SectionIndex(rows) && byIdentity == IdentityIndex(fold, rows)
    {
      bySection, byIdentity := map[], map[];
      for i := 0 to |rows|
        invariant bySection == SectionIndex(rows[..i])
        invariant byIdentity == IdentityIndex(fold, rows[..i])
      {
        assert rows[..i + 1][..i] == rows[..i];
        var row := rows[i];
        if row.section != "" {
          bySection := bySection[row.section := row];
        }
        var key := IdentityOf(fold, row.name, row.kind);
        if key !in byIdentity {
          byIdentity := byIdentity[key := row];
        }
      }
      assert rows[..|rows|] == rows;
    }

    method MatchLibraries(fold: string -> string, server: int, sections: map<string, Row>,
                          identities: map<Identity, Row>, remotes: seq<Remote>)
      returns (found: set<int>)
      modifies this`libraries, this`nextId
      ensures var s := Loop(fold, server, State(old(libraries), old(nextId), sections, identities, {}), remotes);
              libraries == s.libraries && nextId == s.nextId && found == s.found
    {
      var bySection, byIdentity := sections, identities;
      found := {};
      ghost var start := State(libraries, nextId, bySection, byIdentity, {});
      for i := 0 to |remotes|
        invariant State(libraries, nextId, bySection, byIdentity, found)
                  == Loop(fold, server, start, remotes[..i])
      {
        assert remotes[..i + 1][..i] == remotes[..i];
        var r := remotes[i];
        if r.section == "" {
          continue;
        }
        var id;
        if r.section in bySection {
          id := bySection[r.section].id;
          if id in libraries {
            libraries := libraries[id := libraries[id].(name := r.name, kind := r.kind)];
          }
        } else if Id(fold, r) in byIdentity {
          var was := byIdentity[Id(fold, r)];
          id := was.id;
          if id in libraries {
            libraries := libraries[id := libraries[id].(section := r.section, name := r.name, kind := r.kind)];
          }
          var row := Row(id, r.section, r.name, r.kind);
          bySection := bySection - {was.section};
          bySection := bySection[r.section := row];
          byIdentity := byIdentity[Id(fold, r) := row];
        } else {
          id := nextId;
          libraries := libraries[id := Library(server, r.section, r.name, r.kind)];
          nextId := nextId + 1;
          var row := Row(id, r.section, r.name, r.kind);
          bySection := bySection[r.section := row];
          byIdentity := byIdentity[Id(fold, r) := row];
        }
        found := found + {id};
      }
      assert remotes[..|remotes|] == remotes;
    }

    method DeleteUnmatched(rows: seq<Row>, found: set<int>)
      modifies this`libraries, this`links
      ensures libraries == old(libraries) - Gone(rows, found)
      ensures links == set l | l in old(links) && l.1 !in Gone(rows, found)
    {
      for i := 0 to |rows|
        invariant libraries == old(libraries) - Gone(rows[..i], found)
        invariant links == set l | l in old(links) && l.1 !in Gone(rows[..i], found)
      {
        var id := rows[i].id;
        GoneStep(rows, i, found);
        if id !in found {
          links := set l | l in links && l.1 != id;
          libraries := libraries - {id};
        }
      }
      assert rows[..|rows|] == rows;
    }
  }

  lemma GoneStep(rows: seq<Row>, i: nat, found: set<int>)
    requires i < |rows|
    ensures Gone(rows[..i + 1], found) == Gone(rows[..i], found) + if rows[i].id in found then {} else {rows[i].id}
  {
    var now, was := Gone(rows[..i + 1], found), Gone(rows[..i], found);
    forall id | id in now ensures id in was || id == rows[i].id {
      var k :| 0 <= k < |rows[..i + 1]| && rows[..i + 1][k].id == id && id !in found;
      assert k < i ==> rows[..i][k].id == id;
    }
    forall id | id in was ensures id in now {
      var k :| 0 <= k < |rows[..i]| && rows[..i][k].id == id && id !in found;
      assert rows[..i + 1][k].id == id;
    }
    assert rows[..i + 1][i] == rows[i];
  }
}
