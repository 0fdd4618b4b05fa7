/**
 The foreign keys of tables.sql that refer to users and media users, and what SQLite does to the rows that carry them
 when a referenced row is deleted: ON DELETE CASCADE or ON DELETE SET NULL.
 */
module ForeignKeys {
  import opened Collections

  datatype Table =
    | VodumUsers | MediaUsers
    | UserReferrals | SentDiscord | CommScheduled | CampaignTargets | RiskRecommendations | MigrationUsers
    | ReferralEvents | MigrationSteps
    | CommHistory | MediaSessions | MediaEvents | SessionHistory

  /** A row by its primary key. */
  datatype Ref = Ref(table: Table, id: int)

  /** Columns that are set to null when the row they refer to is deleted. */
  datatype Link = Referrer | OldReferrer | NewReferrer | Recipient | Player | Source | Destination

  /** The references of a row: to its parents (CASCADE) and through its links that are not null (SET NULL). */
  datatype Row = Row(parents: set<Ref>, links: map<Link, Ref>)

  type Rows = map<Ref, Row>

  function User(id: int): Ref { Ref(VodumUsers, id) }

  function MediaUser(id: int): Ref { Ref(MediaUsers, id) }

  /** Rows with a parent among those that go. */
  function Orphans(rows: Rows, gone: set<Ref>): set<Ref> {
    set r | r in rows && r !in gone && rows[r].parents * gone != {}
  }

  /** Everything that goes when `gone` goes. */
  function Doomed(rows: Rows, gone: set<Ref>): set<Ref>
    decreases rows.Keys - gone
  {
    var next := Orphans(rows, gone);
    if next == {} then gone else
      assert rows.Keys - (gone + next) < rows.Keys - gone by {
        var r := Member(next);
        assert r in rows.Keys - gone;
      }
      Doomed(rows, gone + next)
  }

  function Unlinked(row: Row, gone: set<Ref>): Row {
    row.(links := map l | l in row.links && row.links[l] !in gone :: row.links[l])
  }

  /** The tables after a DELETE of the given rows. */
  function Deleted(rows: Rows, refs: set<Ref>): Rows {
    var gone := Doomed(rows, refs);
    map r | r in rows && r !in gone :: Unlinked(rows[r], gone)
  }

  ghost predicate Closed(rows: Rows, gone: set<Ref>) {
    forall r, p :: r in rows && p in rows[r].parents && p in gone ==> r in gone
  }

  /** The rows that go are the least set that holds the deleted ones and, with a parent, its children. */
  lemma {:induction false} DoomedIsLeast(rows: Rows, gone: set<Ref>)
    ensures gone <= Doomed(rows, gone) && Closed(rows, Doomed(rows, gone))
    ensures forall s :: gone <= s && Closed(rows, s) ==> Doomed(rows, gone) <= s
    decreases rows.Keys - gone
  {
    var next := Orphans(rows, gone);
    if next == {} {
      forall r, p | r in rows && p in rows[r].parents && p in gone ensures r in gone {
        assert p in rows[r].parents * gone;
        assert r in gone || r in next;
      }
    } else {
      var some := Member(next);
      assert some in rows.Keys - gone;
      DoomedIsLeast(rows, gone + next);
      forall s | gone <= s && Closed(rows, s) ensures gone + next <= s {
        forall r | r in next ensures r in s {
          var p := Member(rows[r].parents * gone);
        }
      }
    }
  }

  /** Every reference points to a row that exists. */
  ghost predicate Intact(rows: Rows) {
    && (forall r, p :: r in rows && p in rows[r].parents ==> p in rows)
    && (forall r, l :: r in rows && l in rows[r].links ==> rows[r].links[l] in rows)
  }

  /** A DELETE leaves no reference to a row that is gone, and touches no row without one. */
  lemma DeleteKeepsIntact(rows: Rows, refs: set<Ref>)
    requires Intact(rows)
    ensures Intact(Deleted(rows, refs))
    ensures forall r :: r in Deleted(rows, refs) ==> r !in refs
    ensures forall r ::
              (r in rows && r !in Doomed(rows, refs) && rows[r].links.Values !! Doomed(rows, refs)
               ==> r in Deleted(rows, refs) && Deleted(rows, refs)[r] == rows[r])
  {
    var gone := Doomed(rows, refs);
    DoomedIsLeast(rows, refs);
    forall r | r in rows && r !in gone && rows[r].links.Values !! gone ensures Unlinked(rows[r], gone) == rows[r] {
      assert forall l :: l in rows[r].links ==> rows[r].links[l] in rows[r].links.Values;
    }
  }

  /** The row refers to one of the deleted rows. */
  predicate Mentions(row: Row, refs: set<Ref>) {
    row.parents * refs != {} || row.links.Values * refs != {}
  }

  /** A DELETE changes nothing but the deleted rows exactly if no other row mentions one of them. */
  lemma NothingElseLostIff(rows: Rows, refs: set<Ref>)
    ensures Deleted(rows, refs) == rows - refs <==> forall r :: r in rows && r !in refs ==> !Mentions(rows[r], refs)
  {
    var gone, after := Doomed(rows, refs), Deleted(rows, refs);
    DoomedIsLeast(rows, refs);
    if forall r :: r in rows && r !in refs ==> !Mentions(rows[r], refs) {
      Unmentioned(rows, refs);
    } else {
      var r :| r in rows && r !in refs && Mentions(rows[r], refs);
      MentionedIsLost(rows, refs, r);
    }
  }

  lemma Unmentioned(rows: Rows, refs: set<Ref>)
    requires forall r :: r in rows && r !in refs ==> !Mentions(rows[r], refs)
    ensures Deleted(rows, refs) == rows - refs
  {
    forall r | r in Orphans(rows, refs) ensures false {
      assert Mentions(rows[r], refs);
    }
    NoMembers(Orphans(rows, refs));
    assert Doomed(rows, refs) == refs;
    forall r | r in rows && r !in refs ensures Unlinked(rows[r], refs) == rows[r] {
      forall l | l in rows[r].links ensures rows[r].links[l] !in refs {
        var target := rows[r].links[l];
        assert target in refs <==> target in rows[r].links.Values * refs;
      }
    }
  }

  /** A row that mentions a deleted one goes with it or loses a link. */
  lemma MentionedIsLost(rows: Rows, refs: set<Ref>, r: Ref)
    requires r in rows && r !in refs && Mentions(rows[r], refs)
    ensures r !in Deleted(rows, refs) || Deleted(rows, refs)[r] != rows[r]
  {
    DoomedIsLeast(rows, refs);
    if rows[r].parents * refs != {} {
      var p := Member(rows[r].parents * refs);
    } else {
      var target := Member(rows[r].links.Values * refs);
      var l :| l in rows[r].links && rows[r].links[l] == target;
      assert l !in Unlinked(rows[r], Doomed(rows, refs)).links;
    }
  }

  // ----- the schema

  /** Where the CASCADE keys of a table point. */
  function ParentTables(t: Table): set<Table> {
    match t
    case UserReferrals | SentDiscord | CommScheduled | CampaignTargets | RiskRecommendations | MigrationUsers =>
      {VodumUsers}
    case ReferralEvents => {UserReferrals}
    case MigrationSteps => {MigrationUsers}
    case _ => {}
  }

  lemma ThreeLevels(a: Table, b: Table, c: Table)
    requires b in ParentTables(a) && c in ParentTables(b)
    ensures ParentTables(c) == {}
  {
  }

  ghost predicate Schema(rows: Rows) {
    forall r, p :: r in rows && p in rows[r].parents ==> p in rows && p.table in ParentTables(r.table)
  }

  lemma TopHasNoParents(rows: Rows, q: Ref)
    requires Schema(rows) && q in rows && ParentTables(q.table) == {}
    ensures rows[q].parents == {}
  {
    forall p: Ref ensures p !in rows[q].parents {
      assert p.table !in ParentTables(q.table);
    }
    NoMembers(rows[q].parents);
  }

  /** A DELETE removes exactly the given rows, their children, and the events and steps below those. */
  lemma LostExactly(rows: Rows, refs: set<Ref>, r: Ref)
    requires Schema(rows) && r in rows
    ensures r !in Deleted(rows, refs) <==>
              || r in refs
              || rows[r].parents * refs != {}
              || exists p :: p in rows[r].parents && rows[p].parents * refs != {}
  {
    var children := Orphans(rows, refs);
    var below := set c | c in rows && rows[c].parents * children != {};
    DoomedIsLeast(rows, refs);
    SchemaIsShallow(rows, refs, children, below);
    if r in below {
      var p := Member(rows[r].parents * children);
    }
    forall p | p in rows[r].parents && rows[p].parents * refs != {} ensures r in Doomed(rows, refs) {
      var q := Member(rows[p].parents * refs);
    }
    if rows[r].parents * refs != {} {
      var q := Member(rows[r].parents * refs);
    }
  }

  lemma SchemaIsShallow(rows: Rows, refs: set<Ref>, children: set<Ref>, below: set<Ref>)
    requires Schema(rows) && children == Orphans(rows, refs)
    requires below == set c | c in rows && rows[c].parents * children != {}
    ensures Closed(rows, refs + children + below)
  {
    forall r, p | r in rows && p in rows[r].parents && p in refs + children + below
      ensures r in refs + children + below
    {
      if p in refs {
        assert p in rows[r].parents * refs;
      } else if p in children {
        assert p in rows[r].parents * children;
      } else {
        var q := Member(rows[p].parents * children);
        ThreeLevels(r.table, p.table, q.table);
        TopHasNoParents(rows, q);
      }
    }
  }

  lemma LinkIsCut(rows: Rows, refs: set<Ref>, r: Ref, l: Link)
    requires r in Deleted(rows, refs) && l in rows[r].links && rows[r].links[l] in refs
    ensures l !in Deleted(rows, refs)[r].links
  {
    DoomedIsLeast(rows, refs);
  }
}
