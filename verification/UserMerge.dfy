/** merge_vodum_users of app/core/user_merge.py, statement by statement, over all the tables it touches. */
module UserMerge {
  import opened Collections
  import opened Options
  import opened AccessMerge
  import opened ProfileMerge
  import opened ProfilePreview
  import opened ForeignKeys

  /** (type, server or -1, external id) of user_identities. */
  type IdentityKey = (string, int, string)

  /** (template type, expiration date) of sent_emails. */
  type MailKey = (string, string)

  function Reassigned(jobs: map<int, int>, master: int, other: int): map<int, int> {
    map id | id in jobs :: if jobs[id] == other then master else jobs[id]
  }

  /** The duplicates that folding has deleted. */
  function FoldedAway(before: Accounts, after: Accounts): set<Ref> {
    set id | id in before && id !in after :: MediaUser(id)
  }

  /** What the two deleting statements of a merge leave of the tables that it does not move. */
  function RelatedAfter(related: Rows, before: Accounts, after: Accounts, other: int): Rows {
    Deleted(Deleted(related, FoldedAway(before, after)), {User(other)})
  }

  datatype MergeResult = MergeDone | UserNotFound

  class UserDatabase {
    var users: map<int, Profile>
    var identities: map<int, Keyed<IdentityKey>>
    var mails: map<int, Keyed<MailKey>>
    var jobs: map<int, int>
    /** References between users, media users and the tables that the merge does not move. */
    var related: Rows
    const access: AccessTables

    constructor (access: AccessTables)
      ensures this.access == access && users == map[] && identities == map[] && mails == map[] && jobs == map[]
      ensures related == map[]
    {
      this.access := access;
      users, identities, mails, jobs, related := map[], map[], map[], map[], map[];
    }

    method MergeVodumUsers(master: int, other: int) returns (result: MergeResult)
      requires ForeignKey(access.accounts, access.links)
      modifies this, access
      ensures result == if master == other || (master in old(users) && other in old(users))
                        then MergeDone else UserNotFound
      ensures master == other || result.UserNotFound? ==> unchanged(this) && unchanged(access)
      ensures master != other && result.MergeDone? ==>
                && users == old(users)[master := MergedRow(old(users)[master], old(users)[other])] - {other}
                && identities == MovedKeyed(old(identities), master, other)
                && mails == MovedKeyed(old(mails), master, other)
                && jobs == Reassigned(old(jobs), master, other)
                && Merged(old(access.accounts), old(access.links), master, other, access.accounts, access.links)
                && related == RelatedAfter(old(related), old(access.accounts), access.accounts, other)
    {
      if master == other {
        return MergeDone;
      }
      if master !in users || other !in users {
        return UserNotFound;
      }
      var masterRow, otherRow := users[master], users[other];
      MoveRows(master, other);
      var before := access.accounts;
      access.MergeAccess(master, other);
      var merged := MergeProfile(masterRow, otherRow);
      users := users[master := masterRow + merged] - {other};
      ApplyForeignKeys(before, other);
      result := MergeDone;
    }

    /** Steps 2, 3 and 3bis: identities and mails without collisions, and jobs. */
    method MoveRows(master: int, other: int)
      modifies this`identities, this`mails, this`jobs
      ensures identities == MovedKeyed(old(identities), master, other)
      ensures mails == MovedKeyed(old(mails), master, other)
      ensures jobs == Reassigned(old(jobs), master, other)
    {
      identities := MovedKeyed(identities, master, other);
      mails := MovedKeyed(mails, master, other);
      jobs := Reassigned(jobs, master, other);
    }

    /** SQLite's part in the two deleting statements. */
    method ApplyForeignKeys(before: Accounts, other: int)
      modifies this`related
      ensures related == RelatedAfter(old(related), before, access.accounts, other)
    {
      related := Deleted(related, FoldedAway(before, access.accounts));
      related := Deleted(related, {User(other)});
    }
  }

  /**
   The moved tables hold no row of `other` when it is deleted: no media user blocks the DELETE, and it takes no
   identity, mail or job with it; the jobs of third users stay theirs.
   */
  lemma NothingLeftToCascade(accounts: Accounts, links: Links, acc: Accounts, lnk: Links,
                             identities: map<int, Keyed<IdentityKey>>, mails: map<int, Keyed<MailKey>>,
                             jobs: map<int, int>, master: int, other: int)
    requires master != other && ForeignKey(accounts, links) && Merged(accounts, links, master, other, acc, lnk)
    ensures forall id :: id in acc ==> acc[id].owner != Some(other)
    ensures KeysOf(MovedKeyed(identities, master, other), other) == {}
    ensures KeysOf(MovedKeyed(mails, master, other), other) == {}
    ensures other !in Reassigned(jobs, master, other).Values
    ensures forall id :: id in jobs ==>
              id in Reassigned(jobs, master, other)
              && Reassigned(jobs, master, other)[id] == if jobs[id] in {master, other} then master else jobs[id]
  {
    AccessConserved(accounts, links, master, other, acc, lnk);
    assert forall id :: id in acc && acc[id].owner == Some(other) ==> Owns(acc, other, id);
    KeyedConserved(identities, master, other);
    KeyedConserved(mails, master, other);
  }

  // ----- what a merge loses

  /** No foreign key is left dangling, and neither `other` nor a folded media user is mentioned any more. */
  lemma RelatedStayIntact(related: Rows, before: Accounts, after: Accounts, other: int)
    requires Intact(related)
    ensures var rows := RelatedAfter(related, before, after, other);
            && Intact(rows) && User(other) !in rows
            && forall id :: id in before && id !in after ==> MediaUser(id) !in rows
  {
    var folded := FoldedAway(before, after);
    DeleteKeepsIntact(related, folded);
    DeleteKeepsIntact(Deleted(related, folded), {User(other)});
    forall id | id in before && id !in after ensures MediaUser(id) in folded {
    }
  }

  /** Before the merge: the media users that it will fold into others. */
  function Duplicates(accounts: Accounts, master: int, other: int): set<Ref> {
    set id | id in accounts && IsDuplicate(accounts, master, other, id) :: MediaUser(id)
  }

  lemma FoldedAreDuplicates(accounts: Accounts, links: Links, master: int, other: int, acc: Accounts, lnk: Links)
    requires Merged(accounts, links, master, other, acc, lnk)
    ensures FoldedAway(accounts, acc) == Duplicates(accounts, master, other)
  {
    forall id | id in accounts ensures id !in acc <==> IsDuplicate(accounts, master, other, id) {
      FoldedIffDuplicate(accounts, links, master, other, acc, lnk, id);
    }
  }

  /**
   Apart from the deleted user and the duplicate media users themselves, a merge loses no row and no reference of the
   tables it does not move if and only if none of their rows mentions one of them before it.
   */
  lemma MergeLosesNothingIff(related: Rows, accounts: Accounts, links: Links, master: int, other: int,
                             acc: Accounts, lnk: Links)
    requires Merged(accounts, links, master, other, acc, lnk)
    ensures var refs := Duplicates(accounts, master, other) + {User(other)};
            RelatedAfter(related, accounts, acc, other) == related - refs
            <==> forall r :: r in related && r !in refs ==> !Mentions(related[r], refs)
  {
    var refs := Duplicates(accounts, master, other) + {User(other)};
    FoldedAreDuplicates(accounts, links, master, other, acc, lnk);
    TwoDeletes(related, Duplicates(accounts, master, other), User(other));
    NothingElseLostIff(related, refs);
  }

  /** Deleting one row after others is deleting all of them. */
  lemma TwoDeletes(rows: Rows, folded: set<Ref>, user: Ref)
    ensures Deleted(Deleted(rows, folded), {user}) == Deleted(rows, folded + {user})
  {
    var first := Doomed(rows, folded);
    var second := Doomed(Deleted(rows, folded), {user});
    var both := Doomed(rows, folded + {user});
    DoomedIsLeast(rows, folded);
    DoomedIsLeast(Deleted(rows, folded), {user});
    DoomedIsLeast(rows, folded + {user});
    DoomedInTwo(rows, folded, user);
    assert both == first + second;
    forall r | r in rows && r !in both
      ensures Unlinked(Unlinked(rows[r], first), second) == Unlinked(rows[r], both)
    {
    }
  }

  lemma DoomedInTwo(rows: Rows, folded: set<Ref>, user: Ref)
    ensures Doomed(rows, folded + {user}) == Doomed(rows, folded) + Doomed(Deleted(rows, folded), {user})
  {
    var first := Doomed(rows, folded);
    var second := Doomed(Deleted(rows, folded), {user});
    var both := Doomed(rows, folded + {user});
    DoomedIsLeast(rows, folded);
    DoomedIsLeast(Deleted(rows, folded), {user});
    DoomedIsLeast(rows, folded + {user});
    assert Closed(rows, first + second);
    assert Closed(Deleted(rows, folded), both);
  }

  lemma LostWith(related: Rows, folded: set<Ref>, other: int, r: Ref)
    requires Schema(related) && r in related && forall f :: f in folded ==> f.table == MediaUsers
    ensures r !in Deleted(related, folded + {User(other)}) <==>
              || r in folded + {User(other)}
              || User(other) in related[r].parents
              || exists p :: p in related[r].parents && User(other) in related[p].parents
  {
    LostExactly(related, folded + {User(other)}, r);
    forall c | c in related
      ensures related[c].parents * (folded + {User(other)}) != {} <==> User(other) in related[c].parents
    {
      OnlyUsersAreParents(related, folded, other, c);
    }
  }

  /** The rows that go with a merge: the deleted ones, the children of the user, and the events and steps below. */
  lemma RowsLostExactly(related: Rows, accounts: Accounts, links: Links, master: int, other: int,
                        acc: Accounts, lnk: Links, r: Ref)
    requires Merged(accounts, links, master, other, acc, lnk) && Schema(related) && r in related
    ensures r !in RelatedAfter(related, accounts, acc, other) <==>
              || r in Duplicates(accounts, master, other) + {User(other)}
              || User(other) in related[r].parents
              || exists p :: p in related[r].parents && User(other) in related[p].parents
  {
    var folded := Duplicates(accounts, master, other);
    FoldedAreDuplicates(accounts, links, master, other, acc, lnk);
    TwoDeletes(related, folded, User(other));
    LostWith(related, folded, other, r);
  }

  lemma OnlyUsersAreParents(related: Rows, folded: set<Ref>, other: int, c: Ref)
    requires Schema(related) && c in related && forall f :: f in folded ==> f.table == MediaUsers
    ensures related[c].parents * (folded + {User(other)}) != {} <==> User(other) in related[c].parents
  {
    var refs := folded + {User(other)};
    if related[c].parents * refs != {} {
      var p := Member(related[c].parents * refs);
      assert p.table in ParentTables(c.table);
    }
    assert User(other) in related[c].parents ==> User(other) in related[c].parents * refs;
  }

  /** User 2 referred user 3, and that was recorded. */
  function Referred(referral: Ref, event: Ref): Rows {
    map[User(1) := Row({}, map[]), User(2) := Row({}, map[]), User(3) := Row({}, map[Referrer := User(2)]),
        referral := Row({User(2), User(3)}, map[]), event := Row({referral}, map[])]
  }

  /**
   A merge does lose data, even of a third user: merging user 2 into user 1 removes the referral with its history and
   leaves user 3 without a referrer.
   */
  lemma ReferralIsLost(referral: Ref, event: Ref)
    requires referral.table == UserReferrals && event.table == ReferralEvents
    ensures var related := Referred(referral, event);
            var after := RelatedAfter(related, map[], map[], 2);
            && Intact(related) && Schema(related)
            && referral !in after && event !in after
            && User(3) in after && after[User(3)].links == map[]
  {
    var related := Referred(referral, event);
    WithoutFolding(related, map[], 2);
    ReferredIsSound(referral, event);
    LostExactly(related, {User(2)}, referral);
    LostExactly(related, {User(2)}, event);
    LostExactly(related, {User(2)}, User(3));
    assert User(2) in related[referral].parents * {User(2)};
    assert related[User(3)].parents == {};
    LinkIsCut(related, {User(2)}, User(3), Referrer);
  }

  /** A migration of user 2, with a step. */
  function Migrating(migration: Ref, step: Ref): Rows {
    map[User(1) := Row({}, map[]), User(2) := Row({}, map[]), migration := Row({User(2)}, map[]),
        step := Row({migration}, map[])]
  }

  lemma MigratingIsSound(migration: Ref, step: Ref)
    requires migration.table == MigrationUsers && step.table == MigrationSteps
    ensures Intact(Migrating(migration, step)) && Schema(Migrating(migration, step))
  {
  }

  /** Their migration goes with its steps. */
  lemma MigrationIsLost(migration: Ref, step: Ref)
    requires migration.table == MigrationUsers && step.table == MigrationSteps
    ensures var related := Migrating(migration, step);
            var after := RelatedAfter(related, map[], map[], 2);
            Intact(related) && Schema(related) && migration !in after && step !in after
  {
    var related := Migrating(migration, step);
    MigratingIsSound(migration, step);
    WithoutFolding(related, map[], 2);
    LostExactly(related, {User(2)}, migration);
    LostExactly(related, {User(2)}, step);
    assert User(2) in related[migration].parents * {User(2)};
    assert migration in related[step].parents;
  }

  lemma ReferredIsSound(referral: Ref, event: Ref)
    requires referral.table == UserReferrals && event.table == ReferralEvents
    ensures Intact(Referred(referral, event)) && Schema(Referred(referral, event))
  {
  }

  lemma WithoutFolding(related: Rows, accounts: Accounts, other: int)
    ensures RelatedAfter(related, accounts, accounts, other) == Deleted(related, {User(other)})
  {
    TwoDeletes(related, {}, User(other));
    assert FoldedAway(accounts, accounts) == {} && {} + {User(other)} == {User(other)};
  }
}
