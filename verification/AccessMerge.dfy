/**
 The relational part of merge_vodum_users (app/core/user_merge.py): media accounts and their library links move
 from `other` to `master`, and duplicate accounts are folded into the best one of their class.
 Text columns are taken as already normalised: trimmed, with null as "", usernames in lower case.
 */
module AccessMerge {
  import opened Collections
  import opened Options

  datatype Account = Account(
    server: int,
    owner: Option<int>,
    externalId: string,
    username: string,
    kind: Option<string>,
    hasDetails: bool,
    hasRaw: bool)

  type Accounts = map<int, Account>

  /** (media account, library) rows of media_user_libraries. */
  type Links = set<(int, int)>

  const NO_EXTERNAL := "__NO_EXTERNAL__"

  /** One row of the GROUP BY. */
  datatype Group = Group(server: int, kind: Option<string>, externalId: string, username: string)

  function GroupOf(a: Account): Group {
    Group(a.server, a.kind, if a.externalId == "" then NO_EXTERNAL else a.externalId, a.username)
  }

  /** The rows of a group as the second SELECT finds them: `type = ?` never matches a null type. */
  predicate InGroup(accounts: Accounts, user: int, g: Group, id: int) {
    id in accounts && accounts[id].owner == Some(user) && GroupOf(accounts[id]) == g && g.kind.Some?
  }

  /** Position of an account in the ORDER BY: rows with details first, then rows with raw data, then by id. */
  predicate Before(accounts: Accounts, a: int, b: int)
    requires a in accounts && b in accounts
  {
    var x, y := accounts[a], accounts[b];
    if x.hasDetails != y.hasDetails then x.hasDetails
    else if x.hasRaw != y.hasRaw then x.hasRaw
    else a < b
  }

  /** `id` is the row of its group that is kept. */
  predicate IsKeeper(accounts: Accounts, user: int, g: Group, id: int) {
    && InGroup(accounts, user, g, id)
    && forall o :: o in accounts && InGroup(accounts, user, g, o) && o != id ==> Before(accounts, id, o)
  }

  function Moved(accounts: Accounts, master: int, other: int): Accounts {
    map id | id in accounts ::
      if accounts[id].owner == Some(other) then accounts[id].(owner := Some(master)) else accounts[id]
  }

  function Members(accounts: Accounts, user: int, g: Group): set<int> {
    set id | id in accounts && InGroup(accounts, user, g, id)
  }

  /** The groups with more than one row. */
  function Duplicated(accounts: Accounts, user: int): set<Group> {
    set id | id in accounts && accounts[id].owner == Some(user)
             && exists o :: o in accounts && o != id && accounts[o].owner == Some(user)
                            && GroupOf(accounts[o]) == GroupOf(accounts[id])
      :: GroupOf(accounts[id])
  }

  // ----- what folding a set of groups means

  /** `id` is a row of a folded group that is not kept. */
  predicate Dropped(accounts: Accounts, user: int, folded: set<Group>, id: int) {
    && id in accounts && GroupOf(accounts[id]) in folded
    && InGroup(accounts, user, GroupOf(accounts[id]), id)
    && !IsKeeper(accounts, user, GroupOf(accounts[id]), id)
  }

  /** Account `d` gives its libraries to `id`: they are the same, or rows of one folded group. */
  predicate GivesTo(accounts: Accounts, user: int, folded: set<Group>, d: int, id: int) {
    d == id || (d in accounts && id in accounts && GroupOf(accounts[d]) in folded
                && InGroup(accounts, user, GroupOf(accounts[d]), d)
                && InGroup(accounts, user, GroupOf(accounts[d]), id))
  }

  ghost predicate FoldedAccounts(accounts: Accounts, user: int, folded: set<Group>, after: Accounts) {
    forall id :: (id in after <==> id in accounts && !Dropped(accounts, user, folded, id))
                 && (id in after ==> after[id] == accounts[id])
  }

  ghost predicate Holds(accounts: Accounts, user: int, folded: set<Group>, links: Links, id: int, library: int) {
    exists d :: (d, library) in links && GivesTo(accounts, user, folded, d, id)
  }

  ghost predicate FoldedLinks(accounts: Accounts, user: int, folded: set<Group>, links: Links, after: Links) {
    forall id, library :: (id, library) in after <==>
      !Dropped(accounts, user, folded, id) && Holds(accounts, user, folded, links, id, library)
  }

  /** `acc` and `lnk` are the tables after folding exactly the groups in `folded`. */
  ghost predicate Folded(accounts: Accounts, user: int, folded: set<Group>, links: Links, acc: Accounts, lnk: Links) {
    FoldedAccounts(accounts, user, folded, acc) && FoldedLinks(accounts, user, folded, links, lnk)
  }

  lemma NothingFolded(accounts: Accounts, user: int, links: Links)
    ensures Folded(accounts, user, {}, links, accounts, links)
  {
    forall l | l in links ensures Holds(accounts, user, {}, links, l.0, l.1) {
      assert GivesTo(accounts, user, {}, l.0, l.0);
    }
  }

  /** Links only mention existing accounts. */
  ghost predicate ForeignKey(accounts: Accounts, links: Links) {
    forall l :: l in links ==> l.0 in accounts
  }

  lemma BeforeIsTotalOrder(accounts: Accounts, a: int, b: int, c: int)
    requires a in accounts && b in accounts && c in accounts
    ensures a != b ==> Before(accounts, a, b) != Before(accounts, b, a)
    ensures Before(accounts, a, b) && Before(accounts, b, c) ==> Before(accounts, a, c)
  {
  }

  /** Every non-empty group keeps exactly one row. */
  lemma KeeperExists(accounts: Accounts, user: int, g: Group, id: int) returns (keeper: int)
    requires InGroup(accounts, user, g, id)
    ensures IsKeeper(accounts, user, g, keeper)
    ensures forall o :: IsKeeper(accounts, user, g, o) ==> o == keeper
  {
    assert id in Members(accounts, user, g);
    keeper := LeastOf(Members(accounts, user, g), (a, b) => a in accounts && b in accounts && Before(accounts, a, b));
    forall o | o in accounts && InGroup(accounts, user, g, o) && o != keeper ensures Before(accounts, keeper, o) {
      assert o in Members(accounts, user, g);
    }
    forall o | IsKeeper(accounts, user, g, o) ensures o == keeper {
      BeforeIsTotalOrder(accounts, o, keeper, o);
    }
  }

  /** Folding one more group. */
  lemma FoldOne(accounts: Accounts, user: int, folded: set<Group>, links: Links, g: Group, keeper: int,
                acc: Accounts, lnk: Links)
    requires ForeignKey(accounts, links) && g !in folded && IsKeeper(accounts, user, g, keeper)
    requires FoldedAccounts(accounts, user, folded, acc) && FoldedLinks(accounts, user, folded, links, lnk)
    ensures var drop := Members(accounts, user, g) - {keeper};
            && FoldedAccounts(accounts, user, folded + {g}, acc - drop)
            && FoldedLinks(accounts, user, folded + {g}, links,
                           set l | l in lnk + (set l | l in lnk && l.0 in drop :: (keeper, l.1)) && l.0 !in drop)
  {
  }

  // ----- rows with a unique key per user (user_identities, sent_emails)

  datatype Keyed<K> = Keyed(user: int, key: K)

  predicate Collides<K(==)>(rows: map<int, Keyed<K>>, master: int, other: int, id: int) {
    id in rows && rows[id].user == other
    && exists m :: m in rows && rows[m].user == master && rows[m].key == rows[id].key
  }

  /** DELETE of the colliding rows of `other`, then UPDATE of the rest. */
  function MovedKeyed<K(==)>(rows: map<int, Keyed<K>>, master: int, other: int): map<int, Keyed<K>> {
    map id | id in rows && !Collides(rows, master, other, id) ::
      if rows[id].user == other then rows[id].(user := master) else rows[id]
  }

  ghost function KeysOf<K>(rows: map<int, Keyed<K>>, user: int): set<K> {
    set id | id in rows && rows[id].user == user :: rows[id].key
  }

  ghost predicate UniquePerUser<K>(rows: map<int, Keyed<K>>) {
    forall a, b :: a in rows && b in rows && a != b && rows[a].user == rows[b].user ==> rows[a].key != rows[b].key
  }

  /** No key is lost or doubled, rows of master and of third users stay, and nothing of `other` is left to cascade. */
  lemma KeyedConserved<K>(rows: map<int, Keyed<K>>, master: int, other: int)
    requires master != other
    ensures var after := MovedKeyed(rows, master, other);
            && KeysOf(after, master) == KeysOf(rows, master) + KeysOf(rows, other)
            && KeysOf(after, other) == {}
            && (forall id :: id in rows && rows[id].user != other ==> id in after && after[id] == rows[id])
            && (UniquePerUser(rows) ==> UniquePerUser(after))
  {
    var after := MovedKeyed(rows, master, other);
    forall k | k in KeysOf(rows, other) ensures k in KeysOf(after, master) {
      var id :| id in rows && rows[id].user == other && rows[id].key == k;
      if Collides(rows, master, other, id) {
        var m :| m in rows && rows[m].user == master && rows[m].key == k;
        assert after[m] == rows[m];
      } else {
        assert after[id].key == k;
      }
    }
    forall k | k in KeysOf(rows, master) ensures k in KeysOf(after, master) {
      var id :| id in rows && rows[id].user == master && rows[id].key == k;
      assert after[id] == rows[id];
    }
  }

  // ----- the merge of access rights

  class AccessTables {
    var accounts: Accounts
    var links: Links

    /** Steps 1 and 3ter of merge_vodum_users. */
    method MergeAccess(master: int, other: int)
      requires ForeignKey(accounts, links)
      modifies this
      ensures var moved := Moved(old(accounts), master, other);
              Folded(moved, master, Duplicated(moved, master), old(links), accounts, links)
    {
      accounts := Moved(accounts, master, other);
      FoldGroups(master, Duplicated(accounts, master));
    }

    method FoldGroups(master: int, all: set<Group>)
      requires ForeignKey(accounts, links)
      modifies this
      ensures Folded(old(accounts), master, all, old(links), accounts, links)
    {
      var groups := all;
      ghost var moved := accounts;
      ghost var folded: set<Group> := {};
      NothingFolded(moved, master, links);
      while groups != {}
        invariant folded !! groups && folded + groups == all
        invariant Folded(moved, master, folded, old(links), accounts, links)
        decreases |groups|
      {
        ghost var some := Member(groups);
        var g :| g in groups;
        FoldGroup(master, g, moved, folded, old(links));
        groups := groups - {g};
        folded := folded + {g};
      }
      assert folded == all;
    }

    /** One pass of the loop over duplicate groups. */
    method FoldGroup(master: int, g: Group, ghost moved: Accounts, ghost folded: set<Group>, ghost before: Links)
      requires ForeignKey(moved, before) && g !in folded
      requires Folded(moved, master, folded, before, accounts, links)
      modifies this
      ensures Folded(moved, master, folded + {g}, before, accounts, links)
    {
      GroupUntouched(moved, master, folded, accounts, g);
      var rows := Members(accounts, master, g);
      if |rows| <= 1 {
        SmallGroup(moved, master, folded, before, g, accounts, links, rows);
        return;
      }
      ghost var some := Member(rows);
      ghost var best := KeeperExists(accounts, master, g, some);
      var keeper :| keeper in rows && IsKeeper(accounts, master, g, keeper);
      FoldOne(moved, master, folded, before, g, keeper, accounts, links);
      var duplicates := rows - {keeper};
      assert duplicates == Members(moved, master, g) - {keeper};
      links := links + (set l | l in links && l.0 in duplicates :: (keeper, l.1));
      accounts := accounts - duplicates;
      links := set l | l in links && l.0 !in duplicates;
    }
  }

  /** Folding other groups neither drops nor changes the rows of `g`. */
  lemma GroupUntouched(accounts: Accounts, user: int, folded: set<Group>, after: Accounts, g: Group)
    requires FoldedAccounts(accounts, user, folded, after) && g !in folded
    ensures forall id :: InGroup(accounts, user, g, id) <==> InGroup(after, user, g, id)
  {
  }

  /** A group of at most one selected row needs no folding. */
  lemma SmallGroup(accounts: Accounts, user: int, folded: set<Group>, links: Links, g: Group,
                   acc: Accounts, lnk: Links, rows: set<int>)
    requires FoldedAccounts(accounts, user, folded, acc) && FoldedLinks(accounts, user, folded, links, lnk)
    requires forall id :: InGroup(accounts, user, g, id) <==> id in rows
    requires |rows| <= 1
    ensures FoldedAccounts(accounts, user, folded + {g}, acc)
    ensures FoldedLinks(accounts, user, folded + {g}, links, lnk)
  {
    forall a, b | a in rows && b in rows ensures a == b {
      AtMostOne(rows, a, b);
    }
  }

  // ----- main results about MergeAccess

  ghost predicate Owns(accounts: Accounts, user: int, id: int) {
    id in accounts && accounts[id].owner == Some(user)
  }

  /** Some media account of `user` is linked to `library`. */
  ghost predicate Reaches(accounts: Accounts, links: Links, user: int, library: int) {
    exists id :: Owns(accounts, user, id) && (id, library) in links
  }

  ghost predicate Merged(accounts: Accounts, links: Links, master: int, other: int, acc: Accounts, lnk: Links) {
    var moved := Moved(accounts, master, other);
    Folded(moved, master, Duplicated(moved, master), links, acc, lnk)
  }

  predicate OfEither(a: Account, master: int, other: int) {
    a.owner == Some(master) || a.owner == Some(other)
  }

  /** Before the merge: a typed account of either user, with a better one of its group among their accounts. */
  predicate IsDuplicate(accounts: Accounts, master: int, other: int, id: int) {
    && id in accounts && accounts[id].kind.Some? && OfEither(accounts[id], master, other)
    && exists o :: (o in accounts && o != id && OfEither(accounts[o], master, other)
                    && GroupOf(accounts[o]) == GroupOf(accounts[id]) && Before(accounts, o, id))
  }

  /** A better account of the same user and group. */
  predicate BetterOf(accounts: Accounts, user: int, o: int, id: int)
    requires id in accounts
  {
    && o in accounts && o != id && accounts[o].owner == Some(user)
    && GroupOf(accounts[o]) == GroupOf(accounts[id]) && Before(accounts, o, id)
  }

  lemma DroppedIff(accounts: Accounts, user: int, id: int)
    requires id in accounts
    ensures Dropped(accounts, user, Duplicated(accounts, user), id)
            <==> (accounts[id].kind.Some? && accounts[id].owner == Some(user)
                  && exists o :: BetterOf(accounts, user, o, id))
  {
    var g := GroupOf(accounts[id]);
    if InGroup(accounts, user, g, id) && !IsKeeper(accounts, user, g, id) {
      var o :| o in accounts && InGroup(accounts, user, g, o) && o != id && !Before(accounts, id, o);
      BeforeIsTotalOrder(accounts, o, id, o);
      assert BetterOf(accounts, user, o, id);
    }
    forall o | BetterOf(accounts, user, o, id) && accounts[id].owner == Some(user)
      ensures !Before(accounts, id, o) && g in Duplicated(accounts, user)
    {
      BeforeIsTotalOrder(accounts, o, id, o);
    }
  }

  lemma MovedIs(accounts: Accounts, master: int, other: int, o: int)
    requires o in accounts
    ensures var moved := Moved(accounts, master, other);
            && o in moved && GroupOf(moved[o]) == GroupOf(accounts[o]) && moved[o].kind == accounts[o].kind
            && (moved[o].owner == Some(master) <==> OfEither(accounts[o], master, other))
            && forall id :: id in accounts ==> Before(moved, o, id) == Before(accounts, o, id)
  {
  }

  /** The accounts that a merge deletes are exactly those duplicates. */
  lemma FoldedIffDuplicate(accounts: Accounts, links: Links, master: int, other: int, acc: Accounts, lnk: Links,
                           id: int)
    requires Merged(accounts, links, master, other, acc, lnk) && id in accounts
    ensures id !in acc <==> IsDuplicate(accounts, master, other, id)
  {
    var moved := Moved(accounts, master, other);
    MovedIs(accounts, master, other, id);
    DroppedIff(moved, master, id);
    BetterInMoved(accounts, master, other, id);
  }

  lemma BetterInMoved(accounts: Accounts, master: int, other: int, id: int)
    requires id in accounts
    ensures forall o :: BetterOf(Moved(accounts, master, other), master, o, id)
                        <==> o in accounts && o != id && OfEither(accounts[o], master, other)
                             && GroupOf(accounts[o]) == GroupOf(accounts[id]) && Before(accounts, o, id)
  {
    MovedIs(accounts, master, other, id);
    forall o | o in accounts
      ensures BetterOf(Moved(accounts, master, other), master, o, id)
              <==> o != id && OfEither(accounts[o], master, other)
                   && GroupOf(accounts[o]) == GroupOf(accounts[id]) && Before(accounts, o, id)
    {
      MovedIs(accounts, master, other, o);
    }
  }

  /** Every typed account of either user has one surviving account of its group. */
  lemma SurvivorOf(accounts: Accounts, links: Links, master: int, other: int, acc: Accounts, lnk: Links, id: int)
    returns (keeper: int)
    requires Merged(accounts, links, master, other, acc, lnk)
    requires Owns(accounts, master, id) || Owns(accounts, other, id)
    ensures Owns(acc, master, keeper) && GroupOf(acc[keeper]) == GroupOf(accounts[id])
    ensures forall library :: (id, library) in links ==> (keeper, library) in lnk
    ensures accounts[id].kind.None? ==> keeper == id
    ensures accounts[id].kind.Some? ==>
              forall o :: Owns(acc, master, o) && GroupOf(acc[o]) == GroupOf(accounts[id]) ==> o == keeper
  {
    var moved := Moved(accounts, master, other);
    var g, folded := GroupOf(moved[id]), Duplicated(moved, master);
    keeper := id;
    if accounts[id].kind.Some? {
      assert InGroup(moved, master, g, id);
      keeper := KeeperExists(moved, master, g, id);
      forall o | Owns(acc, master, o) && GroupOf(acc[o]) == g ensures o == keeper {
        assert InGroup(moved, master, g, o) && !Dropped(moved, master, folded, o);
      }
    }
    assert !Dropped(moved, master, folded, keeper);
    assert keeper != id ==> g in folded;
    forall library | (id, library) in links ensures (keeper, library) in lnk {
      assert GivesTo(moved, master, folded, id, keeper);
      assert Holds(moved, master, folded, links, keeper, library);
    }
  }

  /** The surviving account of a typed group holds exactly the libraries of all the group's accounts. */
  lemma SurvivorHoldsUnion(accounts: Accounts, links: Links, master: int, other: int, acc: Accounts, lnk: Links,
                           keeper: int, library: int)
    requires ForeignKey(accounts, links) && Merged(accounts, links, master, other, acc, lnk)
    requires Owns(acc, master, keeper) && acc[keeper].kind.Some?
    ensures (keeper, library) in lnk <==>
              exists d :: (Owns(accounts, master, d) || Owns(accounts, other, d))
                          && GroupOf(accounts[d]) == GroupOf(acc[keeper]) && (d, library) in links
  {
    var moved := Moved(accounts, master, other);
    if (keeper, library) in lnk {
      var d :| (d, library) in links && GivesTo(moved, master, Duplicated(moved, master), d, keeper);
      assert Owns(accounts, master, d) || Owns(accounts, other, d);
      assert GroupOf(accounts[d]) == GroupOf(acc[keeper]);
    }
    forall d | (Owns(accounts, master, d) || Owns(accounts, other, d))
               && GroupOf(accounts[d]) == GroupOf(acc[keeper]) && (d, library) in links
      ensures (keeper, library) in lnk
    {
      var survivor := SurvivorOf(accounts, links, master, other, acc, lnk, d);
    }
  }

  /** After the merge, master reaches exactly the libraries that master or other reached; other owns nothing. */
  lemma AccessConserved(accounts: Accounts, links: Links, master: int, other: int, acc: Accounts, lnk: Links)
    requires master != other && ForeignKey(accounts, links) && Merged(accounts, links, master, other, acc, lnk)
    ensures forall library :: Reaches(acc, lnk, master, library) <==>
              Reaches(accounts, links, master, library) || Reaches(accounts, links, other, library)
    ensures forall id :: !Owns(acc, other, id)
    ensures ForeignKey(acc, lnk)
  {
    var moved := Moved(accounts, master, other);
    forall library | Reaches(accounts, links, master, library) || Reaches(accounts, links, other, library)
      ensures Reaches(acc, lnk, master, library)
    {
      var id :| (Owns(accounts, master, id) || Owns(accounts, other, id)) && (id, library) in links;
      var keeper := SurvivorOf(accounts, links, master, other, acc, lnk, id);
    }
    forall library | Reaches(acc, lnk, master, library)
      ensures Reaches(accounts, links, master, library) || Reaches(accounts, links, other, library)
    {
      var id :| Owns(acc, master, id) && (id, library) in lnk;
      var d :| (d, library) in links && GivesTo(moved, master, Duplicated(moved, master), d, id);
      assert Owns(accounts, master, d) || Owns(accounts, other, d);
    }
    forall l | l in lnk ensures l.0 in acc {
      assert Holds(moved, master, Duplicated(moved, master), links, l.0, l.1);
    }
  }

  /** Accounts of third users, and their links, are untouched. */
  lemma ThirdUsersUntouched(accounts: Accounts, links: Links, master: int, other: int, acc: Accounts, lnk: Links,
                            id: int, library: int)
    requires Merged(accounts, links, master, other, acc, lnk)
    requires id in accounts && accounts[id].owner != Some(master) && accounts[id].owner != Some(other)
    ensures id in acc && acc[id] == accounts[id]
    ensures (id, library) in lnk <==> (id, library) in links
  {
    var moved := Moved(accounts, master, other);
    var folded := Duplicated(moved, master);
    assert !Dropped(moved, master, folded, id);
    if (id, library) in links {
      assert GivesTo(moved, master, folded, id, id);
      assert Holds(moved, master, folded, links, id, library);
    }
  }
}
