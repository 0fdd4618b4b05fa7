/** What the merge of two users does to each media account and link, told by the columns of the rows alone. */
module AccessMergeRows {
  import opened AccessMerge
  import opened Options

  /** A blank external id counts as the placeholder that the query puts in its place. */
  predicate SameExternal(a: string, b: string) {
    a == b || (a in {"", "__NO_EXTERNAL__"} && b in {"", "__NO_EXTERNAL__"})
  }

  /** Same server, type, external id and user name. */
  predicate Twins(a: Account, b: Account) {
    a.server == b.server && a.kind == b.kind && SameExternal(a.externalId, b.externalId) && a.username == b.username
  }

  /** `id` was an account of one of the two users. */
  predicate WasTheirs(accounts: Accounts, master: int, other: int, id: int) {
    id in accounts && (accounts[id].owner == Some(master) || accounts[id].owner == Some(other))
  }

  lemma TwinsIff(a: Account, b: Account)
    ensures Twins(a, b) <==> GroupOf(a) == GroupOf(b)
  {
    assert NO_EXTERNAL == "__NO_EXTERNAL__";
  }

  /** No two typed accounts of the merged user agree in server, type, external id and user name. */
  lemma NoTwinsLeft(accounts: Accounts, links: Links, master: int, other: int, acc: Accounts, lnk: Links,
                    a: int, b: int)
    requires Merged(accounts, links, master, other, acc, lnk)
    requires a in acc && b in acc && acc[a].owner == Some(master) && acc[b].owner == Some(master)
    requires acc[a].kind.Some? && Twins(acc[a], acc[b])
    ensures a == b
  {
    TwinsIff(acc[a], acc[b]);
    var moved := Moved(accounts, master, other);
    assert acc[a] == moved[a] && acc[b] == moved[b];
    var keeper := SurvivorOf(accounts, links, master, other, acc, lnk, a);
  }

  /** `a` is preferred to `b`: details count before raw data, and those before the lower id. */
  predicate Preferred(accounts: Accounts, a: int, b: int)
    requires a in accounts && b in accounts
  {
    || (accounts[a].hasDetails && !accounts[b].hasDetails)
    || (accounts[a].hasDetails == accounts[b].hasDetails && accounts[a].hasRaw && !accounts[b].hasRaw)
    || (accounts[a].hasDetails == accounts[b].hasDetails && accounts[a].hasRaw == accounts[b].hasRaw && a <= b)
  }

  /** A twin of theirs is preferred to `id`. */
  predicate Outdone(accounts: Accounts, master: int, other: int, id: int)
    requires id in accounts
  {
    exists o :: o in accounts && WasTheirs(accounts, master, other, o)
                && Twins(accounts[o], accounts[id]) && !Preferred(accounts, id, o)
  }

  lemma OutdoneIff(accounts: Accounts, master: int, other: int, id: int)
    requires WasTheirs(accounts, master, other, id)
    ensures accounts[id].kind.Some? && Outdone(accounts, master, other, id)
            <==> IsDuplicate(accounts, master, other, id)
  {
    forall o | o in accounts
      ensures Twins(accounts[o], accounts[id]) <==> GroupOf(accounts[o]) == GroupOf(accounts[id])
      ensures !Preferred(accounts, id, o) <==> o != id && Before(accounts, o, id)
    {
      TwinsIff(accounts[o], accounts[id]);
    }
  }

  /**
   An account of either user is deleted exactly if it has a type and a twin of theirs is preferred to it; the others
   keep every column and belong to the master.
   */
  lemma StaysIff(accounts: Accounts, links: Links, master: int, other: int, acc: Accounts, lnk: Links, id: int)
    requires Merged(accounts, links, master, other, acc, lnk) && WasTheirs(accounts, master, other, id)
    ensures id in acc <==> accounts[id].kind == None || !Outdone(accounts, master, other, id)
    ensures id in acc ==> acc[id] == accounts[id].(owner := Some(master))
  {
    FoldedIffDuplicate(accounts, links, master, other, acc, lnk, id);
    OutdoneIff(accounts, master, other, id);
  }

  /** An account without a twin is not touched by the folding. */
  lemma SingleStays(accounts: Accounts, links: Links, master: int, other: int, acc: Accounts, lnk: Links, id: int)
    requires Merged(accounts, links, master, other, acc, lnk) && WasTheirs(accounts, master, other, id)
    requires forall o :: WasTheirs(accounts, master, other, o) && o != id ==> !Twins(accounts[o], accounts[id])
    ensures id in acc && acc[id] == accounts[id].(owner := Some(master))
  {
    StaysIff(accounts, links, master, other, acc, lnk, id);
  }

  /** Every account has a surviving twin, itself or another, which holds all its libraries. */
  lemma TwinSurvives(accounts: Accounts, links: Links, master: int, other: int, acc: Accounts, lnk: Links, id: int)
    returns (keeper: int)
    requires Merged(accounts, links, master, other, acc, lnk) && WasTheirs(accounts, master, other, id)
    ensures keeper in acc && acc[keeper].owner == Some(master) && Twins(acc[keeper], accounts[id])
    ensures forall library :: (id, library) in links ==> (keeper, library) in lnk
    ensures accounts[id].kind.Some? ==>
              keeper in accounts && !Outdone(accounts, master, other, keeper)
  {
    keeper := SurvivorOf(accounts, links, master, other, acc, lnk, id);
    TwinsIff(acc[keeper], accounts[id]);
    assert keeper in accounts && WasTheirs(accounts, master, other, keeper);
    StaysIff(accounts, links, master, other, acc, lnk, keeper);
    assert acc[keeper] == accounts[keeper].(owner := Some(master));
  }

  /** A link comes from a link of the same account or of a twin: nobody gains a library of another server or name. */
  lemma LinksComeFromTwins(accounts: Accounts, links: Links, master: int, other: int, acc: Accounts, lnk: Links,
                           id: int, library: int)
    requires ForeignKey(accounts, links) && Merged(accounts, links, master, other, acc, lnk)
    requires (id, library) in lnk
    ensures id in acc && id in accounts
    ensures exists d :: d in accounts && (d, library) in links && Twins(accounts[d], acc[id])
                        && (d == id || (WasTheirs(accounts, master, other, d)
                                        && WasTheirs(accounts, master, other, id)))
  {
    var moved := Moved(accounts, master, other);
    var d :| (d, library) in links && GivesTo(moved, master, Duplicated(moved, master), d, id);
    assert acc[id] == moved[id];
    TwinsIff(accounts[d], acc[id]);
  }
}
