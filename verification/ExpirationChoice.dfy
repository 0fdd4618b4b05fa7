/**
 Which template is sent on a day, told by the columns of the templates: the nearest value of the timeline decides who
 is in play, and scope, provider and id decide among those.
 */
module ExpirationChoice {
  import opened Options
  import opened Ordering
  import opened ExpirationTemplates
  import opened ExpirationPick

  // ----- which value is active

  /**
   The active value of a day: before the expiry the least before value that has not passed; afterwards the greatest
   after value that has been reached, and until the first of those the before value 0.
   */
  predicate Nearest(slot: Slot, daysLeft: int, befores: seq<int>, afters: seq<int>) {
    match slot
    case Before(v) =>
      v in befores
      && if daysLeft >= 0 then daysLeft <= v && forall w :: w in befores && daysLeft <= w ==> v <= w
         else v == 0 && forall w :: w in afters ==> w > -daysLeft
    case After(v) =>
      v in afters && daysLeft < 0 && v <= -daysLeft && forall w :: w in afters && w <= -daysLeft ==> w <= v
  }

  lemma ActiveIsNearest(slot: Slot, daysLeft: int, befores: seq<int>, afters: seq<int>)
    requires NonNegative(befores) && NonNegative(afters)
    ensures ActiveSlot(slot, daysLeft, befores, afters) <==> Nearest(slot, daysLeft, befores, afters)
  {
    WindowFacts(slot, befores, afters);
  }

  // ----- which templates apply

  /** A template for one subscription needs a user who has it, and one for a named provider needs a known name. */
  predicate Fits(t: Template, providers: seq<string>, subscription: Option<int>) {
    && (t.scope == "specific" ==> subscription.Some? && t.subscription == subscription)
    && (t.provider in providers || t.provider == "all" || t.provider == "plex" || t.provider == "jellyfin")
  }

  lemma ApplicableIff(t: Template, providers: seq<string>, subscription: Option<int>)
    ensures Applicable(t, providers, subscription) <==> Fits(t, providers, subscription)
  {
  }

  /** The user's providers are the reported ones that are known, in order. */
  lemma {:induction false} NormalizedAre(providers: seq<string>)
    ensures forall p :: p in Normalized(providers) <==> p in providers && (p == "plex" || p == "jellyfin")
    ensures |Normalized(providers)| > 0 ==>
              exists i :: 0 <= i < |providers| && providers[i] == Normalized(providers)[0]
                          && forall j :: 0 <= j < i ==> providers[j] != "plex" && providers[j] != "jellyfin"
    decreases |providers|
  {
    if providers != [] {
      var n := |providers| - 1;
      NormalizedAre(providers[..n]);
      assert providers == providers[..n] + [providers[n]];
      if Normalized(providers[..n]) == [] && Normalized(providers) != [] {
        forall j | 0 <= j < n ensures !Known(providers[j]) {
          assert providers[..n][j] == providers[j] && providers[j] in providers[..n];
        }
        assert providers[n] == Normalized(providers)[0];
      } else if Normalized(providers) != [] {
        var i :| 0 <= i < n && providers[..n][i] == Normalized(providers[..n])[0]
                 && forall j :: 0 <= j < i ==> providers[..n][j] != "plex" && providers[..n][j] != "jellyfin";
        assert providers[i] == Normalized(providers)[0];
        assert forall j :: 0 <= j < i ==> providers[..n][j] == providers[j];
      }
    }
  }

  // ----- which template is sent

  /**
   Templates for one subscription go before those for all, and these before others; with the same scope those of the
   user's providers go before those for all, and these before others; with the same of both the lower id goes first.
   */
  predicate NoWorse(t: Template, u: Template, providers: seq<string>) {
    var mine, theirs := t.provider in providers, u.provider in providers;
    && (u.scope == "specific" ==> t.scope == "specific")
    && (u.scope == "all" ==> t.scope == "specific" || t.scope == "all")
    && (SameScope(t, u) ==>
          && (theirs ==> mine)
          && (u.provider == "all" ==> mine || t.provider == "all")
          && (mine == theirs && (mine || (t.provider == "all") == (u.provider == "all")) ==> t.id <= u.id))
  }

  /** Both for one subscription, both for all, or both for neither. */
  predicate SameScope(t: Template, u: Template) {
    (t.scope == "specific") == (u.scope == "specific") && (t.scope == "all") == (u.scope == "all")
  }

  lemma LexTriple(a: seq<int>, b: seq<int>)
    requires |a| == 3 && |b| == 3
    ensures LexLess(a, b) <==>
              a[0] < b[0] || (a[0] == b[0] && (a[1] < b[1] || (a[1] == b[1] && a[2] < b[2])))
  {
    assert LexLess(a[1..], b[1..]) <==> a[1] < b[1] || (a[1] == b[1] && LexLess(a[2..], b[2..])) by {
      assert a[1..][1..] == a[2..] && b[1..][1..] == b[2..];
    }
    assert LexLess(a[2..], b[2..]) <==> a[2] < b[2] by {
      assert a[2..][1..] == [] && b[2..][1..] == [];
    }
  }

  lemma RankIs(t: Template, u: Template, providers: seq<string>, subscription: Option<int>)
    requires Fits(t, providers, subscription) && Fits(u, providers, subscription)
    ensures LexLeq(RankKey(t, providers, subscription), RankKey(u, providers, subscription))
            <==> NoWorse(t, u, providers)
  {
    LexTriple(RankKey(u, providers, subscription), RankKey(t, providers, subscription));
  }

  predicate Due(t: Template, daysLeft: int) {
    t.daysBefore.Some? && t.daysBefore.value >= daysLeft
  }

  predicate Reached(t: Template, daysLeft: int) {
    t.daysAfter.Some? && t.daysAfter.value <= -daysLeft
  }

  ghost predicate Leads(t: Template, daysLeft: int, fitting: set<Template>) {
    if daysLeft >= 0 then
      Due(t, daysLeft) && forall u :: u in fitting && Due(u, daysLeft) ==> t.daysBefore.value <= u.daysBefore.value
    else if Reached(t, daysLeft)
            && forall u :: u in fitting && Reached(u, daysLeft) ==> u.daysAfter.value <= t.daysAfter.value
    then true
    else t.daysBefore == Some(0) && forall u :: u in fitting ==> !Reached(u, daysLeft)
  }

  ghost function Fitting(templates: seq<Template>, providers: seq<string>, subscription: Option<int>): set<Template> {
    set u | u in templates && Fits(u, providers, subscription)
  }

  /** The template is in play: it fits, and one of its values is the nearest of those of all fitting templates. */
  ghost predicate OnStage(t: Template, daysLeft: int, templates: seq<Template>, providers: seq<string>,
                          subscription: Option<int>)
  {
    var fitting := Fitting(templates, providers, subscription);
    t in fitting && Leads(t, daysLeft, fitting)
  }

  /** The values are those of the templates. */
  ghost predicate Values(fitting: set<Template>, befores: seq<int>, afters: seq<int>) {
    && (forall u :: u in fitting && u.daysBefore.Some? ==> u.daysBefore.value in befores)
    && (forall u :: u in fitting && u.daysAfter.Some? ==> u.daysAfter.value in afters)
    && (forall v :: v in befores ==> exists u :: u in fitting && u.daysBefore == Some(v))
    && (forall v :: v in afters ==> exists u :: u in fitting && u.daysAfter == Some(v))
  }

  lemma LeadsIff(t: Template, daysLeft: int, fitting: set<Template>, befores: seq<int>, afters: seq<int>)
    requires t in fitting && Values(fitting, befores, afters)
    ensures Leads(t, daysLeft, fitting)
            <==> (t.daysBefore.Some? && Nearest(Before(t.daysBefore.value), daysLeft, befores, afters))
                 || (t.daysAfter.Some? && Nearest(After(t.daysAfter.value), daysLeft, befores, afters))
  {
    forall u | u in fitting ensures Due(u, daysLeft) ==> u.daysBefore.value in befores {
    }
    forall w | w in afters && w <= -daysLeft
      ensures exists u :: u in fitting && Reached(u, daysLeft) && u.daysAfter == Some(w)
    {
      var u :| u in fitting && u.daysAfter == Some(w);
      assert Reached(u, daysLeft);
    }
    forall w | w in befores && daysLeft <= w
      ensures exists u :: u in fitting && Due(u, daysLeft) && u.daysBefore == Some(w)
    {
      var u :| u in fitting && u.daysBefore == Some(w);
      assert Due(u, daysLeft);
    }
  }

  lemma InPlayIff(t: Template, daysLeft: int, templates: seq<Template>, providers: seq<string>,
                  subscription: Option<int>)
    requires ValuesNonNegative(templates)
    ensures t in InPlay(daysLeft, templates, providers, subscription)
            <==> OnStage(t, daysLeft, templates, providers, subscription)
  {
    var applicable, fitting := Filter(templates, providers, subscription), Fitting(templates, providers, subscription);
    var befores, afters := Befores(applicable), Afters(applicable);
    FilterIs(templates, providers, subscription);
    MatchingIs(applicable, daysLeft, befores, afters);
    ValuesAre(applicable);
    forall u ensures Applicable(u, providers, subscription) <==> Fits(u, providers, subscription) {
      ApplicableIff(u, providers, subscription);
    }
    assert Values(fitting, befores, afters) by {
      assert forall u :: u in fitting <==> u in applicable;
    }
    if t in fitting {
      LeadsIff(t, daysLeft, fitting, befores, afters);
      MatchesNearest(t, daysLeft, befores, afters);
    }
  }

  lemma MatchesNearest(t: Template, daysLeft: int, befores: seq<int>, afters: seq<int>)
    requires NonNegative(befores) && NonNegative(afters)
    requires t.daysBefore.Some? ==> t.daysBefore.value in befores
    requires t.daysAfter.Some? ==> t.daysAfter.value in afters
    ensures Matches(t, daysLeft, befores, afters)
            <==> (t.daysBefore.Some? && Nearest(Before(t.daysBefore.value), daysLeft, befores, afters))
                 || (t.daysAfter.Some? && Nearest(After(t.daysAfter.value), daysLeft, befores, afters))
  {
    if t.daysBefore.Some? {
      ActiveIsNearest(Before(t.daysBefore.value), daysLeft, befores, afters);
    }
    if t.daysAfter.Some? {
      ActiveIsNearest(After(t.daysAfter.value), daysLeft, befores, afters);
    }
  }

  /** The picked template is on stage and no worse than any other one there. */
  lemma BestIs(t: Template, daysLeft: int, templates: seq<Template>, providers: seq<string>, subscription: Option<int>)
    requires ValuesNonNegative(templates)
    ensures IsBest(t, InPlay(daysLeft, templates, providers, subscription), providers, subscription)
            <==> OnStage(t, daysLeft, templates, providers, subscription)
                 && forall u :: OnStage(u, daysLeft, templates, providers, subscription) ==> NoWorse(t, u, providers)
  {
    InPlayIff(t, daysLeft, templates, providers, subscription);
    forall u | u in InPlay(daysLeft, templates, providers, subscription)
      ensures OnStage(t, daysLeft, templates, providers, subscription) ==>
                (LexLeq(RankKey(t, providers, subscription), RankKey(u, providers, subscription))
                 <==> NoWorse(t, u, providers))
    {
      InPlayIff(u, daysLeft, templates, providers, subscription);
      if OnStage(t, daysLeft, templates, providers, subscription) {
        RankIs(t, u, providers, subscription);
      }
    }
    forall u ensures u in InPlay(daysLeft, templates, providers, subscription)
                     <==> OnStage(u, daysLeft, templates, providers, subscription) {
      InPlayIff(u, daysLeft, templates, providers, subscription);
    }
  }

  /**
   The mail goes out for one of the user's providers if they have any, and for the template's own if that is one of
   them; else for the template's provider, or for Plex.
   */
  lemma QueueProviderIs(t: Template, rawProviders: seq<string>)
    ensures var providers := Normalized(rawProviders);
            var provider := QueueProvider(t, providers);
            && (provider == "plex" || provider == "jellyfin")
            && (t.provider in providers ==> provider == t.provider)
            && (providers != [] ==> provider in rawProviders)
            && (t.provider !in providers && providers != [] ==> provider == providers[0])
            && (providers == [] ==> provider == if t.provider == "jellyfin" then "jellyfin" else "plex")
  {
    NormalizedAre(rawProviders);
  }
}
