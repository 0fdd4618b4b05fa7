/** pick_expiration_template of app/core/expiration_template_selection.py. */
module ExpirationPick {
  import opened Options
  import opened Ordering
  import opened ExpirationTemplates

  /** Texts are trimmed and lower case; a missing scope is "none", a missing provider "all". */
  datatype Template = Template(
    id: int,
    scope: string,
    subscription: Option<int>,
    provider: string,
    daysBefore: Option<int>,
    daysAfter: Option<int>)

  function ScopeRank(t: Template, subscription: Option<int>): int {
    if t.scope == "specific" then
      if subscription.None? then -1 else if t.subscription == subscription then 3 else -1
    else if t.scope == "all" then 2
    else 1
  }

  predicate Known(provider: string) {
    provider == "plex" || provider == "jellyfin"
  }

  function Normalized(providers: seq<string>): seq<string> {
    if providers == [] then [] else
      var n := |providers| - 1;
      Normalized(providers[..n]) + if Known(providers[n]) then [providers[n]] else []
  }

  function ProviderRank(t: Template, providers: seq<string>): int {
    if t.provider in providers then 3
    else if t.provider == "all" then 2
    else if Known(t.provider) then 1
    else -1
  }

  predicate Applicable(t: Template, providers: seq<string>, subscription: Option<int>) {
    ScopeRank(t, subscription) >= 0 && ProviderRank(t, providers) >= 0
  }

  function RankKey(t: Template, providers: seq<string>, subscription: Option<int>): seq<int> {
    [-ScopeRank(t, subscription), -ProviderRank(t, providers), t.id]
  }

  function Befores(templates: seq<Template>): seq<int> {
    if templates == [] then [] else
      var n := |templates| - 1;
      Befores(templates[..n]) + if templates[n].daysBefore.Some? then [templates[n].daysBefore.value] else []
  }

  function Afters(templates: seq<Template>): seq<int> {
    if templates == [] then [] else
      var n := |templates| - 1;
      Afters(templates[..n]) + if templates[n].daysAfter.Some? then [templates[n].daysAfter.value] else []
  }

  /** One of the template's values is in its window on that day. */
  predicate Matches(t: Template, daysLeft: int, befores: seq<int>, afters: seq<int>) {
    || (t.daysBefore.Some? && MatchBeforeWindow(daysLeft, t.daysBefore.value, befores, afters))
    || (t.daysAfter.Some? && MatchAfterWindow(daysLeft, t.daysAfter.value, afters))
  }

  function QueueProvider(t: Template, providers: seq<string>): string {
    if t.provider in providers then t.provider
    else if providers != [] then providers[0]
    else if Known(t.provider) then t.provider
    else "plex"
  }

  function Filter(templates: seq<Template>, providers: seq<string>, subscription: Option<int>): seq<Template> {
    if templates == [] then [] else
      var n := |templates| - 1;
      Filter(templates[..n], providers, subscription)
      + if Applicable(templates[n], providers, subscription) then [templates[n]] else []
  }

  function Matching(templates: seq<Template>, daysLeft: int, befores: seq<int>, afters: seq<int>): seq<Template> {
    if templates == [] then [] else
      var n := |templates| - 1;
      Matching(templates[..n], daysLeft, befores, afters)
      + if Matches(templates[n], daysLeft, befores, afters) then [templates[n]] else []
  }

  /** The templates in play on that day. */
  function InPlay(daysLeft: int, templates: seq<Template>, providers: seq<string>, subscription: Option<int>)
    : seq<Template>
  {
    var applicable := Filter(templates, providers, subscription);
    Matching(applicable, daysLeft, Befores(applicable), Afters(applicable))
  }

  method PickExpirationTemplate(daysLeft: int, templates: seq<Template>, rawProviders: seq<string>,
                                subscription: Option<int>)
    returns (pick: Option<(Template, string)>)
    ensures var providers := Normalized(rawProviders);
            var inPlay := InPlay(daysLeft, templates, providers, subscription);
            && (pick.None? <==> inPlay == [])
            && (pick.Some? ==>
                  && IsBest(pick.value.0, inPlay, providers, subscription)
                  && pick.value.1 == QueueProvider(pick.value.0, providers))
  {
    var providers: seq<string> := [];
    for i := 0 to |rawProviders|
      invariant providers == Normalized(rawProviders[..i])
    {
      assert rawProviders[..i + 1][..i] == rawProviders[..i];
      if Known(rawProviders[i]) {
        providers := providers + [rawProviders[i]];
      }
    }
    assert rawProviders[..|rawProviders|] == rawProviders;

    var applicable: seq<Template> := [];
    for i := 0 to |templates|
      invariant applicable == Filter(templates[..i], providers, subscription)
    {
      assert templates[..i + 1][..i] == templates[..i];
      if Applicable(templates[i], providers, subscription) {
        applicable := applicable + [templates[i]];
      }
    }
    assert templates[..|templates|] == templates;
    if applicable == [] {
      return None;
    }

    var befores, afters := Befores(applicable), Afters(applicable);
    var matches: seq<Template> := [];
    for i := 0 to |applicable|
      invariant matches == Matching(applicable[..i], daysLeft, befores, afters)
    {
      assert applicable[..i + 1][..i] == applicable[..i];
      if Matches(applicable[i], daysLeft, befores, afters) {
        matches := matches + [applicable[i]];
      }
    }
    assert applicable[..|applicable|] == applicable;
    if matches == [] {
      return None;
    }

    var key := t => RankKey(t, providers, subscription);
    SortByProperties(key, matches);
    ghost var unsorted := matches;
    matches := SortBy(key, matches);
    var best := matches[0];
    assert best in matches;
    forall u | u in unsorted ensures LexLeq(key(best), key(u)) {
      assert u in matches;
      LexTotal(key(best), key(best));
    }
    pick := Some((best, QueueProvider(best, providers)));
  }

  /** `t` is first among `inPlay` by scope, then provider, then smallest id. */
  ghost predicate IsBest(t: Template, inPlay: seq<Template>, providers: seq<string>, subscription: Option<int>) {
    t in inPlay && forall u :: u in inPlay ==> LexLeq(RankKey(t, providers, subscription),
                                                      RankKey(u, providers, subscription))
  }

  // ----- main results

  lemma {:induction false} FilterIs(templates: seq<Template>, providers: seq<string>, subscription: Option<int>)
    ensures forall t :: t in Filter(templates, providers, subscription) <==>
              t in templates && Applicable(t, providers, subscription)
    decreases |templates|
  {
    if templates != [] {
      var n := |templates| - 1;
      FilterIs(templates[..n], providers, subscription);
      assert templates == templates[..n] + [templates[n]];
    }
  }

  lemma {:induction false} MatchingIs(templates: seq<Template>, daysLeft: int, befores: seq<int>, afters: seq<int>)
    ensures forall t :: t in Matching(templates, daysLeft, befores, afters) <==>
              t in templates && Matches(t, daysLeft, befores, afters)
    decreases |templates|
  {
    if templates != [] {
      var n := |templates| - 1;
      MatchingIs(templates[..n], daysLeft, befores, afters);
      assert templates == templates[..n] + [templates[n]];
    }
  }

  predicate Offers(t: Template, slot: Slot) {
    match slot
    case Before(v) => t.daysBefore == Some(v)
    case After(v) => t.daysAfter == Some(v)
  }

  lemma {:induction false} ValuesAre(templates: seq<Template>)
    ensures forall v :: v in Befores(templates) <==> exists t :: t in templates && t.daysBefore == Some(v)
    ensures forall v :: v in Afters(templates) <==> exists t :: t in templates && t.daysAfter == Some(v)
    decreases |templates|
  {
    if templates != [] {
      var n := |templates| - 1;
      ValuesAre(templates[..n]);
      assert templates == templates[..n] + [templates[n]];
      assert forall t :: t in templates <==> t in templates[..n] || t == templates[n];
    }
  }

  ghost predicate ValuesNonNegative(templates: seq<Template>) {
    forall t :: t in templates ==>
      (t.daysBefore.Some? ==> t.daysBefore.value >= 0) && (t.daysAfter.Some? ==> t.daysAfter.value >= 0)
  }

  /** All templates in play on one day occupy the same slot of the timeline. */
  lemma InPlayShareOneSlot(daysLeft: int, templates: seq<Template>, providers: seq<string>, subscription: Option<int>)
    returns (slot: Slot)
    requires ValuesNonNegative(templates) && InPlay(daysLeft, templates, providers, subscription) != []
    ensures forall t :: t in InPlay(daysLeft, templates, providers, subscription) <==>
              t in templates && Applicable(t, providers, subscription) && Offers(t, slot)
  {
    var applicable := Filter(templates, providers, subscription);
    var befores, afters := Befores(applicable), Afters(applicable);
    FilterIs(templates, providers, subscription);
    MatchingIs(applicable, daysLeft, befores, afters);
    ValuesAre(applicable);
    var first := InPlay(daysLeft, templates, providers, subscription)[0];
    assert first in InPlay(daysLeft, templates, providers, subscription);
    slot := if first.daysBefore.Some? && MatchBeforeWindow(daysLeft, first.daysBefore.value, befores, afters)
            then Before(first.daysBefore.value) else After(first.daysAfter.value);
    assert ActiveSlot(slot, daysLeft, befores, afters);
    forall t | t in applicable ensures Matches(t, daysLeft, befores, afters) <==> Offers(t, slot) {
      if t.daysBefore.Some? && MatchBeforeWindow(daysLeft, t.daysBefore.value, befores, afters) {
        OneSlotPerDay(slot, Before(t.daysBefore.value), daysLeft, befores, afters);
      }
      if t.daysAfter.Some? && MatchAfterWindow(daysLeft, t.daysAfter.value, afters) {
        OneSlotPerDay(slot, After(t.daysAfter.value), daysLeft, befores, afters);
      }
    }
  }

  lemma MatchIsActiveSlot(t: Template, templates: seq<Template>, daysLeft: int) returns (slot: Slot)
    requires t in templates && Matches(t, daysLeft, Befores(templates), Afters(templates))
    ensures ActiveSlot(slot, daysLeft, Befores(templates), Afters(templates))
  {
    ValuesAre(templates);
    slot := if t.daysBefore.Some?
               && MatchBeforeWindow(daysLeft, t.daysBefore.value, Befores(templates), Afters(templates))
            then Before(t.daysBefore.value) else After(t.daysAfter.value);
  }

  lemma ActiveSlotIsMatched(slot: Slot, templates: seq<Template>, daysLeft: int) returns (t: Template)
    requires ActiveSlot(slot, daysLeft, Befores(templates), Afters(templates))
    ensures t in templates && Matches(t, daysLeft, Befores(templates), Afters(templates))
  {
    ValuesAre(templates);
    if slot.Before? {
      t :| t in templates && t.daysBefore == Some(slot.days);
    } else {
      t :| t in templates && t.daysAfter == Some(slot.days);
    }
  }

  /** Some template is in play exactly on the covered days. */
  lemma InPlayIffCovered(daysLeft: int, templates: seq<Template>, providers: seq<string>, subscription: Option<int>)
    requires ValuesNonNegative(templates)
    ensures var applicable := Filter(templates, providers, subscription);
            InPlay(daysLeft, templates, providers, subscription) != []
            <==> Covered(daysLeft, Befores(applicable), Afters(applicable))
  {
    var applicable := Filter(templates, providers, subscription);
    var befores, afters := Befores(applicable), Afters(applicable);
    var inPlay := InPlay(daysLeft, templates, providers, subscription);
    FilterIs(templates, providers, subscription);
    MatchingIs(applicable, daysLeft, befores, afters);
    assert NonNegative(befores) && NonNegative(afters) by {
      ValuesAre(applicable);
    }
    CoveredIffActive(daysLeft, befores, afters);
    if inPlay != [] {
      assert inPlay[0] in inPlay;
      var slot := MatchIsActiveSlot(inPlay[0], applicable, daysLeft);
    }
    if Covered(daysLeft, befores, afters) {
      var slot := FindSlot(daysLeft, befores, afters);
      var t := ActiveSlotIsMatched(slot, applicable, daysLeft);
      assert t in inPlay;
    }
  }

  /** With distinct ids the pick does not depend on the order of the templates. */
  lemma PickIgnoresOrder(daysLeft: int, templates: seq<Template>, shuffled: seq<Template>, providers: seq<string>,
                         subscription: Option<int>, a: Template, b: Template)
    requires multiset(templates) == multiset(shuffled)
    requires forall t, u :: t in templates && u in templates && t.id == u.id ==> t == u
    requires IsBest(a, InPlay(daysLeft, templates, providers, subscription), providers, subscription)
    requires IsBest(b, InPlay(daysLeft, shuffled, providers, subscription), providers, subscription)
    ensures a == b
  {
    forall t ensures t in templates <==> t in shuffled {
      assert t in multiset(templates) <==> t in multiset(shuffled);
    }
    var left, right := Filter(templates, providers, subscription), Filter(shuffled, providers, subscription);
    FilterIs(templates, providers, subscription);
    FilterIs(shuffled, providers, subscription);
    ValuesAre(left);
    ValuesAre(right);
    forall t ensures Matches(t, daysLeft, Befores(left), Afters(left))
                     <==> Matches(t, daysLeft, Befores(right), Afters(right)) {
      SameValuesSameMatch(t, daysLeft, Befores(left), Afters(left), Befores(right), Afters(right));
    }
    MatchingIs(left, daysLeft, Befores(left), Afters(left));
    MatchingIs(right, daysLeft, Befores(right), Afters(right));
    LexTotal(RankKey(a, providers, subscription), RankKey(b, providers, subscription));
  }

  lemma SameValuesSameMatch(t: Template, daysLeft: int, befores: seq<int>, afters: seq<int>,
                            befores': seq<int>, afters': seq<int>)
    requires forall v :: v in befores <==> v in befores'
    requires forall v :: v in afters <==> v in afters'
    ensures Matches(t, daysLeft, befores, afters) <==> Matches(t, daysLeft, befores', afters')
  {
    if t.daysBefore.Some? {
      WindowFacts(Before(t.daysBefore.value), befores, afters);
      WindowFacts(Before(t.daysBefore.value), befores', afters');
    }
    if t.daysAfter.Some? {
      WindowFacts(After(t.daysAfter.value), befores, afters);
      WindowFacts(After(t.daysAfter.value), befores', afters');
    }
  }

  // ----- where the values come from: normalize_template_rules of app/core/communication_template_rules.py

  function AtLeastZero(value: Option<int>): Option<int> {
    if value.Some? && value.value < 0 then Some(0) else value
  }

  function OrElse(value: Option<int>, default: Option<int>): int {
    if value.Some? then value.value else if default.Some? then default.value else 0
  }

  /** The stored (days_before, days_after) of an expiration template, from the form's values. */
  function NormalizedDays(before: Option<int>, after: Option<int>, delayAfter: bool): (Option<int>, Option<int>) {
    var b, a := AtLeastZero(before), AtLeastZero(after);
    if delayAfter then (None, Some(OrElse(a, b))) else (Some(OrElse(b, a)), None)
  }

  /** A template has exactly one of the two values: the one that was given, or else the other, and never below 0. */
  lemma NormalizedDaysAreSlots(before: Option<int>, after: Option<int>, delayAfter: bool)
    ensures var (b, a) := NormalizedDays(before, after, delayAfter);
            && b.Some? != a.Some?
            && (b.Some? ==> b.value >= 0) && (a.Some? ==> a.value >= 0)
            && (delayAfter <==> a.Some?)
            && var own, spare := if delayAfter then after else before, if delayAfter then before else after;
               var given := if own.Some? then own else spare;
               (if delayAfter then a.value else b.value) == if given.None? || given.value < 0 then 0 else given.value
  {
  }
}
