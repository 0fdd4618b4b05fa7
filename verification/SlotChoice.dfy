/** Which templates are selected for an event, told by the columns of the templates. */
module SlotChoice {
  import opened Options
  import opened Ordering
  import opened SlotSelection

  /** A blank column stands for "all". */
  predicate IsAll(text: string) {
    text == "" || text == "all"
  }

  /** The columns name the same, where a blank one stands for "all". */
  predicate SameText(a: string, b: string) {
    a == b || (IsAll(a) && IsAll(b))
  }

  /** The column names what is asked for. */
  predicate Names(text: string, asked: string) {
    (text != "" && text == asked) || (text == "" && asked == "all")
  }

  /** The direction of a change of expiration matters only if one is given. */
  predicate DirectionAsked(q: Query) {
    q.event == "expiration_change" && q.direction != ""
  }

  predicate Fits(t: Template, q: Query) {
    && (t.scope == "specific" ==> q.subscription.Some? && t.subscription == q.subscription)
    && (IsAll(t.provider) || t.provider == q.provider)
    && (DirectionAsked(q) ==> IsAll(t.direction) || t.direction == q.direction)
  }

  lemma EligibleIff(t: Template, q: Query)
    ensures Eligible(t, q) <==> Fits(t, q)
  {
  }

  predicate SameSlot(t: Template, u: Template, q: Query) {
    if q.event == "user_creation" || q.event == "pending_invite_reminder" || q.event == "referral_reward"
    then t.daysAfter == u.daysAfter
    else if q.event == "expiration_change" then SameText(t.direction, u.direction)
    else t.daysBefore == u.daysBefore && t.daysAfter == u.daysAfter
  }

  lemma SameSlotIff(t: Template, u: Template, q: Query)
    ensures SlotOf(t, q) == SlotOf(u, q) <==> SameSlot(t, u, q)
  {
  }

  predicate SameScope(t: Template, u: Template) {
    (t.scope == "specific") == (u.scope == "specific") && (t.scope == "all") == (u.scope == "all")
  }

  predicate ScopeNoWorse(t: Template, u: Template) {
    && (u.scope == "specific" ==> t.scope == "specific")
    && (u.scope == "all" ==> t.scope == "specific" || t.scope == "all")
  }

  predicate SameProvider(t: Template, u: Template, q: Query) {
    Names(t.provider, q.provider) == Names(u.provider, q.provider)
  }

  predicate SameDirection(t: Template, u: Template, q: Query) {
    DirectionAsked(q) ==> Names(t.direction, q.direction) == Names(u.direction, q.direction)
  }

  /**
   Templates of one subscription before those for all before others; then those that name the provider; then those
   that name the direction, if one is asked for; then the lower id.
   */
  predicate NoWorse(t: Template, u: Template, q: Query) {
    && ScopeNoWorse(t, u)
    && (SameScope(t, u) ==>
          && (Names(u.provider, q.provider) ==> Names(t.provider, q.provider))
          && (SameProvider(t, u, q) ==>
                && (DirectionAsked(q) && Names(u.direction, q.direction) ==> Names(t.direction, q.direction))
                && (SameDirection(t, u, q) ==> t.id <= u.id)))
  }

  lemma LexQuadruple(a: seq<int>, b: seq<int>)
    requires |a| == 4 && |b| == 4
    ensures LexLess(a, b) <==>
              a[0] < b[0]
              || (a[0] == b[0] && (a[1] < b[1] || (a[1] == b[1] && (a[2] < b[2] || (a[2] == b[2] && a[3] < b[3])))))
  {
    LexStep(a, b);
    LexStep(a[1..], b[1..]);
    LexStep(a[1..][1..], b[1..][1..]);
    LexStep(a[1..][1..][1..], b[1..][1..][1..]);
  }

  lemma LexStep(a: seq<int>, b: seq<int>)
    requires a != [] && b != []
    ensures LexLess(a, b) <==> a[0] < b[0] || (a[0] == b[0] && LexLess(a[1..], b[1..]))
  {
  }

  lemma RankIs(t: Template, u: Template, q: Query)
    requires Fits(t, q) && Fits(u, q)
    ensures LexLeq(RankKey(t, q), RankKey(u, q)) <==> NoWorse(t, u, q)
  {
    LexQuadruple(RankKey(u, q), RankKey(t, q));
  }

  /** A fitting row that no fitting row of its slot outdoes. */
  ghost predicate BestOfSlot(t: Template, rows: seq<Template>, q: Query) {
    t in rows && Fits(t, q) && forall u :: u in rows && Fits(u, q) && SameSlot(u, t, q) ==> NoWorse(t, u, q)
  }

  lemma LeadsIff(t: Template, rows: seq<Template>, q: Query)
    ensures LeadsSlot(t, Candidates(rows, q), q) <==> BestOfSlot(t, rows, q)
  {
    CandidatesAre(rows, q);
    EligibleIff(t, q);
    forall u | u in rows && Eligible(u, q) && Eligible(t, q)
      ensures Fits(u, q) && (SlotOf(u, q) == SlotOf(t, q) <==> SameSlot(u, t, q))
      ensures LexLeq(RankKey(t, q), RankKey(u, q)) <==> NoWorse(t, u, q)
    {
      EligibleIff(u, q);
      SameSlotIff(u, t, q);
      RankIs(t, u, q);
    }
    forall u ensures Eligible(u, q) <==> Fits(u, q) {
      EligibleIff(u, q);
    }
  }

  lemma LeadersAreOne(a: Template, b: Template, rows: seq<Template>, q: Query)
    requires LeadsSlot(a, rows, q) && LeadsSlot(b, rows, q) && SlotOf(a, q) == SlotOf(b, q)
    ensures a.id == b.id
  {
    LexTotal(RankKey(a, q), RankKey(b, q));
  }

  lemma SelectedLeads(rows: seq<Template>, q: Query, t: Template)
    requires t in Selection(rows, q)
    ensures LeadsSlot(t, Candidates(rows, q), q)
  {
    SelectionIsBestPerSlot(rows, q);
  }

  lemma SomeSelected(rows: seq<Template>, q: Query, t: Template) returns (b: Template)
    requires t in rows && Eligible(t, q)
    ensures b in Selection(rows, q) && SlotOf(b, q) == SlotOf(t, q)
  {
    SelectionIsBestPerSlot(rows, q);
    b :| b in Selection(rows, q) && SlotOf(b, q) == SlotOf(t, q);
  }

  /** With distinct ids the selection holds exactly the fitting rows that none of their slot outdoes. */
  lemma SelectedIff(rows: seq<Template>, q: Query, t: Template)
    requires IdsDiffer(rows)
    ensures t in Selection(rows, q) <==> BestOfSlot(t, rows, q)
  {
    LeadsIff(t, rows, q);
    if t in Selection(rows, q) {
      SelectedLeads(rows, q, t);
    }
    if BestOfSlot(t, rows, q) {
      EligibleIff(t, q);
      CandidatesAre(rows, q);
      var b := SomeSelected(rows, q, t);
      SelectedLeads(rows, q, b);
      LeadersAreOne(b, t, Candidates(rows, q), q);
    }
  }

  /** A missing number of days counts as 999999. */
  function DaysOr(days: Option<int>): int {
    if days == None then 999999 else days.value
  }

  /** The output is ordered by the days before, then the days after, then the id. */
  lemma OutputOrder(rows: seq<Template>, q: Query, i: nat, j: nat)
    requires i < j < |Selection(rows, q)|
    ensures var a, b := Selection(rows, q)[i], Selection(rows, q)[j];
            || DaysOr(a.daysBefore) < DaysOr(b.daysBefore)
            || (DaysOr(a.daysBefore) == DaysOr(b.daysBefore)
                && (DaysOr(a.daysAfter) < DaysOr(b.daysAfter)
                    || (DaysOr(a.daysAfter) == DaysOr(b.daysAfter) && a.id <= b.id)))
  {
    SelectionIsBestPerSlot(rows, q);
    var a, b := OutputKey(Selection(rows, q)[i]), OutputKey(Selection(rows, q)[j]);
    assert LexLeq(a, b);
    LexStep(b, a);
    LexStep(b[1..], a[1..]);
    LexStep(b[1..][1..], a[1..][1..]);
  }
}
