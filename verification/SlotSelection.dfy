/** select_best_templates of app/core/communication_template_selection.py. */
module SlotSelection {
  import opened Options
  import opened Ordering

  /** Texts are trimmed and lower case, with null as "". */
  datatype Template = Template(
    id: int,
    scope: string,
    subscription: Option<int>,
    provider: string,
    direction: string,
    daysBefore: Option<int>,
    daysAfter: Option<int>)

  /** The arguments of the selection. */
  datatype Query = Query(event: string, provider: string, subscription: Option<int>, direction: string)

  datatype Slot =
    | Timeline(before: Option<int>, after: Option<int>)
    | Delay(after: Option<int>)
    | Change(direction: string)

  function OrAll(text: string): string {
    if text == "" then "all" else text
  }

  function ScopeRank(t: Template, q: Query): int {
    if t.scope == "specific" then
      if q.subscription.None? then -1 else if t.subscription == q.subscription then 3 else -1
    else if t.scope == "all" then 2
    else 1
  }

  function ProviderRank(t: Template, q: Query): int {
    if OrAll(t.provider) == q.provider then 2 else if OrAll(t.provider) == "all" then 1 else -1
  }

  function DirectionRank(t: Template, q: Query): int {
    if q.event != "expiration_change" then 0
    else if q.direction == "" then 1
    else if OrAll(t.direction) == q.direction then 2
    else if OrAll(t.direction) == "all" then 1
    else -1
  }

  predicate Eligible(t: Template, q: Query) {
    ScopeRank(t, q) >= 0 && ProviderRank(t, q) >= 0 && DirectionRank(t, q) >= 0
  }

  function SlotOf(t: Template, q: Query): Slot {
    if q.event in {"user_creation", "pending_invite_reminder", "referral_reward"} then Delay(t.daysAfter)
    else if q.event == "expiration_change" then Change(OrAll(t.direction))
    else Timeline(t.daysBefore, t.daysAfter)
  }

  function RankKey(t: Template, q: Query): seq<int> {
    [-ScopeRank(t, q), -ProviderRank(t, q), -DirectionRank(t, q), t.id]
  }

  function OutputKey(t: Template): seq<int> {
    [if t.daysBefore.None? then 999999 else t.daysBefore.value,
     if t.daysAfter.None? then 999999 else t.daysAfter.value,
     t.id]
  }

  function Candidates(rows: seq<Template>, q: Query): seq<Template> {
    if rows == [] then [] else
      var n := |rows| - 1;
      Candidates(rows[..n], q) + if Eligible(rows[n], q) then [rows[n]] else []
  }

  function Slots(rows: seq<Template>, q: Query): set<Slot> {
    set t | t in rows :: SlotOf(t, q)
  }

  /** The first template of each slot, in order. */
  function FirstPerSlot(rows: seq<Template>, q: Query): seq<Template> {
    if rows == [] then [] else
      var n := |rows| - 1;
      FirstPerSlot(rows[..n], q) + if SlotOf(rows[n], q) in Slots(rows[..n], q) then [] else [rows[n]]
  }

  function Selection(rows: seq<Template>, q: Query): seq<Template> {
    SortBy(OutputKey, FirstPerSlot(SortBy(t => RankKey(t, q), Candidates(rows, q)), q))
  }

  method SelectBestTemplates(rows: seq<Template>, q: Query) returns (output: seq<Template>)
    ensures output == Selection(rows, q)
  {
    var candidates: seq<Template> := [];
    for i := 0 to |rows|
      invariant candidates == Candidates(rows[..i], q)
    {
      assert rows[..i + 1][..i] == rows[..i];
      if ScopeRank(rows[i], q) < 0 || ProviderRank(rows[i], q) < 0 {
        continue;
      }
      if DirectionRank(rows[i], q) < 0 {
        continue;
      }
      candidates := candidates + [rows[i]];
    }
    assert rows[..|rows|] == rows;
    candidates := SortBy(t => RankKey(t, q), candidates);
    var best := BestBySlot(candidates, q);
    output := SortBy(OutputKey, best);
  }

  /** The values of the dictionary best_by_slot, in insertion order. */
  method BestBySlot(candidates: seq<Template>, q: Query) returns (best: seq<Template>)
    ensures best == FirstPerSlot(candidates, q)
  {
    var slots: set<Slot> := {};
    best := [];
    for i := 0 to |candidates|
      invariant slots == Slots(candidates[..i], q)
      invariant best == FirstPerSlot(candidates[..i], q)
    {
      assert candidates[..i + 1][..i] == candidates[..i];
      assert candidates[..i + 1] == candidates[..i] + [candidates[i]];
      SlotsGrow(candidates[..i], candidates[i], q);
      var slot := SlotOf(candidates[i], q);
      if slot in slots {
        continue;
      }
      slots := slots + {slot};
      best := best + [candidates[i]];
    }
    assert candidates[..|candidates|] == candidates;
  }

  // ----- main results

  ghost predicate IdsDiffer(rows: seq<Template>) {
    forall t, u :: t in rows && u in rows && t.id == u.id ==> t == u
  }

  lemma {:induction false} CandidatesCount(rows: seq<Template>, q: Query, t: Template)
    ensures multiset(Candidates(rows, q))[t] == if Eligible(t, q) then multiset(rows)[t] else 0
    decreases |rows|
  {
    if rows != [] {
      var n := |rows| - 1;
      CandidatesCount(rows[..n], q, t);
      assert rows == rows[..n] + [rows[n]];
    }
  }

  lemma CandidatesAre(rows: seq<Template>, q: Query)
    ensures forall t :: t in Candidates(rows, q) <==> t in rows && Eligible(t, q)
  {
    forall t ensures t in Candidates(rows, q) <==> t in rows && Eligible(t, q) {
      CandidatesCount(rows, q, t);
      assert t in Candidates(rows, q) <==> t in multiset(Candidates(rows, q));
      assert t in rows <==> t in multiset(rows);
    }
  }

  /** `t` comes before every template of its slot. */
  ghost predicate LeadsSlot(t: Template, rows: seq<Template>, q: Query) {
    t in rows && forall u :: u in rows && SlotOf(u, q) == SlotOf(t, q) ==> LexLeq(RankKey(t, q), RankKey(u, q))
  }

  lemma {:induction false} FirstsLead(rows: seq<Template>, q: Query, t: Template)
    requires SortedBy(t => RankKey(t, q), rows) && t in FirstPerSlot(rows, q)
    ensures LeadsSlot(t, rows, q) && SlotOf(t, q) in Slots(rows, q)
    decreases |rows|
  {
    var n := |rows| - 1;
    var front, last := rows[..n], rows[n];
    assert rows == front + [last];
    if t in FirstPerSlot(front, q) {
      FirstsLead(front, q, t);
      var i :| 0 <= i < n && rows[i] == t;
      assert LexLeq(RankKey(rows[i], q), RankKey(rows[n], q));
    } else {
      forall u | u in front ensures SlotOf(u, q) != SlotOf(t, q) {
        assert SlotOf(u, q) in Slots(front, q);
      }
      LexTotal(RankKey(last, q), RankKey(last, q));
    }
  }

  lemma {:induction false} FirstsCoverSlots(rows: seq<Template>, q: Query)
    ensures Slots(FirstPerSlot(rows, q), q) == Slots(rows, q)
    decreases |rows|
  {
    if rows != [] {
      var n := |rows| - 1;
      FirstsCoverSlots(rows[..n], q);
      assert rows == rows[..n] + [rows[n]];
      SlotsGrow(rows[..n], rows[n], q);
      SlotsGrow(FirstPerSlot(rows[..n], q), rows[n], q);
    }
  }

  lemma SlotsGrow(rows: seq<Template>, t: Template, q: Query)
    ensures Slots(rows + [t], q) == Slots(rows, q) + {SlotOf(t, q)}
  {
  }

  lemma {:induction false} FirstsDiffer(rows: seq<Template>, q: Query)
    ensures forall i, j :: 0 <= i < j < |FirstPerSlot(rows, q)| ==>
              SlotOf(FirstPerSlot(rows, q)[i], q) != SlotOf(FirstPerSlot(rows, q)[j], q)
    decreases |rows|
  {
    if rows != [] {
      var n := |rows| - 1;
      var firsts := FirstPerSlot(rows[..n], q);
      FirstsDiffer(rows[..n], q);
      FirstsCoverSlots(rows[..n], q);
      if SlotOf(rows[n], q) !in Slots(firsts, q) {
        forall i | 0 <= i < |firsts| ensures SlotOf(firsts[i], q) != SlotOf(rows[n], q) {
          assert firsts[i] in firsts;
        }
      }
    }
  }

  /**
   The selection holds exactly one template for each slot that has an eligible row; it is the slot's best by
   (scope, provider, direction, smallest id); and the selection is in the output order.
   */
  lemma SelectionIsBestPerSlot(rows: seq<Template>, q: Query)
    ensures var output := Selection(rows, q);
            && SortedBy(OutputKey, output)
            && (forall t :: t in output ==> LeadsSlot(t, Candidates(rows, q), q))
            && (forall t :: t in rows && Eligible(t, q) ==> exists b :: b in output && SlotOf(b, q) == SlotOf(t, q))
            && (forall i, j :: 0 <= i < |output| && 0 <= j < |output| && SlotOf(output[i], q) == SlotOf(output[j], q)
                  ==> i == j)
  {
    var candidates := Candidates(rows, q);
    var key := t => RankKey(t, q);
    var sorted := SortBy(key, candidates);
    SortByProperties(key, candidates);
    var firsts := FirstPerSlot(sorted, q);
    FirstsCoverSlots(sorted, q);
    FirstsDiffer(sorted, q);
    SortByProperties(OutputKey, firsts);
    CandidatesAre(rows, q);
    forall t | t in firsts ensures LeadsSlot(t, candidates, q) {
      FirstsLead(sorted, q, t);
    }
    forall t | t in rows && Eligible(t, q) ensures exists b :: b in firsts && SlotOf(b, q) == SlotOf(t, q) {
      assert t in sorted;
      assert SlotOf(t, q) in Slots(sorted, q);
    }
    OnePerSlotSurvivesSorting(firsts, Selection(rows, q), q);
  }

  lemma OnePerSlotSurvivesSorting(firsts: seq<Template>, output: seq<Template>, q: Query)
    requires multiset(firsts) == multiset(output)
    requires forall i, j :: 0 <= i < j < |firsts| ==> SlotOf(firsts[i], q) != SlotOf(firsts[j], q)
    ensures forall i, j ::
              (0 <= i < |output| && 0 <= j < |output| && SlotOf(output[i], q) == SlotOf(output[j], q) ==> i == j)
  {
    forall i, j | 0 <= i < j < |output| ensures SlotOf(output[i], q) != SlotOf(output[j], q) {
      if output[i] == output[j] {
        TwiceInMultiset(output, i, j);
        OnceInMultiset(firsts, output[i], q);
      } else {
        assert output[i] in multiset(firsts) && output[j] in multiset(firsts);
      }
    }
  }

  lemma TwiceInMultiset(s: seq<Template>, i: int, j: int)
    requires 0 <= i < j < |s| && s[i] == s[j]
    ensures multiset(s)[s[i]] >= 2
  {
    assert s == s[..j] + s[j..];
    assert s[i] == s[..j][i] && s[i] in multiset(s[..j]);
    assert s[j] == s[j..][0] && s[i] in multiset(s[j..]);
  }

  lemma {:induction false} OnceInMultiset(s: seq<Template>, t: Template, q: Query)
    requires forall i, j :: 0 <= i < j < |s| ==> SlotOf(s[i], q) != SlotOf(s[j], q)
    ensures multiset(s)[t] <= 1
    decreases |s|
  {
    if s != [] {
      var n := |s| - 1;
      assert s == s[..n] + [s[n]];
      OnceInMultiset(s[..n], t, q);
      if t == s[n] {
        forall i | 0 <= i < n ensures s[i] != t {
          assert SlotOf(s[i], q) != SlotOf(s[n], q);
        }
      }
      assert t in multiset(s[..n]) <==> t in s[..n];
    }
  }

  /** The selection does not depend on the order in which the database returns the rows. */
  lemma SelectionIgnoresRowOrder(rows: seq<Template>, shuffled: seq<Template>, q: Query)
    requires multiset(rows) == multiset(shuffled) && IdsDiffer(rows)
    ensures Selection(rows, q) == Selection(shuffled, q)
  {
    var a, b := Candidates(rows, q), Candidates(shuffled, q);
    var key := t => RankKey(t, q);
    forall t ensures multiset(a)[t] == multiset(b)[t] {
      CandidatesCount(rows, q, t);
      CandidatesCount(shuffled, q, t);
    }
    assert multiset(a) == multiset(b);
    SortByProperties(key, a);
    SortByProperties(key, b);
    CandidatesAre(rows, q);
    SortedUnique(key, SortBy(key, a), SortBy(key, b));
  }
}
