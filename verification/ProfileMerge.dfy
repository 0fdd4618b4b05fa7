/**
 The profile part of app/core/user_merge.py: the UPDATE that merge_vodum_users computes, the preview that
 build_merge_preview shows, and the helpers both repeat.
 */
module ProfileMerge {
  import opened Options
  import opened Text

  datatype Column =
    | Username | Firstname | Lastname | EmailColumn | SecondEmail | ExpirationDate
    | RenewalMethod | RenewalDate | StatusColumn | CreatedAt | Notes

  /** A vodum_users row as a dictionary; an absent or None entry is a null. */
  type Profile = map<Column, Option<string>>

  datatype Source = FromMaster | FromTarget | Computed

  const COMPLETED := [Firstname, Lastname, RenewalMethod, RenewalDate]
  const NOTE_PREFIX := "[" + "merge] email additionnel non stocké (second_email déjà pris): "
  const NOTE_SEPARATOR := "--- merged ---"

  function Get(row: Profile, column: Column): Option<string> {
    if column in row then row[column] else None
  }

  function Cell(row: Profile, column: Column): string {
    Clean(Get(row, column))
  }

  /** str comparison: by code point, a prefix first. */
  predicate StringLess(a: string, b: string) {
    b != "" && (a == "" || a[0] < b[0] || (a[0] == b[0] && StringLess(a[1..], b[1..])))
  }

  predicate Blank(value: Option<string>) {
    value.None? || value.value == ""
  }

  function MaxDate(a: Option<string>, b: Option<string>): Option<string> {
    if Blank(a) then b
    else if Blank(b) then a
    else if StringLess(a.value, b.value) then b else a
  }

  // ----- the variables the nested helpers rebind

  datatype Draft = Draft(email: string, second: string, notes: string)

  function WithNote(notes: string, text: string): string {
    var line := Strip(text);
    if line == "" || Contains(notes, line) then notes
    else if notes == "" then line
    else Strip(notes + "\n" + line)
  }

  function WithSecond(d: Draft, text: string): Draft {
    var value := Strip(text);
    if value == "" || Same(value, d.email) || Same(value, d.second) then d
    else if d.second == "" then d.(second := value)
    else d.(notes := WithNote(d.notes, NOTE_PREFIX + value))
  }

  function WithOtherSecond(d: Draft, other: Profile): Draft {
    var second := Cell(other, SecondEmail);
    if second != "" && !Same(second, d.email) then WithSecond(d, second) else d
  }

  function WithOtherNotes(d: Draft, other: Profile): Draft {
    var notes := Cell(other, Notes);
    if notes != "" && !Contains(d.notes, notes)
    then d.(notes := WithNote(WithNote(d.notes, NOTE_SEPARATOR), notes))
    else d
  }

  function InitialDraft(master: Profile): Draft {
    Draft(Cell(master, EmailColumn), Cell(master, SecondEmail), Cell(master, Notes))
  }

  /** merge_vodum_users: the primary address is an if / elif. */
  function WithOtherEmail(d: Draft, other: Profile): Draft {
    var email := Cell(other, EmailColumn);
    if d.email == "" && email != "" then d.(email := email)
    else if d.email != "" && email != "" && !Same(d.email, email) then WithSecond(d, email)
    else d
  }

  /** build_merge_preview: the primary address is two independent ifs. */
  function WithOtherEmailPreview(d: Draft, other: Profile): Draft {
    var email := Cell(other, EmailColumn);
    var d' := if d.email == "" && email != "" then d.(email := email) else d;
    if d'.email != "" && email != "" && !Same(d'.email, email) then WithSecond(d', email) else d'
  }

  function MergedDraft(master: Profile, other: Profile): Draft {
    WithOtherNotes(WithOtherSecond(WithOtherEmail(InitialDraft(master), other), other), other)
  }

  class MergeDraft {
    var email: string
    var second: string
    var notes: string

    function Value(): Draft
      reads this
    {
      Draft(email, second, notes)
    }

    constructor (master: Profile)
      ensures Value() == InitialDraft(master)
    {
      email, second, notes := Cell(master, EmailColumn), Cell(master, SecondEmail), Cell(master, Notes);
    }

    method AddNoteLine(text: string)
      modifies this`notes
      ensures notes == WithNote(old(notes), text)
    {
      var line := Strip(text);
      if line == "" {
        return;
      }
      if Contains(notes, line) {
        return;
      }
      notes := if notes != "" then Strip(notes + "\n" + line) else line;
    }

    method PushSecond(text: string)
      modifies this`second, this`notes
      ensures Value() == WithSecond(old(Value()), text)
    {
      var value := Strip(text);
      if value == "" {
        return;
      }
      if Same(value, email) || Same(value, second) {
        return;
      }
      if second == "" {
        second := value;
        return;
      }
      AddNoteLine(NOTE_PREFIX + value);
    }

    method TakeSecondAndNotes(other: Profile)
      modifies this
      ensures Value() == WithOtherNotes(WithOtherSecond(old(Value()), other), other)
    {
      var otherSecond, otherNotes := Cell(other, SecondEmail), Cell(other, Notes);
      if otherSecond != "" && !Same(otherSecond, email) {
        PushSecond(otherSecond);
      }
      if otherNotes != "" && !Contains(notes, otherNotes) {
        AddNoteLine(NOTE_SEPARATOR);
        AddNoteLine(otherNotes);
      }
    }
  }

  // ----- the UPDATE

  /** The columns completed from `other` because `master` has them blank. */
  function Completed(master: Profile, other: Profile): Profile {
    map c | c in {Firstname, Lastname, RenewalMethod, RenewalDate}
            && Cell(master, c) == "" && Cell(other, c) != "" :: Get(other, c)
  }

  /** The SET list, given the final addresses and notes. */
  function AssignmentsOf(master: Profile, other: Profile, d: Draft): Profile {
    var changed := Completed(master, other)[ExpirationDate := MaxDate(Get(master, ExpirationDate),
                                                                      Get(other, ExpirationDate))];
    var mailed := if d.email != "" then changed[EmailColumn := Some(d.email)] else changed;
    var doubled := mailed[SecondEmail := if d.second == "" then None else Some(d.second)];
    if d.notes != Cell(master, Notes) then doubled[Notes := Some(d.notes)] else doubled
  }

  function Assignments(master: Profile, other: Profile): Profile {
    AssignmentsOf(master, other, MergedDraft(master, other))
  }

  method CompleteColumns(master: Profile, other: Profile) returns (merged: Profile)
    ensures merged == Completed(master, other)
  {
    merged := map[];
    for i := 0 to 4
      invariant merged == map c | c in COMPLETED[..i] && Cell(master, c) == "" && Cell(other, c) != "" :: Get(other, c)
    {
      var c := COMPLETED[i];
      assert COMPLETED[..i + 1] == COMPLETED[..i] + [c];
      if Cell(master, c) == "" && Cell(other, c) != "" {
        merged := merged[c := Get(other, c)];
      }
    }
    assert COMPLETED[..4] == COMPLETED;
    assert forall c :: c in COMPLETED <==> c in {Firstname, Lastname, RenewalMethod, RenewalDate};
  }

  /** Step 4 of merge_vodum_users: the SET list of its UPDATE. */
  method MergeProfile(master: Profile, other: Profile) returns (merged: Profile)
    ensures merged == Assignments(master, other)
  {
    merged := CompleteColumns(master, other);
    merged := merged[ExpirationDate := MaxDate(Get(master, ExpirationDate), Get(other, ExpirationDate))];
    var draft := new MergeDraft(master);
    var otherEmail := Cell(other, EmailColumn);
    if draft.email == "" && otherEmail != "" {
      draft.email := otherEmail;
    } else if draft.email != "" && otherEmail != "" && !Same(draft.email, otherEmail) {
      draft.PushSecond(otherEmail);
    }
    draft.TakeSecondAndNotes(other);
    if draft.email != "" {
      merged := merged[EmailColumn := Some(draft.email)];
    }
    merged := merged[SecondEmail := if draft.second == "" then None else Some(draft.second)];
    if draft.notes != Cell(master, Notes) {
      merged := merged[Notes := Some(draft.notes)];
    }
  }
}
