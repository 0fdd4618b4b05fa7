/**
 build_merge_preview of app/core/user_merge.py, and the proofs that it shows what merge_vodum_users writes and that
 no address or note is lost.
 */
module ProfilePreview {
  import opened Options
  import opened Text
  import opened ProfileMerge

  function PreviewDraft(master: Profile, other: Profile): Draft {
    WithOtherNotes(WithOtherSecond(WithOtherEmailPreview(InitialDraft(master), other), other), other)
  }

  function NullIfEmpty(s: string): Option<string> {
    if s == "" then None else Some(s)
  }

  /** The previewed row, given the final addresses and notes. */
  function PreviewRowOf(master: Profile, other: Profile, d: Draft): Profile {
    (master + Completed(master, other))[
      ExpirationDate := MaxDate(Get(master, ExpirationDate), Get(other, ExpirationDate))][
      EmailColumn := NullIfEmpty(d.email)][
      SecondEmail := NullIfEmpty(d.second)][
      Notes := Some(d.notes)]
  }

  function PreviewRow(master: Profile, other: Profile): Profile {
    PreviewRowOf(master, other, PreviewDraft(master, other))
  }

  function SourceOf(master: Profile, other: Profile, completed: Profile, d: Draft, c: Column): Source {
    match c
    case ExpirationDate => Computed
    case EmailColumn => if Cell(master, c) == "" && Cell(other, c) != "" then FromTarget else FromMaster
    case SecondEmail => if Cell(master, c) == "" && d.second != "" then FromTarget else FromMaster
    case Notes => if d.notes != Cell(master, c) then Computed else FromMaster
    case _ => if c in completed then FromTarget else FromMaster
  }

  function PreviewSource(master: Profile, other: Profile, c: Column): Source {
    SourceOf(master, other, Completed(master, other), PreviewDraft(master, other), c)
  }

  method PreviewContacts(master: Profile, other: Profile) returns (d: Draft)
    ensures d == PreviewDraft(master, other)
  {
    var draft := new MergeDraft(master);
    var otherEmail := Cell(other, EmailColumn);
    if draft.email == "" && otherEmail != "" {
      draft.email := otherEmail;
    }
    if draft.email != "" && otherEmail != "" && !Same(draft.email, otherEmail) {
      draft.PushSecond(otherEmail);
    }
    draft.TakeSecondAndNotes(other);
    d := draft.Value();
  }

  method BuildMergePreview(master: Profile, other: Profile)
    returns (result: Profile, sources: map<Column, Source>)
    ensures result == PreviewRow(master, other)
    ensures sources.Keys == result.Keys + {Firstname, Lastname, RenewalMethod, RenewalDate}
    ensures forall c :: c in sources ==> sources[c] == PreviewSource(master, other, c)
  {
    var completed := CompleteColumns(master, other);
    var d := PreviewContacts(master, other);
    result := (master + completed)[ExpirationDate := MaxDate(Get(master, ExpirationDate), Get(other, ExpirationDate))];
    result := result[EmailColumn := NullIfEmpty(d.email)][SecondEmail := NullIfEmpty(d.second)];
    result := result[Notes := Some(d.notes)];
    sources := map c | c in result.Keys + {Firstname, Lastname, RenewalMethod, RenewalDate} ::
      SourceOf(master, other, completed, d, c);
  }

  // ----- drafts hold stripped texts

  predicate Stripped(d: Draft) {
    IsStripped(d.email) && IsStripped(d.second) && IsStripped(d.notes)
  }

  lemma WithNoteStripped(notes: string, text: string)
    requires IsStripped(notes)
    ensures IsStripped(WithNote(notes, text))
  {
    StripIsStripped(text);
    StripIsStripped(notes + "\n" + Strip(text));
  }

  lemma WithSecondStripped(d: Draft, text: string)
    requires Stripped(d)
    ensures Stripped(WithSecond(d, text))
  {
    StripIsStripped(text);
    WithNoteStripped(d.notes, NOTE_PREFIX + Strip(text));
  }

  lemma WithOtherNotesStripped(d: Draft, other: Profile)
    requires Stripped(d)
    ensures Stripped(WithOtherNotes(d, other))
  {
    WithNoteStripped(d.notes, NOTE_SEPARATOR);
    WithNoteStripped(WithNote(d.notes, NOTE_SEPARATOR), Cell(other, Notes));
  }

  lemma SameDraft(master: Profile, other: Profile)
    ensures PreviewDraft(master, other) == MergedDraft(master, other)
  {
  }

  lemma DraftIsStripped(master: Profile, other: Profile)
    ensures Stripped(PreviewDraft(master, other)) && PreviewDraft(master, other) == MergedDraft(master, other)
    ensures var d := PreviewDraft(master, other);
            Strip(d.email) == d.email && Strip(d.second) == d.second && Strip(d.notes) == d.notes
  {
    var d0 := InitialDraft(master);
    CleanIsFixed(Get(master, EmailColumn));
    CleanIsFixed(Get(master, SecondEmail));
    CleanIsFixed(Get(master, Notes));
    CleanIsFixed(Get(other, EmailColumn));
    WithSecondStripped(d0, Cell(other, EmailColumn));
    var d1 := WithOtherEmail(d0, other);
    WithSecondStripped(d1, Cell(other, SecondEmail));
    WithOtherNotesStripped(WithOtherSecond(d1, other), other);
    SameDraft(master, other);
    var d := PreviewDraft(master, other);
    StrippedIsFixed(d.email);
    StrippedIsFixed(d.second);
    StrippedIsFixed(d.notes);
  }

  // ----- main results

  /** The row that merge_vodum_users leaves in vodum_users. */
  function MergedRow(master: Profile, other: Profile): Profile {
    master + Assignments(master, other)
  }

  lemma PreviewGet(master: Profile, other: Profile, d: Draft, c: Column)
    ensures Get(PreviewRowOf(master, other, d), c) ==
            match c
            case ExpirationDate => MaxDate(Get(master, c), Get(other, c))
            case EmailColumn => NullIfEmpty(d.email)
            case SecondEmail => NullIfEmpty(d.second)
            case Notes => Some(d.notes)
            case _ => if c in Completed(master, other) then Get(other, c) else Get(master, c)
  {
  }

  lemma MergedGet(master: Profile, other: Profile, d: Draft, c: Column)
    ensures Get(master + AssignmentsOf(master, other, d), c) ==
            match c
            case ExpirationDate => MaxDate(Get(master, c), Get(other, c))
            case EmailColumn => if d.email != "" then Some(d.email) else Get(master, c)
            case SecondEmail => NullIfEmpty(d.second)
            case Notes => if d.notes != Cell(master, c) then Some(d.notes) else Get(master, c)
            case _ => if c in Completed(master, other) then Get(other, c) else Get(master, c)
  {
  }

  /** Preview and merge agree on every column, up to blanks at the ends and blank versus null. */
  lemma PreviewAgreesWithMerge(master: Profile, other: Profile, c: Column)
    ensures Cell(PreviewRow(master, other), c) == Cell(MergedRow(master, other), c)
  {
    PreviewGet(master, other, PreviewDraft(master, other), c);
    MergedGet(master, other, MergedDraft(master, other), c);
    DraftIsStripped(master, other);
    if c == EmailColumn {
      EmailOnlyFills(master, other);
    }
  }

  lemma {:induction false} StringOrderIsAsymmetric(a: string, b: string)
    requires StringLess(a, b)
    ensures !StringLess(b, a)
    decreases |a|
  {
    if a != "" && a[0] == b[0] {
      StringOrderIsAsymmetric(a[1..], b[1..]);
    }
  }

  /** The merged user expires on one of the two dates, and no earlier than on either. */
  lemma LaterExpirationWins(master: Profile, other: Profile, date: string)
    requires date != "" && Some(date) in {Get(master, ExpirationDate), Get(other, ExpirationDate)}
    ensures var merged := Get(MergedRow(master, other), ExpirationDate);
            && !Blank(merged) && !StringLess(merged.value, date)
            && merged in {Get(master, ExpirationDate), Get(other, ExpirationDate)}
  {
    var a, b := Get(master, ExpirationDate), Get(other, ExpirationDate);
    MergedGet(master, other, MergedDraft(master, other), ExpirationDate);
    if !Blank(a) && !Blank(b) && StringLess(a.value, b.value) {
      StringOrderIsAsymmetric(a.value, b.value);
    }
    StringLessIrreflexive(date);
  }

  lemma {:induction false} StringLessIrreflexive(a: string)
    ensures !StringLess(a, a)
    decreases |a|
  {
    if a != "" {
      StringLessIrreflexive(a[1..]);
    }
  }

  lemma EmailOnlyFills(master: Profile, other: Profile)
    ensures var d := MergedDraft(master, other);
            d.email == if Cell(master, EmailColumn) != "" then Cell(master, EmailColumn) else Cell(other, EmailColumn)
  {
  }

  /** The displayed source tells the truth about the previewed value. */
  lemma SourcesAreTrue(master: Profile, other: Profile, c: Column)
    ensures var row, source := PreviewRow(master, other), PreviewSource(master, other, c);
            && (source == FromMaster ==> Cell(row, c) == Cell(master, c))
            && (source == FromTarget ==> Cell(master, c) == "" && Cell(row, c) != "")
            && (source == FromTarget && c != SecondEmail ==> Cell(row, c) == Cell(other, c))
            && (c == Notes ==> (source == Computed <==> Cell(row, c) != Cell(master, c)))
            && (c == ExpirationDate ==> source == Computed)
            && (source == Computed ==> c in {ExpirationDate, Notes})
  {
    PreviewGet(master, other, PreviewDraft(master, other), c);
    DraftIsStripped(master, other);
    EmailOnlyFills(master, other);
    SecondOnlyFills(master, other);
  }

  lemma SecondOnlyFills(master: Profile, other: Profile)
    ensures Cell(master, SecondEmail) != "" ==> MergedDraft(master, other).second == Cell(master, SecondEmail)
  {
  }

  // ----- nothing is lost

  /** The address is the primary or the second one, up to case, or is written in the notes. */
  predicate Recorded(d: Draft, address: string) {
    Same(address, d.email) || Same(address, d.second) || Contains(d.notes, address)
  }

  lemma NoteIsAdded(notes: string, text: string)
    requires IsStripped(notes)
    ensures var after := WithNote(notes, text);
            && (forall part :: Contains(notes, part) ==> Contains(after, part))
            && (Strip(text) != "" ==> Contains(after, Strip(text)))
  {
    var line := Strip(text);
    StripIsStripped(text);
    ContainsSelf(line);
    if notes == "" {
      forall part | Contains(notes, part) ensures Contains(line, part) {
        ContainsWithin("", notes, line, part);
        assert "" + notes + line == line;
      }
    } else if line != "" && !Contains(notes, line) {
      JoinStripped(notes, "\n", line);
      StrippedIsFixed(notes + "\n" + line);
      forall part | Contains(notes, part) ensures Contains(notes + "\n" + line, part) {
        ContainsWithin("", notes, "\n" + line, part);
        assert "" + notes + ("\n" + line) == notes + "\n" + line;
      }
      ContainsWithin(notes + "\n", line, "", line);
      assert notes + "\n" + line + "" == notes + "\n" + line;
    }
  }

  lemma SecondIsRecorded(d: Draft, address: string)
    requires Stripped(d) && IsStripped(address) && address != ""
    ensures var after := WithSecond(d, address);
            && Recorded(after, address)
            && after.email == d.email && (d.second != "" ==> after.second == d.second)
            && forall part :: Contains(d.notes, part) ==> Contains(after.notes, part)
  {
    StrippedIsFixed(address);
    var line := NOTE_PREFIX + address;
    assert NOTE_PREFIX[0] == '[';
    assert line[|line| - 1] == address[|address| - 1];
    StrippedIsFixed(line);
    NoteIsAdded(d.notes, line);
    ContainsSelf(address);
    ContainsWithin(NOTE_PREFIX, address, "", address);
    assert NOTE_PREFIX + address + "" == line;
    NoteHolds(d.notes, line, address);
  }

  /** Whatever a note line contains, the notes contain once the line is added. */
  lemma NoteHolds(notes: string, text: string, part: string)
    requires IsStripped(notes) && IsStripped(text) && text != "" && Contains(text, part)
    ensures Contains(WithNote(notes, text), part)
  {
    StrippedIsFixed(text);
    NoteIsAdded(notes, text);
    var after := WithNote(notes, text);
    var i :| 0 <= i <= |after| && OccursAt(after, text, i);
    assert after == after[..i] + text + after[i + |text|..];
    ContainsWithin(after[..i], text, after[i + |text|..], part);
  }

  lemma NotesAreKept(d: Draft, other: Profile)
    requires Stripped(d)
    ensures var after := WithOtherNotes(d, other);
            && after.email == d.email && after.second == d.second
            && (forall part :: Contains(d.notes, part) ==> Contains(after.notes, part))
            && (Cell(other, Notes) != "" ==> Contains(after.notes, Cell(other, Notes)))
  {
    CleanIsFixed(Get(other, Notes));
    NoteIsAdded(d.notes, NOTE_SEPARATOR);
    WithNoteStripped(d.notes, NOTE_SEPARATOR);
    NoteIsAdded(WithNote(d.notes, NOTE_SEPARATOR), Cell(other, Notes));
  }

  lemma DraftRecordsAddress(master: Profile, other: Profile, address: string)
    requires address != ""
    requires address in {Cell(master, EmailColumn), Cell(master, SecondEmail),
                         Cell(other, EmailColumn), Cell(other, SecondEmail)}
    ensures Recorded(MergedDraft(master, other), address)
  {
    var d0 := InitialDraft(master);
    CleanIsFixed(Get(master, EmailColumn));
    CleanIsFixed(Get(master, SecondEmail));
    CleanIsFixed(Get(master, Notes));
    CleanIsFixed(Get(other, EmailColumn));
    CleanIsFixed(Get(other, SecondEmail));
    var d1 := WithOtherEmail(d0, other);
    FirstAddressIsKept(d0, other, address);
    SecondAddressIsKept(d1, other, address);
    WithSecondStripped(d1, Cell(other, SecondEmail));
    NotesAreKept(WithOtherSecond(d1, other), other);
  }

  /** The addresses and notes of the stored row. */
  function StoredDraft(row: Profile): Draft {
    Draft(Cell(row, EmailColumn), Cell(row, SecondEmail), Cell(row, Notes))
  }

  lemma StoredAsDrafted(master: Profile, other: Profile)
    ensures StoredDraft(MergedRow(master, other)) == MergedDraft(master, other)
  {
    var d := MergedDraft(master, other);
    DraftIsStripped(master, other);
    MergedGet(master, other, d, EmailColumn);
    MergedGet(master, other, d, SecondEmail);
    MergedGet(master, other, d, Notes);
    EmailOnlyFills(master, other);
  }

  /**
   The stored row has the primary address of the first user, or else of the second; and every non-blank address of
   either user is its primary or second address, up to case, or inside its notes.
   */
  lemma NothingIsLost(master: Profile, other: Profile, address: string)
    requires address != ""
    requires address in {Cell(master, EmailColumn), Cell(master, SecondEmail),
                         Cell(other, EmailColumn), Cell(other, SecondEmail)}
    ensures Recorded(StoredDraft(MergedRow(master, other)), address)
    ensures Cell(MergedRow(master, other), EmailColumn)
            == if Cell(master, EmailColumn) != "" then Cell(master, EmailColumn) else Cell(other, EmailColumn)
  {
    StoredAsDrafted(master, other);
    DraftRecordsAddress(master, other, address);
    EmailOnlyFills(master, other);
  }

  /** An address that differs from the primary one in case only is not kept as it was written. */
  lemma CaseVariantIsDropped()
    ensures var master, other := map[EmailColumn := Some("A")], map[EmailColumn := Some("a")];
            var row := MergedRow(master, other);
            Cell(row, EmailColumn) == "A" && Cell(row, SecondEmail) == "" && Cell(row, Notes) == ""
  {
    var master: Profile, other: Profile := map[EmailColumn := Some("A")], map[EmailColumn := Some("a")];
    StoredAsDrafted(master, other);
    StrippedIsFixed("A");
    StrippedIsFixed("a");
    assert Lower("A") == "a" == Lower("a");
  }

  lemma FirstAddressIsKept(d: Draft, other: Profile, address: string)
    requires Stripped(d) && IsStripped(Cell(other, EmailColumn)) && address != ""
    ensures var after := WithOtherEmail(d, other);
            && Stripped(after)
            && (address in {d.email, d.second, Cell(other, EmailColumn)} ==> Recorded(after, address))
  {
    var email := Cell(other, EmailColumn);
    WithSecondStripped(d, email);
    if email != "" {
      SecondIsRecorded(d, email);
    }
  }

  lemma SecondAddressIsKept(d: Draft, other: Profile, address: string)
    requires Stripped(d) && IsStripped(Cell(other, SecondEmail)) && address != ""
    ensures var after := WithOtherSecond(d, other);
            && Stripped(after)
            && (Recorded(d, address) && Strip(address) == address ==> Recorded(after, address))
            && (address == Cell(other, SecondEmail) ==> Recorded(after, address))
  {
    var second := Cell(other, SecondEmail);
    WithSecondStripped(d, second);
    if second != "" {
      SecondIsRecorded(d, second);
    }
  }

  /** The merged notes contain the notes of both users. */
  lemma NotesSurvive(master: Profile, other: Profile)
    ensures var notes := Cell(MergedRow(master, other), Notes);
            && Contains(notes, Cell(master, Notes))
            && (Cell(other, Notes) != "" ==> Contains(notes, Cell(other, Notes)))
  {
    StoredAsDrafted(master, other);
    var d0 := InitialDraft(master);
    CleanIsFixed(Get(master, EmailColumn));
    CleanIsFixed(Get(master, SecondEmail));
    CleanIsFixed(Get(master, Notes));
    CleanIsFixed(Get(other, EmailColumn));
    CleanIsFixed(Get(other, SecondEmail));
    ContainsSelf(d0.notes);
    var d1 := WithOtherEmail(d0, other);
    NotesGrow(d0, Cell(other, EmailColumn));
    WithSecondStripped(d0, Cell(other, EmailColumn));
    NotesGrow(d1, Cell(other, SecondEmail));
    WithSecondStripped(d1, Cell(other, SecondEmail));
    NotesAreKept(WithOtherSecond(d1, other), other);
  }

  lemma NotesGrow(d: Draft, address: string)
    requires Stripped(d) && IsStripped(address)
    ensures forall part :: Contains(d.notes, part) ==> Contains(WithSecond(d, address).notes, part)
  {
    if address == "" {
      StrippedIsFixed(address);
    } else {
      SecondIsRecorded(d, address);
    }
  }
}
