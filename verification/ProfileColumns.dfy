/** What the merge of two users writes into each column of the kept user's row. */
module ProfileColumns {
  import opened Options
  import opened ProfileMerge
  import opened ProfilePreview
  import opened Text

  /** Names and renewal data are taken from the second user exactly where the first has none and the second has some. */
  lemma CompletedColumns(master: Profile, other: Profile, c: Column)
    requires c in {Firstname, Lastname, RenewalMethod, RenewalDate}
    ensures Get(MergedRow(master, other), c)
            == if Cell(master, c) == "" && Cell(other, c) != "" then Get(other, c) else Get(master, c)
  {
    MergedGet(master, other, MergedDraft(master, other), c);
  }

  lemma KeptColumns(master: Profile, other: Profile, c: Column)
    requires c in {Username, StatusColumn, CreatedAt}
    ensures Get(MergedRow(master, other), c) == Get(master, c)
  {
    MergedGet(master, other, MergedDraft(master, other), c);
  }

  // ----- dates

  /** `k` is the first place where the texts differ, and `a` ends there or has the lower character. */
  predicate LessAt(a: string, b: string, k: int) {
    0 <= k <= |a| && k < |b| && a[..k] == b[..k] && (k == |a| || a[k] < b[k])
  }

  lemma {:induction false} StringLessIff(a: string, b: string)
    ensures StringLess(a, b) <==> exists k :: LessAt(a, b, k)
    decreases |a|
  {
    if a == "" || b == "" || a[0] != b[0] {
      assert StringLess(a, b) ==> LessAt(a, b, 0);
    } else {
      StringLessIff(a[1..], b[1..]);
      if k :| LessAt(a[1..], b[1..], k) {
        assert a[..k + 1] == [a[0]] + a[1..][..k] && b[..k + 1] == [b[0]] + b[1..][..k];
        assert LessAt(a, b, k + 1);
      }
      if k :| LessAt(a, b, k) {
        assert k > 0;
        assert a[1..][..k - 1] == a[..k][1..] && b[1..][..k - 1] == b[..k][1..];
        assert LessAt(a[1..], b[1..], k - 1);
      }
    }
  }

  // ----- addresses

  /** The address is not the stored primary one, up to case. */
  predicate IsExtra(row: Profile, address: string) {
    address != "" && !Same(address, Cell(row, EmailColumn))
  }

  lemma CellsAreFixed(row: Profile)
    ensures forall c :: IsStripped(Cell(row, c)) && Strip(Cell(row, c)) == Cell(row, c)
  {
    forall c ensures IsStripped(Cell(row, c)) && Strip(Cell(row, c)) == Cell(row, c) {
      CleanIsFixed(Get(row, c));
    }
  }

  // ----- notes

  /** The second user's address has no column of the merged row. */
  predicate Displaced(row: Profile, other: Profile, address: string) {
    && address in {Cell(other, EmailColumn), Cell(other, SecondEmail)}
    && IsExtra(row, address) && !Same(address, Cell(row, SecondEmail))
  }

  /** Notes are extended by whole lines at their end. */
  predicate Extends(notes: string, after: string) {
    notes <= after && (notes != "" && notes != after ==> after[|notes|] == '\n')
  }

  /** Adding a note: nothing if it is blank or there already, else one more line. */
  lemma NoteIs(notes: string, text: string)
    requires IsStripped(notes)
    ensures WithNote(notes, text) ==
            if Strip(text) == "" || Contains(notes, Strip(text)) then notes
            else if notes == "" then Strip(text)
            else notes + "\n" + Strip(text)
    ensures Extends(notes, WithNote(notes, text))
  {
    StripIsStripped(text);
    if Strip(text) != "" && notes != "" {
      JoinStripped(notes, "\n", Strip(text));
      StrippedIsFixed(notes + "\n" + Strip(text));
    }
  }

  lemma ExtendsTransitive(a: string, b: string, c: string)
    requires Extends(a, b) && Extends(b, c)
    ensures Extends(a, c)
    ensures a == c ==> a == b
  {
  }

  /** What pushing an address of the second user does, told by the draft before and after. */
  lemma SecondIs(d: Draft, address: string)
    requires Stripped(d) && IsStripped(address)
    ensures var after := WithSecond(d, address);
            var extra := address != "" && !Same(address, d.email) && !Same(address, d.second);
            && after.email == d.email
            && after.second == (if extra && d.second == "" then address else d.second)
            && after.notes == (if extra && d.second != "" then WithNote(d.notes, NOTE_PREFIX + address) else d.notes)
  {
    StrippedIsFixed(address);
  }

  /** The draft after the second user's primary address. */
  function Primary(master: Profile, other: Profile): Draft {
    var d := InitialDraft(master);
    if d.email == "" then d.(email := Cell(other, EmailColumn)) else WithSecond(d, Cell(other, EmailColumn))
  }

  /** The draft after both addresses. */
  function Addressed(master: Profile, other: Profile): Draft {
    WithSecond(Primary(master, other), Cell(other, SecondEmail))
  }

  lemma AddressedIs(master: Profile, other: Profile)
    ensures Stripped(Primary(master, other)) && Stripped(Addressed(master, other))
    ensures MergedDraft(master, other) == WithOtherNotes(Addressed(master, other), other)
  {
    CellsAreFixed(master);
    CellsAreFixed(other);
    var d := InitialDraft(master);
    WithSecondStripped(d, Cell(other, EmailColumn));
    SecondIs(d, Cell(other, EmailColumn));
    assert Primary(master, other) == WithOtherEmail(d, other);
    WithSecondStripped(Primary(master, other), Cell(other, SecondEmail));
    SecondIs(Primary(master, other), Cell(other, SecondEmail));
  }

  lemma StoredAddresses(master: Profile, other: Profile)
    ensures var row, d := MergedRow(master, other), Addressed(master, other);
            Cell(row, EmailColumn) == d.email == Primary(master, other).email && Cell(row, SecondEmail) == d.second
  {
    AddressedIs(master, other);
    StoredAsDrafted(master, other);
    CellsAreFixed(other);
    SecondIs(Primary(master, other), Cell(other, SecondEmail));
  }

  lemma FirstStep(master: Profile, other: Profile)
    ensures var d, address := Primary(master, other), Cell(other, EmailColumn);
            var second := Cell(master, SecondEmail);
            && d.second == (if second == "" && address != "" && !Same(address, d.email) then address else second)
            && d.notes == if second != "" && address != "" && !Same(address, d.email) && !Same(address, second)
                          then WithNote(Cell(master, Notes), NOTE_PREFIX + address) else Cell(master, Notes)
  {
    CellsAreFixed(master);
    CellsAreFixed(other);
    SecondIs(InitialDraft(master), Cell(other, EmailColumn));
  }

  /**
   The second address: the first user's if there is one, else the first of the second user's addresses that is not the
   primary one, else null.
   */
  lemma SecondAddressIs(master: Profile, other: Profile)
    ensures var row := MergedRow(master, other);
            Get(row, SecondEmail) ==
            if Cell(master, SecondEmail) != "" then Some(Cell(master, SecondEmail))
            else if IsExtra(row, Cell(other, EmailColumn)) then Some(Cell(other, EmailColumn))
            else if IsExtra(row, Cell(other, SecondEmail)) then Some(Cell(other, SecondEmail))
            else None
  {
    CellsAreFixed(other);
    AddressedIs(master, other);
    StoredAddresses(master, other);
    FirstStep(master, other);
    SecondIs(Primary(master, other), Cell(other, SecondEmail));
    MergedGet(master, other, MergedDraft(master, other), SecondEmail);
  }

  lemma PrefixedIsFixed(address: string)
    requires IsStripped(address) && address != ""
    ensures Strip(NOTE_PREFIX + address) == NOTE_PREFIX + address
    ensures IsStripped(NOTE_PREFIX + address)
  {
    var line := NOTE_PREFIX + address;
    assert NOTE_PREFIX[0] == '[';
    assert line[|line| - 1] == address[|address| - 1];
    StrippedIsFixed(line);
  }

  /** A displaced address is one that a step pushes to the notes. */
  lemma DisplacedIff(master: Profile, other: Profile)
    ensures var row, first, last := MergedRow(master, other), Cell(other, EmailColumn), Cell(other, SecondEmail);
            var d := Primary(master, other);
            && (Displaced(row, other, first) <==>
                  Cell(master, SecondEmail) != "" && first != "" && !Same(first, d.email)
                  && !Same(first, Cell(master, SecondEmail)))
            && (Displaced(row, other, last) <==>
                  d.second != "" && last != "" && !Same(last, d.email) && !Same(last, d.second))
  {
    CellsAreFixed(other);
    AddressedIs(master, other);
    StoredAddresses(master, other);
    FirstStep(master, other);
    SecondIs(Primary(master, other), Cell(other, SecondEmail));
    SameItself(Cell(other, EmailColumn));
    SameItself(Cell(other, SecondEmail));
  }

  lemma SameItself(address: string)
    ensures Same(address, address)
  {
  }

  /** A displaced address stands in the notes, on a line that says so. */
  lemma DisplacedIsNoted(master: Profile, other: Profile, address: string)
    requires Displaced(MergedRow(master, other), other, address)
    ensures Contains(Cell(MergedRow(master, other), Notes), NOTE_PREFIX + address)
  {
    CellsAreFixed(master);
    CellsAreFixed(other);
    AddressedIs(master, other);
    DisplacedIff(master, other);
    FirstStep(master, other);
    StoredAsDrafted(master, other);
    var d, last := Primary(master, other), Cell(other, SecondEmail);
    SecondIs(d, last);
    PrefixedIsFixed(address);
    NoteIsAdded(Cell(master, Notes), NOTE_PREFIX + address);
    NoteIsAdded(d.notes, NOTE_PREFIX + last);
    NotesAreKept(Addressed(master, other), other);
  }

  lemma SecondExtends(d: Draft, address: string)
    requires Stripped(d) && IsStripped(address)
    ensures Extends(d.notes, WithSecond(d, address).notes)
  {
    SecondIs(d, address);
    NoteIs(d.notes, NOTE_PREFIX + address);
  }

  lemma OtherNotesExtend(d: Draft, other: Profile)
    requires Stripped(d)
    ensures Extends(d.notes, WithOtherNotes(d, other).notes)
  {
    NoteIs(d.notes, NOTE_SEPARATOR);
    WithNoteStripped(d.notes, NOTE_SEPARATOR);
    var noted := WithNote(d.notes, NOTE_SEPARATOR);
    NoteIs(noted, Cell(other, Notes));
    ExtendsTransitive(d.notes, noted, WithNote(noted, Cell(other, Notes)));
  }

  /** The merged notes begin with the first user's, and go on in new lines. */
  lemma NotesExtend(master: Profile, other: Profile)
    ensures Extends(Cell(master, Notes), Cell(MergedRow(master, other), Notes))
  {
    CellsAreFixed(master);
    CellsAreFixed(other);
    AddressedIs(master, other);
    StoredAsDrafted(master, other);
    var d0, d, e := InitialDraft(master), Primary(master, other), Addressed(master, other);
    SecondExtends(d0, Cell(other, EmailColumn));
    SecondExtends(d, Cell(other, SecondEmail));
    OtherNotesExtend(e, other);
    ExtendsTransitive(d0.notes, d.notes, e.notes);
    ExtendsTransitive(d0.notes, e.notes, WithOtherNotes(e, other).notes);
  }

  /**
   The notes stay as they were exactly if they already hold the line of every displaced address and the second user's
   notes.
   */
  lemma NotesUntouchedIff(master: Profile, other: Profile)
    ensures var row, notes := MergedRow(master, other), Cell(master, Notes);
            Cell(row, Notes) == notes
            <==> && (forall a :: Displaced(row, other, a) ==> Contains(notes, NOTE_PREFIX + a))
                 && Contains(notes, Cell(other, Notes))
  {
    var row, notes := MergedRow(master, other), Cell(master, Notes);
    if Cell(row, Notes) == notes {
      forall a | Displaced(row, other, a) ensures Contains(notes, NOTE_PREFIX + a) {
        DisplacedIsNoted(master, other, a);
      }
      NotesSurvive(master, other);
      ContainsNothing(notes);
    }
    if && (forall a :: Displaced(row, other, a) ==> Contains(notes, NOTE_PREFIX + a))
       && Contains(notes, Cell(other, Notes))
    {
      NothingToAdd(master, other);
    }
  }

  lemma ContainsNothing(s: string)
    ensures Contains(s, "")
  {
    assert OccursAt(s, "", 0);
  }

  lemma NothingToAdd(master: Profile, other: Profile)
    requires forall a :: Displaced(MergedRow(master, other), other, a) ==>
               Contains(Cell(master, Notes), NOTE_PREFIX + a)
    requires Contains(Cell(master, Notes), Cell(other, Notes))
    ensures Cell(MergedRow(master, other), Notes) == Cell(master, Notes)
  {
    CellsAreFixed(master);
    CellsAreFixed(other);
    AddressedIs(master, other);
    DisplacedIff(master, other);
    FirstStep(master, other);
    StoredAsDrafted(master, other);
    var d, first, last := Primary(master, other), Cell(other, EmailColumn), Cell(other, SecondEmail);
    SecondIs(d, last);
    if first != "" {
      PrefixedIsFixed(first);
    }
    NoteIs(Cell(master, Notes), NOTE_PREFIX + first);
    assert d.notes == Cell(master, Notes);
    if last != "" {
      PrefixedIsFixed(last);
    }
    NoteIs(d.notes, NOTE_PREFIX + last);
    assert Addressed(master, other).notes == Cell(master, Notes);
  }
}
