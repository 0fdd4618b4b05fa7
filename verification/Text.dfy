/** The string operations of Python that the merge of user profiles relies on, for ASCII blanks and letters. */
module Text {
  import opened Options

  predicate IsSpace(c: char) {
    c == ' ' || '\t' <= c <= '\r' || '\U{1C}' <= c <= '\U{1F}'
  }

  function StripLeft(s: string): string {
    if s != "" && IsSpace(s[0]) then StripLeft(s[1..]) else s
  }

  function StripRight(s: string): string {
    if s != "" && IsSpace(s[|s| - 1]) then StripRight(s[..|s| - 1]) else s
  }

  /** str.strip() */
  function Strip(s: string): string {
    StripRight(StripLeft(s))
  }

  /** `(value or "").strip()` of a nullable column. */
  function Clean(value: Option<string>): string {
    if value.None? then "" else Strip(value.value)
  }

  function LowerChar(c: char): char {
    if 'A' <= c <= 'Z' then (c as int + 32) as char else c
  }

  function Lower(s: string): string {
    seq(|s|, i requires 0 <= i < |s| => LowerChar(s[i]))
  }

  /** Equality up to blanks at the ends and letter case. */
  predicate Same(a: string, b: string) {
    Lower(Strip(a)) == Lower(Strip(b))
  }

  /** The blanks are the space, the tabulators, line ends and form feed, and four separators. */
  lemma BlanksAre(c: char)
    ensures IsSpace(c)
            <==> c in {' ', '\t', '\n', '\U{B}', '\U{C}', '\r', '\U{1C}', '\U{1D}', '\U{1E}', '\U{1F}'}
  {
  }

  /** Lower case turns each capital letter into its small one, and changes nothing else. */
  lemma LowersCapitals(i: nat, c: char)
    requires i < 26
    ensures LowerChar("ABCDEFGHIJKLMNOPQRSTUVWXYZ"[i]) == "abcdefghijklmnopqrstuvwxyz"[i]
    ensures c !in "ABCDEFGHIJKLMNOPQRSTUVWXYZ" ==> LowerChar(c) == c
  {
    var capitals := "ABCDEFGHIJKLMNOPQRSTUVWXYZ";
    assert 'A' <= c <= 'Z' ==> capitals[c as int - 65] == c;
  }

  predicate OccursAt(whole: string, part: string, i: nat) {
    i + |part| <= |whole| && whole[i..i + |part|] == part
  }

  /** `part in whole` */
  predicate Contains(whole: string, part: string) {
    exists i | 0 <= i <= |whole| :: OccursAt(whole, part, i)
  }

  predicate IsStripped(s: string) {
    s == "" || (!IsSpace(s[0]) && !IsSpace(s[|s| - 1]))
  }

  lemma {:induction false} StripLeftEnds(s: string)
    ensures var r := StripLeft(s);
            (r == "" || !IsSpace(r[0])) && |r| <= |s| && r == s[|s| - |r|..]
    decreases |s|
  {
    if s != "" && IsSpace(s[0]) {
      StripLeftEnds(s[1..]);
    }
  }

  lemma {:induction false} StripRightEnds(s: string)
    ensures var r := StripRight(s);
            (r == "" || !IsSpace(r[|r| - 1])) && |r| <= |s| && r == s[..|r|]
    decreases |s|
  {
    if s != "" && IsSpace(s[|s| - 1]) {
      StripRightEnds(s[..|s| - 1]);
    }
  }

  predicate AllSpaces(s: string) {
    forall i :: 0 <= i < |s| ==> IsSpace(s[i])
  }

  lemma {:induction false} StripLeftIs(s: string) returns (before: string)
    ensures s == before + StripLeft(s) && AllSpaces(before)
    decreases |s|
  {
    before := "";
    if s != "" && IsSpace(s[0]) {
      before := StripLeftIs(s[1..]);
      before := [s[0]] + before;
    }
  }

  lemma {:induction false} StripRightIs(s: string) returns (after: string)
    ensures s == StripRight(s) + after && AllSpaces(after)
    decreases |s|
  {
    after := "";
    if s != "" && IsSpace(s[|s| - 1]) {
      after := StripRightIs(s[..|s| - 1]);
      after := after + [s[|s| - 1]];
      assert s == s[..|s| - 1] + [s[|s| - 1]];
    }
  }

  /** Only blanks at the ends are dropped. */
  lemma StripIs(s: string) returns (before: string, after: string)
    ensures s == before + Strip(s) + after && AllSpaces(before) && AllSpaces(after)
    ensures IsStripped(Strip(s))
  {
    before := StripLeftIs(s);
    after := StripRightIs(StripLeft(s));
    StripIsStripped(s);
  }

  lemma StripIsStripped(s: string)
    ensures IsStripped(Strip(s))
  {
    StripLeftEnds(s);
    StripRightEnds(StripLeft(s));
  }

  lemma StrippedIsFixed(s: string)
    requires IsStripped(s)
    ensures Strip(s) == s
  {
  }

  lemma CleanIsFixed(value: Option<string>)
    ensures IsStripped(Clean(value)) && Strip(Clean(value)) == Clean(value)
  {
    if value.Some? {
      StripIsStripped(value.value);
      StrippedIsFixed(Clean(value));
    }
  }

  lemma JoinStripped(a: string, middle: string, b: string)
    requires IsStripped(a) && IsStripped(b) && a != "" && b != ""
    ensures IsStripped(a + middle + b)
  {
  }

  lemma ContainsSelf(s: string)
    ensures Contains(s, s)
  {
    assert OccursAt(s, s, 0);
  }

  lemma ContainsWithin(before: string, whole: string, after: string, part: string)
    requires Contains(whole, part)
    ensures Contains(before + whole + after, part)
  {
    var i :| 0 <= i <= |whole| && OccursAt(whole, part, i);
    assert (before + whole + after)[|before| + i..|before| + i + |part|] == whole[i..i + |part|];
    assert OccursAt(before + whole + after, part, |before| + i);
  }
}
