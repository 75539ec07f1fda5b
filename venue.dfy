/**
 * `clean_journal_name` (search.py:5-19): the venue canonicaliser. A raw
 * citation string that starts with "arXiv preprint arXiv" becomes "arXiv";
 * any other goes through five regular-expression substitutions in a fixed
 * order and a final `strip()`. Each of the first four substitutions is a
 * `Substitute` with its own matcher. In these patterns backtracking never
 * turns a failed match into a successful one, so each matcher only looks
 * for the greedy match at the front of the string.
 */
module Venue {
  import opened Wrappers
  import opened Text
  import opened Substitution

  const ArxivPrefix: string := "arXiv preprint arXiv"
  const ArxivName: string := "arXiv"

  /** `re.match(r"arXiv preprint arXiv", s)`: the prefix, case-sensitive, anchored at position 0. */
  predicate StartsWithArxiv(s: string)
  {
    |ArxivPrefix| <= |s| && s[..|ArxivPrefix|] == ArxivPrefix
  }

  // ---------------------------------------------------------------------
  // Rule 1 (search.py:12): re.sub(r'(\d{4})', '', s)
  // ---------------------------------------------------------------------

  /** The match of `\d{4}` at the front of `s`: four digits. */
  function YearAt(s: string): (m: Option<nat>)
    ensures m.Some? <==> 4 <= |s| && forall i :: 0 <= i < 4 ==> IsDigit(s[i])
    ensures m.Some? ==> m.value == 4
  {
    if 4 <= |s| && IsDigit(s[0]) && IsDigit(s[1]) && IsDigit(s[2]) && IsDigit(s[3]) then Some(4)
    else None
  }

  function RemoveYears(s: string): (r: string)
    ensures |r| <= |s|
    ensures NoDigits(s) ==> r == s
  {
    assert NoDigits(s) ==> Substitute(s, YearAt) == s by {
      if NoDigits(s) { SubstituteDigitFree(s, YearAt); }
    }
    Substitute(s, YearAt)
  }

  // ---------------------------------------------------------------------
  // Rule 2 (search.py:13): re.sub(r'(\d+\s*\(\d+\))', '', s)
  // ---------------------------------------------------------------------

  /** The length of a match of `\d+\s*\(\d+\)` at the front of `s`, if there is one. */
  function VolumeIssueAt(s: string): (m: Option<nat>)
    ensures m.Some? ==> 0 < m.value <= |s| && IsDigit(s[0]) && s[m.value - 1] == ')'
  {
    var d := DigitRun(s);
    var w := d + SpaceRun(s[d..]);
    if d == 0 || w == |s| || s[w] != '(' then None
    else
      var e := DigitRun(s[w + 1..]);
      if e == 0 || w + 1 + e == |s| || s[w + 1 + e] != ')' then None
      else Some(w + 2 + e)
  }

  function RemoveVolumeIssue(s: string): (r: string)
    ensures |r| <= |s|
    ensures NoDigits(s) ==> r == s
  {
    assert NoDigits(s) ==> Substitute(s, VolumeIssueAt) == s by {
      if NoDigits(s) { SubstituteDigitFree(s, VolumeIssueAt); }
    }
    Substitute(s, VolumeIssueAt)
  }

  // ---------------------------------------------------------------------
  // Rule 3 (search.py:14): re.sub(r'(\d+,\s*\d+|\d+-\d+)', '', s)
  // ---------------------------------------------------------------------

  /**
   * The length of a match of `\d+,\s*\d+|\d+-\d+` at the front of `s`, if
   * there is one. Both alternatives begin with the same digit run, and the
   * character after it (',' or '-') decides which of them can apply.
   */
  function PageRangeAt(s: string): (m: Option<nat>)
    ensures m.Some? ==> 0 < m.value <= |s| && IsDigit(s[0]) && IsDigit(s[m.value - 1])
  {
    var d := DigitRun(s);
    if d == 0 || d == |s| then None
    else if s[d] == ',' then
      var w := d + 1 + SpaceRun(s[d + 1..]);
      var e := DigitRun(s[w..]);
      if e == 0 then None else Some(w + e)
    else if s[d] == '-' then
      var e := DigitRun(s[d + 1..]);
      if e == 0 then None else Some(d + 1 + e)
    else None
  }

  function RemovePageRanges(s: string): (r: string)
    ensures |r| <= |s|
    ensures NoDigits(s) ==> r == s
  {
    assert NoDigits(s) ==> Substitute(s, PageRangeAt) == s by {
      if NoDigits(s) { SubstituteDigitFree(s, PageRangeAt); }
    }
    Substitute(s, PageRangeAt)
  }

  // ---------------------------------------------------------------------
  // Rule 4 (search.py:15): re.sub(r'(\d+)', '', s)
  // ---------------------------------------------------------------------

  /** The match of `\d+` at the front of `s`: the whole digit run, if it is not empty. */
  function NumberAt(s: string): (m: Option<nat>)
    ensures m.Some? <==> s != [] && IsDigit(s[0])
    ensures m.Some? ==> 0 < m.value <= |s| && (m.value == |s| || !IsDigit(s[m.value]))
    ensures m.Some? ==> forall i :: 0 <= i < m.value ==> IsDigit(s[i])
  {
    var d := DigitRun(s);
    if d == 0 then None else Some(d)
  }

  /** Every digit run is removed, so no digit is left. */
  function RemoveNumbers(s: string): (r: string)
    ensures NoDigits(r)
    ensures |r| <= |s|
    ensures NoDigits(s) ==> r == s
  {
    SubstituteLeavesNoDigits(s, NumberAt);
    assert NoDigits(s) ==> Substitute(s, NumberAt) == s by {
      if NoDigits(s) { SubstituteDigitFree(s, NumberAt); }
    }
    Substitute(s, NumberAt)
  }

  // ---------------------------------------------------------------------
  // Rule 5 (search.py:16): re.sub(r'[\s,-:]+$', '', s)
  // ---------------------------------------------------------------------

  /**
   * The class `[\s,-:]`: whitespace, and the RANGE from ',' to ':', which
   * is ", - . / 0 1 2 3 4 5 6 7 8 9 :". The '.' and '/' are therefore
   * stripped from the end as well.
   */
  predicate IsTrailingJunk(c: char)
    ensures IsTrailingJunk(c) <==>
      IsSpace(c) || c == ',' || c == '-' || c == '.' || c == '/' || IsDigit(c) || c == ':'
  {
    IsSpace(c) || (',' <= c <= ':')
  }

  /**
   * Removes the longest run of class characters at the end of `s`. Python's
   * `$` also matches before a final newline, but a newline is in the class,
   * so the leftmost match always runs to the very end.
   */
  function StripTrailingJunk(s: string): (r: string)
    ensures |r| <= |s| && r == s[..|r|]
    ensures r == [] || !IsTrailingJunk(r[|r| - 1])
    ensures forall i :: |r| <= i < |s| ==> IsTrailingJunk(s[i])
  {
    if s != [] && IsTrailingJunk(s[|s| - 1]) then StripTrailingJunk(s[..|s| - 1]) else s
  }

  // ---------------------------------------------------------------------
  // The whole canonicaliser
  // ---------------------------------------------------------------------

  /** The four digit-removing substitutions, in source order. */
  function RemoveNumerals(s: string): (r: string)
    ensures NoDigits(r)
  {
    RemoveNumbers(RemovePageRanges(RemoveVolumeIssue(RemoveYears(s))))
  }

  /**
   * The shape of a name outside the arXiv branch: no digit, no whitespace
   * at either end, and no final ", - . / :"; it may be empty.
   */
  predicate IsCanonical(r: string)
  {
    NoDigits(r) && IsStripped(r) && (r == [] || !IsTrailingJunk(r[|r| - 1]))
  }

  /** `clean_journal_name`: "arXiv" for the arXiv prefix, a canonical name for any other input. */
  function CleanJournalName(s: string): (r: string)
    ensures StartsWithArxiv(s) ==> r == ArxivName
    ensures !StartsWithArxiv(s) ==> IsCanonical(r)
  {
    if StartsWithArxiv(s) then ArxivName
    else
      var u := RemoveNumerals(s);
      TrimmedShape(u);
      Strip(StripTrailingJunk(u))
  }

  /** Rule 5 and `strip()` on digit-free text: still digit-free, and neither end is whitespace or junk. */
  lemma TrimmedShape(u: string)
    requires NoDigits(u)
    ensures IsCanonical(Strip(StripTrailingJunk(u)))
  {
    var t := StripTrailingJunk(u);
    NoDigitsSlice(u, 0, |t|);
  }

  // ---------------------------------------------------------------------
  // Properties
  // ---------------------------------------------------------------------

  /** A digit-free input (outside the arXiv branch) only loses its trailing ", - . / :" and whitespace, then is stripped. */
  lemma CleanDigitFree(s: string)
    requires NoDigits(s) && !StartsWithArxiv(s)
    ensures CleanJournalName(s) == Strip(StripTrailingJunk(s))
  {
  }

  /** Cleaning a cleaned name changes nothing, unless the cleaned name itself starts with the arXiv prefix. */
  lemma CleanIdempotent(s: string)
    requires !StartsWithArxiv(CleanJournalName(s))
    ensures CleanJournalName(CleanJournalName(s)) == CleanJournalName(s)
  {
    var r := CleanJournalName(s);
    if StartsWithArxiv(s) {
      CleanArxivFixedPoint();
    } else {
      CleanDigitFree(r);
    }
  }

  /**
   * The arXiv test is a case-sensitive prefix test at position 0: it holds for
   * the prefix followed by anything, only for such strings, and never for a
   * string whose first character is not the prefix's 'a'.
   */
  lemma ArxivTestAnchored(s: string, rest: string)
    ensures StartsWithArxiv(ArxivPrefix + rest)
    ensures StartsWithArxiv(s) ==> s == ArxivPrefix + s[|ArxivPrefix|..]
    ensures s != [] && s[0] != 'a' ==> !StartsWithArxiv(s)
  {
    assert (ArxivPrefix + rest)[..|ArxivPrefix|] == ArxivPrefix;
    if StartsWithArxiv(s) {
      assert s == s[..|ArxivPrefix|] + s[|ArxivPrefix|..];
    }
    if s != [] && StartsWithArxiv(s) {
      assert s[0] == s[..|ArxivPrefix|][0] == ArxivPrefix[0] == 'a';
    }
  }

  /** "arXiv", the result of the arXiv branch, is a fixed point. */
  lemma CleanArxivFixedPoint()
    ensures CleanJournalName(ArxivName) == ArxivName
  {
    var a := ArxivName;
    assert a[|a| - 1] == 'v' && a[0] == 'a';
    assert NoDigits(a) by {
      forall i | 0 <= i < |a| ensures !IsDigit(a[i]) {
        assert a[i] in "arXiv";
      }
    }
    assert StripTrailingJunk(a) == a;
    CleanDigitFree(a);
  }
}
