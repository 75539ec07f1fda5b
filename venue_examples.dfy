/** Worked inputs for `clean_journal_name` (search.py:5-19) that pin down its edge cases. */
module VenueExamples {
  import opened Wrappers
  import opened Text
  import opened Substitution
  import opened Venue

  /**
   * The character class of search.py:16 covers '.', so a venue's final
   * abbreviation dot is dropped: "Proc." becomes "Proc".
   */
  lemma TrailingDotIsStripped()
    ensures CleanJournalName("Proc.") == "Proc"
  {
    var s := "Proc.";
    assert NoDigits(s) by {
      forall i | 0 <= i < |s| ensures !IsDigit(s[i]) { assert s[i] in "Proc."; }
    }
    assert !StartsWithArxiv(s);
    assert StripTrailingJunk(s) == StripTrailingJunk("Proc") == "Proc" by {
      assert s[..|s| - 1] == "Proc";
    }
    CleanDigitFree(s);
  }

  /**
   * What rules 1-4 leave of "Proc. 2021 19 (1), 5-10" is "Proc" followed by
   * ".  , "; rule 5 and `strip()` turn it into "Proc".
   */
  lemma ProcLeftoverCleaned()
    ensures CleanJournalName("Proc" + ".  , ") == "Proc"
  {
    var u, junk := "Proc", ".  , ";
    assert u[0] == 'P' && u[|u| - 1] == 'c';
    assert forall i :: 0 <= i < |u| ==> u[i] in "Proc";
    assert forall i :: 0 <= i < |junk| ==> junk[i] in ". ,";
    assert (u + junk)[0] == 'P';
    ArxivTestAnchored(u + junk, []);
    JunkTailCleaned(u, junk);
  }

  /** A stripped digit-free name that does not end in junk, followed only by non-digit junk, cleans to that name (outside the arXiv branch). */
  lemma JunkTailCleaned(u: string, junk: string)
    requires NoDigits(u) && IsStripped(u) && u != [] && !IsTrailingJunk(u[|u| - 1])
    requires forall i :: 0 <= i < |junk| ==> IsTrailingJunk(junk[i]) && !IsDigit(junk[i])
    requires !StartsWithArxiv(u + junk)
    ensures CleanJournalName(u + junk) == u
  {
    var s := u + junk;
    assert NoDigits(s) by {
      forall i | 0 <= i < |s| ensures !IsDigit(s[i]) {
        if i >= |u| { assert s[i] == junk[i - |u|]; }
      }
    }
    JunkTailTrimmed(u, junk);
    CleanDigitFree(s);
    StripEnds(u);
  }

  /** Rule 5 removes a tail made only of junk and stops at a final character that is not junk. */
  lemma {:induction false} JunkTailTrimmed(u: string, junk: string)
    requires u == [] || !IsTrailingJunk(u[|u| - 1])
    requires forall i :: 0 <= i < |junk| ==> IsTrailingJunk(junk[i])
    ensures StripTrailingJunk(u + junk) == u
    decreases |junk|
  {
    if junk != [] {
      var s := u + junk;
      var junk' := junk[..|junk| - 1];
      assert s[|s| - 1] == junk[|junk| - 1];
      assert s[..|s| - 1] == u + junk';
      JunkTailTrimmed(u, junk');
    } else {
      assert u + junk == u;
    }
  }

  /** A bare year is removed entirely, so the canonical name may be empty. */
  lemma YearAloneIsEmpty()
    ensures CleanJournalName("2021") == ""
  {
    var s := "2021";
    assert YearAt(s) == Some(4);
    assert RemoveYears(s) == Substitute(s[4..], YearAt) == "";
  }

  /** Rule 2 removes a volume with its issue number, spaces between them included. */
  lemma VolumeIssueRemoved()
    ensures RemoveVolumeIssue("a 19 (1)") == "a "
  {
    VolumeIssueRemovedText();
  }

  /** The substitution behind `VolumeIssueRemoved`: the front character, which begins no match, is kept. */
  lemma VolumeIssueRemovedText()
    ensures Substitute("a 19 (1)", VolumeIssueAt) == "a "
  {
    KeepFront("a 19 (1)", " 19 (1)", VolumeIssueAt);
    VolumeIssueRemovedTail();
  }
  /** The space in front of the volume is kept, and the volume with its issue is deleted. */
  lemma VolumeIssueRemovedTail()
    ensures Substitute(" 19 (1)", VolumeIssueAt) == " "
  {
    VolumeIssueMatch();
    assert Substitute("19 (1)", VolumeIssueAt) == "" by {
      assert "19 (1)"[6..] == "";
    }
    KeepFront(" 19 (1)", "19 (1)", VolumeIssueAt);
  }

  /** `\d+\s*\(\d+\)` takes "19 (1)" whole: two digits, a space, and the issue in parentheses. */
  lemma VolumeIssueMatch()
    ensures VolumeIssueAt("19 (1)") == Some(6)
  {
    var v := "19 (1)";
    assert DigitRun(v[2..]) == 0;
    assert DigitRun(v) == 2;
    assert SpaceRun(v[3..]) == 0;
    assert SpaceRun(v[2..]) == 1;
    assert DigitRun(v[5..]) == 0;
    assert DigitRun(v[4..]) == 1;
  }

  /** Rule 3 removes a hyphenated page range. */
  lemma PageRangeRemoved()
    ensures RemovePageRanges("p 5-10") == "p "
  {
    PageRangeRemovedText();
  }

  /** The substitution behind `PageRangeRemoved`: the front character, which begins no match, is kept. */
  lemma PageRangeRemovedText()
    ensures Substitute("p 5-10", PageRangeAt) == "p "
  {
    KeepFront("p 5-10", " 5-10", PageRangeAt);
    PageRangeRemovedTail();
  }
  /** The space in front of the page range is kept, and the range is deleted. */
  lemma PageRangeRemovedTail()
    ensures Substitute(" 5-10", PageRangeAt) == " "
  {
    PageRangeMatch();
    assert Substitute("5-10", PageRangeAt) == "" by {
      assert "5-10"[4..] == "";
    }
    KeepFront(" 5-10", "5-10", PageRangeAt);
  }

  /** `\d+-\d+` takes "5-10" whole. */
  lemma PageRangeMatch()
    ensures PageRangeAt("5-10") == Some(4)
  {
    var v := "5-10";
    assert DigitRun(v[1..]) == 0;
    assert DigitRun(v) == 1;
    assert DigitRun(v[4..]) == 0;
    assert DigitRun(v[2..]) == 2;
  }

  /** Rule 3 also removes a comma-separated page range, spaces after the comma included. */
  lemma CommaPageRangeMatch()
    ensures PageRangeAt("5, 10") == Some(5)
  {
    var v := "5, 10";
    assert DigitRun(v[1..]) == 0;
    assert DigitRun(v) == 1;
    assert SpaceRun(v[3..]) == 0;
    assert SpaceRun(v[2..]) == 1;
    assert DigitRun(v[5..]) == 0;
    assert DigitRun(v[3..]) == 2;
  }

  /** A front character that is neither a digit nor begins a match is kept, and the scan goes on at `t`. */
  lemma KeepFront(s: string, t: string, m: Matcher)
    requires Advances(m) && DigitLed(m) && s != [] && !IsDigit(s[0]) && t == s[1..]
    ensures Substitute(s, m) == [s[0]] + Substitute(t, m)
  {
    SubstituteKeeps(s, m);
  }

  /** The arXiv prefix holds no digit. */
  lemma ArxivPrefixDigitFree()
    ensures NoDigits(ArxivPrefix) && !IsSpace(ArxivPrefix[0])
  {
    forall i | 0 <= i < |ArxivPrefix| ensures !IsDigit(ArxivPrefix[i]) {
      assert ArxivPrefix[i] in ArxivPrefix;
    }
  }

  /** "arXiv preprint arXiv" followed by digit-free text that ends in no junk character. */
  lemma ArxivPrefixedShape(x: string)
    requires NoDigits(x) && (x == [] || !IsTrailingJunk(x[|x| - 1]))
    ensures var t := ArxivPrefix + x;
      t != [] && NoDigits(t) && IsStripped(t) && StartsWithArxiv(t) && !IsTrailingJunk(t[|t| - 1])
  {
    var t := ArxivPrefix + x;
    ArxivPrefixDigitFree();
    forall i | 0 <= i < |t| ensures !IsDigit(t[i]) {
      if i >= |ArxivPrefix| {
        assert t[i] == x[i - |ArxivPrefix|];
      }
    }
    assert t[..|ArxivPrefix|] == ArxivPrefix;
    assert t[|t| - 1] == if x == [] then 'v' else x[|x| - 1];
  }

  /**
   * The arXiv test is anchored at position 0: a leading space defeats it,
   * and the final `strip()` then hands back a name that does start with the
   * prefix, so cleaning that name once more changes it to "arXiv".
   */
  lemma LeadingSpaceDefeatsArxiv(x: string)
    requires NoDigits(x) && (x == [] || !IsTrailingJunk(x[|x| - 1]))
    ensures var t := ArxivPrefix + x; CleanJournalName(" " + t) == t
    ensures var t := ArxivPrefix + x; CleanJournalName(CleanJournalName(" " + t)) == ArxivName
  {
    var t := ArxivPrefix + x;
    ArxivPrefixedShape(x);
    SpacedShape(t);
    CleanDigitFree(" " + t);
    StripLeadingSpace(' ', t);
  }

  /** A space in front of a digit-free string that ends in no junk character: no arXiv prefix, nothing for rule 5 to remove. */
  lemma SpacedShape(t: string)
    requires NoDigits(t) && t != [] && !IsTrailingJunk(t[|t| - 1])
    ensures NoDigits(" " + t) && !StartsWithArxiv(" " + t) && StripTrailingJunk(" " + t) == " " + t
  {
    SpacedDigitFree(t);
    SpacedNotArxiv(t);
    var s := " " + t;
    assert s[|s| - 1] == t[|t| - 1];
  }

  /** A leading space adds no digit. */
  lemma SpacedDigitFree(t: string)
    requires NoDigits(t)
    ensures NoDigits(" " + t)
  {
    var s := " " + t;
    forall i | 0 < i < |s| ensures !IsDigit(s[i]) {
      assert s[i] == t[i - 1];
    }
  }

  /** A string that starts with a space does not start with the arXiv prefix. */
  lemma SpacedNotArxiv(t: string)
    ensures !StartsWithArxiv(" " + t)
  {
    var s := " " + t;
    ArxivPrefixDigitFree();
    if |ArxivPrefix| <= |s| {
      assert IsSpace(s[..|ArxivPrefix|][0]);
    }
  }
}
