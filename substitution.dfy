/**
 * Python's `re.sub(pattern, '', s)` for a pattern that never matches the
 * empty string: matches are found leftmost first, taken greedily and
 * never overlap. The pattern is given by its matcher, which says how long
 * the match at the front of a string is, if one begins there.
 */
module Substitution {
  import opened Wrappers
  import opened Text

  /**
   * A pattern, seen through its matches: the length of the match at the
   * front of a string, or None when no match begins there.
   */
  type Matcher = string -> Option<nat>

  /** Every match is non-empty and lies inside the string. */
  ghost predicate Advances(m: Matcher)
  {
    forall t :: m(t).Some? ==> 0 < m(t).value <= |t|
  }

  /** Every match begins with a digit. */
  ghost predicate DigitLed(m: Matcher)
  {
    forall t :: m(t).Some? ==> t != [] && IsDigit(t[0])
  }

  /** A match begins at every digit. */
  ghost predicate MatchesAtDigits(m: Matcher)
  {
    forall t :: t != [] && IsDigit(t[0]) ==> m(t).Some?
  }

  /**
   * Deletes every match, scanning left to right: a match at the front is
   * deleted and the scan goes on after it; otherwise the front character
   * is kept and the scan goes on at the next one.
   */
  function Substitute(s: string, m: Matcher): (r: string)
    requires Advances(m)
    ensures |r| <= |s|
    decreases |s|
  {
    if s == [] then []
    else match m(s)
      case Some(n) => Substitute(s[n..], m)
      case None => [s[0]] + Substitute(s[1..], m)
  }

  /** When a match begins at every digit, no digit survives the substitution. */
  lemma {:induction false} SubstituteLeavesNoDigits(s: string, m: Matcher)
    requires Advances(m) && MatchesAtDigits(m)
    ensures NoDigits(Substitute(s, m))
    decreases |s|
  {
    if s != [] {
      match m(s)
      case Some(n) =>
        SubstituteLeavesNoDigits(s[n..], m);
      case None =>
        SubstituteLeavesNoDigits(s[1..], m);
        var r := Substitute(s[1..], m);
        assert Substitute(s, m) == [s[0]] + r;
        assert forall i :: 0 < i <= |r| ==> ([s[0]] + r)[i] == r[i - 1];
    }
  }

  /** Where no match begins, the front character is kept. */
  lemma SubstituteKeeps(s: string, m: Matcher)
    requires Advances(m) && s != [] && m(s).None?
    ensures Substitute(s, m) == [s[0]] + Substitute(s[1..], m)
  {
  }

  /** When every match begins with a digit, digit-free text is left as it is. */
  lemma {:induction false} SubstituteDigitFree(s: string, m: Matcher)
    requires Advances(m) && DigitLed(m) && NoDigits(s)
    ensures Substitute(s, m) == s
    decreases |s|
  {
    if s != [] {
      assert !IsDigit(s[0]);
      SubstituteKeeps(s, m);
      NoDigitsSlice(s, 1, |s|);
      SubstituteDigitFree(s[1..], m);
      assert [s[0]] + s[1..] == s;
    }
  }
}
