/**
 * Character classes and the whitespace trimming of Python's `str.strip`,
 * restricted to ASCII: only '0'..'9' are digits, and only the ASCII
 * characters that `str.isspace` and the regular-expression class `\s`
 * accept (codes 9-13 and 28-32) are whitespace.
 */
module Text {

  /** An ASCII decimal digit, the model's reading of `\d`. */
  predicate IsDigit(c: char)
  {
    '0' <= c <= '9'
  }

  /** ASCII whitespace as `str.isspace` and `\s` see it: \t \n \v \f \r, the separators 0x1c-0x1f, and space. */
  predicate IsSpace(c: char)
  {
    9 <= c as int <= 13 || 28 <= c as int <= 32
  }

  predicate NoDigits(s: string)
  {
    forall i :: 0 <= i < |s| ==> !IsDigit(s[i])
  }

  /** Neither the first nor the last character is whitespace. */
  predicate IsStripped(s: string)
  {
    s == [] || (!IsSpace(s[0]) && !IsSpace(s[|s| - 1]))
  }

  /** The length of the run of whitespace at the front of `s` (what a greedy `\s*` takes). */
  function SpaceRun(s: string): (n: nat)
    ensures n <= |s|
    ensures forall i :: 0 <= i < n ==> IsSpace(s[i])
    ensures n == |s| || !IsSpace(s[n])
  {
    if s != [] && IsSpace(s[0]) then 1 + SpaceRun(s[1..]) else 0
  }

  /** The length of the run of digits at the front of `s` (what a greedy `\d+` or `\d*` takes). */
  function DigitRun(s: string): (n: nat)
    ensures n <= |s|
    ensures forall i :: 0 <= i < n ==> IsDigit(s[i])
    ensures n == |s| || !IsDigit(s[n])
  {
    if s != [] && IsDigit(s[0]) then 1 + DigitRun(s[1..]) else 0
  }

  /** Empty, or made only of whitespace. */
  predicate IsBlank(s: string)
  {
    forall i :: 0 <= i < |s| ==> IsSpace(s[i])
  }

  /** `r` is the substring of `s` at offset `a`, and everything in `s` before and after it is whitespace. */
  predicate Encloses(s: string, a: int, r: string)
  {
    0 <= a && a + |r| <= |s| && r == s[a..a + |r|] && IsBlank(s[..a]) && IsBlank(s[a + |r|..])
  }

  /** `str.lstrip()`: the longest suffix that does not start with whitespace. */
  function LStrip(s: string): (r: string)
    ensures |r| <= |s| && r == s[|s| - |r|..]
    ensures r == [] || !IsSpace(r[0])
    ensures forall i :: 0 <= i < |s| - |r| ==> IsSpace(s[i])
  {
    s[SpaceRun(s)..]
  }

  /** `str.rstrip()`: the longest prefix that does not end with whitespace. */
  function RStrip(s: string): (r: string)
    ensures |r| <= |s| && r == s[..|r|]
    ensures r == [] || !IsSpace(r[|r| - 1])
    ensures forall i :: |r| <= i < |s| ==> IsSpace(s[i])
  {
    if s != [] && IsSpace(s[|s| - 1]) then RStrip(s[..|s| - 1]) else s
  }

  /** `str.strip()`: nothing is left at either end that is whitespace, only whitespace is dropped, and the empty result means an all-whitespace input. */
  function Strip(s: string): (r: string)
    ensures IsStripped(r) && |r| <= |s|
    ensures IsStripped(s) ==> r == s
    ensures NoDigits(s) ==> NoDigits(r)
    ensures r == [] <==> IsBlank(s)
    ensures s != [] && !IsSpace(s[|s| - 1]) ==> r != [] && r[|r| - 1] == s[|s| - 1]
    ensures exists a :: Encloses(s, a, r)
  {
    StripEnds(s);
    StripSlice(s);
    StripEmpty(s);
    LStrip(RStrip(s))
  }

  /** Neither end of the trimmed string is whitespace, and a stripped input is left alone. */
  lemma StripEnds(s: string)
    ensures IsStripped(LStrip(RStrip(s)))
    ensures IsStripped(s) ==> LStrip(RStrip(s)) == s
    ensures s != [] && !IsSpace(s[|s| - 1]) ==> LStrip(RStrip(s)) != [] && LStrip(RStrip(s))[|LStrip(RStrip(s))| - 1] == s[|s| - 1]
  {
    var t := RStrip(s);
    var r := LStrip(t);
    assert r != [] ==> r[|r| - 1] == t[|t| - 1];
  }

  /**
   * The trimmed string is a substring of the input with only whitespace
   * before and after it, so it has no digit when the input has none.
   */
  lemma StripSlice(s: string)
    ensures Encloses(s, SpaceRun(RStrip(s)), LStrip(RStrip(s)))
    ensures NoDigits(s) ==> NoDigits(LStrip(RStrip(s)))
  {
    var t := RStrip(s);
    var a := SpaceRun(t);
    BlankSlice(t, 0, a);
    BlankSlice(s, |t|, |s|);
    EnclosedSuffix(s, t, a);
    if NoDigits(s) {
      NoDigitsSlice(s, a, |t|);
    }
  }

  /** A suffix `t[a..]` of a prefix `t` of `s` sits in `s` at offset `a`; whitespace around it in `t` and in `s` makes it enclosed. */
  lemma EnclosedSuffix(s: string, t: string, a: nat)
    requires |t| <= |s| && t == s[..|t|] && a <= |t|
    requires IsBlank(t[..a]) && IsBlank(s[|t|..])
    ensures Encloses(s, a, t[a..]) && t[a..] == s[a..|t|]
  {
    assert t[..a] == s[..a];
    assert t[a..] == s[a..|t|];
  }

  /** A slice made of whitespace characters is blank. */
  lemma BlankSlice(s: string, a: nat, b: nat)
    requires a <= b <= |s| && forall i :: a <= i < b ==> IsSpace(s[i])
    ensures IsBlank(s[a..b])
  {
    forall i | 0 <= i < b - a ensures IsSpace(s[a..b][i]) {
      assert s[a..b][i] == s[a + i];
    }
  }

  /** Both trims together leave nothing exactly when every character is whitespace. */
  lemma StripEmpty(s: string)
    ensures LStrip(RStrip(s)) == [] <==> IsBlank(s)
  {
    var t := RStrip(s);
    if LStrip(t) == [] {
      assert t == [];
    }
  }

  /** A single whitespace character in front of a stripped non-empty string is all that `strip()` removes. */
  lemma StripLeadingSpace(c: char, t: string)
    requires IsSpace(c) && t != [] && IsStripped(t)
    ensures Strip([c] + t) == t
  {
    var s := [c] + t;
    assert s[|s| - 1] == t[|t| - 1];
    assert RStrip(s) == s;
    assert s[1..] == t;
    assert SpaceRun(s) == 1 + SpaceRun(t);
  }

  /** Stripping anything already stripped changes nothing, so `Strip` is idempotent. */
  lemma StripIdempotent(s: string)
    ensures Strip(Strip(s)) == Strip(s)
  {
  }

  /** A string with no digit keeps having none when a substring of it is taken. */
  lemma NoDigitsSlice(s: string, a: nat, b: nat)
    requires NoDigits(s) && a <= b <= |s|
    ensures NoDigits(s[a..b])
  {
    forall i | 0 <= i < b - a ensures !IsDigit(s[a..b][i]) {
      assert s[a..b][i] == s[a + i];
    }
  }
}
