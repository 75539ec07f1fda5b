/**
 * `filter_recent_publications` (search.py:26-42): keeps the publications of
 * the last five years, in source order, and tallies their canonical venues.
 * The current year, read from the clock in the source, is a parameter.
 */
module Recency {
  import opened Wrappers
  import opened Counts
  import opened Venue
  import opened Records

  /** A publication is recent when `current_year - year <= 5`; there is no lower bound, so later years count too. */
  const Window: int := 5

  predicate IsRecent(p: Publication, currentYear: int)
  {
    p.year.Some? && currentYear - p.year.value <= Window
  }

  /** Every publication carries a raw venue string; `bib['citation']` is read for all of them. */
  predicate AllCited(pubs: seq<Publication>)
  {
    forall i :: 0 <= i < |pubs| ==> pubs[i].citation.Some?
  }

  /** The canonical venue of a publication (a missing venue string reads as the empty name). */
  function VenueOf(p: Publication): string
  {
    CleanJournalName(p.citation.GetOr(""))
  }

  /** The recent publications, in source order. */
  function Recent(pubs: seq<Publication>, currentYear: int): (r: seq<Publication>)
    ensures |r| <= |pubs|
    ensures forall i :: 0 <= i < |r| ==> IsRecent(r[i], currentYear)
  {
    if pubs == [] then []
    else
      var p := pubs[|pubs| - 1];
      Recent(pubs[..|pubs| - 1], currentYear) + if IsRecent(p, currentYear) then [p] else []
  }

  /** The publications the filter passes over: no year, or older than the window. */
  function Skipped(pubs: seq<Publication>, currentYear: int): (r: seq<Publication>)
    ensures forall i :: 0 <= i < |r| ==> !IsRecent(r[i], currentYear)
  {
    if pubs == [] then []
    else
      var p := pubs[|pubs| - 1];
      Skipped(pubs[..|pubs| - 1], currentYear) + if IsRecent(p, currentYear) then [] else [p]
  }

  /** The venue tally that the loop builds: one count per recent publication with a non-empty canonical venue. */
  function Tally(pubs: seq<Publication>, currentYear: int): (r: Counter)
    ensures "" !in r
  {
    if pubs == [] then map[]
    else
      var p := pubs[|pubs| - 1];
      var t := Tally(pubs[..|pubs| - 1], currentYear);
      if IsRecent(p, currentYear) && VenueOf(p) != "" then Increment(t, VenueOf(p)) else t
  }

  /** Every venue in the tally was counted at least once. */
  lemma {:induction false} TallyPositive(pubs: seq<Publication>, currentYear: int)
    ensures Positive(Tally(pubs, currentYear))
  {
    if pubs != [] {
      var p := pubs[|pubs| - 1];
      TallyPositive(pubs[..|pubs| - 1], currentYear);
      if IsRecent(p, currentYear) && VenueOf(p) != "" {
        IncrementPositive(Tally(pubs[..|pubs| - 1], currentYear), VenueOf(p));
      }
    }
  }

  /** How many publications of `s` have canonical venue `j`. */
  function CountVenue(s: seq<Publication>, j: string): nat
  {
    if s == [] then 0
    else CountVenue(s[..|s| - 1], j) + if VenueOf(s[|s| - 1]) == j then 1 else 0
  }

  /** The result of the filter: its two values, or the `KeyError` of the first publication without a venue string. */
  datatype Filtered =
    | Filtered(recent: seq<Publication>, journalCounts: Counter)
    | MissingCitation(index: nat)

  /**
   * The loop of search.py:30-40. The venue of every publication is cleaned
   * before its year is looked at, so a publication without a venue string
   * fails the whole call even when it has no year.
   */
  method FilterRecentPublications(pubs: seq<Publication>, currentYear: int) returns (r: Filtered)
    ensures r.MissingCitation? <==> !AllCited(pubs)
    ensures r.MissingCitation? ==>
      r.index < |pubs| && pubs[r.index].citation.None? && AllCited(pubs[..r.index])
    ensures r.Filtered? ==>
      r.recent == Recent(pubs, currentYear) && r.journalCounts == Tally(pubs, currentYear)
  {
    var recent: seq<Publication> := [];
    var counts: Counter := map[];
    var i := 0;
    while i < |pubs|
      invariant 0 <= i <= |pubs|
      invariant AllCited(pubs[..i])
      invariant recent == Recent(pubs[..i], currentYear)
      invariant counts == Tally(pubs[..i], currentYear)
    {
      var pub := pubs[i];
      var pubYear := pub.year;
      if pub.citation.None? {
        return MissingCitation(i);
      }
      var journal := CleanJournalName(pub.citation.value);
      FilterStep(pubs, i, currentYear);
      if pubYear.Some? && currentYear - pubYear.value <= Window {
        recent := recent + [pub];
        if journal != "" {
          counts := Increment(counts, journal);
        }
      }
      i := i + 1;
    }
    assert pubs[..|pubs|] == pubs;
    return Filtered(recent, counts);
  }

  /** One more publication extends the recent list and the tally by that publication alone. */
  lemma FilterStep(pubs: seq<Publication>, i: nat, currentYear: int)
    requires i < |pubs|
    ensures AllCited(pubs[..i]) && pubs[i].citation.Some? ==> AllCited(pubs[..i + 1])
    ensures Recent(pubs[..i + 1], currentYear)
         == Recent(pubs[..i], currentYear) + if IsRecent(pubs[i], currentYear) then [pubs[i]] else []
    ensures Tally(pubs[..i + 1], currentYear)
         == if IsRecent(pubs[i], currentYear) && VenueOf(pubs[i]) != ""
            then Increment(Tally(pubs[..i], currentYear), VenueOf(pubs[i]))
            else Tally(pubs[..i], currentYear)
  {
    var pre, next := pubs[..i], pubs[..i + 1];
    assert next[..i] == pre && next[i] == pubs[i];
    RecentLast(next, currentYear);
    TallyLast(next, currentYear);
  }

  /** `Recent` of a non-empty list, by its last publication. */
  lemma RecentLast(s: seq<Publication>, currentYear: int)
    requires s != []
    ensures Recent(s, currentYear)
         == Recent(s[..|s| - 1], currentYear) + if IsRecent(s[|s| - 1], currentYear) then [s[|s| - 1]] else []
  {
  }

  /** `Tally` of a non-empty list, by its last publication. */
  lemma TallyLast(s: seq<Publication>, currentYear: int)
    requires s != []
    ensures Tally(s, currentYear)
         == if IsRecent(s[|s| - 1], currentYear) && VenueOf(s[|s| - 1]) != ""
            then Increment(Tally(s[..|s| - 1], currentYear), VenueOf(s[|s| - 1]))
            else Tally(s[..|s| - 1], currentYear)
  {
  }

  // ---------------------------------------------------------------------
  // Properties
  // ---------------------------------------------------------------------

  /** The filter distributes over concatenation: it keeps source order and decides each publication on its own. */
  lemma {:induction false} RecentAppend(a: seq<Publication>, b: seq<Publication>, currentYear: int)
    ensures Recent(a + b, currentYear) == Recent(a, currentYear) + Recent(b, currentYear)
  {
    if b == [] {
      assert a + b == a;
    } else {
      var b' := b[..|b| - 1];
      assert (a + b)[..|a + b| - 1] == a + b';
      RecentAppend(a, b', currentYear);
    }
  }

  /** A publication is kept exactly when it is in the input and recent. */
  lemma {:induction false} RecentMembers(pubs: seq<Publication>, currentYear: int, p: Publication)
    ensures p in Recent(pubs, currentYear) <==> p in pubs && IsRecent(p, currentYear)
  {
    if pubs != [] {
      var pre := pubs[..|pubs| - 1];
      RecentMembers(pre, currentYear, p);
      assert pubs == pre + [pubs[|pubs| - 1]];
    }
  }

  /** The kept and the skipped publications together are the input, with multiplicity. */
  lemma {:induction false} RecentSkippedPartition(pubs: seq<Publication>, currentYear: int)
    ensures multiset(Recent(pubs, currentYear)) + multiset(Skipped(pubs, currentYear)) == multiset(pubs)
  {
    if pubs != [] {
      var pre := pubs[..|pubs| - 1];
      RecentSkippedPartition(pre, currentYear);
      assert pubs == pre + [pubs[|pubs| - 1]];
    }
  }

  /** The window is inclusive: a publication exactly five years old is recent, one six years old is not. */
  lemma WindowIsInclusive(p: Publication, currentYear: int)
    ensures p.year == Some(currentYear - Window) ==> IsRecent(p, currentYear)
    ensures p.year == Some(currentYear - Window - 1) ==> !IsRecent(p, currentYear)
    ensures p.year.None? ==> !IsRecent(p, currentYear)
  {
  }

  /** A publication dated after the current year still counts as recent: the window has no lower bound. */
  lemma FutureYearsAreRecent(p: Publication, currentYear: int)
    requires p.year.Some? && p.year.value > currentYear
    ensures Recent([p], currentYear) == [p]
  {
    assert [p][..0] == [];
  }

  /** Each venue's count is the number of recent publications with that canonical venue; the empty name is never counted. */
  lemma {:induction false} TallyCountsRecent(pubs: seq<Publication>, currentYear: int, j: string)
    requires j != ""
    ensures Get(Tally(pubs, currentYear), j) == CountVenue(Recent(pubs, currentYear), j)
  {
    if pubs != [] {
      var pre := pubs[..|pubs| - 1];
      var p := pubs[|pubs| - 1];
      TallyCountsRecent(pre, currentYear, j);
      var r := Recent(pre, currentYear);
      if IsRecent(p, currentYear) {
        assert (r + [p])[..|r + [p]| - 1] == r;
      } else {
        assert r + [] == r;
      }
    }
  }

  /**
   * The counts add up to the number of recent publications less those whose
   * canonical venue is empty, so they never exceed the length of the recent list.
   */
  lemma {:induction false} TallySum(pubs: seq<Publication>, currentYear: int)
    ensures Sum(Tally(pubs, currentYear)) + CountVenue(Recent(pubs, currentYear), "") == |Recent(pubs, currentYear)|
  {
    if pubs == [] {
      assert Tally(pubs, currentYear) == map[];
    } else {
      var pre := pubs[..|pubs| - 1];
      var p := pubs[|pubs| - 1];
      TallySum(pre, currentYear);
      var r := Recent(pre, currentYear);
      if IsRecent(p, currentYear) {
        assert (r + [p])[..|r + [p]| - 1] == r;
        if VenueOf(p) != "" {
          SumIncrement(Tally(pre, currentYear), VenueOf(p));
        }
      } else {
        assert r + [] == r;
      }
    }
  }
}
