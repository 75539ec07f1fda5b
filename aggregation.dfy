/**
 * `search_publications` (search.py:50-115): one pass over the author names
 * that fills `author_data` and accumulates the citation totals and the
 * global venue tally. The profile lookup (`scholarly.search_author`
 * followed by `scholarly.fill`) is not modelled; each name comes with the
 * outcome that lookup had.
 */
module Aggregation {
  import opened Wrappers
  import opened Counts
  import opened Records
  import opened Recency
  import opened TopPaper

  /** The parts of a filled profile the pass reads: `citedby`, `citedby5y` and `publications`. */
  datatype Profile = Profile(citedBy: Option<int>, citedBy5y: Option<int>, publications: seq<Publication>)

  /** What the lookup did for one name: no candidate, an exception, or a filled profile. */
  datatype Lookup = NotFound | LookupFault | Found(profile: Profile)

  datatype Query = Query(author: string, lookup: Lookup)

  /** One value of `author_data`. */
  datatype AuthorEntry = AuthorEntry(
    publications: seq<Publication>,
    citations: int,
    citationsLast5Years: int,
    topPaper: string,
    journalCounts: Counter)

  const NoTopPaper: string := "N/A"

  /** The entry of an author that was not found or whose processing raised. */
  const DefaultEntry: AuthorEntry := AuthorEntry([], 0, 0, NoTopPaper, map[])

  /** The four values `search_publications` returns. */
  datatype Report = Report(
    authorData: map<string, AuthorEntry>,
    totalCitations: int,
    totalRecentCitations: int,
    globalJournalCounts: Counter)

  /** What processing one author adds: its entry, the venue counts merged into the global tally, and its two citation totals. */
  datatype Contribution = Contribution(entry: AuthorEntry, journals: Counter, citations: int, recentCitations: int)

  /** The lookup found a profile and every publication has a venue string, so the pass gets as far as the global merge (line 77). */
  predicate ReachesMerge(l: Lookup)
  {
    l.Found? && AllCited(l.profile.publications)
  }

  /** The top paper has no title: `top_paper['bib']['title']` raises (line 88). */
  predicate TopPaperUntitled(pubs: seq<Publication>)
  {
    var top := GetTopPaper(pubs);
    top.Some? && top.value.title.None?
  }

  /** The author's processing runs to its end without raising. */
  predicate Succeeds(l: Lookup)
  {
    ReachesMerge(l) && !TopPaperUntitled(l.profile.publications)
  }

  /**
   * One iteration of the loop (search.py:58-113). A failure before the
   * merge contributes nothing; a failure at the top paper's title leaves
   * the merged venues in place but gives the author the default entry and
   * adds nothing to the totals.
   */
  function Process(l: Lookup, currentYear: int): (c: Contribution)
    ensures !Succeeds(l) ==> c.entry == DefaultEntry && c.citations == 0 && c.recentCitations == 0
    ensures c.journals == if ReachesMerge(l) then Tally(l.profile.publications, currentYear) else map[]
    ensures Succeeds(l) ==>
      var pubs := l.profile.publications;
      && c.entry.publications == Recent(pubs, currentYear)
      && c.entry.journalCounts == Tally(pubs, currentYear)
      && c.entry.citations == c.citations == l.profile.citedBy.GetOr(0)
      && c.entry.citationsLast5Years == c.recentCitations == l.profile.citedBy5y.GetOr(0)
      && c.entry.topPaper == if pubs == [] then NoTopPaper else pubs[TopIndex(pubs)].title.value
  {
    match l
    case NotFound => Contribution(DefaultEntry, map[], 0, 0)
    case LookupFault => Contribution(DefaultEntry, map[], 0, 0)
    case Found(profile) =>
      var pubs := profile.publications;
      if !AllCited(pubs) then Contribution(DefaultEntry, map[], 0, 0)
      else
        var counts := Tally(pubs, currentYear);
        var top := GetTopPaper(pubs);
        if top.Some? && top.value.title.None? then Contribution(DefaultEntry, counts, 0, 0)
        else
          var citations := profile.citedBy.GetOr(0);
          var recentCitations := profile.citedBy5y.GetOr(0);
          var title := if top.Some? then top.value.title.value else NoTopPaper;
          Contribution(AuthorEntry(Recent(pubs, currentYear), citations, recentCitations, title, counts),
                       counts, citations, recentCitations)
  }

  /** Folds one author into the running report: its entry replaces any earlier one under the same name. */
  function Step(r: Report, q: Query, currentYear: int): Report
  {
    var c := Process(q.lookup, currentYear);
    Report(r.authorData[q.author := c.entry],
           r.totalCitations + c.citations,
           r.totalRecentCitations + c.recentCitations,
           Merge(r.globalJournalCounts, c.journals))
  }

  const EmptyReport: Report := Report(map[], 0, 0, map[])

  /** The report after processing `qs` in order. */
  function Run(qs: seq<Query>, currentYear: int): Report
  {
    if qs == [] then EmptyReport
    else Step(Run(qs[..|qs| - 1], currentYear), qs[|qs| - 1], currentYear)
  }

  /** The pass of search.py:56-115, computing the report of `Run`. */
  method SearchPublications(qs: seq<Query>, currentYear: int)
    returns (authorData: map<string, AuthorEntry>, totalCitations: int, totalRecentCitations: int,
             globalJournalCounts: Counter)
    ensures Report(authorData, totalCitations, totalRecentCitations, globalJournalCounts) == Run(qs, currentYear)
  {
    authorData := map[];
    totalCitations := 0;
    totalRecentCitations := 0;
    globalJournalCounts := map[];
    for i := 0 to |qs|
      invariant Report(authorData, totalCitations, totalRecentCitations, globalJournalCounts) == Run(qs[..i], currentYear)
    {
      assert qs[..i + 1][..i] == qs[..i];
      authorData, totalCitations, totalRecentCitations, globalJournalCounts :=
        SearchAuthor(qs[i], currentYear, authorData, totalCitations, totalRecentCitations, globalJournalCounts);
    }
    assert qs[..|qs|] == qs;
  }

  /** The body of the loop (search.py:58-113) for one name, on the four running values. */
  method SearchAuthor(q: Query, currentYear: int, authorData: map<string, AuthorEntry>, totalCitations: int,
                      totalRecentCitations: int, globalJournalCounts: Counter)
    returns (authorData': map<string, AuthorEntry>, totalCitations': int, totalRecentCitations': int,
             globalJournalCounts': Counter)
    ensures Report(authorData', totalCitations', totalRecentCitations', globalJournalCounts')
         == Step(Report(authorData, totalCitations, totalRecentCitations, globalJournalCounts), q, currentYear)
  {
    match q.lookup
    case Found(profile) =>
      authorData', totalCitations', totalRecentCitations', globalJournalCounts' :=
        SearchProfile(q.author, profile, currentYear, authorData, totalCitations, totalRecentCitations,
                      globalJournalCounts);
    case _ =>
      assert Process(q.lookup, currentYear) == Contribution(DefaultEntry, map[], 0, 0);
      MergeEmpty(globalJournalCounts);
      authorData', totalCitations', totalRecentCitations', globalJournalCounts' :=
        authorData[q.author := DefaultEntry], totalCitations, totalRecentCitations, globalJournalCounts;
  }

  /** The part of the loop body (search.py:67-113) that runs once a profile was found and filled. */
  method SearchProfile(author: string, profile: Profile, currentYear: int, authorData: map<string, AuthorEntry>,
                       totalCitations: int, totalRecentCitations: int, globalJournalCounts: Counter)
    returns (authorData': map<string, AuthorEntry>, totalCitations': int, totalRecentCitations': int,
             globalJournalCounts': Counter)
    ensures Report(authorData', totalCitations', totalRecentCitations', globalJournalCounts')
         == Step(Report(authorData, totalCitations, totalRecentCitations, globalJournalCounts),
                 Query(author, Found(profile)), currentYear)
  {
    var filtered := FilterRecentPublications(profile.publications, currentYear);
    if filtered.MissingCitation? {
      assert Process(Found(profile), currentYear) == Contribution(DefaultEntry, map[], 0, 0);
      MergeEmpty(globalJournalCounts);
      authorData', totalCitations', totalRecentCitations', globalJournalCounts' :=
        authorData[author := DefaultEntry], totalCitations, totalRecentCitations, globalJournalCounts;
    } else {
      authorData', totalCitations', totalRecentCitations', globalJournalCounts' :=
        RecordProfile(author, profile, currentYear, filtered.recent, filtered.journalCounts,
                      authorData, totalCitations, totalRecentCitations, globalJournalCounts);
    }
  }

  /**
   * The rest of the loop body (search.py:70-113), once every publication
   * had a venue string: the venues are merged into the global tally before
   * the top paper's title is read, and only a titled (or absent) top paper
   * lets the totals grow.
   */
  method RecordProfile(author: string, profile: Profile, currentYear: int, recent: seq<Publication>,
                       journalCounts: Counter, authorData: map<string, AuthorEntry>, totalCitations: int,
                       totalRecentCitations: int, globalJournalCounts: Counter)
    returns (authorData': map<string, AuthorEntry>, totalCitations': int, totalRecentCitations': int,
             globalJournalCounts': Counter)
    requires AllCited(profile.publications)
    requires recent == Recent(profile.publications, currentYear)
    requires journalCounts == Tally(profile.publications, currentYear)
    ensures Report(authorData', totalCitations', totalRecentCitations', globalJournalCounts')
         == Step(Report(authorData, totalCitations, totalRecentCitations, globalJournalCounts),
                 Query(author, Found(profile)), currentYear)
  {
    ghost var c := Process(Found(profile), currentYear);
    var topPaper := GetTopPaper(profile.publications);
    globalJournalCounts' := MergeInto(globalJournalCounts, journalCounts);
    var citationsLast5Years := profile.citedBy5y.GetOr(0);
    var citations := profile.citedBy.GetOr(0);
    if topPaper.Some? && topPaper.value.title.None? {
      assert c == Contribution(DefaultEntry, journalCounts, 0, 0);
      authorData', totalCitations', totalRecentCitations' := authorData[author := DefaultEntry], totalCitations,
                                                             totalRecentCitations;
    } else {
      var title := if topPaper.Some? then topPaper.value.title.value else NoTopPaper;
      var entry := AuthorEntry(recent, citations, citationsLast5Years, title, journalCounts);
      assert c == Contribution(entry, journalCounts, citations, citationsLast5Years);
      authorData' := authorData[author := entry];
      totalCitations' := totalCitations + citations;
      totalRecentCitations' := totalRecentCitations + citationsLast5Years;
    }
  }

  // ---------------------------------------------------------------------
  // Properties
  // ---------------------------------------------------------------------

  /** The names in the input. */
  function Authors(qs: seq<Query>): set<string>
  {
    set i | 0 <= i < |qs| :: qs[i].author
  }

  /**
   * One author: its name becomes a key holding the entry `Process` computed,
   * every other author keeps its entry, both totals grow by the author's
   * contribution, and each global venue count grows by the author's count.
   */
  lemma StepUpdates(r: Report, q: Query, currentYear: int, a: string, j: string)
    ensures Step(r, q, currentYear).authorData.Keys == r.authorData.Keys + {q.author}
    ensures Step(r, q, currentYear).authorData[q.author] == Process(q.lookup, currentYear).entry
    ensures a != q.author && a in r.authorData ==> Step(r, q, currentYear).authorData[a] == r.authorData[a]
    ensures Step(r, q, currentYear).totalCitations == r.totalCitations + Process(q.lookup, currentYear).citations
    ensures Step(r, q, currentYear).totalRecentCitations
      == r.totalRecentCitations + Process(q.lookup, currentYear).recentCitations
    ensures Get(Step(r, q, currentYear).globalJournalCounts, j)
      == Get(r.globalJournalCounts, j) + Get(Process(q.lookup, currentYear).journals, j)
  {
  }

  /** Every input name, and nothing else, is a key of `author_data`, whatever its lookup did. */
  lemma {:induction false} EveryAuthorHasEntry(qs: seq<Query>, currentYear: int)
    ensures Run(qs, currentYear).authorData.Keys == Authors(qs)
  {
    if qs != [] {
      EveryAuthorHasEntry(qs[..|qs| - 1], currentYear);
      AuthorsLast(qs);
    }
  }

  /** The names of a non-empty input are those before the last one, and the last one. */
  lemma AuthorsLast(qs: seq<Query>)
    requires qs != []
    ensures Authors(qs) == Authors(qs[..|qs| - 1]) + {qs[|qs| - 1].author}
  {
    var pre := qs[..|qs| - 1];
    forall x | x in Authors(qs) ensures x in Authors(pre) + {qs[|qs| - 1].author} {
      var i :| 0 <= i < |qs| && qs[i].author == x;
      if i < |pre| { assert pre[i] == qs[i]; }
    }
    forall x | x in Authors(pre) ensures x in Authors(qs) {
      var i :| 0 <= i < |pre| && pre[i].author == x;
      assert qs[i] == pre[i];
    }
  }

  /** A name given more than once keeps the entry of its last occurrence. */
  lemma {:induction false} LastOccurrenceWins(qs: seq<Query>, currentYear: int, i: nat)
    requires i < |qs|
    requires forall j :: i < j < |qs| ==> qs[j].author != qs[i].author
    ensures qs[i].author in Run(qs, currentYear).authorData
    ensures Run(qs, currentYear).authorData[qs[i].author] == Process(qs[i].lookup, currentYear).entry
  {
    var pre := qs[..|qs| - 1];
    if i < |qs| - 1 {
      assert pre[i] == qs[i];
      forall j | i < j < |pre| ensures pre[j].author != pre[i].author {
        assert pre[j] == qs[j];
      }
      LastOccurrenceWins(pre, currentYear, i);
    }
  }

  /** The profiles of the occurrences that run to the end, in input order. */
  function Successes(qs: seq<Query>): seq<Profile>
  {
    if qs == [] then []
    else
      var l := qs[|qs| - 1].lookup;
      Successes(qs[..|qs| - 1]) + if Succeeds(l) then [l.profile] else []
  }

  /** The sums of `citedby` and of `citedby5y` (0 when missing) over a list of profiles. */
  function CitedBySum(ps: seq<Profile>): int
  {
    if ps == [] then 0 else CitedBySum(ps[..|ps| - 1]) + ps[|ps| - 1].citedBy.GetOr(0)
  }

  function CitedBy5ySum(ps: seq<Profile>): int
  {
    if ps == [] then 0 else CitedBy5ySum(ps[..|ps| - 1]) + ps[|ps| - 1].citedBy5y.GetOr(0)
  }

  /** The totals add up `citedby` and `citedby5y` over the successful occurrences only. */
  lemma {:induction false} TotalsOverSuccesses(qs: seq<Query>, currentYear: int)
    ensures Run(qs, currentYear).totalCitations == CitedBySum(Successes(qs))
    ensures Run(qs, currentYear).totalRecentCitations == CitedBy5ySum(Successes(qs))
  {
    if qs != [] {
      var pre := qs[..|qs| - 1];
      TotalsOverSuccesses(pre, currentYear);
      var s := Successes(pre);
      var l := qs[|qs| - 1].lookup;
      if Succeeds(l) {
        assert (s + [l.profile])[..|s|] == s;
      } else {
        assert s + [] == s;
      }
    }
  }

  /**
   * The sum, over the occurrences that reach the global merge, of how many
   * of their recent publications have canonical venue `j`.
   */
  function VenueSum(qs: seq<Query>, currentYear: int, j: string): nat
  {
    if qs == [] then 0
    else
      var l := qs[|qs| - 1].lookup;
      VenueSum(qs[..|qs| - 1], currentYear, j)
        + if ReachesMerge(l) then CountVenue(Recent(l.profile.publications, currentYear), j) else 0
  }

  /**
   * The global tally is the pointwise sum of the tallies of every occurrence
   * that reached line 77, including those that failed afterwards at the top
   * paper's title; the empty venue is never a key.
   */
  lemma {:induction false} GlobalCountsPointwise(qs: seq<Query>, currentYear: int, j: string)
    ensures "" !in Run(qs, currentYear).globalJournalCounts
    ensures j != "" ==> Get(Run(qs, currentYear).globalJournalCounts, j) == VenueSum(qs, currentYear, j)
  {
    if qs != [] {
      var pre := qs[..|qs| - 1];
      GlobalCountsPointwise(pre, currentYear, j);
      var l := qs[|qs| - 1].lookup;
      if ReachesMerge(l) && j != "" {
        TallyCountsRecent(l.profile.publications, currentYear, j);
      }
    }
  }

  /** Every venue in the global tally has a positive count, so its number of keys counts the venues seen. */
  lemma {:induction false} GlobalCountsPositive(qs: seq<Query>, currentYear: int)
    ensures Positive(Run(qs, currentYear).globalJournalCounts)
  {
    if qs != [] {
      var pre := qs[..|qs| - 1];
      GlobalCountsPositive(pre, currentYear);
      var l := qs[|qs| - 1].lookup;
      if ReachesMerge(l) {
        TallyPositive(l.profile.publications, currentYear);
      }
      MergePositive(Run(pre, currentYear).globalJournalCounts, Process(l, currentYear).journals);
    }
  }

  /**
   * Processing in two batches and combining gives the same report: totals
   * add, global tallies merge, and the later batch's entries win.
   */
  lemma {:induction false} RunAppend(a: seq<Query>, b: seq<Query>, currentYear: int)
    ensures Run(a + b, currentYear) == Combine(Run(a, currentYear), Run(b, currentYear))
  {
    var ra := Run(a, currentYear);
    if b == [] {
      assert a + b == a;
      MergeEmpty(ra.globalJournalCounts);
      assert ra.authorData + map[] == ra.authorData;
    } else {
      var b', q := b[..|b| - 1], b[|b| - 1];
      RunAppendLast(a, b, currentYear);
      assert Run(b, currentYear) == Step(Run(b', currentYear), q, currentYear);
      RunAppend(a, b', currentYear);
      StepAfterCombine(ra, Run(b', currentYear), q, currentYear);
    }
  }

  /** The last name of `a + b` is the last name of `b`, processed after `a` and the rest of `b`. */
  lemma RunAppendLast(a: seq<Query>, b: seq<Query>, currentYear: int)
    requires b != []
    ensures Run(a + b, currentYear) == Step(Run(a + b[..|b| - 1], currentYear), b[|b| - 1], currentYear)
  {
    var b', q := b[..|b| - 1], b[|b| - 1];
    assert b == b' + [q];
    assert a + b == (a + b') + [q];
    RunSnoc(a + b', q, currentYear);
  }

  /** Processing one more name after `qs` is one more `Step`. */
  lemma RunSnoc(qs: seq<Query>, q: Query, currentYear: int)
    ensures Run(qs + [q], currentYear) == Step(Run(qs, currentYear), q, currentYear)
  {
    var s := qs + [q];
    assert s[..|s| - 1] == qs && s[|s| - 1] == q;
  }

  /** The report of two batches combined, as `RunAppend` states it. */
  function Combine(ra: Report, rb: Report): Report
  {
    Report(ra.authorData + rb.authorData,
           ra.totalCitations + rb.totalCitations,
           ra.totalRecentCitations + rb.totalRecentCitations,
           Merge(ra.globalJournalCounts, rb.globalJournalCounts))
  }

  /** One more author after combining is the same as combining after that author. */
  lemma StepAfterCombine(ra: Report, rb: Report, q: Query, currentYear: int)
    ensures Step(Combine(ra, rb), q, currentYear) == Combine(ra, Step(rb, q, currentYear))
  {
    var c := Process(q.lookup, currentYear);
    MergeAssociates(ra.globalJournalCounts, rb.globalJournalCounts, c.journals);
    UpdateAfterUnion(ra.authorData, rb.authorData, q.author, c.entry);
  }

  /** Updating a union updates its right operand. */
  lemma UpdateAfterUnion<K, V>(m1: map<K, V>, m2: map<K, V>, k: K, v: V)
    ensures (m1 + m2)[k := v] == m1 + m2[k := v]
  {
  }

  /**
   * An author whose top paper has no title: the default entry, nothing added
   * to the totals, but its venues stay in the global tally.
   */
  lemma UntitledTopPaperKeepsVenues(author: string, profile: Profile, currentYear: int)
    requires AllCited(profile.publications) && TopPaperUntitled(profile.publications)
    ensures Run([Query(author, Found(profile))], currentYear)
      == Report(map[author := DefaultEntry], 0, 0, Tally(profile.publications, currentYear))
  {
    assert [Query(author, Found(profile))][..0] == [];
    MergeEmpty(Tally(profile.publications, currentYear));
  }
}
