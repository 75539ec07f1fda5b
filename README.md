# Scholar-Search: a verified model of the citation pipeline

Scholar-Search reads a list of researcher names and looks each one up. For every
author it keeps the total citation count, the citations of the last five years,
the most-cited paper, the publications of the last five years and a tally of the
venues they appeared in. It also keeps running totals and a venue tally over all
authors. This project models that pipeline (`search.py`) in Dafny and proves what
it does.

- `Venue` models `clean_journal_name`. A raw citation string that starts with
  "arXiv preprint arXiv" becomes "arXiv". Any other string goes through the five
  `re.sub` rules and then `strip()`. Each of the four digit rules is a matcher,
  a function giving the length of the pattern's greedy match at the front of a
  string.
- `Substitution` models `re.sub(pattern, '')` once for all four matchers. It
  scans left to right, deletes each match it finds and keeps every other
  character. Matches are leftmost and never overlap.
- `AuthorList` models the line filter of `read_authors`.
- `Recency` models `filter_recent_publications`. It is a method with the
  source's loop, proved against the functions `Recent` and `Tally`.
- `TopPaper` models `get_top_paper`: the first publication with the highest
  `num_citations`.
- `Aggregation` models `search_publications`. It is a method with the source's
  loop, proved against `Run`, a fold of a one-author step `Process`. The lookup
  service is replaced by one `Lookup` outcome per name: `NotFound`,
  `LookupFault` or `Found(profile)`. `author_data` is a `map` keyed by name.
- `Counts` holds the `dict` tallies: increment, the merge loop of lines 76-77,
  and the sum of a tally's counts.
- `Text` holds the ASCII character classes and Python's `strip`. `Records`
  holds the publication record. `Wrappers` holds `Option`.

Parameters and fault points:

- The current year is a parameter. The source reads it from the clock.
- A publication's year is an `Option<int>`. `None` stands for a missing or
  falsy `pub_year`.
- The three in-loop fault points become explicit values:
  - a lookup that raises;
  - a publication without `citation`, which fails the author before any merge;
  - a top paper without a title, which fails after the author's venues were
    merged into the global tally but before the totals grow.

Points where `search.py` does something other than it appears to:

- Line 16's class `[\s,-:]` looks like "space, comma, hyphen, colon", but
  `,-:` is a range from `,` to `:`. That range covers `, - . / 0-9 :`, so a
  final `.` or `/` is stripped too. For `"Proc. 2021 19 (1), 5-10"` the code
  yields "Proc", not "Proc.". Worked through by hand, rules 1-4 leave "Proc.  , "; then
  `VenueExamples.JunkTailCleaned` and
  `VenueExamples.ProcLeftoverCleaned` prove that rule 5 and `strip()` turn
  that into "Proc". `VenueExamples.TrailingDotIsStripped`,
  `VenueExamples.VolumeIssueRemoved` and `VenueExamples.PageRangeRemoved` show
  the earlier kinds of step on shorter inputs; rules 1-4 are not run on this
  exact string.
- `clean_journal_name` is idempotent only when its result does not itself start
  with "arXiv preprint arXiv". The arXiv test is anchored at position 0, so a
  leading space defeats it and `strip()` then exposes the prefix
  (`VenueExamples.LeadingSpaceDefeatsArxiv`).
- A publication without `citation` fails the whole author even when it has no
  year, because line 32 reads the field before the year test.
- `search.py` has no co-author code and no sorted rendering, so neither is
  modelled.

## Model

| member | source | states |
|---|---|---|
| `Text.LStrip` | search.py:17 | the result is the longest suffix not starting with whitespace; everything dropped is whitespace |
| `Text.RStrip` | search.py:17 | the result is the longest prefix not ending with whitespace; everything dropped is whitespace |
| `Text.Strip` | search.py:17 | the result is a substring of the input with only whitespace before and after it (`Encloses`); no whitespace at either end; a stripped input is returned unchanged; digits are never introduced; the result is empty exactly when the input is all whitespace |
| `Text.StripIdempotent` | search.py:17 | stripping twice is stripping once |
| `Counts.Increase` | search.py:77 | `d[k] = d.get(k, 0) + n` raises `k` by `n`, adds `k` as a key, and leaves every other count alone |
| `Counts.IncrementPositive` | search.py:40 | an increment keeps every count at least 1 |
| `Counts.MergePositive` | search.py:76-77 | merging two tallies whose counts are at least 1 gives one whose counts are at least 1 |
| `Counts.Increment` | search.py:40 | `d[k] = d.get(k, 0) + 1` raises `k` by one, adds `k` as a key, and leaves every other count alone |
| `Counts.Merge` | search.py:76-77 | the merged tally has the union of the keys and, per key, the sum of the two counts |
| `Counts.MergeInto` | search.py:76-77 | the key-by-key loop computes exactly the pointwise sum `Merge` |
| `Counts.MergeEmpty` | search.py:76-77 | merging with an empty tally changes nothing |
| `Counts.MergeCommutes` | search.py:76-77 | the order in which two tallies are merged does not matter |
| `Counts.MergeAssociates` | search.py:76-77 | merging is associative, so batches may be merged in any grouping |
| `Counts.SumIncrement` | search.py:40 | one increment adds exactly one to the sum of all counts |
| `Text.SpaceRun` | search.py:13-14 | the greedy `\s*`: a run of whitespace at the front, ended by a non-space or the end |
| `Text.StripEnds` | search.py:17 | `strip()` leaves no whitespace at either end and returns a stripped string unchanged |
| `Text.StripSlice` | search.py:17 | `strip()` returns the substring at the end of the leading whitespace run, with only whitespace around it, so it adds no digit |
| `Text.StripEmpty` | search.py:17 | `strip()` returns the empty string exactly for an all-whitespace input |
| `Text.StripLeadingSpace` | search.py:17 | one whitespace character in front of a stripped non-empty string is all that `strip()` removes |
| `Substitution.Substitute` | search.py:12-15 | `re.sub(pattern, '')` never lengthens the text |
| `Substitution.SubstituteLeavesNoDigits` | search.py:15 | when a match begins at every digit, no digit is left after the substitution |
| `Substitution.SubstituteDigitFree` | search.py:12-15 | when every match begins with a digit, digit-free text is left unchanged |
| `Text.DigitRun` | search.py:12-15 | the greedy `\d+`: a run of digits at the front, ended by a non-digit or the end |
| `Venue.YearAt` | search.py:12 | `\d{4}` matches at the front exactly when the string starts with four digits, and the match has length 4 |
| `Venue.RemoveYears` | search.py:12 | rule 1 never lengthens the text and leaves digit-free text unchanged |
| `Venue.VolumeIssueAt` | search.py:13 | a match of `\d+\s*\(\d+\)` starts with a digit, lies inside the string and ends with `)` |
| `Venue.RemoveVolumeIssue` | search.py:13 | rule 2 never lengthens the text and leaves digit-free text unchanged |
| `Venue.PageRangeAt` | search.py:14 | a match of either page-range alternative (`\d+,\s*\d+` or `\d+-\d+`) starts and ends with a digit and lies inside the string |
| `Venue.RemovePageRanges` | search.py:14 | rule 3 never lengthens the text and leaves digit-free text unchanged |
| `Venue.NumberAt` | search.py:15 | `\d+` matches exactly when the string starts with a digit; the match is non-empty, all digits, and takes the whole digit run |
| `Venue.RemoveNumbers` | search.py:15 | no digit is left; digit-free text is unchanged |
| `Venue.RemoveNumerals` | search.py:12-15 | after the four digit rules in source order, no digit is left |
| `Venue.TrimmedShape` | search.py:16-17 | rule 5 and then `strip()` on digit-free text give a digit-free name with no whitespace at either end and no final `, - . / :` |
| `Venue.IsTrailingJunk` | search.py:16 | the class `[\s,-:]` holds exactly whitespace, `,`, `-`, `.`, `/`, the digits and `:` |
| `Venue.StripTrailingJunk` | search.py:16 | the result is the longest prefix not ending in whitespace or a character of `,`..`:`; everything removed is such a character |
| `Venue.CleanJournalName` | search.py:5-19 | an input starting at index 0 with "arXiv preprint arXiv" gives exactly "arXiv"; any other gives a digit-free result with no whitespace at either end that does not end in any of `, - . / :` (possibly empty) |
| `Venue.CleanDigitFree` | search.py:12-17 | a digit-free input not starting with the arXiv prefix only loses its trailing junk characters and is then stripped |
| `Venue.CleanIdempotent` | search.py:5-19 | cleaning a cleaned name again changes nothing, unless that name starts with "arXiv preprint arXiv" |
| `Venue.CleanArxivFixedPoint` | search.py:7-9 | "arXiv" cleans to itself |
| `Venue.ArxivTestAnchored` | search.py:7-8 | `StartsWithArxiv` holds for the prefix followed by anything and only for such strings, and fails for any string whose first character is not `a` |
| `VenueExamples.TrailingDotIsStripped` | search.py:16 | "Proc." cleans to "Proc" |
| `VenueExamples.VolumeIssueMatch` | search.py:13 | `\d+\s*\(\d+\)` matches all of "19 (1)" |
| `VenueExamples.VolumeIssueRemoved` | search.py:13 | rule 2 turns "a 19 (1)" into "a " |
| `VenueExamples.PageRangeMatch` | search.py:14 | the `\d+-\d+` alternative matches all of "5-10" |
| `VenueExamples.CommaPageRangeMatch` | search.py:14 | the `\d+,\s*\d+` alternative matches all of "5, 10" |
| `VenueExamples.PageRangeRemoved` | search.py:14 | rule 3 turns "p 5-10" into "p " |
| `VenueExamples.JunkTailTrimmed` | search.py:16 | rule 5 removes a tail made only of `[\s,-:]` characters and stops at a final character outside the class |
| `VenueExamples.JunkTailCleaned` | search.py:5-19 | a stripped digit-free name not ending in junk, followed only by non-digit junk and outside the arXiv branch, cleans to that name |
| `VenueExamples.ProcLeftoverCleaned` | search.py:5-19 | "Proc" followed by ".  , ", what rules 1-4 leave of "Proc. 2021 19 (1), 5-10", cleans to "Proc" |
| `VenueExamples.YearAloneIsEmpty` | search.py:12-19 | "2021" cleans to the empty name |
| `VenueExamples.LeadingSpaceDefeatsArxiv` | search.py:7-17 | " arXiv preprint arXiv" followed by digit-free text that ends in no junk character is not sent to the arXiv branch; it cleans to the same string without the space, and that cleans further to "arXiv" |
| `AuthorList.ReadAuthors` | search.py:23 | every name kept is non-empty and stripped; there are at most as many names as lines |
| `AuthorList.ReadAuthorsAppend` | search.py:23 | each line is handled on its own and input order is kept |
| `AuthorList.ReadAuthorsDropsBlanks` | search.py:23 | as many lines are dropped as are all whitespace; which lines those are follows from `ReadAuthorsAppend` line by line |
| `AuthorList.KeepsNames` | search.py:23 | a list of non-empty stripped names passes through unchanged |
| `AuthorList.ReadAuthorsIdempotent` | search.py:23 | filtering the filtered names changes nothing |
| `Recency.Recent` | search.py:30-36 | every kept publication has a year with `current_year - year <= 5` |
| `Recency.Skipped` | search.py:30-36 | every passed-over publication has no year or is older than the window |
| `Recency.Tally` | search.py:38-40 | the empty venue is never a key |
| `Recency.TallyPositive` | search.py:38-40 | every count in the venue tally is at least 1, so its keys are exactly the venues seen |
| `Recency.FilterStep` | search.py:30-40 | one more loop iteration extends the recent list by the publication exactly when it is recent, and increments its venue exactly when it is recent with a non-empty venue |
| `Recency.FilterRecentPublications` | search.py:26-42 | the call fails exactly when some publication lacks `citation`, even one without a year, and names the first; otherwise it returns the recent list and the venue tally |
| `Recency.RecentAppend` | search.py:30-36 | the filter keeps source order and decides each publication on its own |
| `Recency.RecentMembers` | search.py:30-36 | a publication is kept exactly when it is in the input and has a year within the window |
| `Recency.RecentSkippedPartition` | search.py:30-36 | kept and passed-over publications together are the input, with multiplicity |
| `Recency.WindowIsInclusive` | search.py:35 | `current_year - year <= 5` keeps a publication exactly five years old and drops one six years old; a publication without a year is never recent |
| `Recency.FutureYearsAreRecent` | search.py:35 | a year later than the current year is recent: the window has no lower bound |
| `Recency.TallyCountsRecent` | search.py:32-40 | each non-empty venue's count is the number of recent publications whose cleaned citation is that venue |
| `Recency.TallySum` | search.py:38-40 | the counts add up to the number of recent publications less those with an empty venue, so at most the length of the recent list |
| `TopPaper.TopIndex` | search.py:48 | the chosen position is the first maximum (`IsFirstMaximum`): it holds a maximal `num_citations` (default 0), and every earlier position has strictly fewer |
| `TopPaper.GetTopPaper` | search.py:44-48 | `None` exactly for an empty list; otherwise the publication at the first position with the highest `num_citations` (`TopIndex`), so ties go to the earliest |
| `TopPaper.TopIndexUnique` | search.py:48 | any first maximum is the position `TopIndex` chooses, so `max` keeps the earliest of equal counts |
| `Aggregation.Process` | search.py:58-113 | an author that is not found or raises gets the default entry (0, 0, "N/A", empty lists) and adds nothing to the totals; it merges its venue tally exactly when it was found and every publication has `citation`; a success records the recent list, the venue tally, `citedby`/`citedby5y` (default 0) and the top paper's title, or "N/A" for no publications |
| `Aggregation.SearchPublications` | search.py:50-115 | the loop with its fault handling returns the author map, both totals and the global tally of `Run` |
| `Aggregation.SearchAuthor` | search.py:58-113 | one pass of the loop body updates the four running values exactly as one `Step` of `Run` |
| `Aggregation.SearchProfile` | search.py:67-113 | for a found profile, the loop body fails before the merge on a missing `citation` and leaves the default entry; otherwise it goes on as `RecordProfile`, and in both cases it does what one `Step` says |
| `Aggregation.RecordProfile` | search.py:70-113 | with the recent list and tally in hand, the body merges the venues, fails on an untitled top paper with the default entry, and otherwise records the entry and grows both totals, exactly as one `Step` |
| `Aggregation.StepUpdates` | search.py:58-113 | one author: its name becomes a key holding the entry `Process` computed, every other author keeps its entry, both totals grow by the author's contribution, and each global venue count grows by the author's count |
| `Aggregation.RunAppendLast` | search.py:56-113 | the report of `a + b` for non-empty `b` is one `Step` with `b`'s last name after the report of `a` and the rest of `b` |
| `Aggregation.GlobalCountsPositive` | search.py:70-77 | every count in the global venue tally is at least 1 |
| `Aggregation.EveryAuthorHasEntry` | search.py:56-113 | the keys of `author_data` are exactly the input names |
| `Aggregation.LastOccurrenceWins` | search.py:84-113 | a repeated name keeps the entry of its last occurrence |
| `Aggregation.TotalsOverSuccesses` | search.py:80-94 | the totals are the sums of `citedby` and `citedby5y` (default 0) over the occurrences that ran to the end |
| `Aggregation.GlobalCountsPointwise` | search.py:70-77 | each global venue count is the sum, over every occurrence that reached the merge, of that author's recent publications with that venue; the empty venue is never a key |
| `Aggregation.RunAppend` | search.py:56-115 | processing two batches one after the other adds the totals, merges the global tallies and lets the later batch's entries win |
| `Aggregation.StepAfterCombine` | search.py:56-115 | processing one more name after combining two reports is combining with the second report after that name |
| `Aggregation.UntitledTopPaperKeepsVenues` | search.py:73-113 | an author whose top paper has no title gets the default entry and adds nothing to the totals, but its venues stay in the global tally |

## Left out

- The `scholarly.search_author` and `scholarly.fill` calls (search.py:60-65) are network lookups. Each name comes with the outcome its lookup had instead.
- `datetime.now()` (search.py:27) reads the clock. The current year is a parameter.
- File reading in `read_authors` (search.py:22) and all `print` logging (search.py:57, 66, 96, 106, 147-150) are I/O.
- `save_to_file` (search.py:117-137) is not modelled. It only writes the already-computed values to a file, walking the dictionaries in insertion order, and holds no logic beyond formatting.
- The `__main__` block (search.py:139-150) only wires the three functions together and prints.
- `int(pub_year)` (search.py:35) is not modelled. A year is an already-parsed `Option<int>`; a year that fails to parse would be one more fault for that author.
- `\d`, `\s` and `str.strip` are limited to ASCII: only `0`-`9` are digits, and only the characters with codes 9-13 and 28-32 are whitespace. Non-ASCII digits and spaces are not modelled.
- Faults other than the three named above are not modelled. Examples are a profile without `publications`, a publication without `bib`, and a non-string citation. Each would give the author the default entry, as `LookupFault` does.
- `citedby` and `citedby5y` are either integers or missing; a key present with value `None` is not modelled. In the source (search.py:80-94) a `None` `citedby` fails at line 93, after `author_data` was written and before either total grows. A `None` `citedby5y` fails at line 94, after `total_citations` has already grown by that author's `citedby`. The author then gets the default entry yet still counts toward `total_citations`, so `Aggregation.TotalsOverSuccesses` holds only because that case cannot arise in the model.
- Substitution.Substitute: its own contract only bounds the length. What it removes is stated by Substitution.SubstituteKeeps, Substitution.SubstituteLeavesNoDigits and Substitution.SubstituteDigitFree.
- Venue.VolumeIssueAt: its contract states where a match starts and ends, not that the length is that of the greedy match of the pattern. That is given only by its definition, which follows the pattern piece by piece.
- Venue.PageRangeAt: its contract states where a match starts and ends, not that the length is that of the greedy match of either alternative. That is given only by its definition.
- Venue.RemoveYears: its contract states only the length bound and that digit-free text is unchanged. Which substrings it removes is given by Venue.YearAt through Substitution.Substitute, not proved against a separate regular-expression semantics.
- Venue.RemoveVolumeIssue: its contract states only the length bound and that digit-free text is unchanged. Which substrings it removes is given by Venue.VolumeIssueAt through Substitution.Substitute; VenueExamples.VolumeIssueRemoved shows one removal.
- Venue.RemovePageRanges: its contract states only the length bound and that digit-free text is unchanged. Which substrings it removes is given by Venue.PageRangeAt through Substitution.Substitute; VenueExamples.PageRangeRemoved shows one removal.
- Venue.RemoveNumbers: its contract states that no digit is left and that digit-free text is unchanged, not that exactly the digit runs are removed. That is given by Venue.NumberAt through Substitution.Substitute.
