/**
 * The publication record the pipeline reads from a filled author profile.
 * Only the fields of `pub['bib']` and `pub` that search.py reads are kept;
 * each may be missing.
 */
module Records {
  import opened Wrappers

  /**
   * `title` is `bib['title']`, `year` is `bib['pub_year']` (None when it is
   * absent or falsy), `citation` is the raw venue string `bib['citation']`,
   * and `numCitations` is `pub['num_citations']`.
   */
  datatype Publication = Publication(
    title: Option<string>,
    year: Option<int>,
    citation: Option<string>,
    numCitations: Option<nat>)

  /** `pub.get('num_citations', 0)`. */
  function CitationCount(p: Publication): nat
  {
    p.numCitations.GetOr(0)
  }
}
