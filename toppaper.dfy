/**
 * `get_top_paper` (search.py:44-48): `max` over the FULL publication list,
 * keyed by `num_citations` (0 when missing). Python's `max` keeps the
 * first of several equal maxima.
 */
module TopPaper {
  import opened Wrappers
  import opened Records

  /** The position `max` settles on: the first publication with the highest citation count. */
  function TopIndex(pubs: seq<Publication>): (k: nat)
    requires pubs != []
    ensures IsFirstMaximum(pubs, k)
  {
    if |pubs| == 1 then 0
    else
      var k := TopIndex(pubs[..|pubs| - 1]);
      if CitationCount(pubs[|pubs| - 1]) > CitationCount(pubs[k]) then |pubs| - 1 else k
  }

  /** None exactly for an empty list; otherwise the first most-cited publication. */
  function GetTopPaper(pubs: seq<Publication>): (r: Option<Publication>)
    ensures r.None? <==> pubs == []
    ensures r.Some? ==> r.value in pubs
    ensures r.Some? ==> forall p :: p in pubs ==> CitationCount(p) <= CitationCount(r.value)
    ensures r.Some? ==> r.value == pubs[TopIndex(pubs)]
  {
    if pubs == [] then None
    else
      Some(pubs[TopIndex(pubs)])
  }

  /** Position `k` holds the highest citation count, and every earlier position holds strictly fewer: the one `max` returns. */
  predicate IsFirstMaximum(pubs: seq<Publication>, k: int)
  {
    && 0 <= k < |pubs|
    && (forall i :: 0 <= i < |pubs| ==> CitationCount(pubs[i]) <= CitationCount(pubs[k]))
    && (forall i :: 0 <= i < k ==> CitationCount(pubs[i]) < CitationCount(pubs[k]))
  }

  /**
   * The two properties of `TopIndex` determine it: any position holding a
   * maximum with no earlier equal is the one `max` picks.
   */
  lemma TopIndexUnique(pubs: seq<Publication>, k: nat)
    requires IsFirstMaximum(pubs, k)
    ensures TopIndex(pubs) == k
  {
    var t := TopIndex(pubs);
    assert CitationCount(pubs[t]) == CitationCount(pubs[k]);
  }
}
