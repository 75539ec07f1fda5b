/**
 * Tallies keyed by name, the `dict` of venue counts that the pipeline
 * builds per author and globally. A missing key reads as 0, as
 * `d.get(k, 0)` does.
 */
module Counts {

  type Counter = map<string, nat>

  function Get(m: Counter, k: string): nat
  {
    if k in m then m[k] else 0
  }

  /** Every key of the tally has a positive count, as in a `dict` that only ever gains counts. */
  predicate Positive(m: Counter)
  {
    forall j :: j in m ==> m[j] > 0
  }

  /** `m[k] = m.get(k, 0) + 1`: `k` goes up by one, every other key keeps its count. */
  function Increment(m: Counter, k: string): (r: Counter)
    ensures r.Keys == m.Keys + {k}
    ensures Get(r, k) == Get(m, k) + 1
    ensures forall j :: j != k ==> Get(r, j) == Get(m, j)
  {
    m[k := Get(m, k) + 1]
  }

  /** The pointwise sum of two tallies: merging `a` into `g` adds each of its counts to `g`'s. */
  function Merge(g: Counter, a: Counter): (r: Counter)
    ensures r.Keys == g.Keys + a.Keys
    ensures forall j :: Get(r, j) == Get(g, j) + Get(a, j)
  {
    map j | j in g.Keys + a.Keys :: Get(g, j) + Get(a, j)
  }

  /** Two tallies with the same keys and the same count for every key are equal. */
  lemma SameCounts(m1: Counter, m2: Counter)
    requires m1.Keys == m2.Keys
    requires forall j :: Get(m1, j) == Get(m2, j)
    ensures m1 == m2
  {
    forall j | j in m1 ensures m1[j] == m2[j] {
      assert Get(m1, j) == Get(m2, j);
    }
  }

  /** Merging with an empty tally gives the other tally back. */
  lemma MergeEmpty(a: Counter)
    ensures Merge(map[], a) == a && Merge(a, map[]) == a
  {
    SameCounts(Merge(map[], a), a);
    SameCounts(Merge(a, map[]), a);
  }

  lemma MergeCommutes(a: Counter, b: Counter)
    ensures Merge(a, b) == Merge(b, a)
  {
    SameCounts(Merge(a, b), Merge(b, a));
  }

  lemma MergeAssociates(a: Counter, b: Counter, c: Counter)
    ensures Merge(Merge(a, b), c) == Merge(a, Merge(b, c))
  {
    SameCounts(Merge(Merge(a, b), c), Merge(a, Merge(b, c)));
  }

  /** Counting one more item keeps every count positive. */
  lemma IncrementPositive(m: Counter, k: string)
    requires Positive(m)
    ensures Positive(Increment(m, k))
  {
  }

  /** Merging two tallies with positive counts gives positive counts. */
  lemma MergePositive(g: Counter, a: Counter)
    requires Positive(g) && Positive(a)
    ensures Positive(Merge(g, a))
  {
  }

  /** The sum of all counts in a tally (the number of items it tallies). */
  ghost function Sum(m: Counter): nat
    decreases |m|
  {
    if m == map[] then 0
    else
      var k :| k in m;
      m[k] + Sum(m - {k})
  }

  /** The sum does not depend on which key is taken out first. */
  lemma {:induction false} SumRemove(m: Counter, k: string)
    requires k in m
    ensures Sum(m) == m[k] + Sum(m - {k})
    decreases |m|
  {
    var c :| c in m && Sum(m) == m[c] + Sum(m - {c});
    if c != k {
      var m1, m2 := m - {c}, m - {k};
      assert |m1| < |m| && |m2| < |m|;
      SumRemove(m1, k);
      SumRemove(m2, c);
      assert m1 - {k} == m2 - {c};
    }
  }

  /** Counting one more item adds exactly one to the sum. */
  lemma SumIncrement(m: Counter, k: string)
    ensures Sum(Increment(m, k)) == Sum(m) + 1
  {
    var r := Increment(m, k);
    SumRemove(r, k);
    assert r - {k} == m - {k};
    if k in m {
      SumRemove(m, k);
    } else {
      assert m - {k} == m;
    }
  }

  /** The part of tally `a` whose keys lie in `done`. */
  function Part(a: Counter, done: set<string>): (r: Counter)
    ensures r.Keys == a.Keys * done
    ensures forall j :: Get(r, j) == if j in done then Get(a, j) else 0
  {
    map j | j in a.Keys * done :: a[j]
  }

  /** Adding the count of one more key of `a` extends the merged part by that key. */
  lemma MergeStep(g: Counter, a: Counter, done: set<string>, k: string)
    requires k in a && k !in done
    ensures Increase(Merge(g, Part(a, done)), k, a[k]) == Merge(g, Part(a, done + {k}))
  {
    PartStep(a, done, k);
    MergeIncrease(g, Part(a, done), k, a[k]);
  }

  /** Taking one more key into the part adds that key with its count. */
  lemma PartStep(a: Counter, done: set<string>, k: string)
    requires k in a && k !in done
    ensures Part(a, done + {k}) == Part(a, done)[k := a[k]]
  {
    SameCounts(Part(a, done + {k}), Part(a, done)[k := a[k]]);
  }

  /** Adding `n` to a key of the merged tally is adding a key with count `n` to the merged-in tally. */
  lemma MergeIncrease(g: Counter, p: Counter, k: string, n: nat)
    requires k !in p
    ensures Increase(Merge(g, p), k, n) == Merge(g, p[k := n])
  {
    SameCounts(Increase(Merge(g, p), k, n), Merge(g, p[k := n]));
  }

  /** `m[k] = m.get(k, 0) + n`. */
  function Increase(m: Counter, k: string, n: nat): (r: Counter)
    ensures r.Keys == m.Keys + {k}
    ensures Get(r, k) == Get(m, k) + n
    ensures forall j :: j != k ==> Get(r, j) == Get(m, j)
  {
    m[k := Get(m, k) + n]
  }

  /**
   * Lines 76-77 of search.py: the loop that adds every (venue, count) pair of
   * one author's tally into the global tally, one key at a time.
   */
  method MergeInto(g: Counter, a: Counter) returns (r: Counter)
    ensures r == Merge(g, a)
  {
    r := g;
    ghost var done: set<string> := {};
    var pending := a.Keys;
    SameCounts(Merge(g, Part(a, {})), g);
    while pending != {}
      invariant done + pending == a.Keys && done !! pending
      invariant r == Merge(g, Part(a, done))
      decreases pending
    {
      var j :| j in pending;
      MergeStep(g, a, done, j);
      r := Increase(r, j, a[j]);
      done := done + {j};
      pending := pending - {j};
    }
    assert done == a.Keys;
    SameCounts(Part(a, a.Keys), a);
  }
}
