/** The series the UI fetches (`Series` in ui/src/utils/api.ts) and the order both of its sorts use. */
module UiSeries {
  import opened Options
  import opened Samples
  import StableSort
  import Lexicographic

  datatype Series = Series(
    instance: string,
    planDigest: Option<string>,
    sqlDigest: string,
    values: seq<Sample>)

  /** The plan digest with `null` read as the empty string (`PlanDigest ?? ""`). */
  function PlanKey(s: Series): string {
    s.planDigest.GetOr("")
  }

  /** The series comparator: SQL digest first, then plan digest. */
  function CompareSeries(a: Series, b: Series): int {
    var c := Lexicographic.Compare(a.sqlDigest, b.sqlDigest);
    if c != 0 then c else Lexicographic.Compare(PlanKey(a), PlanKey(b))
  }

  predicate ByDigests(a: Series, b: Series) {
    CompareSeries(a, b) <= 0
  }

  /** The series sort of `getSeriesData` and `preparePlotData`: a reordering into digest order. */
  function SortSeries(ss: seq<Series>): (r: seq<Series>)
    ensures multiset(r) == multiset(ss)
    ensures forall i, j :: 0 <= i < j < |r| ==> DigestOrdered(r[i], r[j])
  {
    ByDigestsTotalPreorder();
    StableSort.SortSorted(ss, ByDigests);
    StableSort.Sort(ss, ByDigests)
  }

  /** `a` may precede `b` in (SQL digest, plan digest) order. */
  predicate DigestOrdered(a: Series, b: Series) {
    || Lexicographic.Lt(a.sqlDigest, b.sqlDigest)
    || (a.sqlDigest == b.sqlDigest && Lexicographic.Le(PlanKey(a), PlanKey(b)))
  }

  lemma {:induction false} ByDigestsTotalPreorder()
    ensures StableSort.TotalPreorder(ByDigests)
  {
    forall a, b
      ensures ByDigests(a, b) || ByDigests(b, a)
    {
      Lexicographic.CompareAntisymmetric(a.sqlDigest, b.sqlDigest);
      Lexicographic.CompareAntisymmetric(PlanKey(a), PlanKey(b));
    }
    forall a, b, c | ByDigests(a, b) && ByDigests(b, c)
      ensures ByDigests(a, c)
    {
      ByDigestsTransitive(a, b, c);
    }
  }

  lemma {:induction false} ByDigestsTransitive(a: Series, b: Series, c: Series)
    requires ByDigests(a, b) && ByDigests(b, c)
    ensures ByDigests(a, c)
  {
    var ab := Lexicographic.Compare(a.sqlDigest, b.sqlDigest);
    var bc := Lexicographic.Compare(b.sqlDigest, c.sqlDigest);
    Lexicographic.CompareTransitive(a.sqlDigest, b.sqlDigest, c.sqlDigest);
    if ab == 0 && bc == 0 {
      Lexicographic.CompareTransitive(PlanKey(a), PlanKey(b), PlanKey(c));
    }
  }

  /**
   * The series sort returns a permutation of its input ordered by SQL digest and
   * then plan digest, and series with equal digests keep their relative order.
   */
  lemma {:induction false} SortSeriesSpec(ss: seq<Series>)
    ensures multiset(SortSeries(ss)) == multiset(ss)
    ensures forall i, j :: 0 <= i < j < |ss| ==> DigestOrdered(SortSeries(ss)[i], SortSeries(ss)[j])
    ensures forall k :: StableSort.Class(SortSeries(ss), k, ByDigests) == StableSort.Class(ss, k, ByDigests)
  {
    ByDigestsTotalPreorder();
    StableSort.SortSorted(ss, ByDigests);
    forall k {
      StableSort.SortStable(ss, k, ByDigests);
    }
  }
}
