/**
 * The `chartData` computation of the UI: samples inside the selected time range
 * are summed per (SQL digest, exact timestamp) and per SQL digest, and the
 * digests are ranked by descending total.
 */
module ChartData {
  import opened Options
  import opened Samples
  import opened UiSeries
  import opened Sums
  import StableSort

  /** A brushed time range `[start, end]`; both ends are included. */
  datatype TimeRange = TimeRange(start: int, end: int)

  /** A sample at `t` counts unless a range is set and `t` lies before or after it. */
  predicate InRange(range: Option<TimeRange>, t: int) {
    !(range.Some? && (t < range.value.start || t > range.value.end))
  }

  /** One digest's chart series: its total, and its sum at each timestamp that has samples. */
  datatype Bucket = Bucket(digest: string, total: nat, byTimestamp: map<int, nat>)

  /**
   * The accumulators of `chartData`: `valuesByDigestAndTs`, `sumValueByDigest`, and
   * the insertion order of the latter's keys, which is what `toPairs` enumerates.
   */
  datatype Tally = Tally(digests: seq<string>, byDigest: map<string, map<int, nat>>, sums: map<string, nat>)

  function MapOf(t: Tally, d: string): map<int, nat> {
    if d in t.byDigest then t.byDigest[d] else map[]
  }

  /** The state of the inner loop: the digest's per-timestamp map and the series' running `sum`. */
  datatype Acc = Acc(cells: map<int, nat>, sum: nat)

  /** One step of the inner loop: a sample outside the range is skipped. */
  function AddSample(a: Acc, v: Sample, range: Option<TimeRange>): Acc {
    if !InRange(range, v.timestamp) then a
    else Acc(a.cells[v.timestamp := Lookup(a.cells, v.timestamp) + v.cpuMs], a.sum + v.cpuMs)
  }

  /** The inner loop over one series' samples, starting from the digest's map and a zero sum. */
  function AddSamples(m: map<int, nat>, vs: seq<Sample>, range: Option<TimeRange>): Acc {
    if |vs| == 0 then Acc(m, 0)
    else AddSample(AddSamples(m, vs[..|vs| - 1], range), vs[|vs| - 1], range)
  }

  /**
   * The outer loop's body for one series. The `if (!x) x = v else x += v` of `chartData`
   * also takes the first branch when `x` is 0; both branches then give `0 + v`.
   */
  function AddSeries(t: Tally, s: Series, range: Option<TimeRange>): (r: Tally)
    ensures Lookup(r.sums, s.sqlDigest) == Lookup(t.sums, s.sqlDigest) + RetainedSum(s.values, range)
    ensures forall d :: d != s.sqlDigest ==> Lookup(r.sums, d) == Lookup(t.sums, d) && MapOf(r, d) == MapOf(t, d)
    ensures |t.digests| <= |r.digests| <= |t.digests| + 1 && r.digests[..|t.digests|] == t.digests
    ensures (forall d :: d in t.sums <==> d in t.digests) ==>
      r.digests == if s.sqlDigest in t.digests then t.digests else t.digests + [s.sqlDigest]
  {
    var d := s.sqlDigest;
    AddSamplesSum(MapOf(t, d), s.values, range);
    var a := AddSamples(MapOf(t, d), s.values, range);
    Tally(
      if d in t.sums then t.digests else t.digests + [d],
      t.byDigest[d := a.cells],
      t.sums[d := Lookup(t.sums, d) + a.sum])
  }

  /** The outer loop: `AddSeries` for each series in turn, starting from an empty tally. */
  function TallyAll(ss: seq<Series>, range: Option<TimeRange>): Tally {
    if |ss| == 0 then Tally([], map[], map[])
    else
      var prefix, s := ss[..|ss| - 1], ss[|ss| - 1];
      AddSeries(TallyAll(prefix, range), s, range)
  }

  function BucketOf(t: Tally, d: string): Bucket {
    Bucket(d, Lookup(t.sums, d), MapOf(t, d))
  }

  function BucketsFor(t: Tally, ds: seq<string>): (bs: seq<Bucket>)
    ensures |bs| == |ds|
    ensures forall i :: 0 <= i < |ds| ==> bs[i] == BucketOf(t, ds[i])
  {
    if |ds| == 0 then [] else [BucketOf(t, ds[0])] + BucketsFor(t, ds[1..])
  }

  /** lodash `orderBy(..., ["1"], ["desc"])`: larger totals first. */
  predicate ByTotalDesc(a: Bucket, b: Bucket) {
    a.total >= b.total
  }

  /** `chartData`: no series data gives nothing; otherwise the ranked buckets. */
  function ChartData(seriesData: Option<seq<Series>>, range: Option<TimeRange>): (r: seq<Bucket>)
    ensures seriesData.None? ==> r == []
    ensures seriesData.Some? ==> |r| == |FirstAppearance(seriesData.value)|
  {
    if seriesData.None? then []
    else
      var t := TallyAll(seriesData.value, range);
      TallySpec(seriesData.value, range);
      Ranked(t)
  }

  /** The buckets of every tallied digest, larger totals first. */
  function Ranked(t: Tally): (r: seq<Bucket>)
    ensures |r| == |t.digests|
    ensures forall i, j :: 0 <= i < j < |r| ==> r[j].total <= r[i].total
    ensures multiset(r) == multiset(BucketsFor(t, t.digests))
  {
    ByTotalDescTotalPreorder();
    StableSort.SortSorted(BucketsFor(t, t.digests), ByTotalDesc);
    StableSort.Sort(BucketsFor(t, t.digests), ByTotalDesc)
  }

  // ---------------------------------------------------------------------------
  // Reference definitions

  /** The SQL digests of `ss` in order of first appearance. */
  function FirstAppearance(ss: seq<Series>): (ds: seq<string>)
    ensures forall d :: d in ds <==> exists s :: s in ss && s.sqlDigest == d
    ensures StableSort.Distinct(ds)
  {
    if |ss| == 0 then []
    else
      var ds := FirstAppearance(ss[..|ss| - 1]);
      var d := ss[|ss| - 1].sqlDigest;
      assert ss == ss[..|ss| - 1] + [ss[|ss| - 1]];
      if d in ds then ds else ds + [d]
  }

  /** The total CPU time of the samples of `vs` inside the range. */
  function RetainedSum(vs: seq<Sample>, range: Option<TimeRange>): nat {
    if |vs| == 0 then 0
    else
      var v := vs[|vs| - 1];
      RetainedSum(vs[..|vs| - 1], range) + (if InRange(range, v.timestamp) then v.cpuMs else 0)
  }

  /** The total CPU time of the samples of `vs` taken at `tm`, if `tm` is inside the range. */
  function CellOf(vs: seq<Sample>, tm: int, range: Option<TimeRange>): nat {
    if |vs| == 0 then 0
    else
      var v := vs[|vs| - 1];
      CellOf(vs[..|vs| - 1], tm, range) + (if v.timestamp == tm && InRange(range, tm) then v.cpuMs else 0)
  }

  predicate HasSampleAt(vs: seq<Sample>, tm: int, range: Option<TimeRange>) {
    InRange(range, tm) && exists v :: v in vs && v.timestamp == tm
  }

  /** What a digest's total should be: the retained CPU time of all its series. */
  function DigestTotal(ss: seq<Series>, d: string, range: Option<TimeRange>): nat {
    if |ss| == 0 then 0
    else
      var s := ss[|ss| - 1];
      DigestTotal(ss[..|ss| - 1], d, range) + (if s.sqlDigest == d then RetainedSum(s.values, range) else 0)
  }

  /** What a digest's bar at `tm` should be: the retained CPU time of all its series at `tm`. */
  function CellSum(ss: seq<Series>, d: string, tm: int, range: Option<TimeRange>): nat {
    if |ss| == 0 then 0
    else
      var s := ss[|ss| - 1];
      CellSum(ss[..|ss| - 1], d, tm, range) + (if s.sqlDigest == d then CellOf(s.values, tm, range) else 0)
  }

  predicate HasCell(ss: seq<Series>, d: string, tm: int, range: Option<TimeRange>) {
    exists s :: s in ss && s.sqlDigest == d && HasSampleAt(s.values, tm, range)
  }

  /** The digests among `ds` whose total is `v`, in the order of `ds`. */
  function WithTotal(ds: seq<string>, ss: seq<Series>, range: Option<TimeRange>, v: nat): seq<string> {
    if |ds| == 0 then []
    else (if DigestTotal(ss, ds[0], range) == v then [ds[0]] else []) + WithTotal(ds[1..], ss, range, v)
  }

  /** The digests of the buckets whose total is `v`, in the order of `bs`. */
  function TiedDigests(bs: seq<Bucket>, v: nat): seq<string> {
    if |bs| == 0 then []
    else (if bs[0].total == v then [bs[0].digest] else []) + TiedDigests(bs[1..], v)
  }

  // ---------------------------------------------------------------------------
  // Proofs

  /** The inner loop's `sum` is the series' retained CPU time. */
  lemma {:induction false} AddSamplesSum(m: map<int, nat>, vs: seq<Sample>, range: Option<TimeRange>)
    ensures AddSamples(m, vs, range).sum == RetainedSum(vs, range)
  {
    if |vs| > 0 {
      AddSamplesSum(m, vs[..|vs| - 1], range);
    }
  }

  /** The inner loop adds exactly its `sum` to the values of the digest's map. */
  lemma {:induction false} AddSamplesMapSum(m: map<int, nat>, vs: seq<Sample>, range: Option<TimeRange>)
    ensures MapSum(AddSamples(m, vs, range).cells) == MapSum(m) + AddSamples(m, vs, range).sum
  {
    if |vs| > 0 {
      AddSamplesMapSum(m, vs[..|vs| - 1], range);
      AddSampleMapSum(AddSamples(m, vs[..|vs| - 1], range), vs[|vs| - 1], range);
    }
  }

  lemma {:induction false} AddSampleMapSum(a: Acc, v: Sample, range: Option<TimeRange>)
    ensures MapSum(AddSample(a, v, range).cells) + a.sum == MapSum(a.cells) + AddSample(a, v, range).sum
  {
    if InRange(range, v.timestamp) {
      MapSumAdd(a.cells, v.timestamp, v.cpuMs);
    }
  }

  /**
   * One series' samples: a timestamp gets an entry only if a retained sample has
   * it, and each retained sample adds its CPU time to its own timestamp.
   */
  lemma {:induction false} AddSamplesCells(m: map<int, nat>, vs: seq<Sample>, range: Option<TimeRange>, tm: int)
    ensures tm in AddSamples(m, vs, range).cells <==> tm in m || HasSampleAt(vs, tm, range)
    ensures Lookup(AddSamples(m, vs, range).cells, tm) == Lookup(m, tm) + CellOf(vs, tm, range)
  {
    if |vs| > 0 {
      var prefix, v := vs[..|vs| - 1], vs[|vs| - 1];
      assert vs == prefix + [v];
      AddSamplesCells(m, prefix, range, tm);
      if HasSampleAt(vs, tm, range) && !HasSampleAt(prefix, tm, range) {
        var w :| w in vs && w.timestamp == tm;
        assert w == v;
      }
    }
  }

  ghost predicate TallyCorrect(t: Tally, ss: seq<Series>, range: Option<TimeRange>) {
    && t.digests == FirstAppearance(ss)
    && (forall d :: d in t.sums <==> d in t.digests)
    && (forall d :: Lookup(t.sums, d) == DigestTotal(ss, d, range))
    && (forall d, tm :: tm in MapOf(t, d) <==> HasCell(ss, d, tm, range))
    && (forall d, tm :: Lookup(MapOf(t, d), tm) == CellSum(ss, d, tm, range))
  }

  /** After the outer loop, digests are listed once each, in order of first appearance, and each has a sum. */
  lemma {:induction false} TallyDigests(ss: seq<Series>, range: Option<TimeRange>)
    ensures TallyAll(ss, range).digests == FirstAppearance(ss)
    ensures forall d :: d in TallyAll(ss, range).sums <==> d in TallyAll(ss, range).digests
  {
    if |ss| > 0 {
      var prefix, s := ss[..|ss| - 1], ss[|ss| - 1];
      assert ss == prefix + [s];
      TallyDigests(prefix, range);
      StepDigests(TallyAll(prefix, range), prefix, s, range);
    }
  }

  lemma {:induction false} TallySpec(ss: seq<Series>, range: Option<TimeRange>)
    ensures TallyCorrect(TallyAll(ss, range), ss, range)
    ensures forall d :: MapSum(MapOf(TallyAll(ss, range), d)) == Lookup(TallyAll(ss, range).sums, d)
  {
    if |ss| > 0 {
      var prefix, s := ss[..|ss| - 1], ss[|ss| - 1];
      assert ss == prefix + [s];
      TallySpec(prefix, range);
      var t0 := TallyAll(prefix, range);
      StepDigests(t0, prefix, s, range);
      StepSums(t0, prefix, s, range);
      StepCells(t0, prefix, s, range);
      StepMapSum(t0, s, range);
    }
  }

  lemma {:induction false} StepDigests(t0: Tally, prefix: seq<Series>, s: Series, range: Option<TimeRange>)
    requires t0.digests == FirstAppearance(prefix)
    requires forall d :: d in t0.sums <==> d in t0.digests
    ensures AddSeries(t0, s, range).digests == FirstAppearance(prefix + [s])
    ensures forall d :: d in AddSeries(t0, s, range).sums <==> d in AddSeries(t0, s, range).digests
  {
    assert (prefix + [s])[..|prefix + [s]| - 1] == prefix;
  }

  lemma {:induction false} StepSums(t0: Tally, prefix: seq<Series>, s: Series, range: Option<TimeRange>)
    requires forall d :: Lookup(t0.sums, d) == DigestTotal(prefix, d, range)
    ensures forall d :: Lookup(AddSeries(t0, s, range).sums, d) == DigestTotal(prefix + [s], d, range)
  {
    assert (prefix + [s])[..|prefix + [s]| - 1] == prefix;
    AddSamplesSum(MapOf(t0, s.sqlDigest), s.values, range);
  }

  lemma {:induction false} StepCells(t0: Tally, prefix: seq<Series>, s: Series, range: Option<TimeRange>)
    requires forall d, tm :: tm in MapOf(t0, d) <==> HasCell(prefix, d, tm, range)
    requires forall d, tm :: Lookup(MapOf(t0, d), tm) == CellSum(prefix, d, tm, range)
    ensures forall d, tm :: tm in MapOf(AddSeries(t0, s, range), d) <==> HasCell(prefix + [s], d, tm, range)
    ensures forall d, tm :: Lookup(MapOf(AddSeries(t0, s, range), d), tm) == CellSum(prefix + [s], d, tm, range)
  {
    assert (prefix + [s])[..|prefix + [s]| - 1] == prefix;
    var t := AddSeries(t0, s, range);
    forall d, tm
      ensures tm in MapOf(t, d) <==> HasCell(prefix + [s], d, tm, range)
      ensures Lookup(MapOf(t, d), tm) == CellSum(prefix + [s], d, tm, range)
    {
      AddSamplesCells(MapOf(t0, s.sqlDigest), s.values, range, tm);
      HasCellStep(prefix, s, d, tm, range);
    }
  }

  lemma {:induction false} StepMapSum(t0: Tally, s: Series, range: Option<TimeRange>)
    requires forall d :: MapSum(MapOf(t0, d)) == Lookup(t0.sums, d)
    ensures forall d :: MapSum(MapOf(AddSeries(t0, s, range), d)) == Lookup(AddSeries(t0, s, range).sums, d)
  {
    forall d
      ensures MapSum(MapOf(AddSeries(t0, s, range), d)) == Lookup(AddSeries(t0, s, range).sums, d)
    {
      StepMapSumAt(t0, s, range, d);
    }
  }

  lemma {:induction false} StepMapSumAt(t0: Tally, s: Series, range: Option<TimeRange>, d: string)
    requires MapSum(MapOf(t0, d)) == Lookup(t0.sums, d)
    ensures MapSum(MapOf(AddSeries(t0, s, range), d)) == Lookup(AddSeries(t0, s, range).sums, d)
  {
    var t := AddSeries(t0, s, range);
    if d == s.sqlDigest {
      var a := AddSamples(MapOf(t0, d), s.values, range);
      AddSamplesMapSum(MapOf(t0, d), s.values, range);
      assert MapOf(t, d) == a.cells;
      assert Lookup(t.sums, d) == Lookup(t0.sums, d) + a.sum;
    } else {
      assert MapOf(t, d) == MapOf(t0, d);
      assert Lookup(t.sums, d) == Lookup(t0.sums, d);
    }
  }

  lemma {:induction false} HasCellStep(prefix: seq<Series>, s: Series, d: string, tm: int, range: Option<TimeRange>)
    ensures HasCell(prefix + [s], d, tm, range)
        <==> HasCell(prefix, d, tm, range) || (s.sqlDigest == d && HasSampleAt(s.values, tm, range))
  {
    var ss := prefix + [s];
    if HasCell(ss, d, tm, range) && !HasCell(prefix, d, tm, range) {
      var s' :| s' in ss && s'.sqlDigest == d && HasSampleAt(s'.values, tm, range);
      assert s' == s;
    }
    if HasCell(prefix, d, tm, range) {
      var s' :| s' in prefix && s'.sqlDigest == d && HasSampleAt(s'.values, tm, range);
      assert s' in ss;
    }
    if s.sqlDigest == d && HasSampleAt(s.values, tm, range) {
      assert s in ss;
    }
  }

  lemma {:induction false} TiedDigestsFor(t: Tally, ds: seq<string>, ss: seq<Series>, range: Option<TimeRange>, v: nat)
    requires forall d :: Lookup(t.sums, d) == DigestTotal(ss, d, range)
    ensures TiedDigests(BucketsFor(t, ds), v) == WithTotal(ds, ss, range, v)
  {
    if |ds| > 0 {
      TiedDigestsFor(t, ds[1..], ss, range, v);
      assert BucketsFor(t, ds)[1..] == BucketsFor(t, ds[1..]);
    }
  }

  lemma {:induction false} TiedDigestsClass(bs: seq<Bucket>, v: nat)
    ensures TiedDigests(bs, v) == TiedDigests(StableSort.Class(bs, Bucket("", v, map[]), ByTotalDesc), v)
  {
    if |bs| > 0 {
      TiedDigestsClass(bs[1..], v);
      var c := StableSort.Class(bs[1..], Bucket("", v, map[]), ByTotalDesc);
      if bs[0].total == v {
        assert StableSort.Class(bs, Bucket("", v, map[]), ByTotalDesc) == [bs[0]] + c;
        assert ([bs[0]] + c)[0] == bs[0] && ([bs[0]] + c)[1..] == c;
      } else {
        assert StableSort.Class(bs, Bucket("", v, map[]), ByTotalDesc) == c;
      }
    }
  }

  lemma {:induction false} ByTotalDescTotalPreorder()
    ensures StableSort.TotalPreorder(ByTotalDesc)
  {
  }

  /** Each ranked bucket is the bucket of some digest of the input. */
  lemma {:induction false} RankedBucket(ss: seq<Series>, range: Option<TimeRange>, i: int)
    requires 0 <= i < |ChartData(Some(ss), range)|
    ensures var t, b := TallyAll(ss, range), ChartData(Some(ss), range)[i];
      b.digest in t.digests && b == BucketOf(t, b.digest)
  {
    var t := TallyAll(ss, range);
    assert ChartData(Some(ss), range) == Ranked(t);
    RankedIsBucket(t, i);
  }

  lemma {:induction false} RankedIsBucket(t: Tally, i: int)
    requires 0 <= i < |Ranked(t)|
    ensures Ranked(t)[i].digest in t.digests && Ranked(t)[i] == BucketOf(t, Ranked(t)[i].digest)
  {
    var bs := BucketsFor(t, t.digests);
    assert Ranked(t)[i] in multiset(bs);
  }

  function DigestsOf(bs: seq<Bucket>): (ds: seq<string>)
    ensures |ds| == |bs|
    ensures forall i :: 0 <= i < |bs| ==> ds[i] == bs[i].digest
  {
    seq(|bs|, i requires 0 <= i < |bs| => bs[i].digest)
  }

  /**
   * Every digest of the input appears exactly once, even when none of its samples
   * fall in the range.
   */
  lemma {:induction false} ChartDigests(ss: seq<Series>, range: Option<TimeRange>)
    ensures forall d :: d in DigestsOf(ChartData(Some(ss), range)) <==> exists s :: s in ss && s.sqlDigest == d
    ensures StableSort.Distinct(DigestsOf(ChartData(Some(ss), range)))
  {
    var t := TallyAll(ss, range);
    assert ChartData(Some(ss), range) == Ranked(t);
    TallyDigests(ss, range);
    RankedDigests(t);
    SameDigests(DigestsOf(Ranked(t)), t, ss);
  }

  /** The digest-membership step of `ChartDigests`, proved apart from the ranking facts in scope there. */
  lemma {:induction false} SameDigests(ds: seq<string>, t: Tally, ss: seq<Series>)
    requires forall d :: d in ds <==> d in t.digests
    requires t.digests == FirstAppearance(ss)
    ensures forall d :: d in ds <==> exists s :: s in ss && s.sqlDigest == d
  {
  }

  /** Ranking keeps every tallied digest, once each. */
  lemma {:induction false} RankedDigests(t: Tally)
    requires StableSort.Distinct(t.digests)
    ensures forall d :: d in DigestsOf(Ranked(t)) <==> d in t.digests
    ensures StableSort.Distinct(DigestsOf(Ranked(t)))
  {
    var bs := BucketsFor(t, t.digests);
    var r := Ranked(t);
    var ds := DigestsOf(r);
    assert StableSort.Distinct(r) by {
      assert StableSort.Distinct(bs) by {
        forall i, j | 0 <= i < j < |bs|
          ensures bs[i] != bs[j]
        {
          assert bs[i].digest == t.digests[i];
        }
      }
      StableSort.PermutationDistinct(bs, r);
    }
    forall i, j | 0 <= i < j < |ds|
      ensures ds[i] != ds[j]
    {
      RankedIsBucket(t, i);
      RankedIsBucket(t, j);
    }
    forall d | d in ds
      ensures d in t.digests
    {
      var i :| 0 <= i < |ds| && ds[i] == d;
      RankedIsBucket(t, i);
    }
    forall d | d in t.digests
      ensures d in ds
    {
      var k :| 0 <= k < |t.digests| && t.digests[k] == d;
      assert bs[k] in multiset(r);
      var i :| 0 <= i < |r| && r[i] == bs[k];
      assert ds[i] == d;
    }
  }

  /**
   * Each digest's bucket: its total is the CPU time of its retained samples, a
   * timestamp has an entry exactly when one of its series has a retained sample
   * there (a missing entry is never stored as 0), each entry is the sum over all
   * series of that digest at that timestamp, and the entries add up to the total.
   */
  lemma {:induction false} ChartBuckets(ss: seq<Series>, range: Option<TimeRange>)
    ensures var r := ChartData(Some(ss), range);
      && (forall i :: 0 <= i < |r| ==> r[i].total == DigestTotal(ss, r[i].digest, range))
      && (forall i, tm :: 0 <= i < |r| ==> (tm in r[i].byTimestamp <==> HasCell(ss, r[i].digest, tm, range)))
      && (forall i, tm :: 0 <= i < |r| && tm in r[i].byTimestamp ==>
            r[i].byTimestamp[tm] == CellSum(ss, r[i].digest, tm, range))
      && (forall i :: 0 <= i < |r| ==> MapSum(r[i].byTimestamp) == r[i].total)
  {
    var r := ChartData(Some(ss), range);
    forall i | 0 <= i < |r|
      ensures r[i].total == DigestTotal(ss, r[i].digest, range)
      ensures forall tm :: tm in r[i].byTimestamp <==> HasCell(ss, r[i].digest, tm, range)
      ensures forall tm :: tm in r[i].byTimestamp ==> r[i].byTimestamp[tm] == CellSum(ss, r[i].digest, tm, range)
      ensures MapSum(r[i].byTimestamp) == r[i].total
    {
      BucketCorrect(ss, range, i);
    }
  }

  lemma {:induction false} BucketCorrect(ss: seq<Series>, range: Option<TimeRange>, i: int)
    requires 0 <= i < |ChartData(Some(ss), range)|
    ensures var b := ChartData(Some(ss), range)[i];
      && b.total == DigestTotal(ss, b.digest, range)
      && (forall tm :: tm in b.byTimestamp <==> HasCell(ss, b.digest, tm, range))
      && (forall tm :: tm in b.byTimestamp ==> b.byTimestamp[tm] == CellSum(ss, b.digest, tm, range))
      && MapSum(b.byTimestamp) == b.total
  {
    var t := TallyAll(ss, range);
    TallySpec(ss, range);
    RankedBucket(ss, range, i);
    BucketOfCorrect(t, ss, range, ChartData(Some(ss), range)[i].digest);
  }

  /** The bucket a correct tally gives one digest: its total, its entries and their sum. */
  lemma {:induction false} BucketOfCorrect(t: Tally, ss: seq<Series>, range: Option<TimeRange>, d: string)
    requires TallyCorrect(t, ss, range)
    requires MapSum(MapOf(t, d)) == Lookup(t.sums, d)
    ensures var b := BucketOf(t, d);
      && b.total == DigestTotal(ss, d, range)
      && (forall tm :: tm in b.byTimestamp <==> HasCell(ss, d, tm, range))
      && (forall tm :: tm in b.byTimestamp ==> b.byTimestamp[tm] == CellSum(ss, d, tm, range))
      && MapSum(b.byTimestamp) == b.total
  {
  }

  /**
   * Ranking: totals never increase along the output, and digests with equal
   * totals keep their order of first appearance in the input.
   */
  lemma {:induction false} ChartRanking(ss: seq<Series>, range: Option<TimeRange>)
    ensures var r := ChartData(Some(ss), range);
      && (forall i, j :: 0 <= i < j < |r| ==> r[i].total >= r[j].total)
      && (forall v :: TiedDigests(r, v) == WithTotal(FirstAppearance(ss), ss, range, v))
  {
    var t := TallyAll(ss, range);
    TallySpec(ss, range);
    var bs := BucketsFor(t, t.digests);
    var r := ChartData(Some(ss), range);
    ByTotalDescTotalPreorder();
    StableSort.SortSorted(bs, ByTotalDesc);
    forall v
      ensures TiedDigests(r, v) == WithTotal(FirstAppearance(ss), ss, range, v)
    {
      StableSort.SortStable(bs, Bucket("", v, map[]), ByTotalDesc);
      TiedDigestsClass(bs, v);
      TiedDigestsClass(r, v);
      TiedDigestsFor(t, t.digests, ss, range, v);
    }
  }
}
