/**
 * `preparePlotData`: sort the series and their samples, merge every series'
 * timestamps into one timeline and re-align each series onto it.
 */
module PlotPrepare {
  import opened Options
  import opened Samples
  import opened UiSeries
  import TimestampMerge
  import SeriesAlign

  datatype PlotSeries = PlotSeries(sqlDigest: string, planDigest: Option<string>, data: seq<Option<nat>>)

  datatype PlotData = PlotData(timestamps: seq<int>, series: seq<PlotSeries>)

  /** Steps 0 and 1: series in digest order, each with its samples in timestamp order. */
  function SortAll(data: seq<Series>): (w: seq<Series>)
    ensures |w| == |data|
    ensures forall i, j :: 0 <= i < j < |w| ==> DigestOrdered(w[i], w[j])
    ensures forall i :: 0 <= i < |w| ==> NonDecreasingTimestamps(w[i].values)
  {
    var sorted := SortSeries(data);
    seq(|sorted|, i requires 0 <= i < |sorted| => sorted[i].(values := SortByTimestamp(sorted[i].values)))
  }

  /** Step 2: the timestamps of each series. */
  function TimestampsOf(w: seq<Series>): (tss: seq<seq<int>>)
    ensures |tss| == |w|
  {
    seq(|w|, i requires 0 <= i < |w| => Timestamps(w[i].values))
  }

  function PreparePlotData(data: seq<Series>): (p: PlotData)
    ensures |data| == 0 ==> p == PlotData([], [])
    ensures |p.series| == |data|
    ensures forall i :: 0 <= i < |p.series| ==> |p.series[i].data| == |p.timestamps|
  {
    if |data| == 0 then PlotData([], [])
    else
      var w := SortAll(data);
      var merged := Timeline(data);
      PlotData(
        merged,
        seq(|w|, i requires 0 <= i < |w| =>
          PlotSeries(w[i].sqlDigest, w[i].planDigest, SeriesAlign.Align(w[i].values, merged))))
  }

  /** Step 3: the merged timeline, holding the timestamps of every series and no others. */
  function Timeline(data: seq<Series>): (r: seq<int>)
    requires |data| > 0
    ensures TimestampMerge.Elems(r) == TimestampMerge.UnionOf(TimestampsOf(SortAll(data)))
  {
    var tss := TimestampsOf(SortAll(data));
    TimestampMerge.MergeTimestampsElems(tss, 0, |tss| - 1);
    assert tss[0..|tss|] == tss;
    TimestampMerge.MergeTimestamps(tss, 0, |tss| - 1).value
  }

  /** Each sorted series is some input series with its samples sorted. */
  lemma {:induction false} SortAllFacts(data: seq<Series>, i: int)
    requires 0 <= i < |data|
    ensures SortSeries(data)[i] in data
    ensures SortAll(data)[i] == SortSeries(data)[i].(values := SortByTimestamp(SortSeries(data)[i].values))
    ensures NonDecreasingTimestamps(SortAll(data)[i].values)
    ensures forall t :: FirstAt(SortAll(data)[i].values, t) == FirstAt(SortSeries(data)[i].values, t)
  {
    SortSeriesSpec(data);
    assert SortSeries(data)[i] in multiset(SortSeries(data));
    forall t {
      SortKeepsSamplesAt(SortSeries(data)[i].values, t);
    }
  }

  /** Every input series occurs somewhere in the sorted list. */
  lemma {:induction false} SortedCovers(data: seq<Series>, s: Series) returns (i: int)
    requires s in data
    ensures 0 <= i < |data| && SortSeries(data)[i] == s
  {
    SortSeriesSpec(data);
    assert s in multiset(SortSeries(data));
    i :| 0 <= i < |data| && SortSeries(data)[i] == s;
  }

  /** The timeline is strictly increasing and holds exactly the timestamps of the samples. */
  lemma {:induction false} TimelineSpec(data: seq<Series>)
    requires |data| > 0
    requires forall s :: s in data ==> DistinctTimestamps(s.values)
    ensures TimestampMerge.Increasing(Timeline(data))
    ensures forall t :: t in Timeline(data) <==> exists s :: s in data && t in Timestamps(s.values)
  {
    var tss := TimestampsOf(SortAll(data));
    var merged := Timeline(data);
    assert TimestampMerge.Increasing(merged) && TimestampMerge.Elems(merged) == TimestampMerge.UnionOf(tss) by {
      SeriesIncreasing(data);
      TimestampMerge.MergeTimestampsUnion(tss, 0, |tss| - 1);
      assert tss[0..|tss|] == tss;
    }
    forall t
      ensures t in merged <==> exists s :: s in data && t in Timestamps(s.values)
    {
      assert t in merged <==> t in TimestampMerge.UnionOf(tss);
      TimestampMerge.UnionOfMembers(tss, t);
      TimelineMember(data, t);
    }
  }

  /** Each series' sorted timestamps are strictly increasing. */
  lemma {:induction false} SeriesIncreasing(data: seq<Series>)
    requires forall s :: s in data ==> DistinctTimestamps(s.values)
    ensures forall i :: 0 <= i < |data| ==> TimestampMerge.Increasing(TimestampsOf(SortAll(data))[i])
  {
    var w := SortAll(data);
    forall i | 0 <= i < |data|
      ensures TimestampMerge.Increasing(TimestampsOf(w)[i])
    {
      SortAllFacts(data, i);
      SortDistinctIsIncreasing(SortSeries(data)[i].values);
      assert TimestampMerge.Increasing(Timestamps(w[i].values));
    }
  }

  /** A timestamp occurs in some sorted series exactly when it occurs in some input series. */
  lemma {:induction false} TimelineMember(data: seq<Series>, t: int)
    ensures (exists i :: 0 <= i < |data| && t in TimestampsOf(SortAll(data))[i])
        <==> exists s :: s in data && t in Timestamps(s.values)
  {
    var w := SortAll(data);
    var tss := TimestampsOf(w);
    if exists i :: 0 <= i < |data| && t in tss[i] {
      var i :| 0 <= i < |data| && t in tss[i];
      SortAllFacts(data, i);
      assert FirstAt(w[i].values, t).Some?;
      assert t in Timestamps(SortSeries(data)[i].values);
    }
    if exists s :: s in data && t in Timestamps(s.values) {
      var s :| s in data && t in Timestamps(s.values);
      var i := SortedCovers(data, s);
      SortAllFacts(data, i);
      assert FirstAt(s.values, t).Some?;
      assert t in tss[i];
    }
  }

  /**
   * `preparePlotData` on series without repeated timestamps: one plot series per
   * input series in digest order, carrying its digests, and position `j` holds the
   * CPU time of that series' sample at `timestamps[j]`, or nothing if it has none.
   */
  lemma {:induction false} PreparePlotDataSpec(data: seq<Series>)
    requires forall s :: s in data ==> DistinctTimestamps(s.values)
    ensures TimestampMerge.Increasing(PreparePlotData(data).timestamps)
    ensures forall t :: t in PreparePlotData(data).timestamps <==>
              exists s :: s in data && t in Timestamps(s.values)
    ensures forall i :: 0 <= i < |data| ==>
      var ps, q := PreparePlotData(data).series[i], SortSeries(data)[i];
      && ps.sqlDigest == q.sqlDigest && ps.planDigest == q.planDigest
      && forall j :: 0 <= j < |ps.data| ==> ps.data[j] == FirstAt(q.values, PreparePlotData(data).timestamps[j])
  {
    if |data| > 0 {
      TimelineSpec(data);
      assert PreparePlotData(data).timestamps == Timeline(data);
      var p := PreparePlotData(data);
      var w := SortAll(data);
      forall i | 0 <= i < |data|
        ensures forall j :: 0 <= j < |p.series[i].data| ==>
                  p.series[i].data[j] == FirstAt(SortSeries(data)[i].values, p.timestamps[j])
      {
        SortAllFacts(data, i);
        SeriesAlign.AlignIsFirstAt(w[i].values, p.timestamps);
      }
    }
  }
}
