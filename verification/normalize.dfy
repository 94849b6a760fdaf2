/**
 * The pure post-processing of `getSeriesData`: series sorted by digests, samples
 * sorted by timestamp, then each run of equal timestamps reduced to its first
 * sample, whose timestamp is converted from seconds to milliseconds.
 */
module SeriesNormalize {
  import opened Options
  import opened Samples
  import opened UiSeries

  const MillisPerSecond := 1000

  /**
   * The deduplicating pass over sorted samples, where `last` is the (unscaled)
   * timestamp kept most recently: a sample equal to it is dropped, any other is
   * kept with its timestamp scaled.
   */
  function DedupFrom(vs: seq<Sample>, last: Option<int>): (r: seq<Sample>)
    ensures |r| <= |vs|
    ensures forall i :: 0 <= i < |r| ==> r[i].timestamp % MillisPerSecond == 0
  {
    if |vs| == 0 then []
    else if last == Some(vs[0].timestamp) then DedupFrom(vs[1..], last)
    else
      [Sample(vs[0].timestamp * MillisPerSecond, vs[0].cpuMs)] + DedupFrom(vs[1..], Some(vs[0].timestamp))
  }

  /**
   * Steps 2 and 3 for one series: strictly increasing timestamps in whole
   * milliseconds, and never more samples than went in.
   */
  function NormalizeValues(vs: seq<Sample>): (r: seq<Sample>)
    ensures |r| <= |vs|
    ensures IncreasingTimestamps(r)
    ensures forall i :: 0 <= i < |r| ==> r[i].timestamp % MillisPerSecond == 0
  {
    DedupIncreasing(SortByTimestamp(vs), None);
    DedupFrom(SortByTimestamp(vs), None)
  }

  /** Steps 1 to 3: one series per input series, each with strictly increasing timestamps. */
  function Normalize(data: seq<Series>): (r: seq<Series>)
    ensures |r| == |data|
    ensures forall i :: 0 <= i < |r| ==> IncreasingTimestamps(r[i].values)
  {
    var sorted := SortSeries(data);
    seq(|sorted|, i requires 0 <= i < |sorted| => sorted[i].(values := NormalizeValues(sorted[i].values)))
  }

  /**
   * Looking up `t` seconds in the input and `t` thousand milliseconds in the output
   * find the same first sample: no first sample is lost and none is invented.
   */
  lemma {:induction false} DedupKeepsFirst(vs: seq<Sample>, last: Option<int>, t: int)
    requires last != Some(t)
    ensures FirstAt(DedupFrom(vs, last), t * MillisPerSecond) == FirstAt(vs, t)
  {
    if |vs| > 0 {
      if last == Some(vs[0].timestamp) {
        DedupKeepsFirst(vs[1..], last, t);
      } else if vs[0].timestamp != t {
        DedupKeepsFirst(vs[1..], Some(vs[0].timestamp), t);
      }
    }
  }

  predicate AtLeast(vs: seq<Sample>, last: Option<int>) {
    last.Some? ==> forall i :: 0 <= i < |vs| ==> last.value <= vs[i].timestamp
  }

  lemma {:induction false} DedupIncreasing(vs: seq<Sample>, last: Option<int>)
    requires NonDecreasingTimestamps(vs) && AtLeast(vs, last)
    ensures IncreasingTimestamps(DedupFrom(vs, last))
    ensures last.Some? ==>
      forall i :: 0 <= i < |DedupFrom(vs, last)| ==> last.value * MillisPerSecond < DedupFrom(vs, last)[i].timestamp
  {
    if |vs| > 0 {
      assert forall i :: 0 <= i < |vs| - 1 ==> vs[1..][i] == vs[i + 1];
      if last == Some(vs[0].timestamp) {
        DedupIncreasing(vs[1..], last);
      } else {
        DedupIncreasing(vs[1..], Some(vs[0].timestamp));
        var rest := DedupFrom(vs[1..], Some(vs[0].timestamp));
        var r := [Sample(vs[0].timestamp * MillisPerSecond, vs[0].cpuMs)] + rest;
        forall i, j | 0 <= i < j < |r|
          ensures r[i].timestamp < r[j].timestamp
        {
          assert r[j] == rest[j - 1];
          if i > 0 { assert r[i] == rest[i - 1]; }
        }
      }
    }
  }

  /**
   * One series after normalisation: strictly increasing millisecond timestamps,
   * each the scaled timestamp of the first input sample taken then, with that
   * sample's CPU time; every distinct input timestamp survives.
   */
  lemma {:induction false} NormalizeValuesSpec(vs: seq<Sample>)
    ensures |NormalizeValues(vs)| <= |vs|
    ensures IncreasingTimestamps(NormalizeValues(vs))
    ensures forall i :: 0 <= i < |NormalizeValues(vs)| ==> NormalizeValues(vs)[i].timestamp % MillisPerSecond == 0
    ensures forall t :: FirstAt(NormalizeValues(vs), t * MillisPerSecond) == FirstAt(vs, t)
    ensures forall t :: t in Timestamps(vs) <==> t * MillisPerSecond in Timestamps(NormalizeValues(vs))
  {
    DedupIncreasing(SortByTimestamp(vs), None);
    forall t
      ensures FirstAt(NormalizeValues(vs), t * MillisPerSecond) == FirstAt(vs, t)
      ensures t in Timestamps(vs) <==> t * MillisPerSecond in Timestamps(NormalizeValues(vs))
    {
      DedupKeepsFirst(SortByTimestamp(vs), None, t);
      SortKeepsSamplesAt(vs, t);
    }
  }

  /**
   * `getSeriesData` post-processing: the series, sorted as `SortSeries` sorts them,
   * each with its samples normalised as `NormalizeValuesSpec` states.
   */
  lemma {:induction false} NormalizeSpec(data: seq<Series>)
    ensures |Normalize(data)| == |data|
    ensures forall i, j :: 0 <= i < j < |data| ==> DigestOrdered(Normalize(data)[i], Normalize(data)[j])
    ensures forall i :: 0 <= i < |data| ==>
      var s, q := Normalize(data)[i], SortSeries(data)[i];
      && s.instance == q.instance && s.sqlDigest == q.sqlDigest && s.planDigest == q.planDigest
      && IncreasingTimestamps(s.values)
      && (forall t :: FirstAt(s.values, t * MillisPerSecond) == FirstAt(q.values, t))
      && (forall k :: 0 <= k < |s.values| ==> s.values[k].timestamp % MillisPerSecond == 0)
  {
    SortSeriesSpec(data);
    forall i | 0 <= i < |data| {
      NormalizeValuesSpec(SortSeries(data)[i].values);
    }
    assert forall i, j :: 0 <= i < j < |data| ==> DigestOrdered(SortSeries(data)[i], SortSeries(data)[j]);
  }
}
