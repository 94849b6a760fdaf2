/** A single CPU-time measurement, shared by the Go store and the UI (`Value` in both). */
module Samples {
  import opened Options
  import StableSort

  datatype Sample = Sample(timestamp: int, cpuMs: nat)

  /** The comparator `a.Timestamp - b.Timestamp`, read as "a sorts no later than b". */
  predicate ByTimestamp(a: Sample, b: Sample) {
    a.timestamp <= b.timestamp
  }

  /** The samples sort of `getSeriesData` and `preparePlotData`: a reordering into timestamp order. */
  function SortByTimestamp(vs: seq<Sample>): (r: seq<Sample>)
    ensures multiset(r) == multiset(vs)
    ensures NonDecreasingTimestamps(r)
  {
    ByTimestampTotalPreorder();
    StableSort.SortSorted(vs, ByTimestamp);
    StableSort.Sort(vs, ByTimestamp)
  }

  function Timestamps(vs: seq<Sample>): (ts: seq<int>)
    ensures |ts| == |vs|
    ensures forall i :: 0 <= i < |vs| ==> ts[i] == vs[i].timestamp
  {
    seq(|vs|, i requires 0 <= i < |vs| => vs[i].timestamp)
  }

  predicate NonDecreasingTimestamps(vs: seq<Sample>) {
    forall i, j :: 0 <= i < j < |vs| ==> vs[i].timestamp <= vs[j].timestamp
  }

  predicate IncreasingTimestamps(vs: seq<Sample>) {
    forall i, j :: 0 <= i < j < |vs| ==> vs[i].timestamp < vs[j].timestamp
  }

  /** No two samples share a timestamp. */
  predicate DistinctTimestamps(vs: seq<Sample>) {
    forall i, j :: 0 <= i < j < |vs| ==> vs[i].timestamp != vs[j].timestamp
  }

  /** The samples taken at `t`, in their order in `vs`. */
  function SamplesAt(vs: seq<Sample>, t: int): (r: seq<Sample>)
    ensures forall x :: x in r <==> x in vs && x.timestamp == t
  {
    if |vs| == 0 then []
    else (if vs[0].timestamp == t then [vs[0]] else []) + SamplesAt(vs[1..], t)
  }

  /** The CPU time of the first sample taken at `t`, if any. */
  function FirstAt(vs: seq<Sample>, t: int): (r: Option<nat>)
    ensures r.Some? <==> t in Timestamps(vs)
    ensures r.Some? ==> Sample(t, r.value) in vs
  {
    if |vs| == 0 then None
    else if vs[0].timestamp == t then Some(vs[0].cpuMs)
    else
      var r := FirstAt(vs[1..], t);
      assert t in Timestamps(vs) <==> t in Timestamps(vs[1..]) by {
        if t in Timestamps(vs) {
          var i :| 0 <= i < |vs| && vs[i].timestamp == t;
          assert Timestamps(vs[1..])[i - 1] == t;
        }
        if t in Timestamps(vs[1..]) {
          var i :| 0 <= i < |vs| - 1 && vs[1..][i].timestamp == t;
          assert Timestamps(vs)[i + 1] == t;
        }
      }
      r
  }

  lemma {:induction false} ByTimestampTotalPreorder()
    ensures StableSort.TotalPreorder(ByTimestamp)
  {
  }

  lemma {:induction false} SamplesAtIsClass(vs: seq<Sample>, t: int)
    ensures SamplesAt(vs, t) == StableSort.Class(vs, Sample(t, 0), ByTimestamp)
  {
    if |vs| > 0 {
      SamplesAtIsClass(vs[1..], t);
    }
  }

  lemma {:induction false} FirstAtIsHeadOfSamplesAt(vs: seq<Sample>, t: int)
    ensures FirstAt(vs, t) == (if |SamplesAt(vs, t)| == 0 then None else Some(SamplesAt(vs, t)[0].cpuMs))
  {
    if |vs| > 0 {
      FirstAtIsHeadOfSamplesAt(vs[1..], t);
      if vs[0].timestamp == t {
        assert SamplesAt(vs, t) == [vs[0]] + SamplesAt(vs[1..], t);
      } else {
        assert SamplesAt(vs, t) == SamplesAt(vs[1..], t);
        assert FirstAt(vs, t) == FirstAt(vs[1..], t);
      }
    }
  }

  /** Sorting by timestamp is stable: the samples at each timestamp keep their order. */
  lemma {:induction false} SortKeepsSamplesAt(vs: seq<Sample>, t: int)
    ensures SamplesAt(SortByTimestamp(vs), t) == SamplesAt(vs, t)
    ensures FirstAt(SortByTimestamp(vs), t) == FirstAt(vs, t)
  {
    ByTimestampTotalPreorder();
    StableSort.SortStable(vs, Sample(t, 0), ByTimestamp);
    SamplesAtIsClass(vs, t);
    SamplesAtIsClass(SortByTimestamp(vs), t);
    FirstAtIsHeadOfSamplesAt(vs, t);
    FirstAtIsHeadOfSamplesAt(SortByTimestamp(vs), t);
  }

  lemma {:induction false} NoneAt(vs: seq<Sample>, t: int)
    requires forall x :: x in vs ==> x.timestamp != t
    ensures SamplesAt(vs, t) == []
  {
    if |vs| > 0 {
      assert vs[0] in vs;
      NoneAt(vs[1..], t);
    }
  }

  lemma {:induction false} AtMostOneAt(vs: seq<Sample>, t: int)
    requires DistinctTimestamps(vs)
    ensures |SamplesAt(vs, t)| <= 1
  {
    if |vs| > 0 {
      AtMostOneAt(vs[1..], t);
      if vs[0].timestamp == t {
        forall x | x in vs[1..]
          ensures x.timestamp != t
        {
          var j :| 0 <= j < |vs[1..]| && vs[1..][j] == x;
          assert vs[j + 1] == x;
        }
        NoneAt(vs[1..], t);
      }
    }
  }

  lemma {:induction false} TwoAt(vs: seq<Sample>, i: int, j: int)
    requires 0 <= i < j < |vs| && vs[i].timestamp == vs[j].timestamp
    ensures |SamplesAt(vs, vs[i].timestamp)| >= 2
  {
    var t := vs[i].timestamp;
    if i == 0 {
      assert vs[j] in SamplesAt(vs[1..], t) by {
        assert vs[1..][j - 1] == vs[j];
      }
    } else {
      TwoAt(vs[1..], i - 1, j - 1);
    }
  }

  /** Sorting samples with distinct timestamps orders them strictly. */
  lemma {:induction false} SortDistinctIsIncreasing(vs: seq<Sample>)
    requires DistinctTimestamps(vs)
    ensures IncreasingTimestamps(SortByTimestamp(vs))
  {
    var r := SortByTimestamp(vs);
    forall i, j | 0 <= i < j < |r|
      ensures r[i].timestamp < r[j].timestamp
    {
      if r[i].timestamp == r[j].timestamp {
        TwoAt(r, i, j);
        SortKeepsSamplesAt(vs, r[i].timestamp);
        AtMostOneAt(vs, r[i].timestamp);
      }
    }
  }
}
