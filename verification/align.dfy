/**
 * Step 4 of `preparePlotData`: a single forward scan that projects one series'
 * samples onto the merged timeline, with `None` (JavaScript's `null`) where the
 * series has no sample.
 */
module SeriesAlign {
  import opened Options
  import opened Samples
  import TimestampMerge

  function Nones(n: nat): (r: seq<Option<nat>>)
    ensures |r| == n
    ensures forall i :: 0 <= i < n ==> r[i] == None
  {
    seq(n, _ => None)
  }

  /**
   * The scan from unread samples `vs` over the remaining timeline positions `ts`:
   * samples before the current position are skipped, a sample at it fills it, and
   * once the samples run out every later position stays empty.
   */
  function Align(vs: seq<Sample>, ts: seq<int>): (r: seq<Option<nat>>)
    ensures |r| == |ts|
    decreases |vs| + |ts|
  {
    if |ts| == 0 then []
    else if |vs| == 0 then Nones(|ts|)
    else if vs[0].timestamp < ts[0] then Align(vs[1..], ts)
    else if vs[0].timestamp == ts[0] then [Some(vs[0].cpuMs)] + Align(vs[1..], ts[1..])
    else [None] + Align(vs, ts[1..])
  }

  /**
   * The loop of `preparePlotData` as written, with its early exit once the
   * samples are drained: it computes `Align`.
   */
  method AlignScan(vs: seq<Sample>, ts: seq<int>) returns (data: seq<Option<nat>>)
    ensures data == Align(vs, ts)
    ensures |data| == |ts|
    ensures NonDecreasingTimestamps(vs) && TimestampMerge.Increasing(ts) ==>
              forall i :: 0 <= i < |ts| ==> data[i] == FirstAt(vs, ts[i])
  {
    var lenSrc, lenDest := |vs|, |ts|;
    ghost var target := Align(vs, ts);
    data := Nones(lenDest);
    var ptrSrc := 0;
    var ptrDest := 0;
    while ptrDest < lenDest
      invariant 0 <= ptrDest <= lenDest && 0 <= ptrSrc <= lenSrc
      invariant |data| == lenDest
      invariant data[..ptrDest] + Align(vs[ptrSrc..], ts[ptrDest..]) == target
      invariant forall k :: ptrDest <= k < lenDest ==> data[k] == None
    {
      ptrSrc := SkipBefore(vs, ts, ptrSrc, ptrDest);
      data, ptrSrc := Place(data, vs, ts, ptrSrc, ptrDest, target);
      if ptrSrc >= lenSrc {
        // the samples are drained: the remaining positions are already empty
        AlignDrained(vs, ts, ptrSrc, ptrDest, data);
        break;
      }
      ptrDest := ptrDest + 1;
    }
    assert ptrDest == lenDest ==> data[..ptrDest] == data;
    if NonDecreasingTimestamps(vs) && TimestampMerge.Increasing(ts) {
      AlignIsFirstAt(vs, ts);
    }
  }

  /** The inner loop: skips the samples taken before timeline position `d`. */
  method SkipBefore(vs: seq<Sample>, ts: seq<int>, p: nat, d: nat) returns (p': nat)
    requires p <= |vs| && d < |ts|
    ensures p <= p' <= |vs|
    ensures p' < |vs| ==> vs[p'].timestamp >= ts[d]
    ensures Align(vs[p'..], ts[d..]) == Align(vs[p..], ts[d..])
  {
    p' := p;
    while p' < |vs| && vs[p'].timestamp < ts[d]
      invariant p <= p' <= |vs|
      invariant Align(vs[p'..], ts[d..]) == Align(vs[p..], ts[d..])
    {
      AlignSkip(vs, ts, p', d);
      p' := p' + 1;
    }
  }

  /**
   * The body of the outer loop after the skip: position `d` takes the value of
   * the next sample if that sample sits exactly at `ts[d]`, and stays empty
   * otherwise.
   */
  method Place(data: seq<Option<nat>>, vs: seq<Sample>, ts: seq<int>, p: nat, d: nat,
               ghost target: seq<Option<nat>>)
    returns (data': seq<Option<nat>>, p': nat)
    requires p <= |vs| && d < |ts| == |data|
    requires p < |vs| ==> vs[p].timestamp >= ts[d]
    requires data[..d] + Align(vs[p..], ts[d..]) == target
    requires forall k :: d <= k < |data| ==> data[k] == None
    ensures |data'| == |data| && p <= p' <= |vs|
    ensures data'[..d + 1] + Align(vs[p'..], ts[d + 1..]) == target
    ensures forall k :: d < k < |data'| ==> data'[k] == None
  {
    if p < |vs| && vs[p].timestamp == ts[d] {
      FillStep(data, d, vs, ts, p, target);
      data', p' := data[d := Some(vs[p].cpuMs)], p + 1;
    } else if p < |vs| {
      MissStep(data, d, vs, ts, p, target);
      data', p' := data, p;
    } else {
      DrainedStep(data, d, vs, ts, p, target);
      data', p' := data, p;
    }
  }

  /** With no samples left, position `d` stays empty. */
  lemma {:induction false} DrainedStep(data: seq<Option<nat>>, d: nat, vs: seq<Sample>, ts: seq<int>, p: nat,
                    target: seq<Option<nat>>)
    requires p == |vs| && d < |ts| == |data| && data[d] == None
    requires data[..d] + Align(vs[p..], ts[d..]) == target
    ensures data[..d + 1] + Align(vs[p..], ts[d + 1..]) == target
  {
    assert vs[p..] == [];
    assert Align(vs[p..], ts[d..]) == [None] + Align(vs[p..], ts[d + 1..]);
    assert data[..d + 1] == data[..d] + [None];
  }

  /** Position `d` stays empty when the next sample lies after `ts[d]`. */
  lemma {:induction false} MissStep(data: seq<Option<nat>>, d: nat, vs: seq<Sample>, ts: seq<int>, p: nat,
                 target: seq<Option<nat>>)
    requires p < |vs| && d < |ts| == |data| && vs[p].timestamp > ts[d] && data[d] == None
    requires data[..d] + Align(vs[p..], ts[d..]) == target
    ensures data[..d + 1] + Align(vs[p..], ts[d + 1..]) == target
  {
    AlignMiss(vs, ts, p, d);
    assert data[..d + 1] == data[..d] + [None];
  }

  /** Position `d` takes the value of sample `p`, which sits exactly at `ts[d]`. */
  lemma {:induction false} FillStep(data: seq<Option<nat>>, d: nat, vs: seq<Sample>, ts: seq<int>, p: nat,
                 target: seq<Option<nat>>)
    requires p < |vs| && d < |ts| == |data| && vs[p].timestamp == ts[d]
    requires data[..d] + Align(vs[p..], ts[d..]) == target
    ensures data[d := Some(vs[p].cpuMs)][..d + 1] + Align(vs[p + 1..], ts[d + 1..]) == target
  {
    AlignHit(vs, ts, p, d);
    assert data[d := Some(vs[p].cpuMs)][..d + 1] == data[..d] + [Some(vs[p].cpuMs)];
  }

  lemma {:induction false} AlignSkip(vs: seq<Sample>, ts: seq<int>, p: nat, d: nat)
    requires p < |vs| && d < |ts| && vs[p].timestamp < ts[d]
    ensures Align(vs[p..], ts[d..]) == Align(vs[p + 1..], ts[d..])
  {
    assert vs[p..][1..] == vs[p + 1..];
  }

  lemma {:induction false} AlignHit(vs: seq<Sample>, ts: seq<int>, p: nat, d: nat)
    requires p < |vs| && d < |ts| && vs[p].timestamp == ts[d]
    ensures Align(vs[p..], ts[d..]) == [Some(vs[p].cpuMs)] + Align(vs[p + 1..], ts[d + 1..])
  {
    assert vs[p..][1..] == vs[p + 1..];
    assert ts[d..][1..] == ts[d + 1..];
  }

  lemma {:induction false} AlignMiss(vs: seq<Sample>, ts: seq<int>, p: nat, d: nat)
    requires p < |vs| && d < |ts| && vs[p].timestamp > ts[d]
    ensures Align(vs[p..], ts[d..]) == [None] + Align(vs[p..], ts[d + 1..])
  {
    assert ts[d..][1..] == ts[d + 1..];
  }

  lemma {:induction false} AlignDrained(vs: seq<Sample>, ts: seq<int>, p: nat, d: nat, data: seq<Option<nat>>)
    requires p == |vs| && d < |ts| && |data| == |ts|
    requires forall k :: d < k < |ts| ==> data[k] == None
    requires data[..d + 1] + Align(vs[p..], ts[d + 1..]) == Align(vs, ts)
    ensures data == Align(vs, ts)
  {
    assert vs[p..] == [];
    assert data[d + 1..] == Nones(|ts| - d - 1);
    assert data == data[..d + 1] + data[d + 1..];
  }

  lemma {:induction false} NoneBefore(vs: seq<Sample>, t: int)
    requires |vs| > 0 && NonDecreasingTimestamps(vs) && t < vs[0].timestamp
    ensures FirstAt(vs, t) == None
  {
    forall i | 0 <= i < |vs|
      ensures Timestamps(vs)[i] != t
    {
      assert vs[0].timestamp <= vs[i].timestamp;
    }
  }

  /**
   * Alignment is complete and sound: position `i` holds the value of the sample
   * taken at `ts[i]` (the first one, should there be several), and is empty
   * exactly when the series has no sample at that timestamp.
   */
  lemma {:induction false} AlignIsFirstAt(vs: seq<Sample>, ts: seq<int>)
    requires NonDecreasingTimestamps(vs)
    requires TimestampMerge.Increasing(ts)
    ensures forall i :: 0 <= i < |ts| ==> Align(vs, ts)[i] == FirstAt(vs, ts[i])
    decreases |vs| + |ts|
  {
    if |ts| == 0 || |vs| == 0 {
    } else if vs[0].timestamp < ts[0] {
      AlignIsFirstAt(vs[1..], ts);
      FirstAtSkip(vs, ts);
    } else if vs[0].timestamp == ts[0] {
      AlignIsFirstAt(vs[1..], ts[1..]);
      FirstAtHit(vs, ts);
    } else {
      AlignIsFirstAt(vs, ts[1..]);
      FirstAtMiss(vs, ts);
    }
  }

  lemma {:induction false} FirstAtSkip(vs: seq<Sample>, ts: seq<int>)
    requires |vs| > 0 && |ts| > 0 && vs[0].timestamp < ts[0]
    requires TimestampMerge.Increasing(ts)
    requires forall i :: 0 <= i < |ts| ==> Align(vs[1..], ts)[i] == FirstAt(vs[1..], ts[i])
    ensures forall i :: 0 <= i < |ts| ==> Align(vs, ts)[i] == FirstAt(vs, ts[i])
  {
    forall i | 0 <= i < |ts|
      ensures FirstAt(vs, ts[i]) == FirstAt(vs[1..], ts[i])
    {
      assert ts[0] <= ts[i];
    }
  }

  lemma {:induction false} FirstAtHit(vs: seq<Sample>, ts: seq<int>)
    requires |vs| > 0 && |ts| > 0 && vs[0].timestamp == ts[0]
    requires TimestampMerge.Increasing(ts)
    requires forall i :: 0 <= i < |ts| - 1 ==> Align(vs[1..], ts[1..])[i] == FirstAt(vs[1..], ts[1..][i])
    ensures forall i :: 0 <= i < |ts| ==> Align(vs, ts)[i] == FirstAt(vs, ts[i])
  {
    var rest := Align(vs[1..], ts[1..]);
    assert Align(vs, ts) == [Some(vs[0].cpuMs)] + rest;
    forall i | 0 <= i < |ts|
      ensures Align(vs, ts)[i] == FirstAt(vs, ts[i])
    {
      if i > 0 {
        assert ts[0] < ts[i];
        assert ts[1..][i - 1] == ts[i];
        assert rest[i - 1] == FirstAt(vs[1..], ts[i]);
      }
    }
  }

  lemma {:induction false} FirstAtMiss(vs: seq<Sample>, ts: seq<int>)
    requires |vs| > 0 && |ts| > 0 && vs[0].timestamp > ts[0]
    requires NonDecreasingTimestamps(vs)
    requires forall i :: 0 <= i < |ts| - 1 ==> Align(vs, ts[1..])[i] == FirstAt(vs, ts[1..][i])
    ensures forall i :: 0 <= i < |ts| ==> Align(vs, ts)[i] == FirstAt(vs, ts[i])
  {
    var rest := Align(vs, ts[1..]);
    assert Align(vs, ts) == [None] + rest;
    NoneBefore(vs, ts[0]);
    forall i | 0 <= i < |ts|
      ensures Align(vs, ts)[i] == FirstAt(vs, ts[i])
    {
      if i > 0 {
        assert ts[1..][i - 1] == ts[i];
        assert rest[i - 1] == FirstAt(vs, ts[i]);
      }
    }
  }
}
