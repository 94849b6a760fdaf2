/**
 * Merging the per-series timestamp arrays into one timeline: `mergeTwoTimestamps`
 * (a two-pointer merge that drops any value equal to the one emitted just before it)
 * and `mergeTimestamps` (a balanced divide-and-conquer fold of it over index ranges).
 */
module TimestampMerge {
  import opened Options

  predicate Increasing(s: seq<int>) {
    forall i, j :: 0 <= i < j < |s| ==> s[i] < s[j]
  }

  predicate NonDecreasing(s: seq<int>) {
    forall i, j :: 0 <= i < j < |s| ==> s[i] <= s[j]
  }

  predicate NoAdjacentDuplicates(s: seq<int>) {
    forall i :: 0 <= i < |s| - 1 ==> s[i] != s[i + 1]
  }

  function Elems(s: seq<int>): set<int> {
    set x | x in s
  }

  /** The union of the elements of all the sequences in `xs`. */
  function UnionOf(xs: seq<seq<int>>): set<int> {
    if |xs| == 0 then {} else Elems(xs[0]) + UnionOf(xs[1..])
  }

  /** Whether the merge takes its next value from `a` rather than from `b`; ties go to `b`. */
  predicate TakeFromA(a: seq<int>, b: seq<int>) {
    if |a| == 0 then false
    else if |b| == 0 then true
    else a[0] < b[0]
  }

  /** One step of the two pointers: the value read and what is left of each input. */
  function Next(a: seq<int>, b: seq<int>): (n: (int, seq<int>, seq<int>))
    requires |a| + |b| > 0
    ensures |n.1| + |n.2| == |a| + |b| - 1
  {
    if TakeFromA(a, b) then (a[0], a[1..], b) else (b[0], a, b[1..])
  }

  /**
   * The rest of the two-pointer merge when `a` and `b` are the unread parts of the
   * inputs and `last` is the value emitted most recently (`None` before the first).
   */
  function MergeFrom(a: seq<int>, b: seq<int>, last: Option<int>): (r: seq<int>)
    ensures |r| <= |a| + |b|
    ensures NoAdjacentDuplicates(r)
    ensures |r| > 0 && last.Some? ==> r[0] != last.value
    decreases |a| + |b|
  {
    if |a| == 0 && |b| == 0 then []
    else
      var (cur, a', b') := Next(a, b);
      if last == Some(cur) then MergeFrom(a', b', last)
      else [cur] + MergeFrom(a', b', Some(cur))
  }

  /**
   * `mergeTwoTimestamps` on two defined arrays: it never needs more than the
   * `a.length + b.length` slots it allocates, and no value directly follows itself.
   */
  function MergeSorted(a: seq<int>, b: seq<int>): (r: seq<int>)
    ensures |r| <= |a| + |b|
    ensures NoAdjacentDuplicates(r)
  {
    MergeFrom(a, b, None)
  }

  /** `mergeTwoTimestamps`: an undefined argument yields the other one unchanged. */
  function MergeTwoTimestamps(a: Option<seq<int>>, b: Option<seq<int>>): (r: Option<seq<int>>)
    ensures a.None? ==> r == b
    ensures b.None? ==> r == a
    ensures a.Some? && b.Some? ==> r.Some? && |r.value| <= |a.value| + |b.value|
    ensures a.Some? && b.Some? ==> NoAdjacentDuplicates(r.value)
  {
    if a.None? || b.None? then
      (if a.Some? then a else b)
    else
      Some(MergeSorted(a.value, b.value))
  }

  /** `mergeTimestamps(xs, l, r)`: an out-of-range index reads as `undefined`, as in JavaScript. */
  function MergeTimestamps(xs: seq<seq<int>>, l: int, r: int): (m: Option<seq<int>>)
    ensures l > r ==> m.None?
    ensures l == r ==> m == if 0 <= l < |xs| then Some(xs[l]) else None
    ensures 0 <= l <= r < |xs| ==> m.Some?
    decreases r - l
  {
    if l == r then
      (if 0 <= l < |xs| then Some(xs[l]) else None)
    else if l > r then None
    else
      var mid := (l + r) / 2;
      MergeTwoTimestamps(MergeTimestamps(xs, l, mid), MergeTimestamps(xs, mid + 1, r))
  }

  /**
   * The loop of `mergeTwoTimestamps`, step by step: it computes the same sequence
   * as `MergeSorted`.
   */
  method MergeTwoScan(a: seq<int>, b: seq<int>) returns (result: seq<int>)
    ensures result == MergeSorted(a, b)
    ensures |result| <= |a| + |b|
    ensures NonDecreasing(a) && NonDecreasing(b) ==>
              Increasing(result) && Elems(result) == Elems(a) + Elems(b)
  {
    var ptrA, ptrB := 0, 0;
    var lastResult: Option<int> := None;
    result := [];
    while ptrA < |a| || ptrB < |b|
      invariant 0 <= ptrA <= |a| && 0 <= ptrB <= |b|
      invariant result + MergeFrom(a[ptrA..], b[ptrB..], lastResult) == MergeFrom(a, b, None)
      decreases |a| - ptrA + |b| - ptrB
    {
      ghost var rest := MergeFrom(a[ptrA..], b[ptrB..], lastResult);
      MergeFromUnfold(a[ptrA..], b[ptrB..], lastResult);
      var cur;
      cur, ptrA, ptrB := ReadNext(a, b, ptrA, ptrB);
      ghost var tail := MergeFrom(a[ptrA..], b[ptrB..], Some(cur));
      if Some(cur) != lastResult {
        assert rest == [cur] + tail;
        assert (result + [cur]) + tail == result + rest;
        result := result + [cur];
        lastResult := Some(cur);
      }
    }
    assert a[ptrA..] == [] && b[ptrB..] == [];
    if NonDecreasing(a) && NonDecreasing(b) {
      MergeSortedUnion(a, b);
    }
  }

  /** The pointer moves of one loop iteration, as in `mergeTwoTimestamps`. */
  method ReadNext(a: seq<int>, b: seq<int>, ptrA: nat, ptrB: nat) returns (cur: int, ptrA': nat, ptrB': nat)
    requires ptrA <= |a| && ptrB <= |b| && (ptrA < |a| || ptrB < |b|)
    ensures ptrA' <= |a| && ptrB' <= |b| && ptrA' + ptrB' == ptrA + ptrB + 1
    ensures Next(a[ptrA..], b[ptrB..]) == (cur, a[ptrA'..], b[ptrB'..])
  {
    NextAt(a, b, ptrA, ptrB);
    if ptrA == |a| {
      cur, ptrA', ptrB' := b[ptrB], ptrA, ptrB + 1;
    } else if ptrB == |b| {
      cur, ptrA', ptrB' := a[ptrA], ptrA + 1, ptrB;
    } else if a[ptrA] < b[ptrB] {
      cur, ptrA', ptrB' := a[ptrA], ptrA + 1, ptrB;
    } else {
      cur, ptrA', ptrB' := b[ptrB], ptrA, ptrB + 1;
    }
  }

  /** One iteration of the merge: `cur` is emitted unless it repeats `last`. */
  lemma {:induction false} MergeFromUnfold(a: seq<int>, b: seq<int>, last: Option<int>)
    requires |a| + |b| > 0
    ensures var (cur, a', b') := Next(a, b);
      MergeFrom(a, b, last) == (if last == Some(cur) then [] else [cur]) + MergeFrom(a', b', Some(cur))
  {
  }

  /** The branches of the loop body read the same value as `Next` on the unread parts. */
  lemma {:induction false} NextAt(a: seq<int>, b: seq<int>, pa: int, pb: int)
    requires 0 <= pa <= |a| && 0 <= pb <= |b| && (pa < |a| || pb < |b|)
    ensures Next(a[pa..], b[pb..]) ==
      if pa < |a| && (pb == |b| || a[pa] < b[pb]) then (a[pa], a[pa + 1..], b[pb..])
      else (b[pb], a[pa..], b[pb + 1..])
  {
    assert pa < |a| ==> a[pa..][1..] == a[pa + 1..];
    assert pb < |b| ==> b[pb..][1..] == b[pb + 1..];
  }

  // ---------------------------------------------------------------------------
  // Properties of the merge

  predicate AtLeast(s: seq<int>, lo: Option<int>) {
    lo.Some? ==> forall i :: 0 <= i < |s| ==> lo.value <= s[i]
  }

  function Without(s: set<int>, last: Option<int>): set<int> {
    if last.Some? then s - {last.value} else s
  }

  /** The value read is the least one left, and both remainders stay sorted. */
  lemma {:induction false} NextSorted(a: seq<int>, b: seq<int>, last: Option<int>)
    requires |a| + |b| > 0
    requires NonDecreasing(a) && NonDecreasing(b)
    requires AtLeast(a, last) && AtLeast(b, last)
    ensures var (cur, a', b') := Next(a, b);
      && NonDecreasing(a') && NonDecreasing(b')
      && AtLeast(a', Some(cur)) && AtLeast(b', Some(cur))
      && AtLeast([cur], last)
      && Elems(a) + Elems(b) == {cur} + Elems(a') + Elems(b')
  {
    if TakeFromA(a, b) {
      HeadSplit(a, last);
      RaiseBound(b, a[0]);
    } else {
      HeadSplit(b, last);
      RaiseBound(a, b[0]);
    }
  }

  /** Reading the head of a sorted input: the rest stays sorted and lies above the head. */
  lemma {:induction false} HeadSplit(a: seq<int>, last: Option<int>)
    requires |a| > 0 && NonDecreasing(a) && AtLeast(a, last)
    ensures NonDecreasing(a[1..]) && AtLeast(a[1..], Some(a[0])) && AtLeast([a[0]], last)
    ensures Elems(a) == {a[0]} + Elems(a[1..])
  {
    assert a == [a[0]] + a[1..];
    assert forall i :: 0 <= i < |a| - 1 ==> a[1..][i] == a[i + 1];
  }

  lemma {:induction false} RaiseBound(b: seq<int>, cur: int)
    requires NonDecreasing(b) && (|b| > 0 ==> cur <= b[0])
    ensures AtLeast(b, Some(cur))
  {
    forall i | 0 <= i < |b|
      ensures cur <= b[i]
    {
      assert b[0] <= b[i];
    }
  }

  lemma {:induction false} ConsIncreasing(cur: int, rest: seq<int>)
    requires Increasing(rest)
    requires forall x :: x in rest ==> cur < x
    ensures Increasing([cur] + rest)
    ensures Elems([cur] + rest) == {cur} + Elems(rest)
  {
    var r := [cur] + rest;
    forall i, j | 0 <= i < j < |r|
      ensures r[i] < r[j]
    {
      assert r[j] == rest[j - 1];
      if i == 0 {
        assert r[j] in rest;
      } else {
        assert r[i] == rest[i - 1];
      }
    }
  }

  lemma {:induction false} MergeFromSorted(a: seq<int>, b: seq<int>, last: Option<int>)
    requires NonDecreasing(a) && NonDecreasing(b)
    requires AtLeast(a, last) && AtLeast(b, last)
    ensures Increasing(MergeFrom(a, b, last))
    ensures last.Some? ==> forall x :: x in MergeFrom(a, b, last) ==> last.value < x
    ensures Elems(MergeFrom(a, b, last)) == Without(Elems(a) + Elems(b), last)
    decreases |a| + |b|
  {
    if |a| + |b| > 0 {
      var (cur, a', b') := Next(a, b);
      NextSorted(a, b, last);
      if last == Some(cur) {
        MergeFromSorted(a', b', last);
        assert MergeFrom(a, b, last) == MergeFrom(a', b', last);
      } else {
        var rest := MergeFrom(a', b', Some(cur));
        assert MergeFrom(a, b, last) == [cur] + rest;
        assert Increasing(rest) && (forall x :: x in rest ==> cur < x)
            && Elems(rest) == Elems(a') + Elems(b') - {cur} by {
          MergeFromSorted(a', b', Some(cur));
        }
        ConsIncreasing(cur, rest);
        EmitBelow(a', b', cur, last);
      }
    }
  }

  /** A value emitted after `last` lies strictly between `last` and everything left unread. */
  lemma {:induction false} EmitBelow(a': seq<int>, b': seq<int>, cur: int, last: Option<int>)
    requires AtLeast(a', Some(cur)) && AtLeast(b', Some(cur)) && AtLeast([cur], last)
    requires last != Some(cur)
    ensures last.Some? ==> last.value < cur && last.value !in {cur} + Elems(a') + Elems(b')
  {
    if last.Some? {
      assert [cur][0] == cur;
      forall x | x in Elems(a') + Elems(b')
        ensures cur <= x
      {
        if x in Elems(a') {
          var i :| 0 <= i < |a'| && a'[i] == x;
        } else {
          var i :| 0 <= i < |b'| && b'[i] == x;
        }
      }
    }
  }

  /** Reading one value leaves the values of both inputs, that one aside, unread. */
  lemma {:induction false} NextElems(a: seq<int>, b: seq<int>)
    requires |a| + |b| > 0
    ensures var (cur, a', b') := Next(a, b);
      Elems(a) + Elems(b) == {cur} + Elems(a') + Elems(b')
  {
    if TakeFromA(a, b) {
      assert a == [a[0]] + a[1..];
    } else {
      assert b == [b[0]] + b[1..];
    }
  }

  /**
   * Sorted or not, the merge loses no value and invents none; only a value equal to
   * `last` may be left out, since it was emitted just before.
   */
  lemma {:induction false} MergeFromElems(a: seq<int>, b: seq<int>, last: Option<int>)
    ensures Elems(MergeFrom(a, b, last)) <= Elems(a) + Elems(b)
    ensures Without(Elems(a) + Elems(b), last) <= Elems(MergeFrom(a, b, last))
    decreases |a| + |b|
  {
    if |a| + |b| > 0 {
      var (cur, a', b') := Next(a, b);
      NextElems(a, b);
      MergeFromElems(a', b', Some(cur));
      if last == Some(cur) {
        assert MergeFrom(a, b, last) == MergeFrom(a', b', last);
      } else {
        var rest := MergeFrom(a', b', Some(cur));
        assert MergeFrom(a, b, last) == [cur] + rest;
        assert Elems([cur] + rest) == {cur} + Elems(rest);
      }
    }
  }

  /** Sorted or not, the merge holds exactly the values of its two inputs. */
  lemma {:induction false} MergeSortedElems(a: seq<int>, b: seq<int>)
    ensures Elems(MergeSorted(a, b)) == Elems(a) + Elems(b)
  {
    MergeFromElems(a, b, None);
  }

  /** Merging two sorted arrays gives the strictly increasing union of their values. */
  lemma {:induction false} MergeSortedUnion(a: seq<int>, b: seq<int>)
    requires NonDecreasing(a) && NonDecreasing(b)
    ensures Increasing(MergeSorted(a, b))
    ensures Elems(MergeSorted(a, b)) == Elems(a) + Elems(b)
  {
    MergeFromSorted(a, b, None);
  }

  lemma {:induction false} IncreasingCardinality(s: seq<int>)
    requires Increasing(s)
    ensures |Elems(s)| == |s|
  {
    if |s| > 0 {
      IncreasingCardinality(s[1..]);
      assert Elems(s) == {s[0]} + Elems(s[1..]);
      assert s[0] !in Elems(s[1..]);
    }
  }

  /** A strictly increasing sequence is determined by its set of values. */
  lemma {:induction false} IncreasingUnique(x: seq<int>, y: seq<int>)
    requires Increasing(x) && Increasing(y)
    requires Elems(x) == Elems(y)
    ensures x == y
  {
    IncreasingCardinality(x);
    IncreasingCardinality(y);
    if |x| > 0 {
      assert x[0] in Elems(y) && y[0] in Elems(x);
      assert x[0] == y[0];
      assert Elems(x[1..]) == Elems(x) - {x[0]} by {
        assert x == [x[0]] + x[1..];
      }
      assert Elems(y[1..]) == Elems(y) - {y[0]} by {
        assert y == [y[0]] + y[1..];
      }
      IncreasingUnique(x[1..], y[1..]);
      assert x == [x[0]] + x[1..] && y == [y[0]] + y[1..];
    }
  }

  /**
   * For strictly increasing inputs the merged length is at most the sum of the
   * lengths, with equality exactly when the inputs share no value.
   */
  lemma {:induction false} MergeCardinality(a: seq<int>, b: seq<int>)
    requires Increasing(a) && Increasing(b)
    ensures |MergeSorted(a, b)| <= |a| + |b|
    ensures |MergeSorted(a, b)| == |a| + |b| <==> Elems(a) !! Elems(b)
  {
    MergeSortedUnion(a, b);
    IncreasingCardinality(a);
    IncreasingCardinality(b);
    IncreasingCardinality(MergeSorted(a, b));
    var A, B := Elems(a), Elems(b);
    assert |A + B| + |A * B| == |A| + |B|;
    if A !! B {
      assert A * B == {};
    } else {
      var x :| x in A && x in B;
      assert x in A * B;
    }
    assert |A * B| == 0 <==> A * B == {};
  }

  /** Merging is idempotent, commutative and associative on strictly increasing arrays. */
  lemma {:induction false} MergeAlgebra(a: seq<int>, b: seq<int>, c: seq<int>)
    requires Increasing(a) && Increasing(b) && Increasing(c)
    ensures MergeSorted(a, a) == a
    ensures MergeSorted(a, b) == MergeSorted(b, a)
    ensures MergeSorted(MergeSorted(a, b), c) == MergeSorted(a, MergeSorted(b, c))
  {
    MergeSortedUnion(a, a);
    IncreasingUnique(MergeSorted(a, a), a);
    MergeSortedUnion(a, b);
    MergeSortedUnion(b, a);
    IncreasingUnique(MergeSorted(a, b), MergeSorted(b, a));
    MergeSortedUnion(b, c);
    MergeSortedUnion(MergeSorted(a, b), c);
    MergeSortedUnion(a, MergeSorted(b, c));
    IncreasingUnique(MergeSorted(MergeSorted(a, b), c), MergeSorted(a, MergeSorted(b, c)));
  }

  lemma {:induction false} UnionOfAppend(xs: seq<seq<int>>, ys: seq<seq<int>>)
    ensures UnionOf(xs + ys) == UnionOf(xs) + UnionOf(ys)
  {
    if |xs| == 0 {
      assert xs + ys == ys;
    } else {
      assert (xs + ys)[1..] == xs[1..] + ys;
      UnionOfAppend(xs[1..], ys);
    }
  }

  lemma {:induction false} UnionOfMembers(xs: seq<seq<int>>, t: int)
    ensures t in UnionOf(xs) <==> exists i :: 0 <= i < |xs| && t in xs[i]
  {
    if |xs| > 0 {
      UnionOfMembers(xs[1..], t);
      if exists i :: 0 <= i < |xs| && t in xs[i] {
        var i :| 0 <= i < |xs| && t in xs[i];
        if i > 0 { assert xs[1..][i - 1] == xs[i]; }
      }
      if exists i :: 0 <= i < |xs| - 1 && t in xs[1..][i] {
        var i :| 0 <= i < |xs| - 1 && t in xs[1..][i];
        assert xs[i + 1] == xs[1..][i];
      }
    }
  }

  /**
   * `mergeTimestamps(xs, l, r)` over strictly increasing arrays is the strictly
   * increasing union of `xs[l..r]` (both ends included).
   */
  lemma {:induction false} MergeTimestampsUnion(xs: seq<seq<int>>, l: int, r: int)
    requires 0 <= l <= r < |xs|
    requires forall i :: l <= i <= r ==> Increasing(xs[i])
    ensures MergeTimestamps(xs, l, r).Some?
    ensures Increasing(MergeTimestamps(xs, l, r).value)
    ensures Elems(MergeTimestamps(xs, l, r).value) == UnionOf(xs[l..r + 1])
  {
    MergeTimestampsIncreasing(xs, l, r);
    MergeTimestampsElems(xs, l, r);
  }

  lemma {:induction false} MergeTimestampsIncreasing(xs: seq<seq<int>>, l: int, r: int)
    requires 0 <= l <= r < |xs|
    requires forall i :: l <= i <= r ==> Increasing(xs[i])
    ensures MergeTimestamps(xs, l, r).Some?
    ensures Increasing(MergeTimestamps(xs, l, r).value)
    decreases r - l, 1
  {
    if l == r {
      ElemsSingle(xs, l);
      assert Increasing(xs[l]);
    } else {
      IncreasingHalves(xs, l, r);
    }
  }

  lemma {:induction false} IncreasingHalves(xs: seq<seq<int>>, l: int, r: int)
    requires 0 <= l < r < |xs|
    requires forall i :: l <= i <= r ==> Increasing(xs[i])
    ensures MergeTimestamps(xs, l, r).Some?
    ensures Increasing(MergeTimestamps(xs, l, r).value)
    decreases r - l, 0
  {
    var mid := (l + r) / 2;
    assert l <= mid < r;
    MergeTimestampsIncreasing(xs, l, mid);
    MergeTimestampsIncreasing(xs, mid + 1, r);
    IncreasingStep(xs, l, mid, r);
  }

  lemma {:induction false} IncreasingStep(xs: seq<seq<int>>, l: int, mid: int, r: int)
    requires 0 <= l < r < |xs| && mid == (l + r) / 2
    requires MergeTimestamps(xs, l, mid).Some? && Increasing(MergeTimestamps(xs, l, mid).value)
    requires MergeTimestamps(xs, mid + 1, r).Some? && Increasing(MergeTimestamps(xs, mid + 1, r).value)
    ensures MergeTimestamps(xs, l, r).Some?
    ensures Increasing(MergeTimestamps(xs, l, r).value)
  {
    assert l <= mid < r;
    var left, right := MergeTimestamps(xs, l, mid).value, MergeTimestamps(xs, mid + 1, r).value;
    assert MergeTimestamps(xs, l, r) == Some(MergeSorted(left, right));
    assert NonDecreasing(left) && NonDecreasing(right);
    MergeSortedUnion(left, right);
  }

  /** Unsorted or not, `mergeTimestamps(xs, l, r)` holds exactly the values of `xs[l..r]`. */
  lemma {:induction false} MergeTimestampsElems(xs: seq<seq<int>>, l: int, r: int)
    requires 0 <= l <= r < |xs|
    ensures MergeTimestamps(xs, l, r).Some?
    ensures Elems(MergeTimestamps(xs, l, r).value) == UnionOf(xs[l..r + 1])
    decreases r - l, 1
  {
    if l == r {
      ElemsSingle(xs, l);
    } else {
      ElemsHalves(xs, l, r);
    }
  }

  lemma {:induction false} ElemsHalves(xs: seq<seq<int>>, l: int, r: int)
    requires 0 <= l < r < |xs|
    ensures MergeTimestamps(xs, l, r).Some?
    ensures Elems(MergeTimestamps(xs, l, r).value) == UnionOf(xs[l..r + 1])
    decreases r - l, 0
  {
    var mid := (l + r) / 2;
    assert l <= mid < r;
    MergeTimestampsElems(xs, l, mid);
    MergeTimestampsElems(xs, mid + 1, r);
    ElemsStep(xs, l, mid, r);
  }

  lemma {:induction false} ElemsStep(xs: seq<seq<int>>, l: int, mid: int, r: int)
    requires 0 <= l < r < |xs| && mid == (l + r) / 2
    requires MergeTimestamps(xs, l, mid).Some? && Elems(MergeTimestamps(xs, l, mid).value) == UnionOf(xs[l..mid + 1])
    requires MergeTimestamps(xs, mid + 1, r).Some?
    requires Elems(MergeTimestamps(xs, mid + 1, r).value) == UnionOf(xs[mid + 1..r + 1])
    ensures MergeTimestamps(xs, l, r).Some?
    ensures Elems(MergeTimestamps(xs, l, r).value) == UnionOf(xs[l..r + 1])
  {
    assert l <= mid < r;
    var left, right := MergeTimestamps(xs, l, mid).value, MergeTimestamps(xs, mid + 1, r).value;
    assert MergeTimestamps(xs, l, r) == MergeTwoTimestamps(MergeTimestamps(xs, l, mid), MergeTimestamps(xs, mid + 1, r));
    MergeSortedElems(left, right);
    UnionSplit(xs, l, mid, r);
  }

  /** The union over a range is the union over its two halves. */
  lemma {:induction false} UnionSplit(xs: seq<seq<int>>, l: int, m: int, r: int)
    requires 0 <= l <= m < r < |xs|
    ensures UnionOf(xs[l..r + 1]) == UnionOf(xs[l..m + 1]) + UnionOf(xs[m + 1..r + 1])
  {
    UnionOfAppend(xs[l..m + 1], xs[m + 1..r + 1]);
    assert xs[l..r + 1] == xs[l..m + 1] + xs[m + 1..r + 1];
  }

  lemma {:induction false} ElemsSingle(xs: seq<seq<int>>, l: int)
    requires 0 <= l < |xs|
    ensures MergeTimestamps(xs, l, l) == Some(xs[l])
    ensures Elems(MergeTimestamps(xs, l, l).value) == UnionOf(xs[l..l + 1])
  {
    SingleUnion(xs, l);
  }

  lemma {:induction false} SingleUnion(xs: seq<seq<int>>, l: int)
    requires 0 <= l < |xs|
    ensures UnionOf(xs[l..l + 1]) == Elems(xs[l])
  {
    assert xs[l..l + 1] == [xs[l]];
    assert UnionOf([xs[l]]) == Elems(xs[l]) + UnionOf([]);
  }

  /** Merging the merges of two groups of arrays gives the merge of both groups. */
  lemma {:induction false} MergeParts(left: seq<int>, right: seq<int>, xs1: seq<seq<int>>, xs2: seq<seq<int>>)
    requires Increasing(left) && Elems(left) == UnionOf(xs1)
    requires Increasing(right) && Elems(right) == UnionOf(xs2)
    ensures Increasing(MergeSorted(left, right))
    ensures Elems(MergeSorted(left, right)) == UnionOf(xs1 + xs2)
  {
    assert NonDecreasing(left) && NonDecreasing(right);
    MergeSortedUnion(left, right);
    UnionOfAppend(xs1, xs2);
  }

  /** The result of `mergeTimestamps` does not depend on where a range is split. */
  lemma {:induction false} SplitIndependent(xs: seq<seq<int>>, l: int, m: int, r: int)
    requires 0 <= l <= m < r < |xs|
    requires forall i :: l <= i <= r ==> Increasing(xs[i])
    ensures MergeTwoTimestamps(MergeTimestamps(xs, l, m), MergeTimestamps(xs, m + 1, r))
         == MergeTimestamps(xs, l, r)
  {
    var left, right, whole := MergeTimestamps(xs, l, m), MergeTimestamps(xs, m + 1, r), MergeTimestamps(xs, l, r);
    assert left.Some? && Increasing(left.value) && Elems(left.value) == UnionOf(xs[l..m + 1]) by {
      MergeTimestampsUnion(xs, l, m);
    }
    assert right.Some? && Increasing(right.value) && Elems(right.value) == UnionOf(xs[m + 1..r + 1]) by {
      MergeTimestampsUnion(xs, m + 1, r);
    }
    assert whole.Some? && Increasing(whole.value) && Elems(whole.value) == UnionOf(xs[l..r + 1]) by {
      MergeTimestampsUnion(xs, l, r);
    }
    var merged := MergeSorted(left.value, right.value);
    assert Increasing(merged) && Elems(merged) == UnionOf(xs[l..r + 1]) by {
      MergeParts(left.value, right.value, xs[l..m + 1], xs[m + 1..r + 1]);
      assert xs[l..r + 1] == xs[l..m + 1] + xs[m + 1..r + 1];
    }
    IncreasingUnique(merged, whole.value);
  }
}
