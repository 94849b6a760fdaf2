/**
 * The server's store of CPU-time series (`TimeSeriesData`): one series per
 * (instance, SQL digest, plan digest), kept under the string key that `makeKey`
 * joins from the three. Every operation runs under the store's mutex, so each is
 * one atomic transition from a store to a store here.
 */
module SeriesStore {
  import opened Options
  import opened Samples
  import StableSort
  import Lexicographic

  /** One stored series. `values` are in arrival order and may repeat timestamps. */
  datatype TimeSeries = TimeSeries(
    instance: string,
    sqlDigest: string,
    planDigest: string,
    values: seq<Sample>,
    valuesSum: nat)

  type Store = map<string, TimeSeries>

  const Separator: char := '_'

  // ---------------------------------------------------------------------------
  // Keys

  /** `makeKey`: the three parts joined by the separator. */
  function MakeKey(instance: string, sqlDigest: string, planDigest: string): (k: string)
    ensures |k| == |instance| + |sqlDigest| + |planDigest| + 2
    ensures k[..|instance|] == instance && k[|instance|] == Separator
    ensures k[|k| - |planDigest|..] == planDigest && k[|k| - |planDigest| - 1] == Separator
  {
    instance + [Separator] + sqlDigest + [Separator] + planDigest
  }

  /** What follows the last separator of `k` (all of `k` when there is none). */
  function AfterLast(k: string): string {
    if |k| == 0 || k[|k| - 1] == Separator then []
    else AfterLast(k[..|k| - 1]) + [k[|k| - 1]]
  }

  /** What precedes the last separator of `k` (empty when there is none). */
  function BeforeLast(k: string): string {
    if |k| == 0 then []
    else if k[|k| - 1] == Separator then k[..|k| - 1]
    else BeforeLast(k[..|k| - 1])
  }

  /** Splitting at the last separator undoes a join whose right part has no separator. */
  lemma {:induction false} SplitLast(a: string, b: string)
    requires Separator !in b
    ensures AfterLast(a + [Separator] + b) == b
    ensures BeforeLast(a + [Separator] + b) == a
  {
    var k := a + [Separator] + b;
    if |b| == 0 {
      assert k[..|k| - 1] == a;
    } else {
      var b' := b[..|b| - 1];
      assert k[..|k| - 1] == a + [Separator] + b';
      assert b == b' + [b[|b| - 1]];
      SplitLast(a, b');
    }
  }

  /**
   * The parts can be read back from a key when the digests contain no separator.
   * The digests the server stores are hex strings, so this always holds there;
   * with a separator inside a digest two different triples can share a key, as
   * `MakeKey("a", "b_c", "d") == MakeKey("a_b", "c", "d")` shows.
   */
  lemma {:induction false} MakeKeyParts(instance: string, sqlDigest: string, planDigest: string)
    requires Separator !in sqlDigest && Separator !in planDigest
    ensures var k := MakeKey(instance, sqlDigest, planDigest);
      && AfterLast(k) == planDigest
      && AfterLast(BeforeLast(k)) == sqlDigest
      && BeforeLast(BeforeLast(k)) == instance
  {
    SplitLast(instance + [Separator] + sqlDigest, planDigest);
    SplitLast(instance, sqlDigest);
  }

  /** Distinct triples with separator-free digests get distinct keys. */
  lemma {:induction false} MakeKeyInjective(i1: string, s1: string, p1: string, i2: string, s2: string, p2: string)
    requires Separator !in s1 && Separator !in p1 && Separator !in s2 && Separator !in p2
    requires MakeKey(i1, s1, p1) == MakeKey(i2, s2, p2)
    ensures i1 == i2 && s1 == s2 && p1 == p2
  {
    MakeKeyParts(i1, s1, p1);
    MakeKeyParts(i2, s2, p2);
  }

  // ---------------------------------------------------------------------------
  // Sums

  /** The sum of a list of CPU times. */
  function Total(cpuValues: seq<nat>): nat {
    if |cpuValues| == 0 then 0 else Total(cpuValues[..|cpuValues| - 1]) + cpuValues[|cpuValues| - 1]
  }

  /** The sum of the CPU times of a list of samples. */
  function CpuTotal(vs: seq<Sample>): nat {
    if |vs| == 0 then 0 else CpuTotal(vs[..|vs| - 1]) + vs[|vs| - 1].cpuMs
  }

  /** The samples built from two parallel lists, pair by pair. */
  function Zip(timestamps: seq<nat>, cpuValues: seq<nat>): (vs: seq<Sample>)
    requires |timestamps| == |cpuValues|
    ensures |vs| == |timestamps|
    ensures forall i :: 0 <= i < |vs| ==> vs[i] == Sample(timestamps[i], cpuValues[i])
  {
    seq(|timestamps|, i requires 0 <= i < |timestamps| => Sample(timestamps[i], cpuValues[i]))
  }

  /** Appending samples adds their CPU times to the total. */
  lemma {:induction false} CpuTotalAppend(vs: seq<Sample>, ws: seq<Sample>)
    ensures CpuTotal(vs + ws) == CpuTotal(vs) + CpuTotal(ws)
  {
    if |ws| > 0 {
      var ws' := ws[..|ws| - 1];
      assert (vs + ws)[..|vs + ws| - 1] == vs + ws';
      assert (vs + ws)[|vs + ws| - 1] == ws[|ws| - 1];
      CpuTotalAppend(vs, ws');
    } else {
      assert vs + ws == vs;
    }
  }

  /** The zipped samples carry exactly the CPU times they were built from. */
  lemma {:induction false} CpuTotalZip(timestamps: seq<nat>, cpuValues: seq<nat>)
    requires |timestamps| == |cpuValues|
    ensures CpuTotal(Zip(timestamps, cpuValues)) == Total(cpuValues)
  {
    var n := |cpuValues|;
    if n > 0 {
      assert Zip(timestamps, cpuValues)[..n - 1] == Zip(timestamps[..n - 1], cpuValues[..n - 1]);
      CpuTotalZip(timestamps[..n - 1], cpuValues[..n - 1]);
    }
  }

  // ---------------------------------------------------------------------------
  // Ingest

  /** Why `ingest` rejects a report. */
  datatype IngestError =
    | LengthMismatch(timestamps: nat, cpuValues: nat)
    | EmptySqlDigest

  /** The store after `ingest`, and the error it returned, if any. */
  datatype Ingested = Ingested(store: Store, err: Option<IngestError>)

  /** The series a key holds before an append: the stored one, or a new empty one. */
  function SeriesFor(st: Store, instance: string, sqlDigest: string, planDigest: string): TimeSeries {
    var key := MakeKey(instance, sqlDigest, planDigest);
    if key in st then st[key] else TimeSeries(instance, sqlDigest, planDigest, [], 0)
  }

  /**
   * The append loop of `ingest`: the pairs are appended in input order and their
   * CPU times summed.
   */
  method AppendValues(values: seq<Sample>, timestamps: seq<nat>, cpuValues: seq<nat>)
    returns (values': seq<Sample>, sum: nat)
    requires |timestamps| == |cpuValues|
    ensures |values'| == |values| + |timestamps|
    ensures values'[..|values|] == values
    ensures forall i :: 0 <= i < |timestamps| ==> values'[|values| + i] == Sample(timestamps[i], cpuValues[i])
    ensures sum == Total(cpuValues)
  {
    values' := values;
    sum := 0;
    var i := 0;
    while i < |timestamps|
      invariant 0 <= i <= |timestamps|
      invariant values' == values + Zip(timestamps[..i], cpuValues[..i])
      invariant sum == Total(cpuValues[..i])
    {
      assert Zip(timestamps[..i + 1], cpuValues[..i + 1]) == Zip(timestamps[..i], cpuValues[..i]) + [Sample(timestamps[i], cpuValues[i])];
      assert cpuValues[..i + 1][..i] == cpuValues[..i];
      values' := values' + [Sample(timestamps[i], cpuValues[i])];
      sum := sum + cpuValues[i];
      i := i + 1;
    }
    assert timestamps[..i] == timestamps && cpuValues[..i] == cpuValues;
  }

  /**
   * `s'` is `s` with the reported pairs appended in input order and its sum raised
   * by their CPU times; instance and digests are kept.
   */
  predicate Extends(s': TimeSeries, s: TimeSeries, timestamps: seq<nat>, cpuValues: seq<nat>)
    requires |timestamps| == |cpuValues|
  {
    && s'.instance == s.instance && s'.sqlDigest == s.sqlDigest && s'.planDigest == s.planDigest
    && |s'.values| == |s.values| + |timestamps|
    && s'.values[..|s.values|] == s.values
    && (forall i :: 0 <= i < |timestamps| ==> s'.values[|s.values| + i] == Sample(timestamps[i], cpuValues[i]))
    && s'.valuesSum == s.valuesSum + Total(cpuValues)
  }

  function Append(s: TimeSeries, timestamps: seq<nat>, cpuValues: seq<nat>): (s': TimeSeries)
    requires |timestamps| == |cpuValues|
    ensures Extends(s', s, timestamps, cpuValues)
  {
    assert (s.values + Zip(timestamps, cpuValues))[..|s.values|] == s.values;
    s.(values := s.values + Zip(timestamps, cpuValues), valuesSum := s.valuesSum + Total(cpuValues))
  }

  /**
   * `ingest`. Both checks run before anything changes, so a rejected report leaves
   * the store as it was. Otherwise the key's series (created empty if missing)
   * gets the reported pairs appended and its sum raised by their CPU times, and no
   * other key is touched.
   */
  function Ingest(st: Store, instance: string, sqlDigest: string, planDigest: string,
                  timestamps: seq<nat>, cpuValues: seq<nat>): (r: Ingested)
    ensures |timestamps| != |cpuValues| ==>
      r == Ingested(st, Some(LengthMismatch(|timestamps|, |cpuValues|)))
    ensures |timestamps| == |cpuValues| && |sqlDigest| == 0 ==>
      r == Ingested(st, Some(EmptySqlDigest))
    ensures |timestamps| == |cpuValues| && |sqlDigest| > 0 ==>
      var key := MakeKey(instance, sqlDigest, planDigest);
      && r.err == None
      && r.store.Keys == st.Keys + {key}
      && (forall k :: k in st && k != key ==> r.store[k] == st[k])
      && (key in st ==> Extends(r.store[key], st[key], timestamps, cpuValues))
      && (key !in st ==> Extends(r.store[key], TimeSeries(instance, sqlDigest, planDigest, [], 0), timestamps, cpuValues))
  {
    if |timestamps| != |cpuValues| then Ingested(st, Some(LengthMismatch(|timestamps|, |cpuValues|)))
    else if |sqlDigest| == 0 then Ingested(st, Some(EmptySqlDigest))
    else
      var key := MakeKey(instance, sqlDigest, planDigest);
      var series := SeriesFor(st, instance, sqlDigest, planDigest);
      Ingested(st[key := Append(series, timestamps, cpuValues)], None)
  }

  /**
   * What every store the server builds satisfies: each series sits under the key
   * of its own fields, its digests are non-empty where required and free of the
   * separator, and its sum is the sum of its samples.
   */
  predicate WellFormed(key: string, s: TimeSeries) {
    && key == MakeKey(s.instance, s.sqlDigest, s.planDigest)
    && |s.sqlDigest| > 0
    && Separator !in s.sqlDigest && Separator !in s.planDigest
    && s.valuesSum == CpuTotal(s.values)
  }

  predicate Valid(st: Store) {
    forall k :: k in st ==> WellFormed(k, st[k])
  }

  /**
   * `ingest` keeps the store well formed when fed hex digests, and then the series
   * at the key always carries the reported instance and digests.
   */
  lemma {:induction false} IngestValid(st: Store, instance: string, sqlDigest: string, planDigest: string,
                    timestamps: seq<nat>, cpuValues: seq<nat>)
    requires Valid(st)
    requires Separator !in sqlDigest && Separator !in planDigest
    ensures Valid(Ingest(st, instance, sqlDigest, planDigest, timestamps, cpuValues).store)
    ensures var r, key := Ingest(st, instance, sqlDigest, planDigest, timestamps, cpuValues),
                          MakeKey(instance, sqlDigest, planDigest);
      r.err == None ==>
        && r.store[key].instance == instance
        && r.store[key].sqlDigest == sqlDigest
        && r.store[key].planDigest == planDigest
  {
    if |timestamps| == |cpuValues| && |sqlDigest| > 0 {
      var key := MakeKey(instance, sqlDigest, planDigest);
      var series' := Append(SeriesFor(st, instance, sqlDigest, planDigest), timestamps, cpuValues);
      AppendWellFormed(st, instance, sqlDigest, planDigest, timestamps, cpuValues);
      var r := Ingest(st, instance, sqlDigest, planDigest, timestamps, cpuValues);
      assert r.store == st[key := series'];
      forall k | k in r.store
        ensures WellFormed(k, r.store[k])
      {
        if k != key {
          assert r.store[k] == st[k];
        }
      }
    }
  }

  /** The series `ingest` stores is well formed and carries the reported fields. */
  lemma {:induction false} AppendWellFormed(st: Store, instance: string, sqlDigest: string, planDigest: string,
                                            timestamps: seq<nat>, cpuValues: seq<nat>)
    requires Valid(st)
    requires Separator !in sqlDigest && Separator !in planDigest
    requires |timestamps| == |cpuValues| && |sqlDigest| > 0
    ensures var s := Append(SeriesFor(st, instance, sqlDigest, planDigest), timestamps, cpuValues);
      && WellFormed(MakeKey(instance, sqlDigest, planDigest), s)
      && s.instance == instance && s.sqlDigest == sqlDigest && s.planDigest == planDigest
  {
    var key := MakeKey(instance, sqlDigest, planDigest);
    var series := SeriesFor(st, instance, sqlDigest, planDigest);
    assert series.instance == instance && series.sqlDigest == sqlDigest && series.planDigest == planDigest by {
      if key in st {
        assert WellFormed(key, st[key]);
        MakeKeyInjective(series.instance, series.sqlDigest, series.planDigest, instance, sqlDigest, planDigest);
      }
    }
    assert series.valuesSum == CpuTotal(series.values) by {
      if key in st {
        assert WellFormed(key, st[key]);
      }
    }
    CpuTotalAppend(series.values, Zip(timestamps, cpuValues));
    CpuTotalZip(timestamps, cpuValues);
  }


  // ---------------------------------------------------------------------------
  // Reads

  /**
   * `keys` is one iteration of Go's `range` over the store: every key exactly once,
   * in an order the runtime chooses.
   */
  predicate Enumerates(keys: seq<string>, st: Store) {
    StableSort.Distinct(keys) && (set k | k in keys) == st.Keys
  }

  lemma {:induction false} EnumeratesMembers(keys: seq<string>, st: Store)
    requires Enumerates(keys, st)
    ensures forall k :: k in keys <==> k in st
  {
    forall k
      ensures k in keys <==> k in st
    {
      assert k in keys <==> k in (set k | k in keys);
    }
  }

  /** The first loop of `GetInstances`: the distinct instances, in order of first appearance. */
  function InstancesOf(st: Store, keys: seq<string>): (found: seq<string>)
    requires forall k :: k in keys ==> k in st
    ensures forall i :: i in found <==> exists k :: k in keys && st[k].instance == i
    ensures StableSort.Distinct(found)
  {
    if |keys| == 0 then []
    else
      var prefix := keys[..|keys| - 1];
      var found := InstancesOf(st, prefix);
      var i := st[keys[|keys| - 1]].instance;
      assert keys == prefix + [keys[|keys| - 1]];
      if i in found then found else found + [i]
  }

  predicate StrictlyAscending(s: seq<string>) {
    forall i, j :: 0 <= i < j < |s| ==> Lexicographic.Lt(s[i], s[j])
  }

  lemma {:induction false} LeTotalPreorder()
    ensures StableSort.TotalPreorder(Lexicographic.Le)
  {
    forall a, b, c
      ensures Lexicographic.Le(a, b) || Lexicographic.Le(b, a)
      ensures Lexicographic.Le(a, b) && Lexicographic.Le(b, c) ==> Lexicographic.Le(a, c)
    {
      Lexicographic.LeTotalOrder(a, b, c);
    }
  }

  /**
   * `GetInstances`: every instance that has a stored series, once each, in
   * ascending order (`sort.Strings`).
   */
  function GetInstances(st: Store, keys: seq<string>): (r: seq<string>)
    requires Enumerates(keys, st)
    ensures forall i :: i in r <==> exists k :: k in st && st[k].instance == i
    ensures StrictlyAscending(r)
  {
    EnumeratesMembers(keys, st);
    var found := InstancesOf(st, keys);
    SortAscending(found);
    StableSort.Sort(found, Lexicographic.Le)
  }

  /** Sorting a duplicate-free list of strings makes it strictly ascending. */
  lemma {:induction false} SortAscending(s: seq<string>)
    requires StableSort.Distinct(s)
    ensures var r := StableSort.Sort(s, Lexicographic.Le);
      StrictlyAscending(r) && forall x :: x in r <==> x in s
  {
    var r := StableSort.Sort(s, Lexicographic.Le);
    LeTotalPreorder();
    StableSort.SortSorted(s, Lexicographic.Le);
    StableSort.PermutationDistinct(s, r);
    assert forall x :: x in r <==> x in multiset(s);
    forall i, j | 0 <= i < j < |r|
      ensures Lexicographic.Lt(r[i], r[j])
    {
      assert r[i] != r[j] && Lexicographic.Le(r[i], r[j]);
    }
  }

  /** Two ascending lists with the same elements are the same list. */
  lemma {:induction false} AscendingUnique(a: seq<string>, b: seq<string>)
    requires StrictlyAscending(a) && StrictlyAscending(b)
    requires forall x :: x in a <==> x in b
    ensures a == b
  {
    if |a| > 0 {
      assert a[0] in b;
    }
    if |b| > 0 {
      assert b[0] in a;
    }
    if |a| > 0 && |b| > 0 {
      assert a[0] in b && b[0] in a;
      Lexicographic.CompareAntisymmetric(a[0], b[0]);
      assert a[0] == b[0];
      forall x
        ensures x in a[1..] ==> x in b[1..]
        ensures x in b[1..] ==> x in a[1..]
      {
        if x in a[1..] {
          TailMember(a, b, x);
        }
        if x in b[1..] {
          TailMember(b, a, x);
        }
      }
      AscendingUnique(a[1..], b[1..]);
    }
  }

  lemma {:induction false} TailMember(a: seq<string>, b: seq<string>, x: string)
    requires StrictlyAscending(a) && StrictlyAscending(b)
    requires forall y :: y in a <==> y in b
    requires |a| > 0 && |b| > 0 && a[0] == b[0] && x in a[1..]
    ensures x in b[1..]
  {
    var j :| 0 <= j < |a| - 1 && a[1..][j] == x;
    assert Lexicographic.Lt(a[0], a[j + 1]);
    assert x in b;
    var m :| 0 <= m < |b| && b[m] == x;
    assert m != 0;
    assert b[1..][m - 1] == x;
  }

  /** The order in which Go happens to iterate the store does not change the instance list. */
  lemma {:induction false} GetInstancesIndependent(st: Store, keys1: seq<string>, keys2: seq<string>)
    requires Enumerates(keys1, st) && Enumerates(keys2, st)
    ensures GetInstances(st, keys1) == GetInstances(st, keys2)
  {
    AscendingUnique(GetInstances(st, keys1), GetInstances(st, keys2));
  }

  /** `GetDataInInstance`: the stored series of one instance, in iteration order. */
  function GetDataInInstance(st: Store, keys: seq<string>, instance: string): (r: seq<TimeSeries>)
    ensures |r| <= |keys|
    ensures forall i :: 0 <= i < |r| ==> r[i].instance == instance
  {
    if |keys| == 0 then []
    else GetDataInInstance(st, keys[..|keys| - 1], instance) + Pick(st, keys[|keys| - 1], instance)
  }

  /** The loop body of `GetDataInInstance` for one key. */
  function Pick(st: Store, k: string, instance: string): seq<TimeSeries> {
    if k in st && st[k].instance == instance then [st[k]] else []
  }

  /** The result holds exactly the series of the listed keys that belong to the instance. */
  lemma {:induction false} GetDataMembers(st: Store, keys: seq<string>, instance: string)
    ensures forall s :: s in GetDataInInstance(st, keys, instance) <==>
      s.instance == instance && exists k :: k in keys && k in st && st[k] == s
  {
    if |keys| > 0 {
      var prefix, k := keys[..|keys| - 1], keys[|keys| - 1];
      assert keys == prefix + [k];
      GetDataMembers(st, prefix, instance);
    }
  }

  /** The listed keys that hold `s`. */
  ghost function HoldersOf(st: Store, keys: seq<string>, s: TimeSeries): set<string> {
    set k | k in keys && k in st && st[k] == s
  }

  /**
   * Over keys listed once each, a series of the instance is returned once per key
   * that holds it, and a series of another instance never.
   */
  lemma {:induction false} GetDataCount(st: Store, keys: seq<string>, instance: string, s: TimeSeries)
    requires StableSort.Distinct(keys)
    ensures multiset(GetDataInInstance(st, keys, instance))[s]
         == if s.instance == instance then |HoldersOf(st, keys, s)| else 0
  {
    if |keys| > 0 {
      var prefix, x := keys[..|keys| - 1], keys[|keys| - 1];
      DistinctLast(keys);
      GetDataCount(st, prefix, instance, s);
      assert keys == prefix + [x];
      HoldersStep(st, prefix, x, s);
      var r, p := GetDataInInstance(st, prefix, instance), Pick(st, x, instance);
      assert GetDataInInstance(st, keys, instance) == r + p;
      assert multiset(r + p) == multiset(r) + multiset(p);
    }
  }

  /** The listed keys that hold a series of the instance. */
  ghost function KeysOf(st: Store, keys: seq<string>, instance: string): set<string> {
    set k | k in keys && k in st && st[k].instance == instance
  }

  /** Over keys listed once each, one series is returned per key holding a series of the instance. */
  lemma {:induction false} GetDataSize(st: Store, keys: seq<string>, instance: string)
    requires StableSort.Distinct(keys)
    ensures |GetDataInInstance(st, keys, instance)| == |KeysOf(st, keys, instance)|
  {
    if |keys| > 0 {
      var prefix, x := keys[..|keys| - 1], keys[|keys| - 1];
      DistinctLast(keys);
      GetDataSize(st, prefix, instance);
      assert keys == prefix + [x];
      KeysStep(st, prefix, x, instance);
    }
  }

  lemma {:induction false} KeysStep(st: Store, prefix: seq<string>, x: string, instance: string)
    requires x !in prefix
    ensures |KeysOf(st, prefix + [x], instance)|
         == |KeysOf(st, prefix, instance)| + |Pick(st, x, instance)|
  {
    var before := KeysOf(st, prefix, instance);
    if x in st && st[x].instance == instance {
      assert KeysOf(st, prefix + [x], instance) == before + {x};
      assert x !in before;
    } else {
      assert KeysOf(st, prefix + [x], instance) == before;
    }
  }

  /** Whatever order Go iterates the store in, one series is returned per stored series of the instance. */
  lemma {:induction false} GetDataExactSize(st: Store, keys: seq<string>, instance: string)
    requires Enumerates(keys, st)
    ensures |GetDataInInstance(st, keys, instance)| == |set k | k in st && st[k].instance == instance|
  {
    EnumeratesMembers(keys, st);
    GetDataSize(st, keys, instance);
    assert KeysOf(st, keys, instance) == set k | k in st && st[k].instance == instance;
  }

  lemma {:induction false} DistinctLast(keys: seq<string>)
    requires StableSort.Distinct(keys) && |keys| > 0
    ensures StableSort.Distinct(keys[..|keys| - 1])
    ensures keys[|keys| - 1] !in keys[..|keys| - 1]
  {
    var prefix := keys[..|keys| - 1];
    forall i, j | 0 <= i < j < |prefix|
      ensures prefix[i] != prefix[j]
    {
      assert prefix[i] == keys[i] && prefix[j] == keys[j];
    }
    forall i | 0 <= i < |prefix|
      ensures prefix[i] != keys[|keys| - 1]
    {
      assert prefix[i] == keys[i];
    }
  }

  /** One more key, not listed before, adds itself to the holders of `s` when it holds `s`. */
  lemma {:induction false} HoldersStep(st: Store, prefix: seq<string>, x: string, s: TimeSeries)
    requires x !in prefix
    ensures |HoldersOf(st, prefix + [x], s)|
         == |HoldersOf(st, prefix, s)| + (if x in st && st[x] == s then 1 else 0)
  {
    var before := HoldersOf(st, prefix, s);
    if x in st && st[x] == s {
      assert HoldersOf(st, prefix + [x], s) == before + {x};
      assert x !in before;
    } else {
      assert HoldersOf(st, prefix + [x], s) == before;
    }
  }

  /**
   * In a well-formed store, whatever order Go iterates it in, every stored series of
   * the instance is returned exactly once.
   */
  lemma {:induction false} GetDataOnce(st: Store, keys: seq<string>, instance: string, k: string)
    requires Valid(st) && Enumerates(keys, st)
    requires k in st && st[k].instance == instance
    ensures multiset(GetDataInInstance(st, keys, instance))[st[k]] == 1
  {
    EnumeratesMembers(keys, st);
    GetDataCount(st, keys, instance, st[k]);
    assert HoldersOf(st, keys, st[k]) == {k} by {
      forall k' | k' in HoldersOf(st, keys, st[k])
        ensures k' == k
      {
        assert WellFormed(k', st[k']) && WellFormed(k, st[k]);
      }
    }
  }

  lemma {:induction false} GetDataAppend(st: Store, a: seq<string>, b: seq<string>, instance: string)
    ensures GetDataInInstance(st, a + b, instance) == GetDataInInstance(st, a, instance) + GetDataInInstance(st, b, instance)
  {
    if |b| > 0 {
      var b', x := b[..|b| - 1], b[|b| - 1];
      assert (a + b)[..|a + b| - 1] == a + b';
      assert (a + b)[|a + b| - 1] == x;
      GetDataAppend(st, a, b', instance);
      assert GetDataInInstance(st, a + b, instance)
          == (GetDataInInstance(st, a, instance) + GetDataInInstance(st, b', instance)) + Pick(st, x, instance);
    } else {
      assert a + b == a;
    }
  }

  /** Filtering two orderings of the same keys gives the same series, counted with repeats. */
  lemma {:induction false} GetDataPermutation(st: Store, a: seq<string>, b: seq<string>, instance: string)
    requires multiset(a) == multiset(b)
    ensures multiset(GetDataInInstance(st, a, instance)) == multiset(GetDataInInstance(st, b, instance))
    decreases |a|
  {
    if |a| > 0 {
      var a', x := a[..|a| - 1], a[|a| - 1];
      assert a == a' + [x];
      assert x in multiset(b);
      var j :| 0 <= j < |b| && b[j] == x;
      var b1, b2 := b[..j], b[j + 1..];
      assert b == b1 + [x] + b2;
      MultisetRemove(a', x, b1, b2);
      GetDataPermutation(st, a', b1 + b2, instance);
      GetDataMiddle(st, b1, x, b2, instance);
    } else {
      assert |b| == 0;
    }
  }

  lemma {:induction false} MultisetRemove(a: seq<string>, x: string, b1: seq<string>, b2: seq<string>)
    requires multiset(a + [x]) == multiset(b1 + [x] + b2)
    ensures multiset(a) == multiset(b1 + b2)
  {
    assert multiset(a) == multiset(a + [x]) - multiset{x};
    assert multiset(b1 + b2) == multiset(b1 + [x] + b2) - multiset{x};
  }

  /** Removing one key from the middle of a listing removes just its pick. */
  lemma {:induction false} GetDataMiddle(st: Store, b1: seq<string>, x: string, b2: seq<string>, instance: string)
    ensures multiset(GetDataInInstance(st, b1 + [x] + b2, instance))
         == multiset(GetDataInInstance(st, b1 + b2, instance)) + multiset(Pick(st, x, instance))
  {
    var f1, f2, p := GetDataInInstance(st, b1, instance), GetDataInInstance(st, b2, instance), Pick(st, x, instance);
    assert GetDataInInstance(st, b1 + [x], instance) == f1 + p by {
      GetDataAppend(st, b1, [x], instance);
      assert [x][..0] == [];
    }
    assert GetDataInInstance(st, b1 + [x] + b2, instance) == (f1 + p) + f2 by {
      GetDataAppend(st, b1 + [x], b2, instance);
    }
    assert GetDataInInstance(st, b1 + b2, instance) == f1 + f2 by {
      GetDataAppend(st, b1, b2, instance);
    }
    assert multiset((f1 + p) + f2) == multiset(f1) + multiset(p) + multiset(f2);
    assert multiset(f1 + f2) == multiset(f1) + multiset(f2);
  }

  /** Two duplicate-free lists with the same elements hold each element once. */
  lemma {:induction false} DistinctSameSet(a: seq<string>, b: seq<string>)
    requires StableSort.Distinct(a) && StableSort.Distinct(b)
    requires forall x :: x in a <==> x in b
    ensures multiset(a) == multiset(b)
  {
    forall x
      ensures multiset(a)[x] == multiset(b)[x]
    {
      StableSort.DistinctCount(a, x);
      StableSort.DistinctCount(b, x);
      assert x in a <==> x in multiset(a);
      assert x in b <==> x in multiset(b);
    }
  }

  /**
   * `GetDataInInstance` returns exactly the stored series of the instance; the
   * iteration order changes only their order, never which series or how many.
   */
  lemma {:induction false} GetDataIndependent(st: Store, keys1: seq<string>, keys2: seq<string>, instance: string)
    requires Enumerates(keys1, st) && Enumerates(keys2, st)
    ensures multiset(GetDataInInstance(st, keys1, instance)) == multiset(GetDataInInstance(st, keys2, instance))
  {
    EnumeratesMembers(keys1, st);
    EnumeratesMembers(keys2, st);
    DistinctSameSet(keys1, keys2);
    GetDataPermutation(st, keys1, keys2, instance);
  }
}
