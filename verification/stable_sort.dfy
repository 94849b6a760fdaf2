/**
 * A stable sort over an arbitrary total preorder `le`. Both `Array.prototype.sort`
 * (stable since ES2019) and lodash `orderBy` are stable, so each sort in `api.ts`,
 * `seriesCalc.ts` and `App.tsx` is this function applied to the comparator it uses.
 */
module StableSort {

  /** `le` is total and transitive (reflexivity follows from totality). */
  ghost predicate TotalPreorder<T(!new)>(le: (T, T) -> bool) {
    && (forall x, y :: le(x, y) || le(y, x))
    && (forall x, y, z :: le(x, y) && le(y, z) ==> le(x, z))
  }

  predicate Sorted<T>(s: seq<T>, le: (T, T) -> bool) {
    forall i, j :: 0 <= i < j < |s| ==> le(s[i], s[j])
  }

  /** Neither element sorts strictly before the other. */
  predicate Tied<T>(x: T, y: T, le: (T, T) -> bool) {
    le(x, y) && le(y, x)
  }

  /** The elements of `s` tied with `k`, in their order in `s`. */
  function Class<T>(s: seq<T>, k: T, le: (T, T) -> bool): (c: seq<T>)
    ensures |c| <= |s|
    ensures forall x :: x in c ==> x in s && Tied(x, k, le)
  {
    if |s| == 0 then []
    else (if Tied(s[0], k, le) then [s[0]] else []) + Class(s[1..], k, le)
  }

  /** Places `x` before the first element it does not sort after. */
  function Insert<T>(x: T, s: seq<T>, le: (T, T) -> bool): (r: seq<T>)
    ensures multiset(r) == multiset{x} + multiset(s)
    ensures |r| == |s| + 1
  {
    if |s| == 0 || le(x, s[0]) then [x] + s
    else
      assert s == [s[0]] + s[1..];
      [s[0]] + Insert(x, s[1..], le)
  }

  function Sort<T>(s: seq<T>, le: (T, T) -> bool): (r: seq<T>)
    ensures multiset(r) == multiset(s)
    ensures |r| == |s|
  {
    if |s| == 0 then []
    else
      assert s == [s[0]] + s[1..];
      Insert(s[0], Sort(s[1..], le), le)
  }

  lemma {:induction false} InsertSorted<T(!new)>(x: T, s: seq<T>, le: (T, T) -> bool)
    requires TotalPreorder(le)
    requires Sorted(s, le)
    ensures Sorted(Insert(x, s, le), le)
  {
    if |s| == 0 || le(x, s[0]) {
    } else {
      var t := Insert(x, s[1..], le);
      InsertSorted(x, s[1..], le);
      forall y | y in t
        ensures le(s[0], y)
      {
        assert y in multiset(t);
        if y != x {
          assert y in multiset(s[1..]);
          var j :| 0 <= j < |s[1..]| && s[1..][j] == y;
          assert s[j + 1] == y;
        }
      }
      var r := [s[0]] + t;
      forall i, j | 0 <= i < j < |r|
        ensures le(r[i], r[j])
      {
        if i == 0 {
          assert r[j] == t[j - 1];
          assert r[j] in t;
        } else {
          assert r[i] == t[i - 1] && r[j] == t[j - 1];
        }
      }
    }
  }

  /** The sort orders its output: the first half of its contract. */
  lemma {:induction false} SortSorted<T(!new)>(s: seq<T>, le: (T, T) -> bool)
    requires TotalPreorder(le)
    ensures Sorted(Sort(s, le), le)
  {
    if |s| > 0 {
      SortSorted(s[1..], le);
      InsertSorted(s[0], Sort(s[1..], le), le);
    }
  }

  lemma {:induction false} ClassAppend<T>(a: seq<T>, b: seq<T>, k: T, le: (T, T) -> bool)
    ensures Class(a + b, k, le) == Class(a, k, le) + Class(b, k, le)
  {
    if |a| == 0 {
      assert a + b == b;
    } else {
      assert (a + b)[1..] == a[1..] + b;
      ClassAppend(a[1..], b, k, le);
    }
  }

  /** Inserting `x` puts it ahead of every element it is tied with. */
  lemma {:induction false} ClassInsert<T(!new)>(x: T, s: seq<T>, k: T, le: (T, T) -> bool)
    requires TotalPreorder(le)
    ensures Class(Insert(x, s, le), k, le)
         == (if Tied(x, k, le) then [x] else []) + Class(s, k, le)
  {
    if |s| == 0 || le(x, s[0]) {
      ClassAppend([x], s, k, le);
    } else {
      ClassInsert(x, s[1..], k, le);
      // x sorts strictly after s[0], so they are not both tied with k
      assert !(Tied(x, k, le) && Tied(s[0], k, le));
      ClassSwap(x, s, k, le);
    }
  }

  lemma {:induction false} ClassSwap<T>(x: T, s: seq<T>, k: T, le: (T, T) -> bool)
    requires |s| > 0 && !le(x, s[0])
    requires !(Tied(x, k, le) && Tied(s[0], k, le))
    requires Class(Insert(x, s[1..], le), k, le)
          == (if Tied(x, k, le) then [x] else []) + Class(s[1..], k, le)
    ensures Class(Insert(x, s, le), k, le)
         == (if Tied(x, k, le) then [x] else []) + Class(s, k, le)
  {
    var u := Insert(x, s[1..], le);
    var rest := Class(s[1..], k, le);
    assert Insert(x, s, le) == [s[0]] + u;
    ClassCons(s[0], u, k, le);
    ClassCons(s[0], s[1..], k, le);
    assert s == [s[0]] + s[1..];
    if Tied(x, k, le) {
      assert Class(u, k, le) == [x] + rest;
      assert Class(s, k, le) == rest;
    } else {
      assert Class(u, k, le) == rest;
    }
  }

  lemma {:induction false} ClassCons<T>(y: T, u: seq<T>, k: T, le: (T, T) -> bool)
    ensures Class([y] + u, k, le) == (if Tied(y, k, le) then [y] else []) + Class(u, k, le)
  {
    assert ([y] + u)[0] == y && ([y] + u)[1..] == u;
  }

  /** Stability: within every class of tied elements the input order is kept. */
  lemma {:induction false} SortStable<T(!new)>(s: seq<T>, k: T, le: (T, T) -> bool)
    requires TotalPreorder(le)
    ensures Class(Sort(s, le), k, le) == Class(s, k, le)
  {
    if |s| > 0 {
      SortStable(s[1..], k, le);
      ClassInsert(s[0], Sort(s[1..], le), k, le);
    }
  }

  /** No element occurs twice. */
  predicate Distinct<T(==)>(s: seq<T>) {
    forall i, j :: 0 <= i < j < |s| ==> s[i] != s[j]
  }

  lemma {:induction false} DistinctCount<T>(s: seq<T>, x: T)
    requires Distinct(s)
    ensures multiset(s)[x] <= 1
  {
    if |s| > 0 {
      assert s == [s[0]] + s[1..];
      assert forall i, j :: 0 <= i < j < |s| - 1 ==> s[1..][i] == s[i + 1] && s[1..][j] == s[j + 1];
      DistinctCount(s[1..], x);
      if s[0] == x {
        assert x !in s[1..];
      }
    }
  }

  lemma {:induction false} RepeatCount<T>(s: seq<T>, i: int, j: int)
    requires 0 <= i < j < |s| && s[i] == s[j]
    ensures multiset(s)[s[i]] >= 2
  {
    assert s == [s[0]] + s[1..];
    if i == 0 {
      assert s[1..][j - 1] == s[j];
      assert s[j] in multiset(s[1..]);
    } else {
      RepeatCount(s[1..], i - 1, j - 1);
    }
  }

  /** A permutation of a sequence without repeats has none either. */
  lemma {:induction false} PermutationDistinct<T>(s: seq<T>, r: seq<T>)
    requires Distinct(s) && multiset(r) == multiset(s)
    ensures Distinct(r)
  {
    forall i, j | 0 <= i < j < |r|
      ensures r[i] != r[j]
    {
      if r[i] == r[j] {
        RepeatCount(r, i, j);
        DistinctCount(s, r[i]);
      }
    }
  }
}
