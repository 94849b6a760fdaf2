/**
 * Plain character-by-character string comparison. It stands in for both
 * `String.prototype.localeCompare` (whose locale rules are not modelled) and Go's
 * `sort.Strings`, whose byte order on UTF-8 agrees with code-point order.
 */
module Lexicographic {

  /** Negative, zero or positive as `a` sorts before, equal to or after `b`. */
  function Compare(a: string, b: string): (c: int)
    ensures -1 <= c <= 1
    ensures c == 0 <==> a == b
  {
    if |a| == 0 then (if |b| == 0 then 0 else -1)
    else if |b| == 0 then 1
    else if a[0] < b[0] then -1
    else if a[0] > b[0] then 1
    else
      assert a == [a[0]] + a[1..] && b == [b[0]] + b[1..];
      Compare(a[1..], b[1..])
  }

  predicate Le(a: string, b: string) {
    Compare(a, b) <= 0
  }

  predicate Lt(a: string, b: string) {
    Compare(a, b) < 0
  }

  lemma {:induction false} CompareAntisymmetric(a: string, b: string)
    ensures Compare(b, a) == -Compare(a, b)
  {
    if |a| > 0 && |b| > 0 && a[0] == b[0] {
      CompareAntisymmetric(a[1..], b[1..]);
    }
  }

  lemma {:induction false} CompareTransitive(a: string, b: string, c: string)
    requires Compare(a, b) <= 0 && Compare(b, c) <= 0
    ensures Compare(a, c) <= 0
    ensures Compare(a, b) < 0 || Compare(b, c) < 0 ==> Compare(a, c) < 0
  {
    if |a| > 0 && |b| > 0 && |c| > 0 && a[0] == b[0] == c[0] {
      CompareTransitive(a[1..], b[1..], c[1..]);
    }
  }

  /** `Le` is a total order on strings. */
  lemma {:induction false} LeTotalOrder(a: string, b: string, c: string)
    ensures Le(a, b) || Le(b, a)
    ensures Le(a, b) && Le(b, a) ==> a == b
    ensures Le(a, b) && Le(b, c) ==> Le(a, c)
  {
    CompareAntisymmetric(a, b);
    if Le(a, b) && Le(b, c) {
      CompareTransitive(a, b, c);
    }
  }
}
