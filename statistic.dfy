/**
  The statistic of interest: the arithmetic mean of a numeric column, as
  pandas' `Series.mean()` computes it, with exact reals in place of float64.

  pandas returns NaN for the mean of an empty column; `Stat` keeps that
  case instead of ruling it out, because the permutation test compares
  NaN values and its p-value depends on how those comparisons come out.
 */
module Statistic {

  /** A scalar as numpy produces it: a number, or NaN. */
  datatype Stat = NaN | Num(value: real)

  /** numpy's `a >= b` on two scalars: False whenever either side is NaN. */
  predicate AtLeast(a: Stat, b: Stat)
  {
    a.Num? && b.Num? && a.value >= b.value
  }

  /** Sum of the values of a column, left to right. */
  function Sum(s: seq<real>): real
  {
    if s == [] then 0.0 else s[0] + Sum(s[1..])
  }

  /** The mean of a column: sum / count, or NaN when there is nothing to average. */
  function Mean(s: seq<real>): (m: Stat)
    ensures m.NaN? <==> s == []
    ensures m.Num? ==> m.value * |s| as real == Sum(s)
  {
    if s == [] then NaN else Num(Sum(s) / |s| as real)
  }

  lemma {:induction false} SumAppend(a: seq<real>, b: seq<real>)
    ensures Sum(a + b) == Sum(a) + Sum(b)
  {
    if a == [] {
      assert a + b == b;
    } else {
      assert (a + b)[1..] == a[1..] + b;
      SumAppend(a[1..], b);
    }
  }

  /** Summation does not depend on the order of the values: equal multisets, equal sums. */
  lemma {:induction false} SumPermutationInvariant(a: seq<real>, b: seq<real>)
    requires multiset(a) == multiset(b)
    ensures Sum(a) == Sum(b)
    decreases |a|
  {
    if a == [] {
      assert |b| == |multiset(b)| == 0;
    } else {
      var x := a[0];
      assert x in multiset(b);
      var j :| 0 <= j < |b| && b[j] == x;
      var rest := b[..j] + b[j + 1..];
      RemoveAtMultiset(b, j);
      assert a == [x] + a[1..];
      assert multiset(a[1..]) == multiset(rest);
      SumPermutationInvariant(a[1..], rest);
      SumRemoveAt(b, j);
    }
  }

  lemma RemoveAtMultiset(b: seq<real>, j: nat)
    requires j < |b|
    ensures multiset(b[..j] + b[j + 1..]) == multiset(b) - multiset{b[j]}
  {
    assert b == b[..j] + [b[j]] + b[j + 1..];
  }

  /** Taking out the value at position j takes exactly that value off the sum. */
  lemma SumRemoveAt(b: seq<real>, j: nat)
    requires j < |b|
    ensures Sum(b) == b[j] + Sum(b[..j] + b[j + 1..])
  {
    var front, back := b[..j], b[j + 1..];
    var x := b[j];
    assert b == front + ([x] + back);
    SumAppend(front, [x] + back);
    assert ([x] + back)[1..] == back;
    SumAppend(front, back);
  }

  /** The mean is order-invariant: any rearrangement of a column has the same mean. */
  lemma MeanPermutationInvariant(a: seq<real>, b: seq<real>)
    requires multiset(a) == multiset(b)
    ensures Mean(a) == Mean(b)
  {
    assert |a| == |multiset(a)| == |multiset(b)| == |b|;
    SumPermutationInvariant(a, b);
  }

  lemma {:induction false} SumWithinBounds(s: seq<real>, lo: real, hi: real)
    requires forall k :: 0 <= k < |s| ==> lo <= s[k] <= hi
    ensures lo * (|s| as real) <= Sum(s) && Sum(s) <= hi * (|s| as real)
  {
    if s != [] {
      SumWithinBounds(s[1..], lo, hi);
      assert |s| as real == 1.0 + |s[1..]| as real;
    }
  }

  /** The mean of a non-empty column lies between any lower and upper bound of its values. */
  lemma MeanWithinBounds(s: seq<real>, lo: real, hi: real)
    requires s != []
    requires forall k :: 0 <= k < |s| ==> lo <= s[k] <= hi
    ensures Mean(s).Num? && lo <= Mean(s).value <= hi
  {
    SumWithinBounds(s, lo, hi);
    var n := |s| as real;
    var m := Mean(s).value;
    assert m * n == Sum(s);
    assert lo * n <= m * n;
    assert m * n <= hi * n;
  }
}
