/**
  The resampler: `column.sample(frac=1, replace=False)`.

  pandas draws `n` distinct positions out of `0 .. n-1` (a without-replacement
  choice of every position) and takes the values at those positions, in the
  order drawn; `reset_index(drop=True)` then only renumbers the labels. The
  random draw itself is a parameter here: `locs`, the positions in drawn order.
 */
module Resampler {
  import opened Statistic

  /** `locs` lists every position of a column of length `n` exactly once. */
  predicate IsIndexPermutation(locs: seq<nat>, n: nat)
  {
    && |locs| == n
    && (forall k :: 0 <= k < |locs| ==> locs[k] < n)
    && (forall j, k :: 0 <= j < k < |locs| ==> locs[j] != locs[k])
  }

  /** The values of `s` at positions `locs`, in the order of `locs` (pandas' `take`). */
  function Take(s: seq<real>, locs: seq<nat>): (r: seq<real>)
    requires forall k :: 0 <= k < |locs| ==> locs[k] < |s|
    ensures |r| == |locs|
    ensures forall k :: 0 <= k < |locs| ==> r[k] == s[locs[k]]
  {
    seq(|locs|, k requires 0 <= k < |locs| => s[locs[k]])
  }

  /** A resample without replacement holds the same values as the column, each as often. */
  function Resample(sample: seq<real>, locs: seq<nat>): (r: seq<real>)
    requires IsIndexPermutation(locs, |sample|)
    ensures |r| == |sample|
    ensures multiset(r) == multiset(sample)
    ensures forall k :: 0 <= k < |r| ==> r[k] == sample[locs[k]]
  {
    TakePermutationMultiset(sample, locs);
    Take(sample, locs)
  }

  /** Drawing every position once, in any order, keeps the multiset of values. */
  lemma {:induction false} TakePermutationMultiset(s: seq<real>, locs: seq<nat>)
    requires IsIndexPermutation(locs, |s|)
    ensures multiset(Take(s, locs)) == multiset(s)
    decreases |s|
  {
    var n := |s|;
    if n > 0 {
      var m := locs[n - 1];
      var front := locs[..n - 1];
      var shorter := s[..m] + s[m + 1..];
      var shifted := ShiftPast(front, m);
      ShiftPastIsIndexPermutation(locs, m);
      TakePermutationMultiset(shorter, shifted);
      TakeAfterRemoval(s, locs);
      assert Take(s, locs) == Take(s, front) + [s[m]];
      RemoveAtMultiset(s, m);
    }
  }

  /** Renumbers positions after position `m` has been taken out of the column. */
  function ShiftPast(front: seq<nat>, m: nat): seq<nat>
  {
    seq(|front|, k requires 0 <= k < |front| => if front[k] > m then front[k] - 1 else front[k])
  }

  /** After the last drawn position is removed, the renumbered earlier draws cover the shorter column once each. */
  lemma ShiftPastIsIndexPermutation(locs: seq<nat>, m: nat)
    requires |locs| > 0 && IsIndexPermutation(locs, |locs|)
    requires m == locs[|locs| - 1]
    ensures IsIndexPermutation(ShiftPast(locs[..|locs| - 1], m), |locs| - 1)
    ensures forall k :: 0 <= k < |locs| - 1 ==> locs[k] != m
  {
  }

  /** Taking the renumbered earlier draws from the shortened column gives the earlier draws' values. */
  lemma TakeAfterRemoval(s: seq<real>, locs: seq<nat>)
    requires |s| > 0 && IsIndexPermutation(locs, |s|)
    ensures IsIndexPermutation(ShiftPast(locs[..|s| - 1], locs[|s| - 1]), |s| - 1)
    ensures var m := locs[|s| - 1];
      Take(s[..m] + s[m + 1..], ShiftPast(locs[..|s| - 1], m)) == Take(s, locs[..|s| - 1])
  {
    var n, m := |s|, locs[|s| - 1];
    var shorter, front := s[..m] + s[m + 1..], locs[..n - 1];
    ShiftPastIsIndexPermutation(locs, m);
    var shifted := ShiftPast(front, m);
    forall k | 0 <= k < n - 1
      ensures Take(shorter, shifted)[k] == Take(s, front)[k]
    {
      assert front[k] != m;
    }
  }
}
