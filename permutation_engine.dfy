/**
  The permutation engine: `permutation_analysis(df, target, significance,
  num_permutations)`.

  The column `df[target]` is an array the engine only reads. The engine takes
  its observed mean, fills a fresh array of `num_permutations` entries with
  the means of fresh without-replacement reshuffles of the column, counts
  the entries at least as large as the observed mean, and divides that
  count by `num_permutations` to get an upper-tail p-value.

  The random positions that pandas draws for each reshuffle are the
  parameter `draws`: `draws[i]` is the draw of iteration `i`.
 */
module PermutationEngine {
  import opened Statistic
  import opened Resampler

  /** `np.sum(stats >= observed)`: how many entries are at least the observed value. */
  function CountAtLeast(stats: seq<Stat>, observed: Stat): (c: nat)
    ensures c <= |stats|
  {
    if stats == [] then 0
    else (if AtLeast(stats[0], observed) then 1 else 0) + CountAtLeast(stats[1..], observed)
  }

  /** `count / num_permutations` as numpy divides: 0 / 0 is NaN. */
  function PValue(stats: seq<Stat>, observed: Stat): (p: Stat)
    ensures p.NaN? <==> stats == []
    ensures p.Num? ==> 0.0 <= p.value <= 1.0
    ensures p.Num? ==> p.value * |stats| as real == CountAtLeast(stats, observed) as real
  {
    if stats == [] then NaN
    else Num(CountAtLeast(stats, observed) as real / |stats| as real)
  }

  /** Counting distributes over concatenation, so the count does not depend on how the entries are split. */
  lemma {:induction false} CountAppend(a: seq<Stat>, b: seq<Stat>, observed: Stat)
    ensures CountAtLeast(a + b, observed) == CountAtLeast(a, observed) + CountAtLeast(b, observed)
  {
    if a == [] {
      assert a + b == b;
    } else {
      assert (a + b)[1..] == a[1..] + b;
      CountAppend(a[1..], b, observed);
    }
  }

  /** Every entry counts exactly when every entry is at least the observed value. */
  lemma {:induction false} CountAllIff(stats: seq<Stat>, observed: Stat)
    ensures CountAtLeast(stats, observed) == |stats|
        <==> forall k :: 0 <= k < |stats| ==> AtLeast(stats[k], observed)
  {
    if stats != [] {
      CountAllIff(stats[1..], observed);
      if forall k :: 0 <= k < |stats| ==> AtLeast(stats[k], observed) {
        forall k | 0 <= k < |stats[1..]|
          ensures AtLeast(stats[1..][k], observed)
        {
          assert stats[1..][k] == stats[k + 1];
        }
      }
      if CountAtLeast(stats, observed) == |stats| {
        forall k | 0 <= k < |stats|
          ensures AtLeast(stats[k], observed)
        {
          if k > 0 {
            assert stats[k] == stats[1..][k - 1];
          }
        }
      }
    }
  }

  /** No entry counts exactly when no entry is at least the observed value. */
  lemma {:induction false} CountNoneIff(stats: seq<Stat>, observed: Stat)
    ensures CountAtLeast(stats, observed) == 0
        <==> forall k :: 0 <= k < |stats| ==> !AtLeast(stats[k], observed)
  {
    if stats != [] {
      CountNoneIff(stats[1..], observed);
      if forall k :: 0 <= k < |stats| ==> !AtLeast(stats[k], observed) {
        forall k | 0 <= k < |stats[1..]|
          ensures !AtLeast(stats[1..][k], observed)
        {
          assert stats[1..][k] == stats[k + 1];
        }
      }
      if CountAtLeast(stats, observed) == 0 {
        forall k | 0 <= k < |stats|
          ensures !AtLeast(stats[k], observed)
        {
          if k > 0 {
            assert stats[k] == stats[1..][k - 1];
          }
        }
      }
    }
  }

  /** Every reshuffle of the column has the column's own mean (ties included). */
  lemma PermutedMeanEqualsObserved(sample: seq<real>, locs: seq<nat>)
    requires IsIndexPermutation(locs, |sample|)
    ensures Mean(Resample(sample, locs)) == Mean(sample)
  {
    MeanPermutationInvariant(Resample(sample, locs), sample);
  }

  /**
    When every permuted mean equals the observed mean of a non-empty column,
    every entry ties with it and the p-value is exactly 1.
   */
  lemma PValueOfTiesIsOne(sample: seq<real>, stats: seq<Stat>)
    requires sample != [] && stats != []
    requires forall k :: 0 <= k < |stats| ==> stats[k] == Mean(sample)
    ensures PValue(stats, Mean(sample)) == Num(1.0)
  {
    CountAllIff(stats, Mean(sample));
  }

  /**
    On an empty column the observed and every permuted mean are NaN, no
    comparison with NaN holds, and the p-value is 0.
   */
  lemma PValueOfNaNObservedIsZero(stats: seq<Stat>)
    requires stats != []
    ensures PValue(stats, NaN) == Num(0.0)
  {
    CountNoneIff(stats, NaN);
  }

  /**
    `permutation_analysis`: returns the p-value and the array of permuted means.
    The column is never written (the method modifies nothing that existed before it).
   */
  method PermutationAnalysis(column: array<real>, numPermutations: nat, draws: seq<seq<nat>>)
    returns (pValue: Stat, permutedStats: array<Stat>)
    requires |draws| == numPermutations
    requires forall i :: 0 <= i < |draws| ==> IsIndexPermutation(draws[i], column.Length)
    ensures fresh(permutedStats) && permutedStats.Length == numPermutations
    ensures forall i :: 0 <= i < numPermutations ==>
              permutedStats[i] == Mean(Resample(column[..], draws[i]))
    ensures pValue == PValue(permutedStats[..], Mean(column[..]))
    ensures forall i :: 0 <= i < numPermutations ==> permutedStats[i] == Mean(column[..])
    ensures numPermutations == 0 ==> pValue == NaN
    ensures numPermutations > 0 && column.Length > 0 ==> pValue == Num(1.0)
    ensures numPermutations > 0 && column.Length == 0 ==> pValue == Num(0.0)
  {
    var observed := Mean(column[..]);
    permutedStats := new Stat[numPermutations];
    for i := 0 to numPermutations
      invariant forall k :: 0 <= k < i ==> permutedStats[k] == Mean(Resample(column[..], draws[k]))
    {
      var permuted := Resample(column[..], draws[i]);
      permutedStats[i] := Mean(permuted);
    }
    pValue := PValue(permutedStats[..], observed);

    forall i | 0 <= i < numPermutations
      ensures permutedStats[i] == observed
    {
      PermutedMeanEqualsObserved(column[..], draws[i]);
    }
    if numPermutations > 0 {
      if column.Length > 0 {
        PValueOfTiesIsOne(column[..], permutedStats[..]);
      } else {
        PValueOfNaNObservedIsZero(permutedStats[..]);
      }
    }
  }
}
