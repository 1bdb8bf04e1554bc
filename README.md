# Permutation-test engine of the dataframe permutation calculator

This project models `permutation_analysis`, the permutation-test engine of the
command-line dataframe permutation calculator, and proves what it computes.

The engine takes one column of a table, `df[target]`. It works in four steps:

- it takes the observed mean of the column;
- it fills a preallocated array of `num_permutations` entries, and entry `i` is the mean of a fresh reshuffle of the column drawn without replacement;
- it counts the entries that are at least the observed mean;
- it divides that count by `num_permutations` to get an upper-tail p-value.

Three modules follow the components of the program:

- `Statistic` (`statistic.dfy`) holds the statistic: pandas' `mean()` as sum / count over exact reals. A result is either a number or NaN (`Stat`). It also holds numpy's `>=` on such results, which is false whenever NaN is involved.
- `Resampler` (`resampler.dfy`) models `sample(frac=1, replace=False)`. pandas draws every position of the column once, in random order, and takes the values at those positions. The drawn positions are a parameter (`locs`), constrained only to list each position exactly once.
- `PermutationEngine` (`permutation_engine.dfy`) holds the count, the p-value, and the fill loop as a method over arrays. The column is an `array<real>` that the method does not modify. The random draws of the `num_permutations` iterations are the parameter `draws`.

The main result follows from the order-invariance of the mean. Under exact
arithmetic, every reshuffle has the same multiset of values as the column, so
every permuted mean equals the observed mean exactly. Ties count as "at least",
so under exact arithmetic, for any non-empty column and at least one
permutation, the p-value is exactly 1.
`PermutationEngine.PermutationAnalysis` states this in its postcondition, and
`PermutationEngine.PValueOfTiesIsOne` proves it. Under exact arithmetic the
engine therefore cannot report variation; a real permutation test would shuffle
group labels between two groups. The model keeps the algorithm as written.
The program itself sums in float64, where the order of the additions can change
the last bit of the mean; the floating-point line under "Left out" says what
that does to the p-value. For columns whose sums are exact in float64, such as
small integers, the result above holds for the program as well.

The code validates neither of its inputs:

- Empty column: pandas returns NaN for the mean of an empty column, and every comparison with NaN is false, so the code returns a p-value of 0.0 for any positive `num_permutations`. The model proves this.
- `num_permutations == 0`: the count of an empty array is numpy's integer 0, and numpy divides 0 by 0 to NaN. The model returns `NaN`.

## Model

| member | source | states |
|---|---|---|
| Statistic.SumPermutationInvariant | Dataframe_Permutation_Calculator.py:22-28 | two columns holding the same multiset of values have the same sum |
| Statistic.MeanPermutationInvariant | Dataframe_Permutation_Calculator.py:22-28 | the mean of a column (`Mean`: sum / count, NaN when the column is empty) equals the mean of any rearrangement of it (same multiset), the empty case included |
| Statistic.MeanWithinBounds | Dataframe_Permutation_Calculator.py:22 | the mean (sum / count) of a non-empty column is a number, not NaN, and lies between any lower and upper bound of its values |
| Resampler.Resample | Dataframe_Permutation_Calculator.py:27 | a without-replacement reshuffle of the whole column (pandas' `take` of the drawn positions) has the column's length and exactly its multiset of values, and holds at place k the value at the k-th drawn position |
| Resampler.TakePermutationMultiset | Dataframe_Permutation_Calculator.py:27 | taking the values at drawn positions (`Take`, pandas' `take`) keeps the multiset of the column's values when every position is drawn exactly once, in any order |
| PermutationEngine.CountAtLeast | Dataframe_Permutation_Calculator.py:32 | the number of entries at least the observed value never exceeds the number of entries |
| PermutationEngine.CountAppend | Dataframe_Permutation_Calculator.py:32 | the count over two concatenated parts is the sum of the counts over the parts |
| PermutationEngine.CountAllIff | Dataframe_Permutation_Calculator.py:32 | the count equals the number of entries if and only if every entry is at least the observed value |
| PermutationEngine.CountNoneIff | Dataframe_Permutation_Calculator.py:32 | the count is 0 if and only if no entry is at least the observed value |
| PermutationEngine.PValue | Dataframe_Permutation_Calculator.py:32 | the p-value is NaN exactly when there are no permutations; otherwise it lies in [0, 1] and is the count divided by the number of permutations, a multiple of 1/N |
| PermutationEngine.PermutedMeanEqualsObserved | Dataframe_Permutation_Calculator.py:22-28 | the mean of every reshuffle of the column equals the observed mean |
| PermutationEngine.PValueOfTiesIsOne | Dataframe_Permutation_Calculator.py:22-32 | when every permuted mean equals the observed mean of a non-empty column, the p-value is exactly 1 |
| PermutationEngine.PValueOfNaNObservedIsZero | Dataframe_Permutation_Calculator.py:22-32 | against a NaN observed mean (empty column), with one or more permutations the p-value is exactly 0 |
| PermutationEngine.PermutationAnalysis | Dataframe_Permutation_Calculator.py:6-34 | returns a fresh array of exactly `num_permutations` entries, where entry i is the mean of draw i's reshuffle of the unmodified column; it also returns the p-value computed from that array and the observed mean. Every entry equals the observed mean, so the p-value is 1 for a non-empty column, 0 for an empty one, and NaN for zero permutations |

## Left out

- `main` (Dataframe_Permutation_Calculator.py:78-107): argument parsing, reading the CSV file, printing and the CSV export are I/O.
- `plot_results` (Dataframe_Permutation_Calculator.py:37-76): plotting is I/O. It also reads `observed_stat`, which is not defined in its scope.
- The `significance` parameter: it is accepted but never read, so nothing depends on it.
- Extracting the column, `df[target]`: the model starts from the extracted column. A missing target column (a pandas KeyError) and non-numeric columns are not modelled.
- Randomness: the distribution and seeding of pandas' shuffle are not modelled. Each draw is a parameter, and the only assumption about it is the without-replacement guarantee: every position is drawn exactly once.
- PermutationEngine.PermutationAnalysis: `num_permutations` is a `nat`. A negative count makes `np.empty` raise an error in the source; that path is not modelled.
- Floating point: values are exact reals, so float64 rounding and summation-order effects are not modelled. Missing values (NaN) inside the column, which pandas' `mean()` skips, cannot be represented. The NaN results of the mean of an empty column and of 0 / 0 are modelled. Because float64 addition depends on order, the program's permuted means can differ from its observed mean in the last bit. For the column [0.1, 0.2, 0.3], two of the six orders sum to 0.6 and the other four, the original among them, to 0.6000000000000001; a permuted mean from one of those two orders is below the observed mean, so the program's p-value can fall below 1 where the model proves exactly 1.
