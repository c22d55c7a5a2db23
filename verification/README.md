# Age binning of a labelled dataset, modelled in Dafny

This project models the binning module of an MSc research project
(`src/common/binning.py`). The module takes a feature matrix `X`, targets `y`
and a per-sample age vector. It decides which sample rows go into which group
("bin") and then gathers those rows from `X` and `y`. It offers four
strategies:

- **Fixed age thresholds** (`get_age_bins_indices`, `bin_by_age`, `bin_data`).
  Three bins split at ages 9 and 12; two bins split at age 10.
- **Overlapping sliding age windows** (`bin_by_sliding_window`).
- **Random bins of requested sizes** (`bin_by_random_equivalent_size`).
- **Random draws without replacement** (`subsample_bin`, `bin_to_approximate_size`).

Modelling choices:

- Rows of `X` and `y` have the opaque types `R` and `T`. A bin's target rows
  are gathered with the same index list as its feature rows.
- Ages are `real`, so NaN cannot occur.
- Every function is pure. Each random draw comes in as a parameter: the
  permutation of `[0, n)` that `np.random.choice` would have produced. A draw
  of `k` rows without replacement is the first `k` entries of that
  permutation, which is how NumPy's `choice(n, k, replace=False)` takes it.
- The errors NumPy would raise are values of the `Error` datatype:
  - `EmptyAges`: `np.min` of an empty vector.
  - `NegativeSampleSize`: a draw of a negative number of rows.
  - `InsufficientSamples`: a draw of more rows than exist.

Files:

- `results.dfy`: `Option` and `Result`.
- `indexing.dfy`: index-sequence predicates, integer-array indexing (`Gather`),
  Python slicing with clamping and negative bounds (`PySlice`), and the fact
  that a permutation reaches every position.
- `decimal.dfy`: `str(int)` as used in the `f'Bin {k}'` labels, with a parser
  it round-trips with.
- `rounding.dfy`: `np.min`, `np.max` and `np.round`, which rounds halves to
  even.
- `binning.dfy`: the seven operations of the module and their properties.

Two points of the code decide the model's shape:

- `bin_by_random_equivalent_size` slices one permutation three times
  (`src/common/binning.py:194`). The second slice starts at `bin_sizes[0]`,
  where the first ends. The third starts at `bin_sizes[1]`, not at
  `bin_sizes[0]+bin_sizes[1]`, so bins 2 and 3 can overlap. The default sizes
  (114, 147, 112) add up to 373, so on 373 rows consecutive slices would use
  every row exactly once. `RandomEquivalentSizeBins` models the slicing as written, and
  `IntendedRandomEquivalentSizeBins` models the consecutive slicing (see
  Findings).
- `bin_data` bins by age only when `ages is not None and ages.any()`
  (`src/common/binning.py:102`). An all-zero or empty age vector therefore
  also gives the single "All" bin. `HasAges` models that test.

## Model

| member | source | states |
|---|---|---|
| `Binning.BinLabel` | src/common/binning.py:115 | The f-string `f'Bin {k}'`: "Bin " followed by the decimal rendering of `k`. What that text satisfies is stated by `BinLabelReadsBack` |
| `Binning.BinLabelReadsBack` | src/common/binning.py:115 | A bin label is "Bin " followed by decimal digits only, and those digits read back as the bin number |
| `Binning.Bands` | src/common/binning.py:35-43 | The age conditions of each bin count. With 3 bins they are age ≤ 9, 9 < age ≤ 12 and age > 12. With 2 bins they are age ≤ 10 and age > 10. Any other count has none |
| `Binning.Where` | src/common/binning.py:36-38 | `np.where` over one age condition: it returns exactly the positions whose age satisfies the condition, each once, in ascending order |
| `Binning.AgeBinIndices` | src/common/binning.py:33-45 | With 3 bins: bin 1 holds ages ≤ 9, bin 2 holds 9 < age ≤ 12, bin 3 holds age > 12, so age 9 goes to bin 1 and age 12 to bin 2. With 2 bins: ages ≤ 10, then ages > 10. Any other count gives an empty list, not an error. Every list is in range and strictly ascending |
| `Binning.AgeBinsPartition` | src/common/binning.py:35-43 | For 2 or 3 bins the index lists partition `[0, |ages|)`: each position is in some list and no position is in two lists |
| `Binning.ThreeBinSizesAddUp` | src/common/binning.py:35-39 | The three threshold bins together count every sample exactly once |
| `Binning.TwoBinSizesAddUp` | src/common/binning.py:40-43 | The two threshold bins together count every sample exactly once |
| `Binning.AgeBinSizesAddUp` | src/common/binning.py:33-45 | For 2 or 3 bins the bin sizes sum to the number of samples |
| `Binning.Select` | src/common/binning.py:144 | The paired gather `X[idx], y[idx]` behind every output (also lines 172, 197-198 and 209): row `j` of the X part and row `j` of the y part are the rows of the same original sample `idx[j]` |
| `Binning.SelectAll` | src/common/binning.py:74 | One group per index list, and each group gathers `X` and `y` with the same list |
| `Binning.BinByAge` | src/common/binning.py:71-78 | There is one group per index list of `get_age_bins_indices`. In each group, row `j` of the X part and row `j` of the y part come from the same original sample |
| `Binning.BinByAgeSelectsBands` | src/common/binning.py:71-78 | Each group of `bin_by_age` holds exactly the samples of its age band, in their original order |
| `Binning.Labelled` | src/common/binning.py:112-115 | The enumerate loop: group `k` (counting from 0) becomes the X bin, the y bin and the label "Bin k+1", in order |
| `Binning.HasAges` | src/common/binning.py:102 | `ages is not None and ages.any()`, with `ages.any()` as `AnyNonZero`. What the test means is stated by `HasAgesIffNonZeroAge` |
| `Binning.HasAgesIffNonZeroAge` | src/common/binning.py:102 | Ages are usable exactly when they are given and at least one of them is non-zero. `None`, an empty vector and an all-zero vector all fail the test |
| `Binning.AnyNonZero` | src/common/binning.py:102 | `ages.any()`, written as an or-reduction from the front: true exactly when some age is non-zero |
| `Binning.WithAllBin` | src/common/binning.py:106-109 | With `include_all` the full `X`, the full `y` and the label "All" come first, and every other bin moves back by one place unchanged. Without it the bins are unchanged |
| `Binning.BinData` | src/common/binning.py:102-120 | The three outputs have equal length. Without usable ages (`None`, all zero or empty) the result is exactly one "All" bin with the full `X` and `y`, whatever `include_all` and `num_bins` are. With usable ages: an optional leading "All" bin with the full data, then one bin per index list, row-aligned, labelled "Bin 1", "Bin 2", … |
| `Binning.BinDataLabels` | src/common/binning.py:6-7 | With usable ages and 3 bins the labels are `BIN_LABELS` (with "All") or `ONLY_BIN_LABELS` (without). With 2 bins they are "Bin 1", "Bin 2" after an optional "All". With an invalid count only the optional "All" is left |
| `Binning.BinnedByAgeLabels` | src/common/binning.py:106-115 | The labels of any age-binned result, for each bin count: `BIN_LABELS` or `ONLY_BIN_LABELS` for 3 bins, "Bin 1", "Bin 2" after an optional "All" for 2, and only the optional "All" for any other count |
| `Binning.LabelsSpelledOut` | src/common/binning.py:106-115 | An optional "All" followed by "Bin 1" .. "Bin n" is, for n = 3, 2 and 0, the fixed label list with or without "All" |
| `Binning.AllBinLabels` | src/common/binning.py:6-7 | `BIN_LABELS` is `ONLY_BIN_LABELS` with "All" in front |
| `Binning.FirstBinLabels` | src/common/binning.py:115 | The f-string renders bins 1, 2 and 3 as "Bin 1", "Bin 2" and "Bin 3" |
| `Binning.BinLabelInjective` | src/common/binning.py:115 | Different bin numbers give different labels |
| `Binning.BinDataAllBinSizes` | src/common/binning.py:107-115 | Any `bin_data` result with usable ages, `include_all` and 3 bins has 4 X bins and 4 y bins. "All" has one row per row of `X` and `y`, and in both outputs the sizes of the three age bins sum to the number of samples with an age |
| `Binning.WindowBounds` | src/common/binning.py:166-169 | The window starting at age `s` has lower bound `s`. It spans `window_size` whole ages, except that the window at 12 reaches one age further |
| `Binning.WindowBand` | src/common/binning.py:171 | The window condition `min_window_age <= ages <= max_window_age`: an age is admitted exactly when it lies within both bounds, inclusive |
| `Binning.SlidingWindows` | src/common/binning.py:165-176 | For given rounded ages there are `max(0, maxAge - windowSize - minAge)` windows, and the two output lists have that length. Window `k` starts at `s = minAge + k`. Its bounds are `[s, s+windowSize-1]`, except `[12, 12+windowSize]` when `s == 12`. Each window holds exactly the samples whose age lies within its inclusive bounds, in order and row-aligned |
| `Binning.BinBySlidingWindow` | src/common/binning.py:161-176 | Empty ages give an error, as `np.min` raises. Otherwise the window range runs from the rounded minimum age to the rounded maximum age, and the windows over that range are the ones `SlidingWindows` describes |
| `Binning.RandomBinIndices` | src/common/binning.py:194 | The three slices of the draw as written. Every index comes from the draw, and for non-negative sizes no bin is larger than its requested size |
| `Binning.IntendedRandomBinIndices` | src/common/binning.py:194 | The corrected slices, where the third starts where the second ends. Every index comes from the draw, and for non-negative sizes no bin is larger than its requested size |
| `Binning.RandomEquivalentSizeBins` | src/common/binning.py:192-201 | As written: three bins labelled "Bin 1".."Bin 3". Each is a row-aligned gather of the Python slices `perm[0:s0]`, `perm[s0:s0+s1]` and `perm[s1:s1+s2]` of one permutation |
| `Binning.RandomBinSlices` | src/common/binning.py:194 | For non-negative sizes each slice is clamped to the `N` drawn positions: bin 1 is `perm[0..min(s0,N)]`, bin 2 is `perm[min(s0,N)..min(s0+s1,N)]`, bin 3 is `perm[min(s1,N)..min(s1+s2,N)]`, and each may be short or empty |
| `Binning.RandomFirstTwoBinsDisjoint` | src/common/binning.py:194 | For any sizes, bins 1 and 2 share no sample |
| `Binning.RandomThirdBinRepeatsSecond` | src/common/binning.py:194 | With sizes (1, 1, 1) and at least two samples, bins 2 and 3 are the same single sample, so they are not disjoint |
| `Binning.RandomDefaultThirdBinInsideSecond` | src/common/binning.py:179-194 | With the default sizes over 373 samples, bin 3 lies inside bin 2, and the last 112 drawn samples are in no bin |
| `Binning.IntendedRandomEquivalentSizeBins` | src/common/binning.py:192-201 | The corrected binning: the third slice starts where the second ends. It has the same labels and is row-aligned |
| `Binning.IntendedRandomBinsDisjoint` | src/common/binning.py:194 | With the corrected slicing and non-negative sizes, the three bins are pairwise disjoint. When the sizes fit in `N`, each bin has exactly its requested size |
| `Binning.SubsampleBin` | src/common/binning.py:142-144 | A count above the row count fails with `InsufficientSamples`, and a negative count fails with `NegativeSampleSize`. Otherwise exactly `num_samples` rows are drawn at distinct positions, each paired with its own target row |
| `Binning.BinToApproximateSize` | src/common/binning.py:204-209 | Fewer than `N` rows: the input comes back unchanged. Otherwise exactly `N` rows are drawn at distinct positions, and a negative `N` is an error |
| `Binning.ApproximateSizeAtFullSizeReorders` | src/common/binning.py:205-209 | When `N` equals the row count, the result gathers `X` and `y` at a permutation of all row positions, so it is a reordering of the input. In particular every original sample appears in it with its own target row |
| `Binning.ApproximateSizeAtFullSizeCanReorder` | src/common/binning.py:205-209 | At full size the result can differ from the input: for two rows, the draw `[1, 0]` returns them swapped |
| `Rounding.RoundHalfEven` | src/common/binning.py:163 | `np.round`: the result lies within 0.5 of its input, and an exact tie goes to the even integer |
| `Rounding.RoundHalfEvenUnique` | src/common/binning.py:163 | The rounding rule determines the integer uniquely |
| `Rounding.SeqMin` | src/common/binning.py:163 | `np.min`: an element of the ages that is no larger than any age |
| `Rounding.SeqMax` | src/common/binning.py:163 | `np.max`: an element of the ages that is no smaller than any age |
| `Decimal.Decimal` | src/common/binning.py:115 | The rendering of a bin number: decimal digits only, with no leading zero |
| `Decimal.ParseDecimalOfDecimal` | src/common/binning.py:115 | Parsing a rendered number gives the number back |
| `Decimal.DecimalInjective` | src/common/binning.py:115 | Different numbers render differently |
| `Indexing.Gather` | src/common/binning.py:74 | NumPy integer-array indexing: row `k` of the result is row `idx[k]` of the input |
| `Indexing.PySlice` | src/common/binning.py:194 | A Python slice never fails. Its length is the gap between its two normalised bounds, and it reads consecutive elements from the start bound |
| `Indexing.SliceBound` | src/common/binning.py:194 | A negative slice bound counts from the end, and every bound is clamped into `[0, n]` |
| `Indexing.SlicesOfDistinctAreDisjoint` | src/common/binning.py:194 | Two slices of a repeat-free sequence whose position ranges do not overlap share no element |
| `Indexing.PermutationCovers` | src/common/binning.py:193 | A permutation of `[0, n)` mentions every position |

## Left out

- NumPy's random generator (lines 142, 193 and 208): the draw is a parameter, constrained to be a permutation. Entropy, seeding and the distribution are not modelled.
- Floating point: ages are exact reals and NaN is excluded. `int(np.round(.))` is exact round-half-even on reals.
- Packaging the outputs as `np.array(..., dtype=object)` (lines 122-123): the model uses plain sequences.
- The 2-D target branch (line 76): `np.where` returns a one-element tuple, and `y[bin_index, :]` turns it into an index array of shape (1, k). The 2-D y part therefore has an extra leading axis of length 1. The model drops that axis and gathers `y` the way the 1-D branch (line 74) does.
- Default argument values (`bin_sizes=(114, 147, 112)`, `N=75`, `window_size=3`, `include_all=False`, `num_bins=3`): every argument is explicit. The defaults appear only in `RandomDefaultThirdBinInsideSecond`.
- The `EQUAL_BIN_LABELS` constant (line 8): no function uses it.
- Arrays whose lengths disagree: NumPy raises an `IndexError` only on an out-of-range index. The model instead puts length bounds in the preconditions. The age-based operations (`BinByAge`, `BinData` with usable ages, `SlidingWindows`, `BinBySlidingWindow`) require `|ages| <= |X|` and `|ages| <= |y|`. The random draws (`RandomEquivalentSizeBins`, `SubsampleBin`, and `BinToApproximateSize` when it draws) require `|X| <= |y|`. These bounds are stronger than the source needs. They also exclude mismatched-length calls that never touch an out-of-range row: an invalid bin count, which gathers nothing; sliding windows that admit none of the extra ages; and random sizes that draw none of the extra rows.
- NumPy's messages: the model does not reproduce the wording of the exceptions, only which error occurs.
- Mutation and concurrency: the source performs none.

## Findings

| source | as written | input that shows it | evidently intended | confidence | as-written member | corrected member |
|---|---|---|---|---|---|---|
| src/common/binning.py:194 | The third slice of the permutation starts at `bin_sizes[1]` and ends at `bin_sizes[1]+bin_sizes[2]` | Sizes (1, 1, 1) with two or more samples put the same sample in bins 2 and 3. The default sizes (114, 147, 112) with 373 samples put bin 3 inside bin 2 and leave 112 samples unused | The third slice starts at `bin_sizes[0]+bin_sizes[1]`, so the three bins are disjoint | high; not executed | `Binning.RandomThirdBinRepeatsSecond` | `Binning.IntendedRandomBinsDisjoint` |
