/**
 The binning module: which sample rows go into which group ("bin"), and the
 gathering of those rows from the feature matrix `X` and the targets `y`.

 Rows of `X` and `y` are opaque values of types `R` and `T`, and a bin's
 target rows are gathered the way its feature rows are (the extra leading
 axis a 2-D target picks up is not modelled). Random draws are not made
 here: each randomised operation takes the permutation of `[0, n)` that
 `np.random.choice` would have produced, and a draw of `k` rows without
 replacement is its first `k` entries.
 */
module Binning {
  import opened Results
  import opened Indexing
  import Decimal
  import Rounding

  /** The failures the original code raises (each surfaces from NumPy as an exception). */
  datatype Error =
    | EmptyAges           // `np.min` / `np.max` of an empty age vector
    | NegativeSampleSize  // a draw of a negative number of rows
    | InsufficientSamples // a draw of more rows than exist, without replacement

  /** One bin: selected feature rows and the target rows that go with them. */
  datatype Group<R, T> = Group(xs: seq<R>, ys: seq<T>)

  /** Per-bin feature rows, per-bin target rows and the bin labels, as three parallel sequences. */
  datatype Binned<R, T> = Binned(xBins: seq<seq<R>>, yBins: seq<seq<T>>, labels: seq<string>)

  /** The inclusive integer age bounds of one sliding window. */
  datatype AgeRange = AgeRange(lo: int, hi: int)

  /** The sliding windows' groups and, in parallel, their age bounds. */
  datatype Windows<R, T> = Windows(windows: seq<Group<R, T>>, ranges: seq<AgeRange>)

  /** An age condition, written the way the source writes its NumPy comparisons. */
  datatype Band =
    | AtMost(hi: real)             // age <= hi
    | Above(lo: real)              // lo < age
    | Between(lo: real, hi: real)  // lo < age <= hi
    | Within(lo: real, hi: real)   // lo <= age <= hi
  {
    predicate Admits(age: real) {
      match this
      case AtMost(hi) => age <= hi
      case Above(lo) => lo < age
      case Between(lo, hi) => lo < age <= hi
      case Within(lo, hi) => lo <= age <= hi
    }
  }

  const ALL_LABEL: string := "All"
  const BIN_LABELS: seq<string> := ["All", "Bin 1", "Bin 2", "Bin 3"]
  const ONLY_BIN_LABELS: seq<string> := ["Bin 1", "Bin 2", "Bin 3"]

  /** The label of the `k`-th bin, `f'Bin {k}'`. */
  function BinLabel(k: nat): string {
    "Bin " + Decimal.Decimal(k)
  }

  /** A bin label is "Bin " followed by decimal digits that read back as the bin number. */
  lemma BinLabelReadsBack(k: nat)
    ensures |BinLabel(k)| > 4 && BinLabel(k)[..4] == "Bin "
    ensures forall i :: 4 <= i < |BinLabel(k)| ==> Decimal.IsDigit(BinLabel(k)[i])
    ensures Decimal.ParseDecimal(BinLabel(k)[4..]) == k
  {
    assert BinLabel(k)[4..] == Decimal.Decimal(k);
    Decimal.ParseDecimalOfDecimal(k);
  }

  /** Bins with different numbers get different labels. */
  lemma BinLabelInjective(j: nat, k: nat)
    ensures BinLabel(j) == BinLabel(k) ==> j == k
  {
    if BinLabel(j) == BinLabel(k) {
      assert Decimal.Decimal(j) == BinLabel(j)[4..];
      assert Decimal.Decimal(k) == BinLabel(k)[4..];
      Decimal.DecimalInjective(j, k);
    }
  }

  // ---------------------------------------------------------------------------
  // Selecting positions and gathering rows
  // ---------------------------------------------------------------------------

  /**
   `idx` is what `np.where(b(ages))` returns: exactly the positions whose
   age satisfies `b`, each once, in ascending order.
   */
  predicate Picks(idx: seq<nat>, ages: seq<real>, b: Band) {
    && InRange(idx, |ages|)
    && StrictlyIncreasing(idx)
    && (forall i :: 0 <= i < |ages| ==> (i in idx <==> b.Admits(ages[i])))
  }

  /** `np.where` over one age condition. */
  function Where(ages: seq<real>, b: Band): (idx: seq<nat>)
    ensures Picks(idx, ages, b)
    decreases |ages|
  {
    if |ages| == 0 then []
    else
      var last := |ages| - 1;
      Where(ages[..last], b) + (if b.Admits(ages[last]) then [last] else [])
  }

  /**
   Row alignment: `xs` and `ys` hold, at each row `j`, the feature row and the target
   row of the same original sample `idx[j]`.
   */
  ghost predicate Selects<R, T>(xs: seq<R>, ys: seq<T>, X: seq<R>, y: seq<T>, idx: seq<nat>) {
    && InRange(idx, |X|)
    && InRange(idx, |y|)
    && |xs| == |idx|
    && |ys| == |idx|
    && (forall j :: 0 <= j < |idx| ==> xs[j] == X[idx[j]] && ys[j] == y[idx[j]])
  }

  /** `g` holds exactly the samples whose age satisfies `b`, in their original order. */
  ghost predicate SelectsExactly<R, T>(g: Group<R, T>, X: seq<R>, y: seq<T>, ages: seq<real>, b: Band) {
    exists idx :: Picks(idx, ages, b) && Selects(g.xs, g.ys, X, y, idx)
  }

  /** `g` holds `n` rows taken at `n` different positions, each with its own target row. */
  ghost predicate DrawnWithoutReplacement<R, T>(g: Group<R, T>, X: seq<R>, y: seq<T>, n: nat) {
    exists idx :: |idx| == n && Distinct(idx) && Selects(g.xs, g.ys, X, y, idx)
  }

  /** `(X[idx], y[idx])`: the same index sequence applied to both arrays. */
  function Select<R, T>(X: seq<R>, y: seq<T>, idx: seq<nat>): (g: Group<R, T>)
    requires InRange(idx, |X|) && InRange(idx, |y|)
    ensures Selects(g.xs, g.ys, X, y, idx)
  {
    Group(Gather(X, idx), Gather(y, idx))
  }

  /** One group per index list, each gathering `X` and `y` with that same list. */
  function SelectAll<R, T>(X: seq<R>, y: seq<T>, bins: seq<seq<nat>>): (groups: seq<Group<R, T>>)
    requires forall k :: 0 <= k < |bins| ==> InRange(bins[k], |X|) && InRange(bins[k], |y|)
    ensures |groups| == |bins|
    ensures forall k :: 0 <= k < |bins| ==> Selects(groups[k].xs, groups[k].ys, X, y, bins[k])
  {
    seq(|bins|, k requires 0 <= k < |bins| => Select(X, y, bins[k]))
  }

  /** The groups split into the three parallel outputs, labelled "Bin 1", "Bin 2", ... in order. */
  function Labelled<R, T>(groups: seq<Group<R, T>>): (r: Binned<R, T>)
    ensures |r.xBins| == |r.yBins| == |r.labels| == |groups|
    ensures forall k :: 0 <= k < |groups| ==>
      r.xBins[k] == groups[k].xs && r.yBins[k] == groups[k].ys && r.labels[k] == BinLabel(k + 1)
  {
    Binned(seq(|groups|, k requires 0 <= k < |groups| => groups[k].xs),
           seq(|groups|, k requires 0 <= k < |groups| => groups[k].ys),
           seq(|groups|, k requires 0 <= k < |groups| => BinLabel(k + 1)))
  }

  // ---------------------------------------------------------------------------
  // Threshold binning: get_age_bins_indices, bin_by_age
  // ---------------------------------------------------------------------------

  /** The age conditions of each bin count: thresholds 9 and 12 for three bins, 10 for two. */
  function Bands(numBins: int): (bands: seq<Band>)
    ensures numBins != 2 && numBins != 3 ==> bands == []
    ensures numBins == 3 ==> |bands| == 3 && forall age: real ::
      && (bands[0].Admits(age) <==> age <= 9.0)
      && (bands[1].Admits(age) <==> 9.0 < age <= 12.0)
      && (bands[2].Admits(age) <==> 12.0 < age)
    ensures numBins == 2 ==> |bands| == 2 && forall age: real ::
      && (bands[0].Admits(age) <==> age <= 10.0)
      && (bands[1].Admits(age) <==> 10.0 < age)
  {
    if numBins == 3 then [AtMost(9.0), Between(9.0, 12.0), Above(12.0)]
    else if numBins == 2 then [AtMost(10.0), Above(10.0)]
    else []
  }

  /** `get_age_bins_indices`: the index list of each age bin. */
  function AgeBinIndices(ages: seq<real>, numBins: int): (bins: seq<seq<nat>>)
    ensures numBins != 2 && numBins != 3 ==> bins == []
    ensures numBins == 3 ==> |bins| == 3 && forall i :: 0 <= i < |ages| ==>
      && (i in bins[0] <==> ages[i] <= 9.0)
      && (i in bins[1] <==> 9.0 < ages[i] <= 12.0)
      && (i in bins[2] <==> 12.0 < ages[i])
    ensures numBins == 2 ==> |bins| == 2 && forall i :: 0 <= i < |ages| ==>
      && (i in bins[0] <==> ages[i] <= 10.0)
      && (i in bins[1] <==> 10.0 < ages[i])
    ensures forall k :: 0 <= k < |bins| ==> Picks(bins[k], ages, Bands(numBins)[k])
  {
    if numBins == 3 then
      [Where(ages, AtMost(9.0)), Where(ages, Between(9.0, 12.0)), Where(ages, Above(12.0))]
    else if numBins == 2 then
      [Where(ages, AtMost(10.0)), Where(ages, Above(10.0))]
    else
      []
  }

  /**
   With two or three bins, the index lists split the sample positions: each
   position is in exactly one list.
   */
  lemma AgeBinsPartition(ages: seq<real>, numBins: int)
    requires numBins == 2 || numBins == 3
    ensures Partitions(AgeBinIndices(ages, numBins), |ages|)
  {
    var bins := AgeBinIndices(ages, numBins);
    forall i | 0 <= i < |ages| ensures Listed(bins, i) {
      if numBins == 3 {
        if ages[i] <= 9.0 { assert i in bins[0]; }
        else if ages[i] <= 12.0 { assert i in bins[1]; }
        else { assert i in bins[2]; }
      } else {
        if ages[i] <= 10.0 { assert i in bins[0]; } else { assert i in bins[1]; }
      }
    }
  }

  /** Every sample is counted by exactly one of the three age bins. */
  lemma {:induction false} ThreeBinSizesAddUp(ages: seq<real>)
    ensures |Where(ages, AtMost(9.0))| + |Where(ages, Between(9.0, 12.0))| + |Where(ages, Above(12.0))| == |ages|
  {
    if |ages| > 0 {
      ThreeBinSizesAddUp(ages[..|ages| - 1]);
    }
  }

  /** Every sample is counted by exactly one of the two age bins. */
  lemma {:induction false} TwoBinSizesAddUp(ages: seq<real>)
    ensures |Where(ages, AtMost(10.0))| + |Where(ages, Above(10.0))| == |ages|
  {
    if |ages| > 0 {
      TwoBinSizesAddUp(ages[..|ages| - 1]);
    }
  }

  /** With two or three bins, the bins' sizes add up to the number of samples. */
  lemma AgeBinSizesAddUp(ages: seq<real>, numBins: int)
    requires numBins == 2 || numBins == 3
    ensures TotalSize(AgeBinIndices(ages, numBins)) == |ages|
  {
    var bins := AgeBinIndices(ages, numBins);
    if numBins == 3 {
      ThreeBinSizesAddUp(ages);
      TotalSizeOfThree(bins[0], bins[1], bins[2]);
    } else {
      TwoBinSizesAddUp(ages);
      TotalSizeOfTwo(bins[0], bins[1]);
    }
  }

  /** `bin_by_age`: one group per index list, gathering `X` and `y` with the same list. */
  function BinByAge<R, T>(X: seq<R>, y: seq<T>, ages: seq<real>, numBins: int): (bins: seq<Group<R, T>>)
    requires |ages| <= |X| && |ages| <= |y|
    ensures |bins| == |AgeBinIndices(ages, numBins)|
    ensures forall k :: 0 <= k < |bins| ==> Selects(bins[k].xs, bins[k].ys, X, y, AgeBinIndices(ages, numBins)[k])
  {
    SelectAll(X, y, AgeBinIndices(ages, numBins))
  }

  /** Each group of `bin_by_age` holds exactly the samples of its age band. */
  lemma BinByAgeSelectsBands<R, T>(X: seq<R>, y: seq<T>, ages: seq<real>, numBins: int)
    requires |ages| <= |X| && |ages| <= |y|
    ensures var bins := BinByAge(X, y, ages, numBins);
      |bins| == |Bands(numBins)| &&
      forall k :: 0 <= k < |bins| ==> SelectsExactly(bins[k], X, y, ages, Bands(numBins)[k])
  {
    var bins := BinByAge(X, y, ages, numBins);
    var indices := AgeBinIndices(ages, numBins);
    forall k | 0 <= k < |bins| ensures SelectsExactly(bins[k], X, y, ages, Bands(numBins)[k]) {
      assert Picks(indices[k], ages, Bands(numBins)[k]) && Selects(bins[k].xs, bins[k].ys, X, y, indices[k]);
    }
  }

  // ---------------------------------------------------------------------------
  // bin_data
  // ---------------------------------------------------------------------------

  /** `ages is not None and ages.any()`: ages were given and at least one is non-zero. */
  predicate HasAges(ages: Option<seq<real>>) {
    ages.Some? && AnyNonZero(ages.value)
  }

  /**
   Ages are usable exactly when they are given and one of them is non-zero:
   `None`, an empty vector and an all-zero vector all lead to the lone "All" bin.
   */
  lemma HasAgesIffNonZeroAge(ages: Option<seq<real>>)
    ensures HasAges(ages) <==> ages.Some? && exists i :: 0 <= i < |ages.value| && ages.value[i] != 0.0
  {
  }

  /** `np.any` on an age vector, as an or-reduction over its elements from the front. */
  function AnyNonZero(s: seq<real>): (b: bool)
    ensures b <==> exists i :: 0 <= i < |s| && s[i] != 0.0
  {
    if |s| == 0 then false
    else if s[0] != 0.0 then true
    else
      var rest := AnyNonZero(s[1..]);
      assert forall i :: 1 <= i < |s| ==> s[i] == s[1..][i - 1];
      rest
  }

  /**
   `r` is the age-binned result: an optional leading "All" bin with the full
   data, then one bin per index list of `AgeBinIndices`, labelled "Bin 1",
   "Bin 2", ... in order.
   */
  ghost predicate BinnedByAge<R, T>(r: Binned<R, T>, X: seq<R>, y: seq<T>, ages: seq<real>,
                                    includeAll: bool, numBins: int) {
    var indices := AgeBinIndices(ages, numBins);
    var lead := if includeAll then 1 else 0;
    && |r.xBins| == |r.yBins| == |r.labels| == lead + |indices|
    && (includeAll ==> r.xBins[0] == X && r.yBins[0] == y && r.labels[0] == ALL_LABEL)
    && forall k :: 0 <= k < |indices| ==>
         && Selects(r.xBins[lead + k], r.yBins[lead + k], X, y, indices[k])
         && r.labels[lead + k] == BinLabel(k + 1)
  }

  /** The optional leading "All" bin, holding the full data, in front of `binned`'s bins. */
  function WithAllBin<R, T>(binned: Binned<R, T>, X: seq<R>, y: seq<T>, includeAll: bool): (r: Binned<R, T>)
    ensures var lead := if includeAll then 1 else 0;
      && |r.xBins| == lead + |binned.xBins|
      && |r.yBins| == lead + |binned.yBins|
      && |r.labels| == lead + |binned.labels|
      && (includeAll ==> r.xBins[0] == X && r.yBins[0] == y && r.labels[0] == ALL_LABEL)
      && (forall k :: 0 <= k < |binned.xBins| ==> r.xBins[lead + k] == binned.xBins[k])
      && (forall k :: 0 <= k < |binned.yBins| ==> r.yBins[lead + k] == binned.yBins[k])
      && (forall k :: 0 <= k < |binned.labels| ==> r.labels[lead + k] == binned.labels[k])
  {
    if includeAll then Binned([X] + binned.xBins, [y] + binned.yBins, [ALL_LABEL] + binned.labels)
    else binned
  }

  /** `bin_data`: age bins (optionally after an "All" bin), or a lone "All" bin without usable ages. */
  function BinData<R, T>(X: seq<R>, y: seq<T>, ages: Option<seq<real>>, includeAll: bool, numBins: int)
    : (r: Binned<R, T>)
    requires HasAges(ages) ==> |ages.value| <= |X| && |ages.value| <= |y|
    ensures |r.xBins| == |r.yBins| == |r.labels|
    ensures !HasAges(ages) ==> r == Binned([X], [y], [ALL_LABEL])
    ensures HasAges(ages) ==> BinnedByAge(r, X, y, ages.value, includeAll, numBins)
  {
    if HasAges(ages) then
      WithAllBin(Labelled(BinByAge(X, y, ages.value, numBins)), X, y, includeAll)
    else
      Binned([X], [y], [ALL_LABEL])
  }

  /** With usable ages, the labels are the fixed label lists of the module. */
  lemma BinDataLabels<R, T>(X: seq<R>, y: seq<T>, ages: seq<real>, includeAll: bool, numBins: int)
    requires HasAges(Some(ages)) && |ages| <= |X| && |ages| <= |y|
    ensures var labels := BinData(X, y, Some(ages), includeAll, numBins).labels;
      && (numBins == 3 ==> labels == if includeAll then BIN_LABELS else ONLY_BIN_LABELS)
      && (numBins == 2 ==> labels == (if includeAll then [ALL_LABEL] else []) + ["Bin 1", "Bin 2"])
      && (numBins != 2 && numBins != 3 ==> labels == if includeAll then [ALL_LABEL] else [])
  {
    BinnedByAgeLabels(BinData(X, y, Some(ages), includeAll, numBins), X, y, ages, includeAll, numBins);
  }

  /** The labels of an age-binned result, spelled out for each bin count. */
  lemma BinnedByAgeLabels<R, T>(r: Binned<R, T>, X: seq<R>, y: seq<T>, ages: seq<real>,
                                includeAll: bool, numBins: int)
    requires BinnedByAge(r, X, y, ages, includeAll, numBins)
    ensures numBins == 3 ==> r.labels == if includeAll then BIN_LABELS else ONLY_BIN_LABELS
    ensures numBins == 2 ==> r.labels == (if includeAll then [ALL_LABEL] else []) + ["Bin 1", "Bin 2"]
    ensures numBins != 2 && numBins != 3 ==> r.labels == if includeAll then [ALL_LABEL] else []
  {
    var lead := if includeAll then 1 else 0;
    var n := |AgeBinIndices(ages, numBins)|;
    forall k | 0 <= k < n
      ensures r.labels[lead..][k] == BinLabel(k + 1)
    {
      assert r.labels[lead..][k] == r.labels[lead + k];
    }
    LabelsSpelledOut(r.labels, includeAll, lead, n);
  }

  /**
   Labels made of an optional "All" (`lead` says whether it is there)
   followed by "Bin 1" .. "Bin n", spelled out for the bin counts the module
   produces.
   */
  lemma LabelsSpelledOut(labels: seq<string>, includeAll: bool, lead: nat, n: nat)
    requires lead == if includeAll then 1 else 0
    requires |labels| == lead + n
    requires includeAll ==> labels[0] == ALL_LABEL
    requires forall k :: 0 <= k < n ==> labels[lead..][k] == BinLabel(k + 1)
    ensures n == 3 ==> labels == if includeAll then BIN_LABELS else ONLY_BIN_LABELS
    ensures n == 2 ==> labels == (if includeAll then [ALL_LABEL] else []) + ["Bin 1", "Bin 2"]
    ensures n == 0 ==> labels == if includeAll then [ALL_LABEL] else []
  {
    FirstBinLabels();
    var head, bins := labels[..lead], labels[lead..];
    assert labels == head + bins;
    assert head == if includeAll then [ALL_LABEL] else [];
    if n == 3 {
      assert bins == [BinLabel(1), BinLabel(2), BinLabel(3)];
      AllBinLabels();
    } else if n == 2 {
      assert bins == [BinLabel(1), BinLabel(2)];
    }
  }

  /** The label list with "All" is the one without it, after "All". */
  lemma AllBinLabels()
    ensures BIN_LABELS == [ALL_LABEL] + ONLY_BIN_LABELS
  {
  }

  /** The first three bin labels spelled out. */
  lemma FirstBinLabels()
    ensures BinLabel(1) == "Bin 1" && BinLabel(2) == "Bin 2" && BinLabel(3) == "Bin 3"
  {
  }

  /**
   A result of `bin_data` with usable ages, `include_all` and three bins has
   four bins: "All" with every row, and three age bins whose sizes add up to
   the number of samples with an age.
   */
  lemma BinDataAllBinSizes<R, T>(r: Binned<R, T>, X: seq<R>, y: seq<T>, ages: seq<real>)
    requires BinnedByAge(r, X, y, ages, true, 3)
    ensures |r.xBins| == |r.yBins| == 4
    ensures |r.xBins[0]| == |X| && |r.yBins[0]| == |y|
    ensures |r.xBins[1]| + |r.xBins[2]| + |r.xBins[3]| == |ages|
    ensures |r.yBins[1]| + |r.yBins[2]| + |r.yBins[3]| == |ages|
  {
    var indices := AgeBinIndices(ages, 3);
    AgeBinSizesAddUp(ages, 3);
    TotalSizeOfThree(indices[0], indices[1], indices[2]);
    assert indices == [indices[0], indices[1], indices[2]];
    assert Selects(r.xBins[1], r.yBins[1], X, y, indices[0]);
    assert Selects(r.xBins[2], r.yBins[2], X, y, indices[1]);
    assert Selects(r.xBins[3], r.yBins[3], X, y, indices[2]);
  }

  // ---------------------------------------------------------------------------
  // bin_by_sliding_window
  // ---------------------------------------------------------------------------

  /** The bounds of the window starting at age `start`; the window at 12 is one year wider. */
  function WindowBounds(start: int, windowSize: int): (r: AgeRange)
    ensures r.lo == start
    ensures start != 12 ==> r.hi - r.lo + 1 == windowSize
    ensures start == 12 ==> r.hi - r.lo == windowSize
  {
    if start == 12 then AgeRange(start, start + windowSize)
    else AgeRange(start, start + windowSize - 1)
  }

  /** The age condition of a window: both bounds inclusive. */
  function WindowBand(w: AgeRange): (b: Band)
    ensures forall age: real :: b.Admits(age) <==> w.lo as real <= age <= w.hi as real
  {
    Within(w.lo as real, w.hi as real)
  }

  /**
   `windows` and `ranges` are the sliding windows over `[minAge, maxAge)`:
   one window per integer start `minAge + k` below `maxAge - windowSize`,
   bounded as `WindowBounds` says, each holding exactly the samples whose
   age lies within its bounds.
   */
  ghost predicate SlidingWindowsOf<R, T>(windows: seq<Group<R, T>>, ranges: seq<AgeRange>,
                                         X: seq<R>, y: seq<T>, ages: seq<real>,
                                         minAge: int, maxAge: int, windowSize: int) {
    && |windows| == |ranges| == Max(0, maxAge - windowSize - minAge)
    && (forall k :: 0 <= k < |ranges| ==>
          && ranges[k].lo == minAge + k
          && ranges[k].hi == if minAge + k == 12 then 12 + windowSize else minAge + k + windowSize - 1)
    && (forall k :: 0 <= k < |windows| ==> SelectsExactly(windows[k], X, y, ages, WindowBand(ranges[k])))
  }

  /**
   The loop of `bin_by_sliding_window` over already rounded age bounds: one
   window per integer start from `minAge` up to (excluding) `maxAge - windowSize`.
   */
  method SlidingWindows<R, T>(X: seq<R>, y: seq<T>, ages: seq<real>, minAge: int, maxAge: int, windowSize: int) returns (w: Windows<R, T>)
    requires |ages| <= |X| && |ages| <= |y|
    ensures SlidingWindowsOf(w.windows, w.ranges, X, y, ages, minAge, maxAge, windowSize)
  {
    var windows: seq<Group<R, T>> := [];
    var ranges: seq<AgeRange> := [];
    var current := minAge;
    while current < maxAge - windowSize
      invariant minAge <= current <= Max(minAge, maxAge - windowSize)
      invariant |windows| == |ranges| == current - minAge
      invariant forall k :: 0 <= k < |ranges| ==> ranges[k] == WindowBounds(minAge + k, windowSize)
      invariant forall k :: 0 <= k < |windows| ==>
        SelectsExactly(windows[k], X, y, ages, WindowBand(ranges[k]))
    {
      var bounds := WindowBounds(current, windowSize);
      var indices := Where(ages, WindowBand(bounds));
      windows := windows + [Select(X, y, indices)];
      ranges := ranges + [bounds];
      current := current + 1;
    }
    w := Windows(windows, ranges);
  }

  /**
   `bin_by_sliding_window`: the windows between the rounded minimum and the
   rounded maximum age; an empty age vector is an error.
   */
  method BinBySlidingWindow<R, T>(X: seq<R>, y: seq<T>, ages: seq<real>, windowSize: int) returns (r: Result<Windows<R, T>, Error>)
    requires |ages| <= |X| && |ages| <= |y|
    ensures |ages| == 0 ==> r == Err(EmptyAges)
    ensures |ages| > 0 ==> r.Ok? && SlidingWindowsOf(r.value.windows, r.value.ranges, X, y, ages,
                                     Rounding.RoundHalfEven(Rounding.SeqMin(ages)),
                                     Rounding.RoundHalfEven(Rounding.SeqMax(ages)), windowSize)
  {
    if |ages| == 0 {
      r := Err(EmptyAges);
    } else {
      var minAge := Rounding.RoundHalfEven(Rounding.SeqMin(ages));
      var maxAge := Rounding.RoundHalfEven(Rounding.SeqMax(ages));
      var w := SlidingWindows(X, y, ages, minAge, maxAge, windowSize);
      r := Ok(w);
    }
  }

  // ---------------------------------------------------------------------------
  // bin_by_random_equivalent_size
  // ---------------------------------------------------------------------------

  /**
   The three slices of the permutation as the source takes them. The third
   slice starts at `sizes.1`, not at `sizes.0 + sizes.1`.
   */
  function RandomBinIndices(perm: seq<nat>, sizes: (int, int, int)): (bins: seq<seq<nat>>)
    ensures |bins| == 3
    ensures forall k, x :: 0 <= k < 3 && x in bins[k] ==> x in perm
    ensures 0 <= sizes.0 && 0 <= sizes.1 && 0 <= sizes.2 ==>
      |bins[0]| <= sizes.0 && |bins[1]| <= sizes.1 && |bins[2]| <= sizes.2
  {
    [PySlice(perm, 0, sizes.0),
     PySlice(perm, sizes.0, sizes.0 + sizes.1),
     PySlice(perm, sizes.1, sizes.1 + sizes.2)]
  }

  /** The corrected slicing: the third slice starts where the second ends. */
  function IntendedRandomBinIndices(perm: seq<nat>, sizes: (int, int, int)): (bins: seq<seq<nat>>)
    ensures |bins| == 3
    ensures forall k, x :: 0 <= k < 3 && x in bins[k] ==> x in perm
    ensures 0 <= sizes.0 && 0 <= sizes.1 && 0 <= sizes.2 ==>
      |bins[0]| <= sizes.0 && |bins[1]| <= sizes.1 && |bins[2]| <= sizes.2
  {
    [PySlice(perm, 0, sizes.0),
     PySlice(perm, sizes.0, sizes.0 + sizes.1),
     PySlice(perm, sizes.0 + sizes.1, sizes.0 + sizes.1 + sizes.2)]
  }

  /** `bin_by_random_equivalent_size`, as written, with the draw `perm` supplied. */
  function RandomEquivalentSizeBins<R, T>(X: seq<R>, y: seq<T>, perm: seq<nat>, sizes: (int, int, int))
    : (r: Binned<R, T>)
    requires IsPermutation(perm, |X|) && |X| <= |y|
    ensures |r.xBins| == |r.yBins| == 3
    ensures r.labels == ONLY_BIN_LABELS
    ensures forall k :: 0 <= k < 3 ==>
      Selects(r.xBins[k], r.yBins[k], X, y, RandomBinIndices(perm, sizes)[k])
  {
    FirstBinLabels();
    Labelled(SelectAll(X, y, RandomBinIndices(perm, sizes)))
  }

  /** `bin_by_random_equivalent_size` with the third slice starting where the second ends. */
  function IntendedRandomEquivalentSizeBins<R, T>(X: seq<R>, y: seq<T>, perm: seq<nat>, sizes: (int, int, int))
    : (r: Binned<R, T>)
    requires IsPermutation(perm, |X|) && |X| <= |y|
    ensures |r.xBins| == |r.yBins| == 3
    ensures r.labels == ONLY_BIN_LABELS
    ensures forall k :: 0 <= k < 3 ==>
      Selects(r.xBins[k], r.yBins[k], X, y, IntendedRandomBinIndices(perm, sizes)[k])
  {
    FirstBinLabels();
    Labelled(SelectAll(X, y, IntendedRandomBinIndices(perm, sizes)))
  }

  /**
   For non-negative sizes, the slices are clamped to the `N` drawn positions:
   bin 1 is `perm[0 .. min(s0, N)]`, bin 2 is `perm[min(s0, N) .. min(s0+s1, N)]`
   and bin 3 is `perm[min(s1, N) .. min(s1+s2, N)]`, each possibly empty.
   */
  lemma RandomBinSlices(perm: seq<nat>, sizes: (int, int, int))
    requires 0 <= sizes.0 && 0 <= sizes.1 && 0 <= sizes.2
    ensures var bins, n := RandomBinIndices(perm, sizes), |perm|;
      && bins[0] == perm[..Min(sizes.0, n)]
      && bins[1] == perm[Min(sizes.0, n)..Max(Min(sizes.0, n), Min(sizes.0 + sizes.1, n))]
      && bins[2] == perm[Min(sizes.1, n)..Max(Min(sizes.1, n), Min(sizes.1 + sizes.2, n))]
  {
  }

  /** Whatever the sizes, bins 1 and 2 of the source share no sample. */
  lemma RandomFirstTwoBinsDisjoint(perm: seq<nat>, sizes: (int, int, int))
    requires Distinct(perm)
    ensures Disjoint(RandomBinIndices(perm, sizes)[0], RandomBinIndices(perm, sizes)[1])
  {
    SlicesOfDistinctAreDisjoint(perm, 0, sizes.0, sizes.0, sizes.0 + sizes.1);
  }

  /**
   Counterexample to disjoint bins: with sizes (1, 1, 1) and at least two
   samples, bins 2 and 3 are the same single sample.
   */
  lemma RandomThirdBinRepeatsSecond<R, T>(X: seq<R>, y: seq<T>, perm: seq<nat>)
    requires IsPermutation(perm, |X|) && |X| <= |y| && |X| >= 2
    ensures var bins := RandomBinIndices(perm, (1, 1, 1));
      bins[1] == bins[2] == [perm[1]] && !Disjoint(bins[1], bins[2])
    ensures var r := RandomEquivalentSizeBins(X, y, perm, (1, 1, 1));
      r.xBins[1] == r.xBins[2] == [X[perm[1]]] && r.yBins[1] == r.yBins[2] == [y[perm[1]]]
  {
    var bins := RandomBinIndices(perm, (1, 1, 1));
    assert perm[1] in bins[1];
    var r := RandomEquivalentSizeBins(X, y, perm, (1, 1, 1));
    assert Selects(r.xBins[1], r.yBins[1], X, y, bins[1]);
    assert Selects(r.xBins[2], r.yBins[2], X, y, bins[2]);
  }

  /**
   With the default sizes (114, 147, 112) over 373 samples, bin 3 lies wholly
   inside bin 2 (positions 147..258 of the draw), so the last 112 drawn
   samples are in no bin.
   */
  lemma RandomDefaultThirdBinInsideSecond(perm: seq<nat>)
    requires IsPermutation(perm, 373)
    ensures var bins := RandomBinIndices(perm, (114, 147, 112));
      && |bins[0]| == 114 && |bins[1]| == 147 && |bins[2]| == 112
      && (forall j :: 0 <= j < 112 ==> bins[2][j] == bins[1][33 + j])
      && (forall j :: 261 <= j < 373 ==> perm[j] !in bins[0] && perm[j] !in bins[1] && perm[j] !in bins[2])
  {
    var bins := RandomBinIndices(perm, (114, 147, 112));
    forall j | 261 <= j < 373
      ensures perm[j] !in bins[0] && perm[j] !in bins[1] && perm[j] !in bins[2]
    {
      forall m | 0 <= m < 261 ensures perm[m] != perm[j] {
        assert m < j;
      }
    }
  }

  /**
   The intended slicing: for non-negative sizes the three bins are pairwise
   disjoint, and when the sizes fit in the `N` samples each bin has exactly
   its requested size.
   */
  lemma IntendedRandomBinsDisjoint(perm: seq<nat>, sizes: (int, int, int))
    requires Distinct(perm)
    requires 0 <= sizes.0 && 0 <= sizes.1 && 0 <= sizes.2
    ensures var bins := IntendedRandomBinIndices(perm, sizes);
      forall k, l :: 0 <= k < l < 3 ==> Disjoint(bins[k], bins[l])
    ensures var bins := IntendedRandomBinIndices(perm, sizes);
      sizes.0 + sizes.1 + sizes.2 <= |perm| ==>
        |bins[0]| == sizes.0 && |bins[1]| == sizes.1 && |bins[2]| == sizes.2
  {
    var s0, s1, s2 := sizes.0, sizes.1, sizes.2;
    SlicesOfDistinctAreDisjoint(perm, 0, s0, s0, s0 + s1);
    SlicesOfDistinctAreDisjoint(perm, 0, s0, s0 + s1, s0 + s1 + s2);
    SlicesOfDistinctAreDisjoint(perm, s0, s0 + s1, s0 + s1, s0 + s1 + s2);
  }

  // ---------------------------------------------------------------------------
  // subsample_bin, bin_to_approximate_size
  // ---------------------------------------------------------------------------

  /** `subsample_bin`: `numSamples` rows drawn without replacement (the first entries of `perm`). */
  function SubsampleBin<R, T>(X: seq<R>, y: seq<T>, perm: seq<nat>, numSamples: int)
    : (r: Result<Group<R, T>, Error>)
    requires IsPermutation(perm, |X|) && |X| <= |y|
    ensures numSamples > |X| <==> r == Err(InsufficientSamples)
    ensures numSamples < 0 <==> r == Err(NegativeSampleSize)
    ensures 0 <= numSamples <= |X| ==> r.Ok? && DrawnWithoutReplacement(r.value, X, y, numSamples)
  {
    if numSamples > |X| then Err(InsufficientSamples)
    else if numSamples < 0 then Err(NegativeSampleSize)
    else
      var drawn := perm[..numSamples];
      assert Distinct(drawn) && Selects(Select(X, y, drawn).xs, Select(X, y, drawn).ys, X, y, drawn);
      Ok(Select(X, y, drawn))
  }

  /** `bin_to_approximate_size`: inputs with fewer than `N` rows pass through; others are drawn down to `N`. */
  function BinToApproximateSize<R, T>(X: seq<R>, y: seq<T>, perm: seq<nat>, N: int)
    : (r: Result<Group<R, T>, Error>)
    requires N <= |X| ==> IsPermutation(perm, |X|) && |X| <= |y|
    ensures |X| < N ==> r == Ok(Group(X, y))
    ensures 0 <= N <= |X| ==> r.Ok? && DrawnWithoutReplacement(r.value, X, y, N)
    ensures N < 0 <==> r == Err(NegativeSampleSize)
  {
    if |X| < N then Ok(Group(X, y)) else SubsampleBin(X, y, perm, N)
  }

  /**
   When `N` equals the number of rows the result is a reordering of the
   input: it gathers the rows at a permutation of all positions, so every
   original sample (its feature row with its own target row) is in it, at a
   position the draw chose.
   */
  lemma ApproximateSizeAtFullSizeReorders<R, T>(X: seq<R>, y: seq<T>, perm: seq<nat>)
    requires IsPermutation(perm, |X|) && |X| <= |y|
    ensures var r := BinToApproximateSize(X, y, perm, |X|);
      && r.Ok? && |r.value.xs| == |r.value.ys| == |X|
      && (exists idx :: IsPermutation(idx, |X|) && Selects(r.value.xs, r.value.ys, X, y, idx))
      && forall i :: 0 <= i < |X| ==> exists j :: 0 <= j < |X| && r.value.xs[j] == X[i] && r.value.ys[j] == y[i]
  {
    var g := BinToApproximateSize(X, y, perm, |X|).value;
    assert g == Select(X, y, perm);
    assert Selects(g.xs, g.ys, X, y, perm);
    PermutationCovers(perm, |X|);
    forall i | 0 <= i < |X|
      ensures exists j :: 0 <= j < |X| && g.xs[j] == X[i] && g.ys[j] == y[i]
    {
      assert i in perm;
      var j :| 0 <= j < |perm| && perm[j] == i;
      assert g.xs[j] == X[i] && g.ys[j] == y[i];
    }
  }

  /**
   At full size the result need not be the input: the draw that swaps two
   rows swaps them in the result too.
   */
  lemma ApproximateSizeAtFullSizeCanReorder()
    ensures BinToApproximateSize([10, 20], [1, 2], [1, 0], 2) == Ok(Group([20, 10], [2, 1]))
    ensures BinToApproximateSize([10, 20], [1, 2], [1, 0], 2) != Ok(Group([10, 20], [1, 2]))
  {
    var X: seq<int>, y: seq<int>, perm: seq<nat> := [10, 20], [1, 2], [1, 0];
    assert IsPermutation(perm, |X|) && perm[..2] == perm;
    var g := Select(X, y, perm);
    assert Selects(g.xs, g.ys, X, y, perm);
    assert g.xs == [20, 10] && g.ys == [2, 1];
    assert BinToApproximateSize(X, y, perm, 2) == SubsampleBin(X, y, perm, 2) == Ok(g);
  }
}
