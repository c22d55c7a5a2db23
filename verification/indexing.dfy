/**
 Index sequences and the NumPy/Python selection primitives the binning code
 is built from: integer-array indexing (`a[idx]`), slicing with clamping, and
 draws without replacement represented by permutations.
 */
module Indexing {

  /** Every position in `idx` addresses one of `n` rows. */
  predicate InRange(idx: seq<nat>, n: nat) {
    forall k :: 0 <= k < |idx| ==> idx[k] < n
  }

  /** Positions appear in strictly ascending order (what `np.where` yields). */
  predicate StrictlyIncreasing(idx: seq<nat>) {
    forall j, k :: 0 <= j < k < |idx| ==> idx[j] < idx[k]
  }

  /** No position is repeated: the rows were drawn without replacement. */
  predicate Distinct(idx: seq<nat>) {
    forall j, k :: 0 <= j < k < |idx| ==> idx[j] != idx[k]
  }

  /** `p` lists each of the positions `0 .. n-1` exactly once. */
  predicate IsPermutation(p: seq<nat>, n: nat) {
    |p| == n && InRange(p, n) && Distinct(p)
  }

  /** The two index sequences share no position. */
  predicate Disjoint(a: seq<nat>, b: seq<nat>) {
    forall x :: x in a ==> x !in b
  }

  /**
   `bins` splits the positions `0 .. n-1`: every list stays in range, every
   position is in some list, and no position is in two lists.
   */
  predicate Partitions(bins: seq<seq<nat>>, n: nat) {
    && (forall k :: 0 <= k < |bins| ==> InRange(bins[k], n))
    && (forall i :: 0 <= i < n ==> Listed(bins, i))
    && (forall k, l :: 0 <= k < l < |bins| ==> Disjoint(bins[k], bins[l]))
  }

  /** Position `i` appears in at least one of `bins`. */
  predicate Listed(bins: seq<seq<nat>>, i: nat) {
    exists k :: 0 <= k < |bins| && i in bins[k]
  }

  /** The total number of positions listed by `bins`. */
  function TotalSize(bins: seq<seq<nat>>): nat {
    if |bins| == 0 then 0 else TotalSize(bins[..|bins| - 1]) + |bins[|bins| - 1]|
  }

  lemma TotalSizeOfTwo(a: seq<nat>, b: seq<nat>)
    ensures TotalSize([a, b]) == |a| + |b|
  {
    assert TotalSize([a]) == |a| by {
      assert [a][..0] == [];
    }
    assert [a, b][..1] == [a];
  }

  lemma TotalSizeOfThree(a: seq<nat>, b: seq<nat>, c: seq<nat>)
    ensures TotalSize([a, b, c]) == |a| + |b| + |c|
  {
    assert [a, b, c][..2] == [a, b];
    TotalSizeOfTwo(a, b);
  }

  function Min(a: int, b: int): int { if a <= b then a else b }

  function Max(a: int, b: int): int { if a <= b then b else a }

  /** Integer-array indexing `s[idx]`: the rows of `s` at the positions of `idx`, in that order. */
  function Gather<T>(s: seq<T>, idx: seq<nat>): (r: seq<T>)
    requires InRange(idx, |s|)
    ensures |r| == |idx|
    ensures forall k :: 0 <= k < |r| ==> r[k] == s[idx[k]]
  {
    seq(|idx|, k requires 0 <= k < |idx| => s[idx[k]])
  }

  /**
   Where a Python slice bound lands in a sequence of length `n`: a negative
   bound counts from the end, and the result is clamped into `[0, n]`.
   */
  function SliceBound(i: int, n: nat): (r: nat)
    ensures r <= n
    ensures 0 <= i ==> r == Min(i, n)
    ensures i < 0 ==> r == Max(0, i + n)
  {
    if i < 0 then (if i + n < 0 then 0 else i + n)
    else if i < n then i
    else n
  }

  /** Python's `s[start:stop]` (step 1): never fails, may be shorter than asked or empty. */
  function PySlice<T>(s: seq<T>, start: int, stop: int): (r: seq<T>)
    ensures |r| == Max(0, SliceBound(stop, |s|) - SliceBound(start, |s|))
    ensures forall k :: 0 <= k < |r| ==> r[k] == s[SliceBound(start, |s|) + k]
  {
    var lo, hi := SliceBound(start, |s|), SliceBound(stop, |s|);
    if lo < hi then s[lo..hi] else []
  }

  /**
   Two slices of a sequence without repeats whose position ranges do not
   overlap (the first ends where or before the second starts) share no element.
   */
  lemma SlicesOfDistinctAreDisjoint(p: seq<nat>, start1: int, stop1: int, start2: int, stop2: int)
    requires Distinct(p)
    requires SliceBound(stop1, |p|) <= SliceBound(start2, |p|)
    ensures Disjoint(PySlice(p, start1, stop1), PySlice(p, start2, stop2))
  {
  }

  /** The set of positions mentioned by `p`. */
  function Elements(p: seq<nat>): (r: set<nat>)
    ensures forall x :: x in r <==> x in p
  {
    if |p| == 0 then {} else Elements(p[..|p| - 1]) + {p[|p| - 1]}
  }

  /** The positions `0 .. n-1`, as a set. */
  function Positions(n: nat): (r: set<nat>)
    ensures forall i :: i in r <==> 0 <= i < n
  {
    if n == 0 then {} else Positions(n - 1) + {n - 1}
  }

  /** A distinct sequence mentions as many positions as it is long. */
  lemma {:induction false} DistinctCardinality(p: seq<nat>)
    requires Distinct(p)
    ensures |Elements(p)| == |p|
  {
    if |p| > 0 {
      var rest := p[..|p| - 1];
      assert Distinct(rest);
      DistinctCardinality(rest);
      var last := p[|p| - 1];
      assert last !in rest by {
        forall k | 0 <= k < |rest| ensures rest[k] != last {
          assert p[k] != p[|p| - 1];
        }
      }
    }
  }

  /** There are `n` positions below `n`. */
  lemma {:induction false} PositionsCardinality(n: nat)
    ensures |Positions(n)| == n
  {
    if n > 0 {
      var m: nat := n - 1;
      PositionsCardinality(m);
      assert Positions(n) == Positions(m) + {m};
      assert m !in Positions(m);
    }
  }

  lemma {:induction false} SubsetCardinality(a: set<nat>, b: set<nat>)
    requires a <= b
    ensures |a| <= |b|
    decreases |b|
  {
    if b != {} {
      var x :| x in b;
      SubsetCardinality(a - {x}, b - {x});
    }
  }

  /** A permutation of `[0, n)` mentions every position: a draw of all `n` rows misses none. */
  lemma PermutationCovers(p: seq<nat>, n: nat)
    requires IsPermutation(p, n)
    ensures forall i :: 0 <= i < n ==> i in p
  {
    DistinctCardinality(p);
    PositionsCardinality(n);
    forall i | 0 <= i < n ensures i in p {
      if i !in p {
        assert Elements(p) <= Positions(n) - {i};
        SubsetCardinality(Elements(p), Positions(n) - {i});
        assert false;
      }
    }
  }
}
