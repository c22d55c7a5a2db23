/**
 The summary statistics the sliding-window binner takes of the ages:
 `np.min`, `np.max` and `int(np.round(.))`, which rounds halves to even.
 Ages are reals; NaN is not representable and so is excluded.
 */
module Rounding {

  predicate IsEven(n: int) {
    n % 2 == 0
  }

  /** The nearest integer to `x`, ties going to the even neighbour. */
  function RoundHalfEven(x: real): (r: int)
    ensures -0.5 <= x - r as real <= 0.5
    ensures (x - r as real == 0.5 || x - r as real == -0.5) ==> IsEven(r)
  {
    var f := x.Floor;
    var d := x - f as real;
    if d < 0.5 then f
    else if d > 0.5 then f + 1
    else if IsEven(f) then f
    else f + 1
  }

  /** Rounding has exactly one possible answer: the contract of `RoundHalfEven` pins it down. */
  lemma {:induction false} RoundHalfEvenUnique(x: real, n: int)
    requires -0.5 <= x - n as real <= 0.5
    requires (x - n as real == 0.5 || x - n as real == -0.5) ==> IsEven(n)
    ensures RoundHalfEven(x) == n
  {
  }

  /** The smallest element (`np.min`); undefined on an empty sequence. */
  function SeqMin(s: seq<real>): (m: real)
    requires |s| > 0
    ensures m in s
    ensures forall i :: 0 <= i < |s| ==> m <= s[i]
  {
    if |s| == 1 then s[0]
    else
      var t := SeqMin(s[1..]);
      if s[0] <= t then s[0] else t
  }

  /** The largest element (`np.max`); undefined on an empty sequence. */
  function SeqMax(s: seq<real>): (m: real)
    requires |s| > 0
    ensures m in s
    ensures forall i :: 0 <= i < |s| ==> s[i] <= m
  {
    if |s| == 1 then s[0]
    else
      var t := SeqMax(s[1..]);
      if t <= s[0] then s[0] else t
  }
}
