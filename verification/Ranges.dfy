/** Lists of consecutive numbers. */
module Ranges {
  /** From `a` on and before `b`. */
  function Interval(a: nat, b: nat): (r: seq<nat>)
    requires a <= b
    ensures |r| == b - a
    ensures forall k :: 0 <= k < |r| ==> r[k] == a + k
  {
    seq(b - a, k requires 0 <= k < b - a => a + k)
  }
}
