/** A clock that may be set back: a sequence of readings, and events that each fall on one of them. */
module Readings {
  /** Which reading each event falls on, in order. */
  predicate Orderly(at: seq<nat>, n: nat) {
    && (forall k :: 0 <= k < |at| ==> at[k] < n)
    && forall i, k :: 0 <= i <= k < |at| ==> at[i] <= at[k]
  }

  function Read(ts: seq<int>, at: seq<nat>): (r: seq<int>)
    requires Orderly(at, |ts|)
    ensures |r| == |at| && forall k :: 0 <= k < |at| ==> r[k] == ts[at[k]]
  {
    seq(|at|, k requires 0 <= k < |at| && Orderly(at, |ts|) => ts[at[k]])
  }

  predicate Rising(ts: seq<int>) { forall i, j :: 0 <= i <= j < |ts| ==> ts[i] <= ts[j] }
}
