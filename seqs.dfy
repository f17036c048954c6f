/**
 * Order-preserving filters, described by the positions they keep: a filter
 * of `s` under the flags `keep` (one per element) is the sequence of
 * `s[idx[k]]` for the increasing list `idx` of exactly the flagged positions.
 */
module Seqs {

  /** The positions whose flag is set, in increasing order (see TruePositionsSpec). */
  function TruePositions(flags: seq<bool>): seq<nat>
  {
    if flags == [] then []
    else (if flags[0] then [0] else []) + Shift(TruePositions(flags[1..]))
  }

  /** Every position one further on. */
  function Shift(idx: seq<nat>): (r: seq<nat>)
    ensures |r| == |idx| && forall k :: 0 <= k < |r| ==> r[k] == idx[k] + 1
  {
    seq(|idx|, k requires 0 <= k < |idx| => idx[k] + 1)
  }

  /**
   * TruePositions lists exactly the flagged positions, each once and in
   * increasing order, so that it is the only such list.
   */
  lemma {:induction false} TruePositionsSpec(flags: seq<bool>)
    ensures var idx := TruePositions(flags);
            && |idx| <= |flags|
            && (forall k :: 0 <= k < |idx| ==> idx[k] < |flags| && flags[idx[k]])
            && (forall k, l :: 0 <= k < l < |idx| ==> idx[k] < idx[l])
            && (forall i :: 0 <= i < |flags| && flags[i] ==> i in idx)
  {
    if flags != [] {
      var rest := TruePositions(flags[1..]);
      TruePositionsSpec(flags[1..]);
      assert forall k :: 0 <= k < |rest| ==> flags[1..][rest[k]] == flags[rest[k] + 1];
      assert forall i :: 1 <= i < |flags| ==> flags[1..][i - 1] == flags[i];
      ConsKept(flags, rest);
      ConsIncreasing(flags, rest);
      ConsComplete(flags, rest);
    }
  }

  /** The head's position and the tail's positions moved on by one: each of them is flagged... */
  lemma ConsKept(flags: seq<bool>, rest: seq<nat>)
    requires flags != [] && |rest| <= |flags| - 1
    requires forall k :: 0 <= k < |rest| ==> rest[k] < |flags| - 1 && flags[rest[k] + 1]
    ensures var idx := (if flags[0] then [0] else []) + Shift(rest);
            |idx| <= |flags| && forall k :: 0 <= k < |idx| ==> idx[k] < |flags| && flags[idx[k]]
  {
  }

  /** ... they increase ... */
  lemma ConsIncreasing(flags: seq<bool>, rest: seq<nat>)
    requires flags != []
    requires forall k, l :: 0 <= k < l < |rest| ==> rest[k] < rest[l]
    ensures var idx := (if flags[0] then [0] else []) + Shift(rest);
            forall k, l :: 0 <= k < l < |idx| ==> idx[k] < idx[l]
  {
  }

  /** ... and no flagged position is missing. */
  lemma ConsComplete(flags: seq<bool>, rest: seq<nat>)
    requires flags != []
    requires forall i :: 1 <= i < |flags| && flags[i] ==> i - 1 in rest
    ensures var idx := (if flags[0] then [0] else []) + Shift(rest);
            forall i :: 0 <= i < |flags| && flags[i] ==> i in idx
  {
    var shifted := Shift(rest);
    forall i | 1 <= i < |flags| && flags[i] ensures i in shifted {
      var k :| 0 <= k < |rest| && rest[k] == i - 1;
      assert shifted[k] == i;
    }
  }
}
