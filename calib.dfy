/**
 * Threshold calibration of the backend (backend/calib.py): the decision
 * threshold suggested from the anomaly scores of known-good (OK) and
 * known-bad (NG) samples.
 */
module Calib {
  import opened Wrappers
  import opened Numeric
  import opened Seqs

  datatype CalibError =
    | NoOkScores              // no finite OK score remains after filtering
    | PercentileOutOfRange    // numpy rejects a percentile outside [0, 100]

  /** For each value, whether it is finite. */
  function FiniteFlags(xs: seq<Double>): (f: seq<bool>)
    ensures |f| == |xs| && forall i :: 0 <= i < |f| ==> (f[i] <==> xs[i].Finite?)
  {
    seq(|xs|, i requires 0 <= i < |xs| => xs[i].Finite?)
  }

  /** The finite values of `xs`, in their original order. */
  function FiniteValues(xs: seq<Double>): (r: seq<real>)
    ensures var idx := TruePositions(FiniteFlags(xs));
            |r| == |idx| && forall k :: 0 <= k < |r| ==> idx[k] < |xs| && xs[idx[k]].Finite? && r[k] == xs[idx[k]].v
  {
    if xs == [] then []
    else
      var rest := FiniteValues(xs[1..]);
      assert FiniteFlags(xs)[1..] == FiniteFlags(xs[1..]);
      (if xs[0].Finite? then [xs[0].v] else []) + rest
  }

  /**
   * The scores argument coerced to a flat array of finite values: a missing
   * argument (JSON null) is an empty array and NaN and the infinities are
   * dropped; the finite values keep their multiplicity and their order.
   */
  function AsOneDimFinite(arr: Option<seq<Double>>): (r: seq<real>)
    ensures arr.None? ==> r == []
    ensures arr.Some? ==>
              var idx := TruePositions(FiniteFlags(arr.value));
              |r| == |idx| && forall k :: 0 <= k < |r| ==> idx[k] < |arr.value| && arr.value[idx[k]].Finite? && r[k] == arr.value[idx[k]].v
    ensures arr.Some? ==> forall x :: x in r <==> Finite(x) in arr.value
    ensures arr.Some? ==> |r| <= |arr.value|
  {
    match arr
    case None => []
    case Some(xs) =>
      FiniteValuesMembers(xs);
      FiniteValues(xs)
  }

  lemma {:induction false} FiniteValuesMembers(xs: seq<Double>)
    ensures forall x :: x in FiniteValues(xs) <==> Finite(x) in xs
    ensures |FiniteValues(xs)| <= |xs|
  {
    TruePositionsSpec(FiniteFlags(xs));
    if xs != [] {
      FiniteValuesMembers(xs[1..]);
      assert xs == [xs[0]] + xs[1..];
      forall x ensures Finite(x) in xs <==> Finite(x) == xs[0] || Finite(x) in xs[1..] {
      }
    }
  }

  /** The default percentile of OK scores and the fixed percentile of NG scores. */
  const DefaultPercentile: real := 99.0
  const NgPercentile: real := 5.0

  /**
   * choose_threshold: the `percentile`-th percentile of the finite OK scores,
   * raised when the 5th percentile of the finite NG scores does not clear it
   * (by 2%) and otherwise the midpoint between the two.
   */
  function ChooseThreshold(ok: Option<seq<Double>>, ng: Option<seq<Double>>, percentile: real): (r: Result<real, CalibError>)
    ensures |AsOneDimFinite(ok)| == 0 <==> r == Failure(NoOkScores)
    ensures r.Success? <==> |AsOneDimFinite(ok)| > 0 && 0.0 <= percentile <= 100.0
    ensures r.Success? ==>
      var okv, ngv := AsOneDimFinite(ok), AsOneDimFinite(ng);
      var pOk := Percentile(okv, percentile);
      (|ngv| == 0 ==> r.value == pOk) &&
      (|ngv| > 0 ==>
        var pNg := Percentile(ngv, NgPercentile);
        (pNg <= pOk ==> r.value == pOk * 1.02) &&
        (pOk < pNg ==> r.value == (pOk + pNg) * 0.5 && pOk < r.value < pNg))
  {
    var okv := AsOneDimFinite(ok);
    if |okv| == 0 then Failure(NoOkScores)
    else if !(0.0 <= percentile <= 100.0) then Failure(PercentileOutOfRange)
    else
      var pOk := Percentile(okv, percentile);
      var ngv := AsOneDimFinite(ng);
      if |ngv| == 0 then Success(pOk)
      else
        var pNg := Percentile(ngv, NgPercentile);
        if pNg <= pOk then Success(pOk * 1.02)
        else Success((pOk + pNg) * 0.5)
  }

  /** With non-negative scores the threshold never falls below the OK percentile. */
  lemma ThresholdAtLeastOkPercentile(ok: Option<seq<Double>>, ng: Option<seq<Double>>, percentile: real)
    requires ChooseThreshold(ok, ng, percentile).Success?
    requires forall x :: x in AsOneDimFinite(ok) ==> x >= 0.0
    ensures ChooseThreshold(ok, ng, percentile).value >= Percentile(AsOneDimFinite(ok), percentile)
  {
    var okv := AsOneDimFinite(ok);
    PercentileWithinRange(okv, percentile);
  }

  /** With non-negative OK scores the threshold is at least the smallest OK score. */
  lemma ThresholdAtLeastMinOk(ok: Option<seq<Double>>, ng: Option<seq<Double>>, percentile: real)
    requires ChooseThreshold(ok, ng, percentile).Success?
    requires forall x :: x in AsOneDimFinite(ok) ==> x >= 0.0
    ensures ChooseThreshold(ok, ng, percentile).value >= SeqMin(AsOneDimFinite(ok))
  {
    var okv := AsOneDimFinite(ok);
    PercentileWithinRange(okv, percentile);
    ThresholdAtLeastOkPercentile(ok, ng, percentile);
  }

  /** Asking for a higher OK percentile never lowers the threshold when there are no NG scores. */
  lemma ThresholdMonotoneWithoutNg(ok: Option<seq<Double>>, ng: Option<seq<Double>>, p1: real, p2: real)
    requires 0.0 <= p1 <= p2 <= 100.0
    requires |AsOneDimFinite(ok)| > 0 && |AsOneDimFinite(ng)| == 0
    ensures ChooseThreshold(ok, ng, p1).value <= ChooseThreshold(ok, ng, p2).value
  {
    PercentileMonotone(AsOneDimFinite(ok), p1, p2);
  }

  /** A single OK score and a single higher NG score give their midpoint. */
  lemma SingleScoresGiveMidpoint(okScore: real, ngScore: real)
    requires okScore < ngScore
    ensures ChooseThreshold(Some([Finite(okScore)]), Some([Finite(ngScore)]), DefaultPercentile)
            == Success((okScore + ngScore) * 0.5)
  {
    SingleFiniteScore(okScore);
    SingleFiniteScore(ngScore);
    PercentileSingleton(okScore, DefaultPercentile);
    PercentileSingleton(ngScore, NgPercentile);
  }

  lemma SingleFiniteScore(x: real)
    ensures AsOneDimFinite(Some([Finite(x)])) == [x]
  {
    assert [Finite(x)][1..] == [];
  }
}
