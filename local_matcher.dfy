/**
 * LocalMatcher: locating a master pattern inside its search ROI. The image
 * operations (ORB features, homography, template matching) are OpenCV calls
 * and enter as their results; what is modelled is the arithmetic around
 * them: scores, rectangles, the ratio test and the hit/no-hit decision.
 */
module LocalMatching {
  import opened Wrappers
  import opened Text
  import opened Numeric
  import opened Roi
  import opened CvRects

  // ---- Scores ----

  /** ToScore: a correlation or a fraction clamped to [0,1], as a percentage rounded to nearest-even. */
  function ToScore(value: real): (s: int)
    ensures 0 <= s <= 100
    ensures value <= 0.0 ==> s == 0
    ensures value >= 1.0 ==> s == 100
  {
    RoundHalfEven(100.0 * ClampReal(value, 0.0, 1.0))
  }

  /** A higher value never gives a lower score. */
  lemma ToScoreMonotone(a: real, b: real)
    requires a <= b
    ensures ToScore(a) <= ToScore(b)
  {
    var ca := 100.0 * ClampReal(a, 0.0, 1.0);
    var cb := 100.0 * ClampReal(b, 0.0, 1.0);
    assert ca <= cb;
    RoundMonotone(ca, cb);
  }

  /** Rounding to nearest-even is monotone. */
  lemma RoundMonotone(a: real, b: real)
    requires a <= b
    ensures RoundHalfEven(a) <= RoundHalfEven(b)
  {
    var fa, fb := a.Floor, b.Floor;
    if fa == fb {
      assert a - fa as real <= b - fb as real;
    } else {
      assert fa < fb;
    }
  }

  /**
   * The feature-matching score: the inlier share and the mean descriptor
   * distance (over 256) each made a ToScore, then weighed 0.7 / 0.3 and
   * rounded.
   */
  function FeatureScore(inliers: nat, goodCount: nat, avgDist: real): (s: int)
    ensures 0 <= s <= 100
  {
    var scoreInliers := ToScore(inliers as real / MaxInt(goodCount, 1) as real);
    var scoreDistance := ToScore(1.0 - ClampReal(avgDist / 256.0, 0.0, 1.0));
    CombinedInRange(scoreInliers, scoreDistance);
    RoundHalfEven(0.7 * scoreInliers as real + 0.3 * scoreDistance as real)
  }

  lemma CombinedInRange(si: int, sd: int)
    requires 0 <= si <= 100 && 0 <= sd <= 100
    ensures 0 <= RoundHalfEven(0.7 * si as real + 0.3 * sd as real) <= 100
  {
    var v := 0.7 * si as real + 0.3 * sd as real;
    assert 0.0 <= v <= 100.0;
    RoundMonotone(0.0, v);
    RoundMonotone(v, 100.0);
    assert RoundHalfEven(0.0) == 0 && RoundHalfEven(100.0) == 100;
  }

  /** More inliers among the same good matches, or a smaller distance, never lower the feature score. */
  lemma FeatureScoreMonotone(inliers1: nat, inliers2: nat, goodCount: nat, avgDist1: real, avgDist2: real)
    requires inliers1 <= inliers2 && avgDist2 <= avgDist1
    ensures FeatureScore(inliers1, goodCount, avgDist1) <= FeatureScore(inliers2, goodCount, avgDist2)
  {
    var g := MaxInt(goodCount, 1) as real;
    assert inliers1 as real / g <= inliers2 as real / g;
    ToScoreMonotone(inliers1 as real / g, inliers2 as real / g);
    ToScoreMonotone(1.0 - ClampReal(avgDist1 / 256.0, 0.0, 1.0), 1.0 - ClampReal(avgDist2 / 256.0, 0.0, 1.0));
    var si1 := ToScore(inliers1 as real / g);
    var si2 := ToScore(inliers2 as real / g);
    var sd1 := ToScore(1.0 - ClampReal(avgDist1 / 256.0, 0.0, 1.0));
    var sd2 := ToScore(1.0 - ClampReal(avgDist2 / 256.0, 0.0, 1.0));
    RoundMonotone(0.7 * si1 as real + 0.3 * sd1 as real, 0.7 * si2 as real + 0.3 * sd2 as real);
  }

  /** Every good match an inlier at distance zero scores 100. */
  lemma PerfectFeatureScore(goodCount: nat)
    requires goodCount >= 1
    ensures FeatureScore(goodCount, goodCount, 0.0) == 100
  {
    assert goodCount as real / MaxInt(goodCount, 1) as real == 1.0;
  }

  // ---- Rectangles ----

  /** RectFromRoi: the search or pattern ROI as a pixel rectangle of the image. */
  function RectFromRoi(image: ImageSize, roi: RoiValue): (r: Rect)
    ensures 0 <= r.x <= MaxInt(image.width - 1, 0) && 0 <= r.y <= MaxInt(image.height - 1, 0)
    ensures 1 <= r.width && 1 <= r.height
    ensures !image.Empty() ==> r.Right() <= image.width && r.Bottom() <= image.height
  {
    var left := if roi.shape == Rectangle then roi.x - roi.width / 2.0 else roi.cx - roi.r;
    var top := if roi.shape == Rectangle then roi.y - roi.height / 2.0 else roi.cy - roi.r;
    var right := if roi.shape == Rectangle then left + roi.width else roi.cx + roi.r;
    var bottom := if roi.shape == Rectangle then top + roi.height else roi.cy + roi.r;
    var x := Floor(left);
    var y := Floor(top);
    var w := Ceil(right - x as real);
    var h := Ceil(bottom - y as real);
    var maxWidth := MaxInt(image.width - 1, 0);
    var maxHeight := MaxInt(image.height - 1, 0);
    var x' := ClampInt(x, 0, maxWidth);
    var y' := ClampInt(y, 0, maxHeight);
    Rect(x', y', ClampInt(w, 1, MaxInt(image.width - x', 1)), ClampInt(h, 1, MaxInt(image.height - y', 1)))
  }

  /** RectFromRoi and ToCvRect give the same rectangle for every ROI. */
  lemma RectFromRoiIsToCvRect(image: ImageSize, roi: RoiValue)
    ensures RectFromRoi(image, roi) == ToCvRect(Some(roi), image.width, image.height)
  {
  }

  /**
   * The safe rectangle of MatchInSearchROI(image, rect, template): the
   * given rectangle clamped into the image, at least one pixel wide and
   * high.
   */
  function SafeRect(image: ImageSize, searchRect: Rect): (r: Rect)
    ensures !image.Empty() ==>
              0 <= r.x && 0 <= r.y && 1 <= r.width && 1 <= r.height
              && r.Right() <= image.width && r.Bottom() <= image.height
    ensures (!image.Empty() && 0 <= searchRect.x && 0 <= searchRect.y && 1 <= searchRect.width && 1 <= searchRect.height
             && searchRect.Right() <= image.width && searchRect.Bottom() <= image.height) ==> r == searchRect
  {
    ClampToImage(searchRect.x, searchRect.y, searchRect.width, searchRect.height, image.width, image.height)
  }

  // ---- Ratio test ----

  /** A descriptor match: its distance and the indices of the two keypoints. */
  datatype DMatch = DMatch(distance: real, queryIdx: int, trainIdx: int)

  const Ratios: seq<real> := [0.75, 0.80, 0.85, 0.90, 0.95]

  /** Lowe's test at ratio r: the best match of each pair clearly closer than the second. */
  predicate PassesRatio(m: seq<DMatch>, r: real)
  {
    |m| == 2 && m[0].distance < r * m[1].distance
  }

  /** The candidates the ratio r keeps, in order. */
  function GoodMatches(knn: seq<seq<DMatch>>, r: real): (good: seq<DMatch>)
    ensures |good| <= |knn|
  {
    if knn == [] then []
    else (if PassesRatio(knn[0], r) then [knn[0][0]] else []) + GoodMatches(knn[1..], r)
  }

  /** A looser ratio keeps at least as many matches (for non-negative distances). */
  lemma {:induction false} GoodMatchesGrow(knn: seq<seq<DMatch>>, r1: real, r2: real)
    requires r1 <= r2
    requires forall i :: 0 <= i < |knn| && |knn[i]| == 2 ==> knn[i][1].distance >= 0.0
    ensures |GoodMatches(knn, r1)| <= |GoodMatches(knn, r2)|
  {
    if knn != [] {
      if PassesRatio(knn[0], r1) {
        assert knn[0][1].distance >= 0.0;
        assert r1 * knn[0][1].distance <= r2 * knn[0][1].distance;
      }
      GoodMatchesGrow(knn[1..], r1, r2);
    }
  }

  /** The position of the ratio the search settles on: the first giving 8 matches, else the last. */
  function ChosenRatioIndex(knn: seq<seq<DMatch>>, from: nat): (i: nat)
    requires from < |Ratios|
    ensures from <= i < |Ratios|
    ensures |GoodMatches(knn, Ratios[i])| >= 8 || i == |Ratios| - 1
    ensures forall j :: from <= j < i ==> |GoodMatches(knn, Ratios[j])| < 8
    decreases |Ratios| - from
  {
    if |GoodMatches(knn, Ratios[from])| >= 8 || from == |Ratios| - 1 then from
    else ChosenRatioIndex(knn, from + 1)
  }

  /**
   * The ratio loop of MatchFeatures: the candidates of each ratio in turn,
   * stopping at the first with at least 8; when none has 8, the last
   * ratio's candidates.
   */
  method RatioSearch(knn: seq<seq<DMatch>>) returns (good: seq<DMatch>, usedRatio: real)
    ensures usedRatio == Ratios[ChosenRatioIndex(knn, 0)] && good == GoodMatches(knn, usedRatio)
  {
    good := [];
    usedRatio := Ratios[0];
    var i := 0;
    while i < |Ratios|
      invariant 0 <= i <= |Ratios|
      invariant forall j :: 0 <= j < i ==> |GoodMatches(knn, Ratios[j])| < 8
      invariant i > 0 ==> usedRatio == Ratios[i - 1] && good == GoodMatches(knn, usedRatio)
      decreases |Ratios| - i
    {
      var r := Ratios[i];
      var cand := GoodMatches(knn, r);
      good, usedRatio := cand, r;
      if |cand| >= 8 {
        ChosenIsFirstSufficient(knn, i);
        return;
      }
      i := i + 1;
    }
    ChosenIsFirstSufficient(knn, |Ratios| - 1);
  }

  /** The chosen index is the first one with 8 matches, or the last one. */
  lemma ChosenIsFirstSufficient(knn: seq<seq<DMatch>>, i: nat)
    requires i < |Ratios|
    requires |GoodMatches(knn, Ratios[i])| >= 8 || i == |Ratios| - 1
    requires forall j :: 0 <= j < i ==> |GoodMatches(knn, Ratios[j])| < 8
    ensures ChosenRatioIndex(knn, 0) == i
  {
    var k := ChosenRatioIndex(knn, 0);
    assert !(k < i);
    assert !(i < k);
  }

  /** When the search ends below 8 matches, no ratio gave 8. */
  lemma TooFewAtEveryRatio(knn: seq<seq<DMatch>>)
    requires forall i :: 0 <= i < |knn| && |knn[i]| == 2 ==> knn[i][1].distance >= 0.0
    requires |GoodMatches(knn, Ratios[ChosenRatioIndex(knn, 0)])| < 8
    ensures forall j :: 0 <= j < |Ratios| ==> |GoodMatches(knn, Ratios[j])| < 8
  {
    assert ChosenRatioIndex(knn, 0) == |Ratios| - 1;
  }

  // ---- The hit / no-hit decision ----

  /** What a matcher reports: a centre in search-region coordinates (or none) and a score. */
  datatype Outcome = Outcome(center: Option<Point>, score: int)

  /** A centre moved from search-region to image coordinates. */
  function ToImage(searchRect: Rect, p: Point): Point
  {
    Point(searchRect.x as real + p.x, searchRect.y as real + p.y)
  }

  /** A matcher's outcome accepted only with a centre and a score at the threshold. */
  function Accept(o: Outcome, searchRect: Rect, threshold: int): (r: Outcome)
    ensures r.score == o.score
    ensures r.center.Some? <==> o.center.Some? && o.score >= threshold
  {
    if o.center.None? || o.score < threshold then Outcome(None, o.score)
    else Outcome(Some(ToImage(searchRect, o.center.value)), o.score)
  }

  /** The matching mode: the feature name trimmed and lower-cased, null read as empty. */
  function Mode(feature: Option<string>): string
  {
    Lower(Trim(if feature.Some? then feature.value else ""))
  }

  /**
   * MatchInSearchROI after the input checks: "edges" uses the template
   * matcher on edge maps; otherwise the feature matcher, and in "auto" mode
   * the template matcher when the features miss; every path reports no
   * centre below the threshold. The matchers' results are parameters.
   */
  function Decide(mode: string, threshold: int, searchRect: Rect,
                  edgesTm: Outcome, feat: Outcome, tm: Outcome): (r: Outcome)
    ensures r.center.Some? ==> r.score >= threshold
    ensures mode == "edges" ==> r.score == edgesTm.score
    ensures mode != "edges" && feat.center.Some? && feat.score >= threshold ==> r == Accept(feat, searchRect, threshold)
    ensures mode == "auto" && r.center.None? && (feat.center.None? || feat.score < threshold) ==>
              r.score == MaxInt(feat.score, tm.score)
    ensures mode == "edges" ==> r == Accept(edgesTm, searchRect, threshold)
    ensures mode == "auto" && (feat.center.None? || feat.score < threshold) && tm.center.Some? && tm.score >= threshold ==>
              r == Accept(tm, searchRect, threshold) && r.center.Some?
    ensures mode == "auto" && (feat.center.None? || feat.score < threshold) && (tm.center.None? || tm.score < threshold) ==>
              r == Outcome(None, MaxInt(feat.score, tm.score))
    ensures mode != "edges" && mode != "auto" ==> r == Accept(feat, searchRect, threshold)
  {
    if mode == "edges" then Accept(edgesTm, searchRect, threshold)
    else if mode == "auto" && (feat.center.None? || feat.score < threshold) then
      if tm.center.None? || tm.score < threshold then Outcome(None, MaxInt(feat.score, tm.score))
      else Accept(tm, searchRect, threshold)
    else Accept(feat, searchRect, threshold)
  }

  /** Why MatchInSearchROI throws instead of answering. */
  datatype MatchError =
    | EmptyImage   // the grey copy of an empty image is empty, and OpenCV refuses the search sub-matrix of it

  /**
   * MatchInSearchROI(image, patternRoi, searchRoi, …): an empty image makes
   * it throw (the search rectangle always has at least one pixel); a
   * search rectangle under 5 pixels or a pattern under 3 pixels in either
   * direction gives (null, 0); otherwise the decision above. The pattern
   * is the override when one is given, else the pattern ROI's rectangle.
   */
  function MatchInSearchRoi(image: ImageSize, patternRoi: RoiValue, searchRoi: RoiValue, feature: Option<string>,
                            threshold: int, patternOverride: Option<ImageSize>,
                            edgesTm: Outcome, feat: Outcome, tm: Outcome): (r: Result<Outcome, MatchError>)
    ensures r.Failure? <==> image.Empty()
    ensures r.Success? && r.value.center.Some? ==> r.value.score >= threshold
    ensures !image.Empty() && (RectFromRoi(image, searchRoi).width < 5 || RectFromRoi(image, searchRoi).height < 5) ==>
              r == Success(Outcome(None, 0))
    ensures !image.Empty() && r.Success? && r.value.center.Some? ==>
              r.value == Decide(Mode(feature), threshold, RectFromRoi(image, searchRoi), edgesTm, feat, tm)
    ensures !image.Empty() && RectFromRoi(image, searchRoi).width >= 5 && RectFromRoi(image, searchRoi).height >= 5 ==>
              (PatternTooSmall(image, patternRoi, patternOverride) ==> r == Success(Outcome(None, 0)))
              && (!PatternTooSmall(image, patternRoi, patternOverride) ==>
                    r == Success(Decide(Mode(feature), threshold, RectFromRoi(image, searchRoi), edgesTm, feat, tm)))
  {
    var searchRect := RectFromRoi(image, searchRoi);
    if image.Empty() then Failure(EmptyImage)
    else if searchRect.width < 5 || searchRect.height < 5 then Success(Outcome(None, 0))
    else if PatternTooSmall(image, patternRoi, patternOverride) then Success(Outcome(None, 0))
    else Success(Decide(Mode(feature), threshold, searchRect, edgesTm, feat, tm))
  }

  /**
   * The pattern checks: an override that is empty or under 3 pixels in
   * either direction, or without one, a pattern ROI rectangle under 3 pixels.
   */
  predicate PatternTooSmall(image: ImageSize, patternRoi: RoiValue, patternOverride: Option<ImageSize>)
  {
    if patternOverride.Some? then
      patternOverride.value.Empty() || patternOverride.value.width < 3 || patternOverride.value.height < 3
    else
      RectFromRoi(image, patternRoi).width < 3 || RectFromRoi(image, patternRoi).height < 3
  }

  /**
   * MatchInSearchROI(image, searchRect, template, threshold): a null or
   * empty image or template gives (null, 0); otherwise the best correlation
   * maxVal at maxLoc in the safe rectangle (OpenCV's result, a parameter)
   * gives no centre below the threshold, else the template's centre there.
   */
  function MatchInSearchRect(image: Option<ImageSize>, searchRect: Rect, template: Option<ImageSize>, threshold: real,
                             maxVal: real, maxLocX: int, maxLocY: int): (r: (Option<Point>, real))
    ensures (image.None? || image.value.Empty() || template.None? || template.value.Empty()) ==> r == (None, 0.0)
    ensures r.0.Some? ==> r.1 == maxVal && maxVal >= threshold
    ensures r.0.Some? ==>
              var safe := SafeRect(image.value, searchRect);
              r.0.value == Point(safe.x as real + maxLocX as real + template.value.width as real / 2.0,
                                 safe.y as real + maxLocY as real + template.value.height as real / 2.0)
  {
    if image.None? || image.value.Empty() || template.None? || template.value.Empty() then (None, 0.0)
    else
      var safe := SafeRect(image.value, searchRect);
      if maxVal < threshold then (None, maxVal)
      else (Some(Point(safe.x as real + maxLocX as real + template.value.width as real / 2.0,
                       safe.y as real + maxLocY as real + template.value.height as real / 2.0)), maxVal)
  }
}
