/**
 * The control logic of InferenceEngine.run: the token-grid check that comes
 * before any scoring, the Gaussian kernel size, the masked global score, the
 * 0..255 visualisation, and the region filter and ordering.
 *
 * Images are flattened row by row into sequences of one value per pixel.
 * The neural extractor, cv2 (resize, blur, findContours, contourArea) and the
 * unit conversions of utils.py are not part of this model: their results are
 * inputs, or functions passed in.
 */
module Infer {
  import opened Wrappers
  import opened Numeric
  import opened Seqs

  /** A token grid (Ht, Wt). */
  datatype Grid = Grid(h: int, w: int)

  datatype InferError =
    | GridMismatch(got: Grid, expected: Grid)
    | NotFitted
    | PercentileOutOfRange

  /** The grid check: a grid different from the one requested is refused. */
  function CheckGrid(got: Grid, expected: Option<Grid>): (r: Result<Grid, InferError>)
    ensures r.Success? <==> (expected.None? || expected.value == got)
    ensures r.Success? ==> r.value == got
    ensures r.Failure? ==> r.error == GridMismatch(got, expected.value)
  {
    if expected.Some? && expected.value != got then Failure(GridMismatch(got, expected.value))
    else Success(got)
  }

  /** The side of the Gaussian kernel, or None when no blur is applied (sigma <= 0). */
  function BlurKernelSize(sigma: real): (k: Option<int>)
    ensures k.None? <==> sigma <= 0.0
    ensures k.Some? ==> k.value >= 3 && k.value % 2 == 1
    ensures k.Some? && k.value > 3 ==> 6.0 * sigma <= k.value as real && k.value as real <= 6.0 * sigma + 2.0
    ensures k.Some? && sigma >= 0.5 ==> k.value as real >= 6.0 * sigma
  {
    if sigma <= 0.0 then None
    else
      var half := RoundHalfEven(sigma * 3.0);
      Some(MaxInt(3, half * 2 + 1))
  }

  /** The percentile used for the score: the per-call override, else the engine's. */
  function PercentileInUse(requested: Option<int>, engineP: int): (p: int)
    ensures requested.Some? ==> p == requested.value
    ensures requested.None? ==> p == engineP
  {
    if requested.Some? then requested.value else engineP
  }

  /** The pixels the ROI mask selects (heat_proc[mask_bool]): each selected pixel once, in image order. */
  function Masked(heat: seq<real>, mask: seq<bool>): (r: seq<real>)
    requires |heat| == |mask|
    ensures var idx := TruePositions(mask);
            |r| == |idx| && forall k :: 0 <= k < |r| ==> idx[k] < |heat| && r[k] == heat[idx[k]]
    ensures r == [] <==> forall i :: 0 <= i < |mask| ==> !mask[i]
  {
    if heat == [] then []
    else
      var rest := Masked(heat[1..], mask[1..]);
      assert forall i :: 1 <= i < |heat| ==> heat[i] == heat[1..][i - 1] && mask[i] == mask[1..][i - 1];
      SelectedStep(heat, mask, rest);
      if mask[0] then [heat[0]] + rest else rest
  }

  /** Every masked value is the value of a selected pixel, and every selected pixel's value is among them. */
  lemma MaskedMembers(heat: seq<real>, mask: seq<bool>)
    requires |heat| == |mask|
    ensures |Masked(heat, mask)| <= |heat|
    ensures forall x :: x in Masked(heat, mask) ==> exists i :: 0 <= i < |heat| && mask[i] && heat[i] == x
    ensures forall i :: 0 <= i < |heat| && mask[i] ==> heat[i] in Masked(heat, mask)
  {
    var r, idx := Masked(heat, mask), TruePositions(mask);
    TruePositionsSpec(mask);
    forall x | x in r ensures exists i :: 0 <= i < |heat| && mask[i] && heat[i] == x {
      var k :| 0 <= k < |r| && r[k] == x;
      assert mask[idx[k]] && heat[idx[k]] == x;
    }
    forall i | 0 <= i < |heat| && mask[i] ensures heat[i] in r {
      var k :| 0 <= k < |idx| && idx[k] == i;
      assert r[k] == heat[i];
    }
  }

  /** The selection of a whole image from the selection of all but its first pixel. */
  lemma SelectedStep(heat: seq<real>, mask: seq<bool>, rest: seq<real>)
    requires |heat| == |mask| > 0
    requires var idx := TruePositions(mask[1..]);
             |rest| == |idx| && forall k :: 0 <= k < |rest| ==> idx[k] < |heat| - 1 && rest[k] == heat[1..][idx[k]]
    ensures var idx := TruePositions(mask);
            var r := if mask[0] then [heat[0]] + rest else rest;
            |r| == |idx| && forall k :: 0 <= k < |r| ==> idx[k] < |heat| && r[k] == heat[idx[k]]
  {
  }

  /**
   * The global score: the chosen percentile of the masked pixels, 0.0 when
   * the mask selects none. A percentile outside 0..100 is refused by numpy.
   */
  function MaskedScore(heat: seq<real>, mask: seq<bool>, p: int): (r: Result<real, InferError>)
    requires |heat| == |mask|
    ensures Masked(heat, mask) == [] ==> r == Success(0.0)
    ensures Masked(heat, mask) != [] ==> (r.Success? <==> 0 <= p <= 100)
    ensures r.Failure? ==> r.error == PercentileOutOfRange
    ensures r.Success? && Masked(heat, mask) != [] ==>
              r.value == Percentile(Masked(heat, mask), p as real)
              && SeqMin(Masked(heat, mask)) <= r.value <= SeqMax(Masked(heat, mask))
  {
    var valid := Masked(heat, mask);
    if valid == [] then Success(0.0)
    else if p < 0 || p > 100 then Failure(PercentileOutOfRange)
    else
      PercentileWithinRange(valid, p as real);
      Success(Percentile(valid, p as real))
  }

  /** A higher percentile never lowers the score. */
  lemma MaskedScoreMonotone(heat: seq<real>, mask: seq<bool>, p1: int, p2: int)
    requires |heat| == |mask| && 0 <= p1 <= p2 <= 100
    ensures MaskedScore(heat, mask, p1).value <= MaskedScore(heat, mask, p2).value
  {
    var valid := Masked(heat, mask);
    if valid != [] {
      PercentileMonotone(valid, p1 as real, p2 as real);
    }
  }

  // ---------------------------------------------------------------------
  // Visualisation
  // ---------------------------------------------------------------------

  lemma DivMonotone(a: real, b: real, d: real)
    requires d > 0.0 && a <= b
    ensures a / d <= b / d
  {
    var qa, qb := a / d, b / d;
    assert qa * d == a && qb * d == b;
    if qa > qb {
      MulStrict(d, qb, qa);
    }
  }

  lemma DivAtMost(a: real, d: real)
    requires d > 0.0 && a <= 0.0
    ensures a / d <= 0.0
  {
    DivMonotone(a, 0.0, d);
  }

  lemma DivAtLeastOne(a: real, d: real)
    requires d > 0.0 && a >= d
    ensures a / d >= 1.0
  {
    DivMonotone(d, a, d);
  }

  lemma QuotientEnds(h: real, mn: real, mx: real)
    requires mn < mx
    ensures h <= mn ==> (h - mn) / (mx - mn) <= 0.0
    ensures h >= mx ==> (h - mn) / (mx - mn) >= 1.0
  {
    if h <= mn { DivAtMost(h - mn, mx - mn); }
    if h >= mx { DivAtLeastOne(h - mn, mx - mn); }
  }

  /** One pixel of the visualisation: its normalised value inside the mask, 0 elsewhere. */
  function VisValue(h: real, inMask: bool, mn: real, mx: real): (v: real)
    ensures 0.0 <= v <= 1.0
    ensures !inMask || mx <= mn ==> v == 0.0
    ensures inMask && mn < mx && h <= mn ==> v == 0.0
    ensures inMask && mn < mx && h >= mx ==> v == 1.0
  {
    if inMask && mx > mn then
      var q := (h - mn) / (mx - mn);
      QuotientEnds(h, mn, mx);
      ClampReal(q, 0.0, 1.0)
    else 0.0
  }

  /** The visualisation keeps the order of pixel values inside the mask. */
  lemma VisValueMonotone(h1: real, h2: real, mn: real, mx: real)
    requires h1 <= h2
    ensures VisValue(h1, true, mn, mx) <= VisValue(h2, true, mn, mx)
  {
    if mx > mn {
      DivMonotone(h1 - mn, h2 - mn, mx - mn);
    }
  }

  /** The 1st and 99th percentiles of the masked pixels (0, 0 when there are none). */
  function VisRange(valid: seq<real>): (r: (real, real))
    ensures valid != [] ==> SeqMin(valid) <= r.0 <= r.1 <= SeqMax(valid)
  {
    if valid == [] then (0.0, 0.0)
    else
      PercentileWithinRange(valid, 1.0);
      PercentileWithinRange(valid, 99.0);
      PercentileMonotone(valid, 1.0, 99.0);
      (Percentile(valid, 1.0), Percentile(valid, 99.0))
  }

  /** The floating visualisation heat_vis. */
  function HeatVis(heat: seq<real>, mask: seq<bool>): (r: seq<real>)
    requires |heat| == |mask|
    ensures |r| == |heat|
    ensures forall i :: 0 <= i < |r| ==> 0.0 <= r[i] <= 1.0
    ensures forall i :: 0 <= i < |r| && !mask[i] ==> r[i] == 0.0
  {
    var range := VisRange(Masked(heat, mask));
    seq(|heat|, i requires 0 <= i < |heat| => VisValue(heat[i], mask[i], range.0, range.1))
  }

  /** Two masked pixels keep their order in the visualisation. */
  lemma HeatVisMonotone(heat: seq<real>, mask: seq<bool>, i: nat, j: nat)
    requires |heat| == |mask| && i < |heat| && j < |heat|
    requires mask[i] && mask[j] && heat[i] <= heat[j]
    ensures HeatVis(heat, mask)[i] <= HeatVis(heat, mask)[j]
  {
    var range := VisRange(Masked(heat, mask));
    VisValueMonotone(heat[i], heat[j], range.0, range.1);
  }

  /** The conversion to uint8 after adding 0.5, which rounds a value in [0,1] scaled to 0..255. */
  function ToU8(v: real): (r: int)
    requires 0.0 <= v <= 1.0
    ensures 0 <= r <= 255
    ensures r as real <= v * 255.0 + 0.5 < r as real + 1.0
    ensures v == 0.0 ==> r == 0
    ensures v == 1.0 ==> r == 255
  {
    MulMonotone(255.0, v, 1.0);
    Trunc(v * 255.0 + 0.5)
  }

  function HeatU8(vis: seq<real>): (r: seq<int>)
    requires forall i :: 0 <= i < |vis| ==> 0.0 <= vis[i] <= 1.0
    ensures |r| == |vis|
    ensures forall i :: 0 <= i < |r| ==> 0 <= r[i] <= 255 && r[i] == ToU8(vis[i])
  {
    seq(|vis|, i requires 0 <= i < |vis| => ToU8(vis[i]))
  }

  /** cv2.bitwise_and of an image with itself under a mask: the pixel inside the mask, 0 outside. */
  function ApplyMask(img: seq<int>, mask: seq<bool>): (r: seq<int>)
    requires |img| == |mask|
    ensures |r| == |img|
    ensures forall i :: 0 <= i < |r| ==> r[i] == (if mask[i] then img[i] else 0)
  {
    seq(|img|, i requires 0 <= i < |img| => if mask[i] then img[i] else 0)
  }

  /** The final masking changes nothing: heat_vis is already 0 outside the mask. */
  lemma MaskingIsNoOp(heat: seq<real>, mask: seq<bool>)
    requires |heat| == |mask|
    ensures ApplyMask(HeatU8(HeatVis(heat, mask)), mask) == HeatU8(HeatVis(heat, mask))
  {
    ZeroOutsideMask(HeatVis(heat, mask), mask);
  }

  lemma ZeroOutsideMask(vis: seq<real>, mask: seq<bool>)
    requires |vis| == |mask|
    requires forall i :: 0 <= i < |vis| ==> 0.0 <= vis[i] <= 1.0
    requires forall i :: 0 <= i < |vis| && !mask[i] ==> vis[i] == 0.0
    ensures ApplyMask(HeatU8(vis), mask) == HeatU8(vis)
  {
    var u := HeatU8(vis);
    assert forall i :: 0 <= i < |u| && !mask[i] ==> u[i] == 0;
  }

  // ---------------------------------------------------------------------
  // Regions
  // ---------------------------------------------------------------------

  /** The binary image: 255 where the mask selects a pixel at or above the threshold. */
  function Binarize(heat: seq<real>, mask: seq<bool>, thr: real): (r: seq<int>)
    requires |heat| == |mask|
    ensures |r| == |heat|
    ensures forall i :: 0 <= i < |r| ==> (r[i] == 255 <==> mask[i] && heat[i] >= thr)
    ensures forall i :: 0 <= i < |r| ==> (r[i] == 0 <==> !(mask[i] && heat[i] >= thr))
  {
    seq(|heat|, i requires 0 <= i < |heat| => if mask[i] && heat[i] >= thr then 255 else 0)
  }

  /** A bounding box x, y, w, h. */
  datatype BBox = BBox(x: int, y: int, w: int, h: int)

  /** An external contour found by cv2: its bounding box and its area in pixels. */
  datatype Blob = Blob(bbox: BBox, areaPx: real)

  /** A region of the reply. */
  datatype Region = Region(bbox: BBox, areaPx: real, areaMm2: real)

  /** For each contour, whether its area reaches the threshold. */
  function LargeFlags(blobs: seq<Blob>, pxThr: real): (f: seq<bool>)
    ensures |f| == |blobs| && forall i :: 0 <= i < |f| ==> (f[i] <==> blobs[i].areaPx >= pxThr)
  {
    seq(|blobs|, i requires 0 <= i < |blobs| => blobs[i].areaPx >= pxThr)
  }

  /** The contours that survive the small-island removal: each large one once, in findContours order. */
  function KeepLarge(blobs: seq<Blob>, pxThr: real): (r: seq<Blob>)
    ensures var idx := TruePositions(LargeFlags(blobs, pxThr));
            |r| == |idx| && forall k :: 0 <= k < |r| ==> idx[k] < |blobs| && r[k] == blobs[idx[k]]
    ensures forall b :: b in r <==> b in blobs && b.areaPx >= pxThr
  {
    if blobs == [] then []
    else
      var rest := KeepLarge(blobs[1..], pxThr);
      KeptStep(blobs, pxThr, rest);
      KeptMembersStep(blobs, pxThr, rest);
      if blobs[0].areaPx >= pxThr then [blobs[0]] + rest else rest
  }

  /** The surviving contours of a list from those of all but its first contour: their positions ... */
  lemma KeptStep(blobs: seq<Blob>, pxThr: real, rest: seq<Blob>)
    requires blobs != []
    requires var idx := TruePositions(LargeFlags(blobs[1..], pxThr));
             |rest| == |idx| && forall k :: 0 <= k < |rest| ==> idx[k] < |blobs| - 1 && rest[k] == blobs[1..][idx[k]]
    ensures var idx := TruePositions(LargeFlags(blobs, pxThr));
            var r := if blobs[0].areaPx >= pxThr then [blobs[0]] + rest else rest;
            |r| == |idx| && forall k :: 0 <= k < |r| ==> idx[k] < |blobs| && r[k] == blobs[idx[k]]
  {
    assert LargeFlags(blobs, pxThr)[1..] == LargeFlags(blobs[1..], pxThr);
  }

  /** ... and their members. */
  lemma KeptMembersStep(blobs: seq<Blob>, pxThr: real, rest: seq<Blob>)
    requires blobs != []
    requires forall b :: b in rest <==> b in blobs[1..] && b.areaPx >= pxThr
    ensures var r := if blobs[0].areaPx >= pxThr then [blobs[0]] + rest else rest;
            forall b :: b in r <==> b in blobs && b.areaPx >= pxThr
  {
    assert blobs == [blobs[0]] + blobs[1..];
  }

  /** One region per surviving contour, with its area converted to square millimetres. */
  function ToRegions(blobs: seq<Blob>, toMm2: real -> real): (r: seq<Region>)
    ensures |r| == |blobs|
    ensures forall k :: 0 <= k < |r| ==>
              r[k] == Region(blobs[k].bbox, blobs[k].areaPx, toMm2(blobs[k].areaPx))
  {
    seq(|blobs|, k requires 0 <= k < |blobs| => Region(blobs[k].bbox, blobs[k].areaPx, toMm2(blobs[k].areaPx)))
  }

  predicate SortedByAreaDesc(s: seq<Region>)
  {
    forall i, j :: 0 <= i < j < |s| ==> s[i].areaPx >= s[j].areaPx
  }

  /** The first position whose region is smaller than `x`, or the end. */
  method FindSlot(s: seq<Region>, x: Region) returns (k: nat)
    ensures k <= |s|
    ensures forall j :: 0 <= j < k ==> s[j].areaPx >= x.areaPx
    ensures k < |s| ==> s[k].areaPx < x.areaPx
  {
    k := 0;
    while k < |s| && s[k].areaPx >= x.areaPx
      invariant 0 <= k <= |s|
      invariant forall j :: 0 <= j < k ==> s[j].areaPx >= x.areaPx
    {
      k := k + 1;
    }
  }

  /** Putting `x` after the regions at least as large and before the smaller ones keeps the order. */
  lemma InsertAt(s: seq<Region>, k: nat, x: Region)
    requires SortedByAreaDesc(s) && k <= |s|
    requires forall j :: 0 <= j < k ==> s[j].areaPx >= x.areaPx
    requires k < |s| ==> s[k].areaPx < x.areaPx
    ensures SortedByAreaDesc(s[..k] + [x] + s[k..])
    ensures multiset(s[..k] + [x] + s[k..]) == multiset(s) + multiset{x}
  {
    assert s == s[..k] + s[k..];
    var t := s[..k] + [x] + s[k..];
    forall i, j | 0 <= i < j < |t| ensures t[i].areaPx >= t[j].areaPx {
      if j < k || i > k {
      } else if i == k {
        assert t[j] == s[j - 1];
      } else if j == k {
      } else {
        assert t[j] == s[j - 1] && t[i] == s[i];
      }
    }
  }

  /** The regions of `s` whose area is `v`, in their order in `s`. */
  function WithArea(s: seq<Region>, v: real): seq<Region>
  {
    if s == [] then [] else WithArea(s[..|s| - 1], v) + (if s[|s| - 1].areaPx == v then [s[|s| - 1]] else [])
  }

  lemma {:induction false} WithAreaAppend(a: seq<Region>, b: seq<Region>, v: real)
    ensures WithArea(a + b, v) == WithArea(a, v) + WithArea(b, v)
  {
    if b == [] {
      assert a + b == a;
    } else {
      var init, last := b[..|b| - 1], b[|b| - 1];
      var tail := if last.areaPx == v then [last] else [];
      WithAreaAppend(a, init, v);
      assert (a + b)[..|a + b| - 1] == a + init && (a + b)[|a + b| - 1] == last;
      assert WithArea(a + b, v) == (WithArea(a, v) + WithArea(init, v)) + tail;
      assert WithArea(b, v) == WithArea(init, v) + tail;
    }
  }

  lemma {:induction false} WithAreaNone(s: seq<Region>, v: real)
    requires forall j :: 0 <= j < |s| ==> s[j].areaPx != v
    ensures WithArea(s, v) == []
  {
    if s != [] {
      WithAreaNone(s[..|s| - 1], v);
    }
  }

  /** Inserting at the slot FindSlot gives keeps the order of the regions of each area, `x` last among its own. */
  lemma InsertAtIsStable(s: seq<Region>, k: nat, x: Region, v: real)
    requires SortedByAreaDesc(s) && k <= |s|
    requires k < |s| ==> s[k].areaPx < x.areaPx
    ensures WithArea(s[..k] + [x] + s[k..], v) == WithArea(s, v) + (if x.areaPx == v then [x] else [])
  {
    WithAreaAppend(s[..k] + [x], s[k..], v);
    WithAreaAppend(s[..k], [x], v);
    WithAreaAppend(s[..k], s[k..], v);
    assert s[..k] + s[k..] == s;
    assert [x][..0] == [];
    if x.areaPx == v {
      forall j | 0 <= j < |s[k..]| ensures s[k..][j].areaPx != v {
        assert s[k..][j] == s[k + j];
      }
      WithAreaNone(s[k..], v);
    }
  }

  /**
   * regions.sort(key=area_px, reverse=True), as an insertion sort: each
   * region goes after every region already placed whose area is not smaller.
   */
  method SortRegions(regions: seq<Region>) returns (sorted: seq<Region>)
    ensures SortedByAreaDesc(sorted)
    ensures multiset(sorted) == multiset(regions)
    ensures forall v :: WithArea(sorted, v) == WithArea(regions, v)
  {
    sorted := [];
    var i := 0;
    while i < |regions|
      invariant 0 <= i <= |regions|
      invariant SortedByAreaDesc(sorted)
      invariant multiset(sorted) == multiset(regions[..i])
      invariant forall v :: WithArea(sorted, v) == WithArea(regions[..i], v)
    {
      var x := regions[i];
      var k := FindSlot(sorted, x);
      InsertAt(sorted, k, x);
      assert regions[..i + 1] == regions[..i] + [x];
      forall v ensures WithArea(sorted[..k] + [x] + sorted[k..], v) == WithArea(regions[..i + 1], v) {
        InsertAtIsStable(sorted, k, x, v);
        assert regions[..i + 1][..i] == regions[..i];
      }
      sorted := sorted[..k] + [x] + sorted[k..];
      i := i + 1;
    }
    assert regions[..i] == regions;
  }

  // ---------------------------------------------------------------------
  // One inference pass
  // ---------------------------------------------------------------------

  datatype Outcome = Outcome(
    score: real,
    threshold: Option<real>,
    heatmapU8: seq<int>,
    regions: seq<Region>,
    tokenShape: Grid,
    scorePercentile: int)

  /**
   * InferenceEngine.run after feature extraction.
   *   got, knn       the extractor's token grid and the kNN distances (or the not-fitted error)
   *   heatOf         cv2.resize then the optional GaussianBlur of the given kernel size
   *   blobsOf        cv2.findContours and contourArea on the cleaned binary image
   *   pxThr, toMm2   utils.mm2_to_px2(area_mm2_thr, mm_per_px) and utils.px2_to_mm2
   */
  method Run(got: Grid, expected: Option<Grid>, knn: Result<seq<real>, InferError>,
             heatOf: (seq<real>, Option<int>) -> seq<real>, mask: seq<bool>,
             blurSigma: real, threshold: Option<real>, requested: Option<int>, engineP: int,
             blobsOf: seq<int> -> seq<Blob>, pxThr: real, toMm2: real -> real)
    returns (r: Result<Outcome, InferError>)
    requires knn.Failure? ==> knn.error == NotFitted
    requires knn.Success? ==> |heatOf(knn.value, BlurKernelSize(blurSigma))| == |mask|
    ensures CheckGrid(got, expected).Failure? ==> r == Failure(GridMismatch(got, expected.value))
    ensures CheckGrid(got, expected).Success? && knn.Failure? ==> r == Failure(NotFitted)
    ensures r.Success? ==> knn.Success? && CheckGrid(got, expected).Success?
    ensures r.Success? ==>
              var heat := heatOf(knn.value, BlurKernelSize(blurSigma));
              var o := r.value;
              && o.scorePercentile == PercentileInUse(requested, engineP)
              && Success(o.score) == MaskedScore(heat, mask, o.scorePercentile)
              && o.heatmapU8 == HeatU8(HeatVis(heat, mask))
              && o.threshold == threshold
              && o.tokenShape == got
              && (threshold.None? ==> o.regions == [])
              && SortedByAreaDesc(o.regions)
              && (forall g :: g in o.regions ==> g.areaPx >= pxThr)
              && (threshold.Some? ==>
                    multiset(o.regions) ==
                    multiset(ToRegions(KeepLarge(blobsOf(Binarize(heat, mask, threshold.value)), pxThr), toMm2)))
              && (threshold.Some? ==>
                    forall v :: WithArea(o.regions, v) ==
                                WithArea(ToRegions(KeepLarge(blobsOf(Binarize(heat, mask, threshold.value)), pxThr), toMm2), v))
    ensures knn.Success? && CheckGrid(got, expected).Success? ==>
              (r.Failure? <==> MaskedScore(heatOf(knn.value, BlurKernelSize(blurSigma)), mask,
                                           PercentileInUse(requested, engineP)).Failure?)
  {
    var grid := CheckGrid(got, expected);
    if grid.Failure? {
      return Failure(grid.error);
    }
    if knn.Failure? {
      return Failure(knn.error);
    }
    var heat := heatOf(knn.value, BlurKernelSize(blurSigma));
    var p := PercentileInUse(requested, engineP);
    var score := MaskedScore(heat, mask, p);
    if score.Failure? {
      return Failure(score.error);
    }
    var vis := HeatU8(HeatVis(heat, mask));
    MaskingIsNoOp(heat, mask);
    var masked := ApplyMask(vis, mask);
    var regions: seq<Region> := [];
    if threshold.Some? {
      var kept := KeepLarge(blobsOf(Binarize(heat, mask, threshold.value)), pxThr);
      var unsorted := ToRegions(kept, toMm2);
      assert forall g :: g in unsorted ==> g.areaPx >= pxThr by {
        forall g | g in unsorted ensures g.areaPx >= pxThr {
          var k :| 0 <= k < |unsorted| && unsorted[k] == g;
          assert kept[k] in kept;
        }
      }
      regions := SortRegions(unsorted);
      assert forall g :: g in regions ==> g.areaPx >= pxThr by {
        forall g | g in regions ensures g.areaPx >= pxThr {
          assert g in multiset(regions);
        }
      }
    }
    r := Success(Outcome(score.value, threshold, masked, regions, got, p));
  }
}
