/**
 * RoiPlacementEngine: re-places the baseline ROIs of a layout on a new image
 * once the two master patterns have been found there. Master pattern ROIs
 * move to the detected master centres; each inspection ROI either follows
 * the translation of its anchor (rotation disabled) or is rotated about its
 * anchor pivot by the change in the master-to-master angle.
 *
 * Math.Atan2, Math.Cos, Math.Sin and Math.Sqrt are not part of this model:
 * they are parameters (`Trig`). Doubles are modelled as exact reals.
 */
module Placement {
  import opened Wrappers
  import opened Text
  import opened Numeric
  import opened Roi
  import opened RoiConfig
  import opened Seqs

  /** Math.PI as the double literal the runtime uses. */
  const Pi: real := 3.141592653589793
  const TwoPi: real := 2.0 * Pi

  /** The floating-point library functions the engine calls. */
  datatype Trig = Trig(atan2: (real, real) -> real, cos: real -> real, sin: real -> real, sqrt: real -> real)

  /** RoiPlacementInput; ScaleMode and ImageKey only reach the log and are left out. */
  datatype PlacementInput = PlacementInput(
    baseM1: Point, baseM2: Point, detM1: Point, detM2: Point,
    disableRot: bool, scaleLock: bool, useMidAnchorFallback: bool,
    anchorByRoiId: Option<map<string, MasterAnchorChoice>>)

  /** What Place derives from the four master centres (the PlacementDebug figures). */
  datatype Motion = Motion(
    deltaM1: Point, deltaM2: Point, deltaMid: Point,
    angDelta: real, angDeltaDeg: real,
    distBase: real, distDet: real, scale: real)

  function Midpoint(a: Point, b: Point): Point
  {
    Point((a.x + b.x) * 0.5, (a.y + b.y) * 0.5)
  }

  /** C#'s `%` on doubles by 2π: the remainder takes the dividend's sign. */
  function FModTwoPi(x: real): (r: real)
    ensures x >= 0.0 ==> 0.0 <= r < TwoPi
    ensures x < 0.0 ==> -TwoPi < r <= 0.0
    ensures r == x - Trunc(x / TwoPi) as real * TwoPi
  {
    x - Trunc(x / TwoPi) as real * TwoPi
  }

  /** The number of whole turns NormalizeAngleRad removes. */
  function WholeTurns(rad: real): int
  {
    Trunc((rad + Pi) / TwoPi) - (if FModTwoPi(rad + Pi) < 0.0 then 1 else 0)
  }

  /** An angle in radians brought into [-π, π) by whole turns. */
  function NormalizeAngleRad(rad: real): (r: real)
    ensures -Pi <= r < Pi
    ensures r == rad - WholeTurns(rad) as real * TwoPi
  {
    var normalized := FModTwoPi(rad + Pi);
    var normalized := if normalized < 0.0 then normalized + TwoPi else normalized;
    normalized - Pi
  }

  /** An angle already in [-π, π) is returned unchanged. */
  lemma NormalizeAngleRadInRange(rad: real)
    requires -Pi <= rad < Pi
    ensures NormalizeAngleRad(rad) == rad
  {
    var x := rad + Pi;
    assert 0.0 <= x / TwoPi < 1.0;
    assert Trunc(x / TwoPi) == 0;
  }

  lemma NormalizeAngleRadIdempotent(rad: real)
    ensures NormalizeAngleRad(NormalizeAngleRad(rad)) == NormalizeAngleRad(rad)
  {
    NormalizeAngleRadInRange(NormalizeAngleRad(rad));
  }

  function Rotate(v: Point, angleRad: real, trig: Trig): Point
  {
    var c := trig.cos(angleRad);
    var s := trig.sin(angleRad);
    Point(v.x * c - v.y * s, v.x * s + v.y * c)
  }

  function SqNorm(v: Point): real { v.x * v.x + v.y * v.y }

  function Hypot(v: Point, trig: Trig): real { trig.sqrt(SqNorm(v)) }

  /** A rotation by an angle whose cosine and sine lie on the unit circle keeps lengths. */
  lemma RotateKeepsLength(v: Point, angleRad: real, trig: Trig)
    requires trig.cos(angleRad) * trig.cos(angleRad) + trig.sin(angleRad) * trig.sin(angleRad) == 1.0
    ensures SqNorm(Rotate(v, angleRad, trig)) == SqNorm(v)
  {
    var c := trig.cos(angleRad);
    var s := trig.sin(angleRad);
    var w := Rotate(v, angleRad, trig);
    calc {
      SqNorm(w);
      (v.x * c - v.y * s) * (v.x * c - v.y * s) + (v.x * s + v.y * c) * (v.x * s + v.y * c);
      v.x * v.x * (c * c + s * s) + v.y * v.y * (c * c + s * s);
      v.x * v.x + v.y * v.y;
    }
  }

  /** The scale factor reported by Place: the ratio of master distances, 1 when the baseline distance is negligible. */
  function Scale(distBase: real, distDet: real): (r: real)
    ensures distBase > 0.000000001 ==> r * distBase == distDet
    ensures distBase <= 0.000000001 ==> r == 1.0
  {
    if distBase > 0.000000001 then distDet / distBase else 1.0
  }

  lemma ScaleOfEqualDistances(d: real)
    ensures Scale(d, d) == 1.0
  {
  }

  function ComputeMotion(input: PlacementInput, trig: Trig): Motion
  {
    var baseMid := Midpoint(input.baseM1, input.baseM2);
    var detMid := Midpoint(input.detM1, input.detM2);
    var baseVec := input.baseM2.Minus(input.baseM1);
    var detVec := input.detM2.Minus(input.detM1);
    var angBase := trig.atan2(baseVec.y, baseVec.x);
    var angDet := trig.atan2(detVec.y, detVec.x);
    var angDelta := NormalizeAngleRad(angDet - angBase);
    var distBase := Hypot(baseVec, trig);
    var distDet := Hypot(detVec, trig);
    Motion(input.detM1.Minus(input.baseM1), input.detM2.Minus(input.baseM2), detMid.Minus(baseMid),
           angDelta, angDelta * 180.0 / Pi, distBase, distDet, Scale(distBase, distDet))
  }

  /** When the masters did not move, every delta is zero, the angle change is zero and the scale is 1. */
  lemma StillMastersGiveNoMotion(input: PlacementInput, trig: Trig)
    requires input.detM1 == input.baseM1 && input.detM2 == input.baseM2
    ensures var m := ComputeMotion(input, trig);
            m.deltaM1 == m.deltaM2 == m.deltaMid == Point(0.0, 0.0) && m.angDelta == 0.0
            && m.angDeltaDeg == 0.0 && m.scale == 1.0
  {
    NormalizeAngleRadInRange(0.0);
  }

  /** The anchor of an inspection ROI: its entry in the map, else Mid or Master1 by the fallback flag. */
  function ResolveAnchorChoice(input: PlacementInput, roiId: string): (r: MasterAnchorChoice)
    ensures input.anchorByRoiId.Some? && !IsBlank(roiId) && roiId in input.anchorByRoiId.value
            ==> r == input.anchorByRoiId.value[roiId]
    ensures !(input.anchorByRoiId.Some? && !IsBlank(roiId) && roiId in input.anchorByRoiId.value)
            ==> r == (if input.useMidAnchorFallback then Mid else Master1)
  {
    if input.anchorByRoiId.Some? && !IsBlank(roiId) && roiId in input.anchorByRoiId.value
    then input.anchorByRoiId.value[roiId]
    else if input.useMidAnchorFallback then Mid else Master1
  }

  function ResolvePivot(anchor: MasterAnchorChoice, m1: Point, m2: Point, mid: Point): Point
  {
    match anchor
    case Master1 => m1
    case Master2 => m2
    case Mid => mid
  }

  /** The translation of the anchor's pivot. */
  function AnchorDelta(anchor: MasterAnchorChoice, m: Motion): (d: Point)
  {
    ResolvePivot(anchor, m.deltaM1, m.deltaM2, m.deltaMid)
  }

  /** The pivot's translation is the difference of the detected and the baseline pivots. */
  lemma AnchorDeltaIsPivotShift(anchor: MasterAnchorChoice, input: PlacementInput, trig: Trig)
    ensures AnchorDelta(anchor, ComputeMotion(input, trig))
            == ResolvePivot(anchor, input.detM1, input.detM2, Midpoint(input.detM1, input.detM2))
               .Minus(ResolvePivot(anchor, input.baseM1, input.baseM2, Midpoint(input.baseM1, input.baseM2)))
  {
  }

  /** Master1Pattern goes to the detected master 1, Master2Pattern to master 2; other roles stay. */
  function ResolveMasterCenter(role: RoiRole, input: PlacementInput): Option<Point>
  {
    match role
    case Master1Pattern => Some(input.detM1)
    case Master2Pattern => Some(input.detM2)
    case _ => None
  }

  /** ApplyCenter on values: both centre pairs move to `c`, nothing else changes. */
  function CenteredAt(v: RoiValue, c: Point): (r: RoiValue)
    ensures r.Center() == c
    ensures r.x == c.x && r.y == c.y && r.cx == c.x && r.cy == c.y
    ensures r.(x := v.x, y := v.y, cx := v.cx, cy := v.cy) == v
  {
    v.(x := c.x, y := c.y, cx := c.x, cy := c.y)
  }

  /** A placed master pattern: moved to its detected centre, or unchanged for other roles. */
  function PlacedMaster(v: RoiValue, input: PlacementInput): (r: RoiValue)
  {
    match ResolveMasterCenter(v.role, input)
    case Some(c) => CenteredAt(v, c)
    case None => v
  }

  lemma PlacedMasterCentres(v: RoiValue, input: PlacementInput)
    ensures v.role == Master1Pattern ==> PlacedMaster(v, input).Center() == input.detM1
    ensures v.role == Master2Pattern ==> PlacedMaster(v, input).Center() == input.detM2
    ensures v.role != Master1Pattern && v.role != Master2Pattern ==> PlacedMaster(v, input) == v
  {
  }

  /** The new centre of an inspection ROI. */
  function PlacedCenter(v: RoiValue, input: PlacementInput, trig: Trig): Point
  {
    var m := ComputeMotion(input, trig);
    var anchor := ResolveAnchorChoice(input, v.id);
    if input.disableRot then
      v.Center().Plus(AnchorDelta(anchor, m))
    else
      var pivotBase := ResolvePivot(anchor, input.baseM1, input.baseM2, Midpoint(input.baseM1, input.baseM2));
      var pivotDet := ResolvePivot(anchor, input.detM1, input.detM2, Midpoint(input.detM1, input.detM2));
      pivotDet.Plus(Rotate(v.Center().Minus(pivotBase), m.angDelta, trig))
  }

  /** The new angle: unchanged when rotation is disabled, else turned by the master angle change. */
  function PlacedAngle(v: RoiValue, input: PlacementInput, trig: Trig): real
  {
    if input.disableRot then v.angleDeg else v.angleDeg + ComputeMotion(input, trig).angDeltaDeg
  }

  function PlacedInspection(v: RoiValue, input: PlacementInput, trig: Trig): RoiValue
  {
    CenteredAt(v, PlacedCenter(v, input, trig)).(angleDeg := PlacedAngle(v, input, trig))
  }

  /** A placed inspection ROI keeps its identity, shape and sizes. */
  lemma PlacementKeepsSizes(v: RoiValue, input: PlacementInput, trig: Trig)
    ensures var p := PlacedInspection(v, input, trig);
            p.id == v.id && p.shape == v.shape && p.role == v.role && p.width == v.width
            && p.height == v.height && p.r == v.r && p.rInner == v.rInner
  {
  }

  /** With rotation disabled the ROI is translated by its anchor's shift and keeps its angle. */
  lemma DisabledRotationTranslates(v: RoiValue, input: PlacementInput, trig: Trig)
    requires input.disableRot
    ensures var p := PlacedInspection(v, input, trig);
            var anchor := ResolveAnchorChoice(input, v.id);
            p.Center().Minus(v.Center())
            == ResolvePivot(anchor, input.detM1, input.detM2, Midpoint(input.detM1, input.detM2))
               .Minus(ResolvePivot(anchor, input.baseM1, input.baseM2, Midpoint(input.baseM1, input.baseM2)))
            && p.angleDeg == v.angleDeg
  {
    var anchor := ResolveAnchorChoice(input, v.id);
    AnchorDeltaIsPivotShift(anchor, input, trig);
  }

  /**
   * With rotation enabled the ROI keeps its distance to its anchor pivot,
   * as long as cos and sin of the angle change lie on the unit circle.
   */
  lemma RotationKeepsPivotDistance(v: RoiValue, input: PlacementInput, trig: Trig)
    requires !input.disableRot
    requires var a := ComputeMotion(input, trig).angDelta;
             trig.cos(a) * trig.cos(a) + trig.sin(a) * trig.sin(a) == 1.0
    ensures var anchor := ResolveAnchorChoice(input, v.id);
            var pivotBase := ResolvePivot(anchor, input.baseM1, input.baseM2, Midpoint(input.baseM1, input.baseM2));
            var pivotDet := ResolvePivot(anchor, input.detM1, input.detM2, Midpoint(input.detM1, input.detM2));
            SqNorm(PlacedInspection(v, input, trig).Center().Minus(pivotDet))
            == SqNorm(v.Center().Minus(pivotBase))
  {
    var anchor := ResolveAnchorChoice(input, v.id);
    var pivotBase := ResolvePivot(anchor, input.baseM1, input.baseM2, Midpoint(input.baseM1, input.baseM2));
    var pivotDet := ResolvePivot(anchor, input.detM1, input.detM2, Midpoint(input.detM1, input.detM2));
    var w := Rotate(v.Center().Minus(pivotBase), ComputeMotion(input, trig).angDelta, trig);
    RotateKeepsLength(v.Center().Minus(pivotBase), ComputeMotion(input, trig).angDelta, trig);
    assert pivotDet.Plus(w).Minus(pivotDet) == w;
  }

  /** When the masters were found where they were taught, every inspection ROI stays where it was. */
  lemma StillMastersKeepInspections(v: RoiValue, input: PlacementInput, trig: Trig)
    requires input.detM1 == input.baseM1 && input.detM2 == input.baseM2
    requires trig.cos(0.0) == 1.0 && trig.sin(0.0) == 0.0
    ensures PlacedInspection(v, input, trig).Center() == v.Center()
    ensures PlacedInspection(v, input, trig).angleDeg == v.angleDeg
  {
    StillMastersGiveNoMotion(input, trig);
  }

  /** For each entry, whether it is set. */
  function NonNullFlags(s: seq<RoiModel?>): (f: seq<bool>)
    ensures |f| == |s| && forall i :: 0 <= i < |f| ==> (f[i] <==> s[i] != null)
  {
    seq(|s|, i requires 0 <= i < |s| => s[i] != null)
  }

  /** The non-null entries of a list (`Where(r => r != null)`): each of them once, in list order. */
  function NonNull(s: seq<RoiModel?>): (r: seq<RoiModel>)
    ensures var idx := TruePositions(NonNullFlags(s));
            |r| == |idx| && forall k :: 0 <= k < |r| ==> idx[k] < |s| && r[k] == s[idx[k]]
  {
    if s == [] then []
    else
      var rest := NonNull(s[1..]);
      NonNullStep(s, rest);
      (if s[0] != null then [s[0]] else []) + rest
  }

  /** The head, when set, followed by the non-null entries of the tail. */
  lemma NonNullStep(s: seq<RoiModel?>, rest: seq<RoiModel>)
    requires s != []
    requires var idx := TruePositions(NonNullFlags(s[1..]));
             |rest| == |idx| && forall k :: 0 <= k < |rest| ==> idx[k] < |s| - 1 && rest[k] == s[1..][idx[k]]
    ensures var idx := TruePositions(NonNullFlags(s));
            var r := (if s[0] != null then [s[0]] else []) + rest;
            |r| == |idx| && forall k :: 0 <= k < |r| ==> idx[k] < |s| && r[k] == s[idx[k]]
  {
    assert NonNullFlags(s)[1..] == NonNullFlags(s[1..]);
  }

  /** The ROIs kept are the non-null entries: no more of them than entries, each one of them, and all of them. */
  lemma NonNullMembers(s: seq<RoiModel?>)
    ensures |NonNull(s)| <= |s|
    ensures forall x :: x in NonNull(s) ==> x in s
    ensures forall i :: 0 <= i < |s| && s[i] != null ==> s[i] in NonNull(s)
  {
    var r, idx := NonNull(s), TruePositions(NonNullFlags(s));
    TruePositionsSpec(NonNullFlags(s));
    forall x | x in r ensures x in s {
      var k :| 0 <= k < |r| && r[k] == x;
      assert s[idx[k]] == x;
    }
    forall i | 0 <= i < |s| && s[i] != null ensures s[i] in r {
      var k :| 0 <= k < |idx| && idx[k] == i;
      assert r[k] == s[i];
    }
  }

  /** ApplyCenter: moves both centre pairs of `roi` to `center`, through the Left and Top setters. */
  method ApplyCenter(roi: RoiModel, center: Point)
    modifies roi
    ensures roi.Value() == CenteredAt(old(roi.Value()), center)
    ensures roi.isFrozen == old(roi.isFrozen)
  {
    roi.x := center.x;
    roi.y := center.y;
    roi.cx := center.x;
    roi.cy := center.y;
    roi.SetLeft(center.x - roi.width * 0.5);
    roi.SetTop(center.y - roi.height * 0.5);
  }

  /** One step of the masters loop: a clone of `baseline`, moved to its detected master when there is one. */
  method PlaceMaster(input: PlacementInput, baseline: RoiModel) returns (p: RoiModel)
    ensures fresh(p)
    ensures p.Value() == PlacedMaster(baseline.Value(), input)
  {
    p := baseline.Clone();
    var target := ResolveMasterCenter(baseline.role, input);
    if target.Some? {
      ApplyCenter(p, target.value);
    }
  }

  /** One step of the inspections loop: a clone of `baseline`, re-centred and turned. */
  method PlaceInspection(input: PlacementInput, trig: Trig, baseline: RoiModel) returns (p: RoiModel)
    ensures fresh(p)
    ensures p.Value() == PlacedInspection(baseline.Value(), input, trig)
  {
    p := baseline.Clone();
    ApplyCenter(p, PlacedCenter(baseline.Value(), input, trig));
    p.angleDeg := PlacedAngle(baseline.Value(), input, trig);
  }

  /** The masters loop of Place: a moved clone of every non-null baseline master, in order. */
  method PlaceMasters(input: PlacementInput, baselineMasters: seq<RoiModel?>) returns (placed: seq<RoiModel>)
    ensures |placed| == |NonNull(baselineMasters)|
    ensures forall j :: 0 <= j < |placed| ==> fresh(placed[j])
    ensures forall j :: 0 <= j < |placed| ==>
              placed[j].Value() == PlacedMaster(NonNull(baselineMasters)[j].Value(), input)
  {
    placed := PlaceEachMaster(input, NonNull(baselineMasters));
  }

  /** The loop itself, over the baselines already filtered. */
  method PlaceEachMaster(input: PlacementInput, baselines: seq<RoiModel>) returns (placed: seq<RoiModel>)
    ensures |placed| == |baselines|
    ensures forall j :: 0 <= j < |placed| ==> fresh(placed[j])
    ensures forall j :: 0 <= j < |placed| ==> placed[j].Value() == PlacedMaster(baselines[j].Value(), input)
  {
    placed := [];
    for i := 0 to |baselines|
      invariant |placed| == i
      invariant forall j :: 0 <= j < i ==> fresh(placed[j])
      invariant forall j :: 0 <= j < i ==> placed[j].Value() == PlacedMaster(baselines[j].Value(), input)
    {
      var p := PlaceMaster(input, baselines[i]);
      placed := placed + [p];
    }
  }

  /** The inspections loop of Place: a re-placed clone of every non-null baseline inspection, in order. */
  method PlaceInspections(input: PlacementInput, trig: Trig, baselineInspections: seq<RoiModel?>)
    returns (placed: seq<RoiModel>)
    ensures |placed| == |NonNull(baselineInspections)|
    ensures forall j :: 0 <= j < |placed| ==> fresh(placed[j])
    ensures forall j :: 0 <= j < |placed| ==>
              placed[j].Value() == PlacedInspection(NonNull(baselineInspections)[j].Value(), input, trig)
  {
    placed := PlaceEachInspection(input, trig, NonNull(baselineInspections));
  }

  /** The loop itself, over the baselines already filtered. */
  method PlaceEachInspection(input: PlacementInput, trig: Trig, baselines: seq<RoiModel>)
    returns (placed: seq<RoiModel>)
    ensures |placed| == |baselines|
    ensures forall j :: 0 <= j < |placed| ==> fresh(placed[j])
    ensures forall j :: 0 <= j < |placed| ==>
              placed[j].Value() == PlacedInspection(baselines[j].Value(), input, trig)
  {
    placed := [];
    for i := 0 to |baselines|
      invariant |placed| == i
      invariant forall j :: 0 <= j < i ==> fresh(placed[j])
      invariant forall j :: 0 <= j < i ==>
                  placed[j].Value() == PlacedInspection(baselines[j].Value(), input, trig)
    {
      var p := PlaceInspection(input, trig, baselines[i]);
      placed := placed + [p];
    }
  }

  /**
   * Place: new ROIs for the detected masters; the baselines are read only.
   * A null list is modelled as an empty one (both give an empty result).
   */
  method Place(input: PlacementInput, trig: Trig, baselineMasters: seq<RoiModel?>, baselineInspections: seq<RoiModel?>)
    returns (mastersPlaced: seq<RoiModel>, inspectionsPlaced: seq<RoiModel>, debug: Motion)
    ensures debug == ComputeMotion(input, trig)
    ensures |mastersPlaced| == |NonNull(baselineMasters)|
    ensures forall j :: 0 <= j < |mastersPlaced| ==>
              fresh(mastersPlaced[j])
              && mastersPlaced[j].Value() == PlacedMaster(NonNull(baselineMasters)[j].Value(), input)
    ensures |inspectionsPlaced| == |NonNull(baselineInspections)|
    ensures forall j :: 0 <= j < |inspectionsPlaced| ==>
              fresh(inspectionsPlaced[j])
              && inspectionsPlaced[j].Value() == PlacedInspection(NonNull(baselineInspections)[j].Value(), input, trig)
  {
    debug := ComputeMotion(input, trig);
    mastersPlaced := PlaceMasters(input, baselineMasters);
    inspectionsPlaced := PlaceInspections(input, trig, baselineInspections);
  }
}
