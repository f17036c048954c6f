/**
 * InspectionAlignmentHelper: moves an inspection ROI onto a new image by
 * the similarity transform (rotation, scale, translation) that carries the
 * chosen master's baseline centre onto its detected centre. The target takes
 * the baseline's shape, its centre, angle and its sizes scaled, with the
 * sizes kept at least one pixel and an annulus's inner radius below its
 * outer one.
 *
 * Math.Cos and Math.Sin are parameters, as in the placement engine.
 */
module Alignment {
  import opened Numeric
  import opened Roi
  import opened RoiConfig
  import opened Placement

  /** AnchorTransformContext; the four master angles only reach the log and are left out. */
  datatype AnchorContext = AnchorContext(
    m1BaselineCenter: Point, m2BaselineCenter: Point,
    m1DetectedCenter: Point, m2DetectedCenter: Point,
    scale: real, angleDeltaGlobal: real, scaleLock: bool, disableRot: bool)

  /** The rotation applied: none when rotation is disabled. */
  function EffectiveAngle(ctx: AnchorContext): real
  {
    if ctx.disableRot then 0.0 else ctx.angleDeltaGlobal
  }

  /** The scale applied: 1 when the scale is locked. */
  function EffectiveScale(ctx: AnchorContext): real
  {
    if ctx.scaleLock then 1.0 else ctx.scale
  }

  /** The pivot: master 1 for a Master1 anchor, master 2 for any other anchor (Mid included). */
  function PivotBaseline(anchor: MasterAnchorChoice, ctx: AnchorContext): Point
  {
    if anchor == Master1 then ctx.m1BaselineCenter else ctx.m2BaselineCenter
  }

  function PivotDetected(anchor: MasterAnchorChoice, ctx: AnchorContext): Point
  {
    if anchor == Master1 then ctx.m1DetectedCenter else ctx.m2DetectedCenter
  }

  function ScalePoint(p: Point, s: real): Point { Point(p.x * s, p.y * s) }

  /** The baseline centre's offset from the pivot, rotated and scaled, added to the detected pivot. */
  function NewCenter(b: RoiValue, anchor: MasterAnchorChoice, ctx: AnchorContext, trig: Trig): Point
  {
    var vBase := b.Center().Minus(PivotBaseline(anchor, ctx));
    PivotDetected(anchor, ctx).Plus(ScalePoint(Rotate(vBase, EffectiveAngle(ctx), trig), EffectiveScale(ctx)))
  }

  function NewAngleDeg(b: RoiValue, ctx: AnchorContext): real
  {
    b.angleDeg + EffectiveAngle(ctx) * 180.0 / Pi
  }

  /** The translation (tx, ty) of the similarity transform (ComputeTranslation). */
  function ComputeTranslation(pivotBaseline: Point, pivotDetected: Point, angleRad: real, scale: real, trig: Trig): Point
  {
    pivotDetected.Minus(ScalePoint(Rotate(pivotBaseline, angleRad, trig), scale))
  }

  /** The similarity transform p -> scale * Rotate(p) + t. */
  function Similarity(p: Point, angleRad: real, scale: real, t: Point, trig: Trig): Point
  {
    ScalePoint(Rotate(p, angleRad, trig), scale).Plus(t)
  }

  /** The transform with ComputeTranslation's offset carries the baseline pivot onto the detected one. */
  lemma TranslationMapsPivot(pivotBaseline: Point, pivotDetected: Point, angleRad: real, scale: real, trig: Trig)
    ensures Similarity(pivotBaseline, angleRad, scale,
                       ComputeTranslation(pivotBaseline, pivotDetected, angleRad, scale, trig), trig)
            == pivotDetected
  {
  }

  lemma RotateLinear(p: Point, q: Point, angleRad: real, trig: Trig)
    ensures Rotate(p.Minus(q), angleRad, trig) == Rotate(p, angleRad, trig).Minus(Rotate(q, angleRad, trig))
  {
    var c := trig.cos(angleRad);
    var s := trig.sin(angleRad);
    assert (p.x - q.x) * c - (p.y - q.y) * s == (p.x * c - p.y * s) - (q.x * c - q.y * s);
    assert (p.x - q.x) * s + (p.y - q.y) * c == (p.x * s + p.y * c) - (q.x * s + q.y * c);
  }

  /** The new centre is the image of the baseline centre under the same transform. */
  lemma NewCenterIsSimilarityImage(b: RoiValue, anchor: MasterAnchorChoice, ctx: AnchorContext, trig: Trig)
    ensures var pb := PivotBaseline(anchor, ctx);
            var pd := PivotDetected(anchor, ctx);
            var a := EffectiveAngle(ctx);
            var s := EffectiveScale(ctx);
            NewCenter(b, anchor, ctx, trig) == Similarity(b.Center(), a, s, ComputeTranslation(pb, pd, a, s, trig), trig)
  {
    OffsetIsSimilarityImage(b.Center(), PivotBaseline(anchor, ctx), PivotDetected(anchor, ctx),
                            EffectiveAngle(ctx), EffectiveScale(ctx), trig);
  }

  /** The offset from the pivot, rotated, scaled and added to the detected pivot, is the transform's image. */
  lemma OffsetIsSimilarityImage(c: Point, pb: Point, pd: Point, a: real, s: real, trig: Trig)
    ensures pd.Plus(ScalePoint(Rotate(c.Minus(pb), a, trig), s)) == Similarity(c, a, s, ComputeTranslation(pb, pd, a, s, trig), trig)
  {
    RotateLinear(c, pb, a, trig);
    var rc := Rotate(c, a, trig);
    var rp := Rotate(pb, a, trig);
    assert (rc.x - rp.x) * s == rc.x * s - rp.x * s;
    assert (rc.y - rp.y) * s == rc.y * s - rp.y * s;
  }

  /** The scaled sizes: width, height and radius at least 1, the inner radius in [0, radius). */
  datatype Sizes = Sizes(width: real, height: real, r: real, rInner: real)

  function ScaledSizes(b: RoiValue, s: real): (z: Sizes)
    ensures z.width >= 1.0 && z.height >= 1.0 && z.r >= 1.0
    ensures 0.0 <= z.rInner < z.r
    ensures b.width * s >= 1.0 ==> z.width == b.width * s
    ensures b.height * s >= 1.0 ==> z.height == b.height * s
    ensures b.r * s >= 1.0 ==> z.r == b.r * s
    ensures 0.0 <= b.rInner * s < z.r ==> z.rInner == b.rInner * s
  {
    var w := MaxReal(1.0, b.width * s);
    var h := MaxReal(1.0, b.height * s);
    var r := MaxReal(1.0, b.r * s);
    var rin := MaxReal(0.0, b.rInner * s);
    var rin := if rin >= r then MaxReal(0.0, r - 1.0) else rin;
    Sizes(w, h, r, rin)
  }

  /**
   * The target after MoveInspectionTo: the fields the baseline's shape
   * writes come from the baseline; the rest stay the target's own.
   */
  function MovedValue(t: RoiValue, b: RoiValue, anchor: MasterAnchorChoice, ctx: AnchorContext, trig: Trig): RoiValue
  {
    var c := NewCenter(b, anchor, ctx, trig);
    var z := ScaledSizes(b, EffectiveScale(ctx));
    var a := NewAngleDeg(b, ctx);
    match b.shape
    case Rectangle => AsRectangle(t, c, z, a)
    case Circle => AsCircle(t, c, z, a)
    case Annulus => AsCircle(t, c, z, a).(shape := Annulus, rInner := z.rInner)
  }

  /** The Rectangle branch: shape, sizes, both centre pairs and angle. */
  function AsRectangle(t: RoiValue, c: Point, z: Sizes, a: real): RoiValue
  {
    t.(shape := Rectangle, width := z.width, height := z.height, x := c.x, y := c.y,
       cx := c.x, cy := c.y, angleDeg := a)
  }

  /** The Circle branch: as a rectangle plus the radius. */
  function AsCircle(t: RoiValue, c: Point, z: Sizes, a: real): RoiValue
  {
    AsRectangle(t, c, z, a).(shape := Circle, r := z.r)
  }

  /** The moved target has the baseline's shape, the new centre and the new angle; its identity stays. */
  lemma MovedFollowsBaseline(t: RoiValue, b: RoiValue, anchor: MasterAnchorChoice, ctx: AnchorContext, trig: Trig)
    ensures var m := MovedValue(t, b, anchor, ctx, trig);
            m.shape == b.shape && m.Center() == NewCenter(b, anchor, ctx, trig)
            && m.angleDeg == b.angleDeg + EffectiveAngle(ctx) * 180.0 / Pi
            && m.id == t.id && m.labelText == t.labelText && m.role == t.role
            && m.baseImgW == t.baseImgW && m.baseImgH == t.baseImgH
  {
  }

  /** The sizes of the moved target are usable: at least one pixel, the inner radius below the outer. */
  lemma MovedSizesValid(t: RoiValue, b: RoiValue, anchor: MasterAnchorChoice, ctx: AnchorContext, trig: Trig)
    ensures var m := MovedValue(t, b, anchor, ctx, trig);
            m.width >= 1.0 && m.height >= 1.0
            && (b.shape != Rectangle ==> m.r >= 1.0)
            && (b.shape == Annulus ==> 0.0 <= m.rInner < m.r)
  {
  }

  /** Moving again from the same baseline with the same context changes nothing: there is no drift. */
  lemma MoveIdempotent(t: RoiValue, b: RoiValue, anchor: MasterAnchorChoice, ctx: AnchorContext, trig: Trig)
    ensures MovedValue(MovedValue(t, b, anchor, ctx, trig), b, anchor, ctx, trig) == MovedValue(t, b, anchor, ctx, trig)
  {
  }

  /** When the pivot was found where it was taught and neither rotation nor scaling applies, the ROI stays put. */
  lemma StillPivotKeepsCenter(b: RoiValue, anchor: MasterAnchorChoice, ctx: AnchorContext, trig: Trig)
    requires PivotDetected(anchor, ctx) == PivotBaseline(anchor, ctx)
    requires ctx.disableRot && ctx.scaleLock
    requires trig.cos(0.0) == 1.0 && trig.sin(0.0) == 0.0
    ensures NewCenter(b, anchor, ctx, trig) == b.Center()
    ensures NewAngleDeg(b, ctx) == b.angleDeg
  {
  }

  /**
   * MoveInspectionTo: nothing happens when either ROI is null; otherwise
   * the target is rewritten from the baseline, field by field in the order
   * of its shape's branch. The two may be the same object.
   */
  method MoveInspectionTo(target: RoiModel?, baseline: RoiModel?, anchor: MasterAnchorChoice, ctx: AnchorContext, trig: Trig)
    modifies target
    ensures target != null && baseline == null ==> target.Value() == old(target.Value())
    ensures target != null && baseline != null ==>
              target.Value() == MovedValue(old(target.Value()), old(baseline.Value()), anchor, ctx, trig)
    ensures target != null ==> target.isFrozen == old(target.isFrozen)
  {
    if target == null || baseline == null {
      return;
    }
    var b := baseline.Value();
    var c := NewCenter(b, anchor, ctx, trig);
    var a := NewAngleDeg(b, ctx);
    var z := ScaledSizes(b, EffectiveScale(ctx));
    match b.shape {
      case Rectangle => WriteRectangle(target, c, z, a);
      case Circle => WriteCircle(target, c, z, a);
      case Annulus => WriteAnnulus(target, c, z, a);
    }
  }

  method WriteRectangle(target: RoiModel, c: Point, z: Sizes, a: real)
    modifies target
    ensures target.Value() == AsRectangle(old(target.Value()), c, z, a)
    ensures target.isFrozen == old(target.isFrozen)
  {
    target.shape := Rectangle;
    target.width := z.width;
    target.height := z.height;
    target.x := c.x;
    target.y := c.y;
    target.SetLeft(c.x - target.width * 0.5);
    target.SetTop(c.y - target.height * 0.5);
    target.cx := c.x;
    target.cy := c.y;
    target.angleDeg := a;
  }

  method WriteCircle(target: RoiModel, c: Point, z: Sizes, a: real)
    modifies target
    ensures target.Value() == AsCircle(old(target.Value()), c, z, a)
    ensures target.isFrozen == old(target.isFrozen)
  {
    target.shape := Circle;
    target.cx := c.x;
    target.cy := c.y;
    target.width := z.width;
    target.height := z.height;
    target.SetLeft(c.x - target.width * 0.5);
    target.SetTop(c.y - target.height * 0.5);
    target.r := z.r;
    target.angleDeg := a;
  }

  method WriteAnnulus(target: RoiModel, c: Point, z: Sizes, a: real)
    modifies target
    ensures target.Value() == AsCircle(old(target.Value()), c, z, a).(shape := Annulus, rInner := z.rInner)
    ensures target.isFrozen == old(target.isFrozen)
  {
    target.shape := Annulus;
    target.cx := c.x;
    target.cy := c.y;
    target.width := z.width;
    target.height := z.height;
    target.SetLeft(c.x - target.width * 0.5);
    target.SetTop(c.y - target.height * 0.5);
    target.r := z.r;
    target.rInner := z.rInner;
    target.angleDeg := a;
  }
}
