/**
 * RoiModel: one region of interest of the GUI, a rectangle given by its
 * centre and size, or a circle or annulus given by its centre and radii.
 * X/Y are the rectangle's centre; Left/Top are derived from them.
 */
module Roi {
  import opened Wrappers

  datatype RoiShape = Rectangle | Circle | Annulus

  datatype RoiRole = Master1Pattern | Master1Search | Master2Pattern | Master2Search | Inspection

  /** A point in image coordinates (ImgPoint, Point2d). */
  datatype Point = Point(x: real, y: real)
  {
    function Plus(o: Point): Point { Point(x + o.x, y + o.y) }
    function Minus(o: Point): Point { Point(x - o.x, y - o.y) }
  }

  /** Every serialised field of a RoiModel, as a value. */
  datatype RoiValue = RoiValue(
    id: string,
    labelText: Option<string>,
    shape: RoiShape,
    role: RoiRole,
    angleDeg: real,
    x: real, y: real, width: real, height: real,
    cx: real, cy: real, r: real, rInner: real,
    baseImgW: Option<real>, baseImgH: Option<real>)
  {
    /** GetCenter: (X, Y) for a rectangle, (CX, CY) for a circle or an annulus. */
    function Center(): (c: Point)
      ensures shape == Rectangle ==> c == Point(x, y)
      ensures shape != Rectangle ==> c == Point(cx, cy)
    {
      match shape
      case Rectangle => Point(x, y)
      case Circle => Point(cx, cy)
      case Annulus => Point(cx, cy)
    }
  }

  class RoiModel {
    var id: string
    var labelText: Option<string>
    var shape: RoiShape
    var role: RoiRole
    var angleDeg: real
    var x: real
    var y: real
    var width: real
    var height: real
    var cx: real
    var cy: real
    var r: real
    var rInner: real
    var baseImgW: Option<real>
    var baseImgH: Option<real>
    /** In-memory only; never serialised nor cloned. */
    var isFrozen: bool

    function Value(): RoiValue
      reads this
    {
      RoiValue(id, labelText, shape, role, angleDeg, x, y, width, height, cx, cy, r, rInner, baseImgW, baseImgH)
    }

    /** new RoiModel(): the defaults, with the fresh Guid text passed in. */
    constructor(guid: string)
      ensures Value() == RoiValue(guid, None, Rectangle, Inspection, 0.0,
                                  0.0, 0.0, 0.0, 0.0, 0.0, 0.0, 0.0, 0.0, None, None)
      ensures isFrozen
    {
      id, labelText, shape, role, angleDeg := guid, None, Rectangle, Inspection, 0.0;
      x, y, width, height := 0.0, 0.0, 0.0, 0.0;
      cx, cy, r, rInner := 0.0, 0.0, 0.0, 0.0;
      baseImgW, baseImgH := None, None;
      isFrozen := true;
    }

    /** new RoiModel { ... } with every serialised field given. */
    constructor FromValue(v: RoiValue)
      ensures Value() == v
      ensures isFrozen
    {
      id, labelText, shape, role, angleDeg := v.id, v.labelText, v.shape, v.role, v.angleDeg;
      x, y, width, height := v.x, v.y, v.width, v.height;
      cx, cy, r, rInner := v.cx, v.cy, v.r, v.rInner;
      baseImgW, baseImgH := v.baseImgW, v.baseImgH;
      isFrozen := true;
    }

    /** The left edge of the rectangle. */
    function Left(): real
      reads this
    {
      x - width / 2.0
    }

    /** The top edge of the rectangle. */
    function Top(): real
      reads this
    {
      y - height / 2.0
    }

    /** The Left setter: moves the centre so that the left edge is at `v`. */
    method SetLeft(v: real)
      modifies this
      ensures Left() == v
      ensures Value() == old(Value()).(x := v + width / 2.0)
      ensures isFrozen == old(isFrozen)
    {
      x := v + width / 2.0;
    }

    /** The Top setter: moves the centre so that the top edge is at `v`. */
    method SetTop(v: real)
      modifies this
      ensures Top() == v
      ensures Value() == old(Value()).(y := v + height / 2.0)
      ensures isFrozen == old(isFrozen)
    {
      y := v + height / 2.0;
    }

    function GetCenter(): (c: Point)
      reads this
      ensures c == Value().Center()
    {
      if shape == Rectangle then Point(x, y) else Point(cx, cy)
    }

    /** The angle_deg property only feeds AngleDeg when present; it always reads back as null. */
    method SetAngleDegSerialized(v: Option<real>)
      modifies this
      ensures v.Some? ==> Value() == old(Value()).(angleDeg := v.value)
      ensures v.None? ==> Value() == old(Value())
      ensures isFrozen == old(isFrozen)
    {
      if v.Some? {
        angleDeg := v.value;
      }
    }

    /** A new model with every serialised field copied; IsFrozen takes its default. */
    method Clone() returns (c: RoiModel)
      ensures fresh(c)
      ensures c.Value() == Value()
      ensures c.isFrozen
    {
      c := new RoiModel.FromValue(Value());
    }
  }
}
