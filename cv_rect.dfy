/**
 * RoiModelCvExtensions: the pixel rectangle an ROI covers in an image of a
 * given size, clamped so that OpenCV can cut it out.
 */
module CvRects {
  import opened Wrappers
  import opened Numeric
  import opened Roi

  /** An OpenCV Rect: top-left corner and size in pixels. */
  datatype Rect = Rect(x: int, y: int, width: int, height: int)
  {
    function Right(): int { x + width }
    function Bottom(): int { y + height }
  }

  /** The size of an OpenCV Mat; it is Empty when it has no pixel. */
  datatype ImageSize = ImageSize(width: nat, height: nat)
  {
    predicate Empty() { width == 0 || height == 0 }
  }

  /** The ROI's extent in image coordinates, before rounding. */
  datatype Box = Box(left: real, top: real, right: real, bottom: real)

  /** A rectangle by its edges; a circle or an annulus by the square around its outer radius. */
  function BoxOf(roi: RoiValue): (b: Box)
    ensures roi.shape == Rectangle ==> b.right - b.left == roi.width && b.bottom - b.top == roi.height
    ensures roi.shape == Rectangle ==> (b.left + b.right) / 2.0 == roi.x && (b.top + b.bottom) / 2.0 == roi.y
    ensures roi.shape != Rectangle ==> b == Box(roi.cx - roi.r, roi.cy - roi.r, roi.cx + roi.r, roi.cy + roi.r)
  {
    if roi.shape == Rectangle then
      var left := roi.x - roi.width / 2.0;
      var top := roi.y - roi.height / 2.0;
      Box(left, top, left + roi.width, top + roi.height)
    else Box(roi.cx - roi.r, roi.cy - roi.r, roi.cx + roi.r, roi.cy + roi.r)
  }

  /**
   * The clamp shared by ToCvRect, RectFromRoi and the safe rectangle of
   * MatchInSearchROI: the corner into [0, max(W-1,0)] x [0, max(H-1,0)],
   * the size into [1, max(W-x,1)] x [1, max(H-y,1)].
   */
  function ClampToImage(x: int, y: int, w: int, h: int, imageWidth: int, imageHeight: int): (r: Rect)
    ensures 0 <= r.x <= MaxInt(imageWidth - 1, 0) && 0 <= r.y <= MaxInt(imageHeight - 1, 0)
    ensures 1 <= r.width <= MaxInt(imageWidth - r.x, 1) && 1 <= r.height <= MaxInt(imageHeight - r.y, 1)
    ensures imageWidth >= 1 ==> r.Right() <= imageWidth
    ensures imageHeight >= 1 ==> r.Bottom() <= imageHeight
    ensures 0 <= x < imageWidth && 1 <= w <= imageWidth - x ==> r.x == x && r.width == w
    ensures 0 <= y < imageHeight && 1 <= h <= imageHeight - y ==> r.y == y && r.height == h
  {
    var cx := ClampInt(x, 0, MaxInt(imageWidth - 1, 0));
    var cy := ClampInt(y, 0, MaxInt(imageHeight - 1, 0));
    Rect(cx, cy, ClampInt(w, 1, MaxInt(imageWidth - cx, 1)), ClampInt(h, 1, MaxInt(imageHeight - cy, 1)))
  }

  /** Clamping a clamped rectangle again changes nothing. */
  lemma ClampIdempotent(x: int, y: int, w: int, h: int, imageWidth: int, imageHeight: int)
    ensures var r := ClampToImage(x, y, w, h, imageWidth, imageHeight);
            ClampToImage(r.x, r.y, r.width, r.height, imageWidth, imageHeight) == r
  {
  }

  /**
   * ToCvRect: null gives the empty Rect; otherwise the corner is the floor
   * of the box's corner, the size reaches the ceiling of its far edge, and
   * the result is clamped to the image.
   */
  function ToCvRect(roi: Option<RoiValue>, imageWidth: int, imageHeight: int): (r: Rect)
    ensures roi.None? ==> r == Rect(0, 0, 0, 0)
    ensures roi.Some? ==> 0 <= r.x <= MaxInt(imageWidth - 1, 0) && 0 <= r.y <= MaxInt(imageHeight - 1, 0)
    ensures roi.Some? ==> 1 <= r.width <= MaxInt(imageWidth - r.x, 1) && 1 <= r.height <= MaxInt(imageHeight - r.y, 1)
  {
    if roi.None? then Rect(0, 0, 0, 0)
    else
      var b := BoxOf(roi.value);
      var x := Floor(b.left);
      var y := Floor(b.top);
      ClampToImage(x, y, Ceil(b.right - x as real), Ceil(b.bottom - y as real), imageWidth, imageHeight)
  }

  /**
   * An ROI of positive size lying inside the image is covered by its Rect,
   * which is then the smallest pixel rectangle around it.
   */
  lemma ToCvRectCoversRoi(roi: RoiValue, imageWidth: int, imageHeight: int)
    requires var b := BoxOf(roi);
             0.0 <= b.left < b.right <= imageWidth as real && 0.0 <= b.top < b.bottom <= imageHeight as real
    ensures var b := BoxOf(roi);
            var r := ToCvRect(Some(roi), imageWidth, imageHeight);
            r.x as real <= b.left < r.x as real + 1.0 && r.y as real <= b.top < r.y as real + 1.0
            && b.right <= r.Right() as real < b.right + 1.0 && b.bottom <= r.Bottom() as real < b.bottom + 1.0
  {
    var b := BoxOf(roi);
    var x := Floor(b.left);
    var y := Floor(b.top);
    var w := Ceil(b.right - x as real);
    var h := Ceil(b.bottom - y as real);
    assert x < imageWidth && 1 <= w <= imageWidth - x by {
      CeilAtMost(b.right - x as real, imageWidth - x);
    }
    assert y < imageHeight && 1 <= h <= imageHeight - y by {
      CeilAtMost(b.bottom - y as real, imageHeight - y);
    }
  }

  /** The ceiling of a value at most n is at most n. */
  lemma CeilAtMost(v: real, n: int)
    requires v <= n as real
    ensures Ceil(v) <= n
  {
  }

  /**
   * ExtractSubMat's guard: a null ROI, a null image or an empty image gives
   * an empty Mat (None); otherwise the sub-image at ToCvRect, which always
   * has a positive size.
   */
  function ExtractSubRect(roi: Option<RoiValue>, image: Option<ImageSize>): (r: Option<Rect>)
    ensures r.Some? <==> roi.Some? && image.Some? && !image.value.Empty()
    ensures r.Some? ==> r.value.width >= 1 && r.value.height >= 1
                        && r.value.Right() <= image.value.width && r.value.Bottom() <= image.value.height
  {
    if roi.None? || image.None? || image.value.Empty() then None
    else
      var rect := ToCvRect(roi, image.value.width, image.value.height);
      ClampCorner(rect, roi.value, image.value.width, image.value.height);
      if rect.width > 0 && rect.height > 0 then Some(rect) else None
  }

  /** For a non-empty image ToCvRect lies inside it. */
  lemma ClampCorner(rect: Rect, roi: RoiValue, imageWidth: int, imageHeight: int)
    requires imageWidth >= 1 && imageHeight >= 1 && rect == ToCvRect(Some(roi), imageWidth, imageHeight)
    ensures rect.Right() <= imageWidth && rect.Bottom() <= imageHeight
  {
  }
}
