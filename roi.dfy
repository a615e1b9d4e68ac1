// Region of interest around a hand: a square integer rectangle centred on the
// hand's projected pixel position, accepted only when it lies inside the image.
module Roi {
  import opened KinectTypes

  /** An integer rectangle: top-left corner, width and height. */
  datatype Rect = Rect(x: int, y: int, width: int, height: int)

  /** Conversion of a real to an integer, truncating toward zero as a C++ float-to-int cast does. */
  function TruncateTowardZero(v: real): (n: int)
    ensures v >= 0.0 ==> 0 <= n && n as real <= v < n as real + 1.0
    ensures v <= 0.0 ==> n <= 0 && n as real - 1.0 < v <= n as real
  {
    if v >= 0.0 then v.Floor else -((-v).Floor)
  }

  /** Side of the crop square: 1.15 spine lengths, in pixels. */
  const CropScale: real := 1.15

  /**
   * The rectangle cropped around a hand at pixel `center`, for spine length
   * `spinePx` in pixels: a square whose side is 1.15 spine lengths and whose
   * top-left corner is half a side up and left of the hand, each truncated
   * toward zero to whole pixels.
   */
  function RoiFor(center: PixelPoint, spinePx: real): (r: Rect)
    ensures r.width == r.height
    ensures spinePx >= 0.0 ==> 0 <= r.width && r.width as real <= spinePx * CropScale < r.width as real + 1.0
    ensures var left := center.X - spinePx * CropScale / 2.0;
      left - 1.0 < r.x as real < left + 1.0 && (left >= 0.0 ==> r.x as real <= left) &&
      (left <= 0.0 ==> left <= r.x as real)
    ensures var top := center.Y - spinePx * CropScale / 2.0;
      top - 1.0 < r.y as real < top + 1.0 && (top >= 0.0 ==> r.y as real <= top) &&
      (top <= 0.0 ==> top <= r.y as real)
  {
    var side := spinePx * CropScale;
    var half := side / 2.0;
    Rect(TruncateTowardZero(center.X - half), TruncateTowardZero(center.Y - half),
         TruncateTowardZero(side), TruncateTowardZero(side))
  }

  /** A pixel position covered by the rectangle. */
  predicate Covers(r: Rect, col: int, row: int)
  {
    r.x <= col < r.x + r.width && r.y <= row < r.y + r.height
  }

  /** The bounds gate: the rectangle is non-negative in size and lies within the image. */
  predicate Inside(r: Rect, img: Mat): (b: bool)
    ensures b ==> forall col, row :: Covers(r, col, row) ==> 0 <= col < img.cols && 0 <= row < img.rows
  {
    0 <= r.x && 0 <= r.width && r.x + r.width <= img.cols &&
    0 <= r.y && 0 <= r.height && r.y + r.height <= img.rows
  }

  /** For a non-empty rectangle the gate is exactly "every covered pixel is in the image". */
  lemma NonEmptyInsideIffCoveredInImage(r: Rect, img: Mat)
    requires r.width > 0 && r.height > 0
    ensures Inside(r, img) <==>
      forall col, row :: Covers(r, col, row) ==> 0 <= col < img.cols && 0 <= row < img.rows
  {
    if forall col, row :: Covers(r, col, row) ==> 0 <= col < img.cols && 0 <= row < img.rows {
      assert Covers(r, r.x, r.y);
      assert Covers(r, r.x + r.width - 1, r.y + r.height - 1);
    }
  }

  /** The crop a hand keeps after one extraction step: the new crop when inside, else the previous one. */
  function HandCrop(previous: Mat, src: Mat, roi: Rect, cropResize: (Mat, Rect) -> Mat): (c: Mat)
    ensures Inside(roi, src) ==> c == cropResize(src, roi)
    ensures c != previous ==> Inside(roi, src)
  {
    if Inside(roi, src) then cropResize(src, roi) else previous
  }

  /** Extracting twice from the same image and hand position yields the same crop as once. */
  lemma HandCropIdempotent(previous: Mat, src: Mat, roi: Rect, cropResize: (Mat, Rect) -> Mat)
    ensures HandCrop(HandCrop(previous, src, roi, cropResize), src, roi, cropResize)
         == HandCrop(previous, src, roi, cropResize)
  {
  }

  /**
   * For a non-negative corner, the crop square's centre lies at most one and a
   * half pixels up and left of the hand: truncation only moves the corner and
   * shrinks the side.
   */
  lemma RoiCentredOnHand(center: PixelPoint, spinePx: real)
    requires spinePx >= 0.0
    requires center.X - spinePx * CropScale / 2.0 >= 0.0 && center.Y - spinePx * CropScale / 2.0 >= 0.0
    ensures var r := RoiFor(center, spinePx);
      center.X - 1.5 < r.x as real + r.width as real / 2.0 <= center.X &&
      center.Y - 1.5 < r.y as real + r.height as real / 2.0 <= center.Y
  {
  }

  /**
   * A spine shorter than 1/1.15 pixels gives an empty square, and the gate
   * still accepts it: a hand at pixel (10, 10) with spine 0.5 in a 100 by 100
   * image.
   */
  lemma EmptySquarePassesGate()
    ensures var r := RoiFor(PixelPoint(10.0, 10.0), 0.5);
      r.width == 0 && r.height == 0 && Inside(r, Mat(100, 100, []))
  {
  }
}
