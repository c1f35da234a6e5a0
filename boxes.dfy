/** Detection-box geometry of utils/od_functions.py: corner and centre forms of a box and
    the conversions between them, clipping and letterbox rescaling in place, the IoU formula,
    the YOLO-to-pixel conversion, and the post-processing of xyxy_predicted_box. Where the
    file defines a name twice, the later definition is the one Python keeps and the one
    modelled here. Tensors of boxes are sequences or arrays of box values. */
module Boxes {
  import opened Common

  /** A box as (x1, y1, x2, y2): top-left and bottom-right corners. */
  datatype Corners = Corners(x1: real, y1: real, x2: real, y2: real)

  /** A box as (x, y, w, h): centre, width and height. */
  datatype Centred = Centred(x: real, y: real, w: real, h: real)

  // ---------------------------------------------------------------------------
  // xyxy <-> xywh

  /** xyxy2xywh on one box. */
  function XyxyToXywh(b: Corners): (r: Centred)
    ensures r.w == b.x2 - b.x1 && r.h == b.y2 - b.y1
    ensures r.x - b.x1 == b.x2 - r.x && r.y - b.y1 == b.y2 - r.y
  {
    Centred((b.x1 + b.x2) / 2.0, (b.y1 + b.y2) / 2.0, b.x2 - b.x1, b.y2 - b.y1)
  }

  /** xywh2xyxy on one box. */
  function XywhToXyxy(c: Centred): (r: Corners)
    ensures r.x2 - r.x1 == c.w && r.y2 - r.y1 == c.h
    ensures (r.x1 + r.x2) / 2.0 == c.x && (r.y1 + r.y2) / 2.0 == c.y
  {
    Corners(c.x - c.w / 2.0, c.y - c.h / 2.0, c.x + c.w / 2.0, c.y + c.h / 2.0)
  }

  lemma CornersRoundTrip(b: Corners)
    ensures XywhToXyxy(XyxyToXywh(b)) == b
  {
  }

  lemma CentredRoundTrip(c: Centred)
    ensures XyxyToXywh(XywhToXyxy(c)) == c
  {
  }

  /** xyxy2xywhn on one box: the centre form with x and width divided by w, y and height by h. */
  function XyxyToXywhn(b: Corners, w: real, h: real): (r: Centred)
    requires w != 0.0 && h != 0.0
    ensures r.x * w == XyxyToXywh(b).x && r.w * w == XyxyToXywh(b).w
    ensures r.y * h == XyxyToXywh(b).y && r.h * h == XyxyToXywh(b).h
  {
    var c := XyxyToXywh(b);
    Centred(c.x / w, c.y / h, c.w / w, c.h / h)
  }

  // ---------------------------------------------------------------------------
  // Clipping

  /** Whether a box lies within a height x width image. */
  predicate Inside(b: Corners, h: real, w: real)
  {
    0.0 <= b.x1 <= w && 0.0 <= b.x2 <= w && 0.0 <= b.y1 <= h && 0.0 <= b.y2 <= h
  }

  /** clip_boxes on one box: x1, x2 clamped into [0, w], y1, y2 into [0, h]. */
  function ClipBox(b: Corners, h: real, w: real): (r: Corners)
    ensures 0.0 <= h && 0.0 <= w ==> Inside(r, h, w)
    ensures Inside(b, h, w) ==> r == b
  {
    Corners(Clamp(b.x1, 0.0, w), Clamp(b.y1, 0.0, h), Clamp(b.x2, 0.0, w), Clamp(b.y2, 0.0, h))
  }

  /** Clipping twice is clipping once. */
  lemma ClipBoxIdempotent(b: Corners, h: real, w: real)
    requires 0.0 <= h && 0.0 <= w
    ensures ClipBox(ClipBox(b, h, w), h, w) == ClipBox(b, h, w)
  {
  }

  /** clip_boxes(boxes, shape): every box clipped in place. */
  method ClipBoxes(boxes: array<Corners>, h: real, w: real)
    modifies boxes
    ensures forall k :: 0 <= k < boxes.Length ==> boxes[k] == ClipBox(old(boxes[k]), h, w)
  {
    for k := 0 to boxes.Length
      invariant forall m :: 0 <= m < k ==> boxes[m] == ClipBox(old(boxes[m]), h, w)
      invariant forall m :: k <= m < boxes.Length ==> boxes[m] == old(boxes[m])
    {
      boxes[k] := ClipBox(boxes[k], h, w);
    }
  }

  /** xyxy2xywhn(x, w, h, clip, eps): with `clip` the input boxes are first clipped in place
      to (h - eps, w - eps); the result holds the normalised centre form of each. */
  method XyxyToXywhnBoxes(boxes: array<Corners>, w: real, h: real, clip: bool, eps: real) returns (r: seq<Centred>)
    requires w != 0.0 && h != 0.0
    modifies boxes
    ensures clip ==> forall k :: 0 <= k < boxes.Length ==> boxes[k] == ClipBox(old(boxes[k]), h - eps, w - eps)
    ensures !clip ==> forall k :: 0 <= k < boxes.Length ==> boxes[k] == old(boxes[k])
    ensures |r| == boxes.Length && forall k :: 0 <= k < |r| ==> r[k] == XyxyToXywhn(boxes[k], w, h)
  {
    if clip {
      ClipBoxes(boxes, h - eps, w - eps);
    }
    r := seq(boxes.Length, k reads boxes requires 0 <= k < boxes.Length => XyxyToXywhn(boxes[k], w, h));
  }

  // ---------------------------------------------------------------------------
  // Letterbox rescaling (scale_boxes)

  /** `min(h1 / h0, w1 / w0)`: the factor the image was shrunk by to fit the network input. */
  function LetterboxGain(h1: real, w1: real, h0: real, w0: real): real
    requires h0 > 0.0 && w0 > 0.0
  {
    RMin(h1 / h0, w1 / w0)
  }

  /** The padding scale_boxes removes: `((w1 - w0 * gain) / 2, (h1 - h0 * gain) / 2)`. */
  function LetterboxPad(h1: real, w1: real, h0: real, w0: real): (real, real)
    requires h0 > 0.0 && w0 > 0.0
  {
    var gain := LetterboxGain(h1, w1, h0, w0);
    ((w1 - w0 * gain) / 2.0, (h1 - h0 * gain) / 2.0)
  }

  /** The letterbox mapping itself: original-image coordinates scaled by gain and shifted by pad. */
  function Letterbox(b: Corners, gain: real, pad: (real, real)): Corners
  {
    Corners(b.x1 * gain + pad.0, b.y1 * gain + pad.1, b.x2 * gain + pad.0, b.y2 * gain + pad.1)
  }

  /** `boxes[:, [0, 2]] -= pad[0]; boxes[:, [1, 3]] -= pad[1]; boxes[:, :4] /= gain` on one box. */
  function Unletterbox(b: Corners, gain: real, pad: (real, real)): Corners
    requires gain != 0.0
  {
    Corners((b.x1 - pad.0) / gain, (b.y1 - pad.1) / gain, (b.x2 - pad.0) / gain, (b.y2 - pad.1) / gain)
  }

  /** Removing the padding and the gain undoes the letterbox mapping. */
  lemma UnletterboxInverts(b: Corners, gain: real, pad: (real, real))
    requires gain != 0.0
    ensures Unletterbox(Letterbox(b, gain, pad), gain, pad) == b
  {
    assert (b.x1 * gain + pad.0 - pad.0) / gain == b.x1;
    assert (b.y1 * gain + pad.1 - pad.1) / gain == b.y1;
    assert (b.x2 * gain + pad.0 - pad.0) / gain == b.x2;
    assert (b.y2 * gain + pad.1 - pad.1) / gain == b.y2;
  }

  /** The gain scale_boxes uses: computed from the two shapes, or `ratio_pad[0][0]`. */
  function ScaleGain(h1: real, w1: real, h0: real, w0: real, ratioPad: Option<(real, (real, real))>): real
    requires h0 > 0.0 && w0 > 0.0
  {
    if ratioPad.None? then LetterboxGain(h1, w1, h0, w0) else ratioPad.value.0
  }

  /** The padding scale_boxes uses: computed from the two shapes, or `ratio_pad[1]`. */
  function ScalePad(h1: real, w1: real, h0: real, w0: real, ratioPad: Option<(real, (real, real))>): (real, real)
    requires h0 > 0.0 && w0 > 0.0
  {
    if ratioPad.None? then LetterboxPad(h1, w1, h0, w0) else ratioPad.value.1
  }

  /** scale_boxes(img1_shape, boxes, img0_shape, ratio_pad): each box mapped from the network
      input back to the original image and clipped to it, in place. */
  method ScaleBoxes(h1: real, w1: real, boxes: array<Corners>, h0: real, w0: real, ratioPad: Option<(real, (real, real))>)
    requires h0 > 0.0 && w0 > 0.0
    requires ScaleGain(h1, w1, h0, w0, ratioPad) != 0.0
    modifies boxes
    ensures forall k :: 0 <= k < boxes.Length ==>
      boxes[k] == ClipBox(Unletterbox(old(boxes[k]), ScaleGain(h1, w1, h0, w0, ratioPad), ScalePad(h1, w1, h0, w0, ratioPad)), h0, w0)
    ensures forall k :: 0 <= k < boxes.Length ==> Inside(boxes[k], h0, w0)
  {
    var gain := ScaleGain(h1, w1, h0, w0, ratioPad);
    var pad := ScalePad(h1, w1, h0, w0, ratioPad);
    for k := 0 to boxes.Length
      invariant forall m :: 0 <= m < k ==> boxes[m] == Unletterbox(old(boxes[m]), gain, pad)
      invariant forall m :: k <= m < boxes.Length ==> boxes[m] == old(boxes[m])
    {
      boxes[k] := Unletterbox(boxes[k], gain, pad);
    }
    ClipBoxes(boxes, h0, w0);
  }

  /** A box of the original image, letterboxed for the network with positive network input
      shape, comes back from scale_boxes unchanged. */
  lemma ScaleBoxesRecoversBox(b: Corners, h1: real, w1: real, h0: real, w0: real)
    requires h0 > 0.0 && w0 > 0.0 && h1 > 0.0 && w1 > 0.0
    requires Inside(b, h0, w0)
    ensures LetterboxGain(h1, w1, h0, w0) != 0.0
    ensures var (gain, pad) := (LetterboxGain(h1, w1, h0, w0), LetterboxPad(h1, w1, h0, w0));
      ClipBox(Unletterbox(Letterbox(b, gain, pad), gain, pad), h0, w0) == b
  {
    var gain := LetterboxGain(h1, w1, h0, w0);
    assert h1 / h0 > 0.0 && w1 / w0 > 0.0;
    UnletterboxInverts(b, gain, LetterboxPad(h1, w1, h0, w0));
  }

  // ---------------------------------------------------------------------------
  // IoU (box_iou)

  /** `(min(a2, b2) - max(a1, b1)).clamp(0).prod()`: the intersection area. */
  function Intersection(a: Corners, b: Corners): (r: real)
    ensures r >= 0.0
  {
    var iw := RMax(RMin(a.x2, b.x2) - RMax(a.x1, b.x1), 0.0);
    var ih := RMax(RMin(a.y2, b.y2) - RMax(a.y1, b.y1), 0.0);
    assert iw * ih >= 0.0;
    iw * ih
  }

  /** `(a2 - a1).prod()`. */
  function Area(a: Corners): real
  {
    (a.x2 - a.x1) * (a.y2 - a.y1)
  }

  /** box_iou for one pair: `inter / (area1 + area2 - inter + eps)`; a zero denominator gives
      NaN or infinity, here None. */
  function BoxIou(a: Corners, b: Corners, eps: real): (r: Option<real>)
    ensures r.None? <==> Area(a) + Area(b) - Intersection(a, b) + eps == 0.0
    ensures r.Some? ==> r.value * (Area(a) + Area(b) - Intersection(a, b) + eps) == Intersection(a, b)
  {
    var inter := Intersection(a, b);
    var d := Area(a) + Area(b) - inter + eps;
    if d == 0.0 then None else DivisionCancels(inter, d); Some(inter / d)
  }

  lemma DivisionCancels(n: real, d: real)
    requires d != 0.0
    ensures (n / d) * d == n
  {
  }

  lemma BoxIouSymmetric(a: Corners, b: Corners, eps: real)
    ensures BoxIou(a, b, eps) == BoxIou(b, a, eps)
  {
    assert Intersection(a, b) == Intersection(b, a);
  }

  /** A box of positive area intersects another in at most its own area. */
  lemma IntersectionWithinArea(a: Corners, b: Corners)
    requires a.x1 < a.x2 && a.y1 < a.y2
    ensures Intersection(a, b) <= Area(a)
  {
    var iw := RMax(RMin(a.x2, b.x2) - RMax(a.x1, b.x1), 0.0);
    var ih := RMax(RMin(a.y2, b.y2) - RMax(a.y1, b.y1), 0.0);
    var aw, ah := a.x2 - a.x1, a.y2 - a.y1;
    OverlapWithin(a.x1, a.x2, b.x1, b.x2);
    OverlapWithin(a.y1, a.y2, b.y1, b.y2);
    ProductAtMost(iw, aw, ih, ah);
  }

  /** The overlap of [lo, hi] with another interval is no longer than hi - lo. */
  lemma OverlapWithin(lo: real, hi: real, lo2: real, hi2: real)
    requires lo < hi
    ensures 0.0 <= RMax(RMin(hi, hi2) - RMax(lo, lo2), 0.0) <= hi - lo
  {
    assert RMin(hi, hi2) <= hi && RMax(lo, lo2) >= lo;
  }

  lemma ProductAtMost(x: real, xMax: real, y: real, yMax: real)
    requires 0.0 <= x <= xMax && 0.0 <= y <= yMax
    ensures x * y <= xMax * yMax
  {
    assert xMax * y - x * y == (xMax - x) * y;
    assert xMax * yMax - xMax * y == xMax * (yMax - y);
  }

  /** For boxes of positive area and a positive eps the IoU is defined and lies in [0, 1). */
  lemma BoxIouInUnitInterval(a: Corners, b: Corners, eps: real)
    requires a.x1 < a.x2 && a.y1 < a.y2 && b.x1 < b.x2 && b.y1 < b.y2
    requires eps > 0.0
    ensures BoxIou(a, b, eps).Some? && 0.0 <= BoxIou(a, b, eps).value < 1.0
  {
    IntersectionWithinArea(a, b);
    IntersectionWithinArea(b, a);
    assert Intersection(a, b) == Intersection(b, a);
    var inter := Intersection(a, b);
    var d := Area(a) + Area(b) - inter + eps;
    assert d > inter;
    assert inter / d < 1.0 by {
      assert (inter / d) * d == inter;
    }
  }

  /** Without eps, a box of positive area has IoU 1 with itself. */
  lemma BoxIouSelf(a: Corners)
    requires a.x1 < a.x2 && a.y1 < a.y2
    ensures BoxIou(a, a, 0.0) == Some(1.0)
  {
    var aw, ah := a.x2 - a.x1, a.y2 - a.y1;
    assert Intersection(a, a) == aw * ah == Area(a);
    assert Area(a) > 0.0 by {
      assert aw * ah > 0.0 * ah;
    }
    assert Area(a) + Area(a) - Intersection(a, a) + 0.0 == Area(a);
    assert Area(a) / Area(a) == 1.0;
  }

  // ---------------------------------------------------------------------------
  // YOLO to pixel corners (from_yolo_toxy)

  /** A YOLO label `[class, x, y, w, h]`, coordinates relative to the image size. */
  datatype Yolo = Yolo(cls: real, x: real, y: real, w: real, h: real)

  /** One axis of from_yolo_toxy: `int((c - s / 2) * n)` and `int((c + s / 2) * n)` for a
      centre c and extent s relative to n pixels. */
  function AxisPixels(c: real, s: real, n: int): (int, int)
  {
    (Trunc((c - s / 2.0) * n as real), Trunc((c + s / 2.0) * n as real))
  }

  /** from_yolo_toxy(yolo, (dh, dw)): the corners `int()`-truncated to pixels, then l and t
      raised to 0 and r and b lowered to the last column and row; the other sides are not
      clamped. Returns (l, r, t, b). */
  function FromYoloToXy(yolo: Yolo, dh: int, dw: int): (r: (int, int, int, int))
    ensures r.0 >= 0 && r.1 <= dw - 1 && r.2 >= 0 && r.3 <= dh - 1
  {
    var (l, rr) := AxisPixels(yolo.x, yolo.w, dw);
    var (t, b) := AxisPixels(yolo.y, yolo.h, dh);
    (if l < 0 then 0 else l, if rr > dw - 1 then dw - 1 else rr, if t < 0 then 0 else t, if b > dh - 1 then dh - 1 else b)
  }

  /** A rounded pixel box as xyxy_predicted_box stores it. */
  datatype PixelBox = PixelBox(x1: int, y1: int, x2: int, y2: int)

  function AsCorners(p: PixelBox): Corners
  {
    Corners(p.x1 as real, p.y1 as real, p.x2 as real, p.y2 as real)
  }

  /** `xyxy2xywh(box) / gn` with `gn = (w0, h0, w0, h0)`: the box in YOLO form. */
  function NormalisedCentre(p: PixelBox, h0: nat, w0: nat): Centred
    requires h0 > 0 && w0 > 0
  {
    XyxyToXywhn(AsCorners(p), w0 as real, h0 as real)
  }

  /** The pixel corners xyxy_predicted_box derives for a box: from_yolo_toxy of
      `[0] + xywh` with size (h0, w0). */
  function YoloCoords(p: PixelBox, h0: nat, w0: nat): (int, int, int, int)
    requires h0 > 0 && w0 > 0
  {
    var c := NormalisedCentre(p, h0, w0);
    FromYoloToXy(Yolo(0.0, c.x, c.y, c.w, c.h), h0, w0)
  }

  /** Python's int() of a whole number is that number. */
  lemma TruncWhole(v: real, i: int)
    requires v == i as real
    ensures Trunc(v) == i
  {
  }

  /** Along one axis of n pixels, a centre and extent that are `(lo + hi) / 2` and `hi - lo`
      once scaled by n give back exactly `lo` and `hi`. */
  lemma AxisRoundTrip(lo: int, hi: int, n: nat, c: real, s: real)
    requires n > 0
    requires c * n as real == (lo as real + hi as real) / 2.0 && s * n as real == hi as real - lo as real
    ensures AxisPixels(c, s, n) == (lo, hi)
  {
    var nr := n as real;
    assert (c - s / 2.0) * nr == c * nr - (s * nr) / 2.0;
    assert (c + s / 2.0) * nr == c * nr + (s * nr) / 2.0;
    TruncWhole((c - s / 2.0) * nr, lo);
    TruncWhole((c + s / 2.0) * nr, hi);
  }

  /** Converting a pixel box inside the image to YOLO form and back returns its corners,
      except that a right or bottom edge on the image border becomes the last column or row. */
  lemma YoloCoordsRecoverCorners(p: PixelBox, h0: nat, w0: nat)
    requires h0 > 0 && w0 > 0
    requires 0 <= p.x1 <= w0 && 0 <= p.x2 <= w0 && 0 <= p.y1 <= h0 && 0 <= p.y2 <= h0
    ensures YoloCoords(p, h0, w0) == (p.x1, Min(p.x2, w0 - 1), p.y1, Min(p.y2, h0 - 1))
  {
    var c := NormalisedCentre(p, h0, w0);
    var m := XyxyToXywh(AsCorners(p));
    assert m.x == (p.x1 as real + p.x2 as real) / 2.0 && m.y == (p.y1 as real + p.y2 as real) / 2.0;
    AxisRoundTrip(p.x1, p.x2, w0, c.x, c.w);
    AxisRoundTrip(p.y1, p.y2, h0, c.y, c.h);
  }

  // ---------------------------------------------------------------------------
  // xyxy_predicted_box post-processing

  /** One row of the NMS output: box, confidence, class. */
  datatype Detection = Detection(box: Corners, conf: real, cls: int)

  /** `.round()` of a box inside the image, as whole pixels. */
  function RoundBox(b: Corners, h0: nat, w0: nat): (r: PixelBox)
    requires Inside(b, h0 as real, w0 as real)
    ensures 0 <= r.x1 <= w0 && 0 <= r.x2 <= w0 && 0 <= r.y1 <= h0 && 0 <= r.y2 <= h0
  {
    PixelBox(RoundHalfEven(b.x1), RoundHalfEven(b.y1), RoundHalfEven(b.x2), RoundHalfEven(b.y2))
  }

  /** The scaled and rounded box of one detection of the network input, in the original
      image of h0 x w0 pixels. */
  function PredictedPixels(d: Detection, h1: real, w1: real, h0: nat, w0: nat): PixelBox
    requires h0 > 0 && w0 > 0 && h1 > 0.0 && w1 > 0.0
  {
    var gain := LetterboxGain(h1, w1, h0 as real, w0 as real);
    assert h1 / h0 as real > 0.0 && w1 / w0 as real > 0.0;
    RoundBox(ClipBox(Unletterbox(d.box, gain, LetterboxPad(h1, w1, h0 as real, w0 as real)), h0 as real, w0 as real), h0, w0)
  }

  /** What xyxy_predicted_box produces for a list of detections: per detection, its scaled
      and rounded pixel box with that box's normalised centre form and the confidence, and
      the pixel corners (l, r, t, b) that are the box's own corners with the right and
      bottom edges kept inside the image. */
  predicate RowsFor(det: seq<Detection>, rows: seq<(PixelBox, Centred, real)>, coords: seq<(int, int, int, int)>,
                    h1: real, w1: real, h0: nat, w0: nat)
    requires h0 > 0 && w0 > 0 && h1 > 0.0 && w1 > 0.0
  {
    && |rows| == |coords| == |det|
    && (forall k :: 0 <= k < |det| ==>
          rows[k] == (PredictedPixels(det[k], h1, w1, h0, w0), NormalisedCentre(rows[k].0, h0, w0), det[k].conf))
    && (forall k :: 0 <= k < |det| ==>
          coords[k] == (rows[k].0.x1, Min(rows[k].0.x2, w0 - 1), rows[k].0.y1, Min(rows[k].0.y2, h0 - 1)))
  }

  /** The rows of two lists of detections, one after the other, are the rows of both. */
  lemma RowsForAppend(d1: seq<Detection>, r1: seq<(PixelBox, Centred, real)>, c1: seq<(int, int, int, int)>,
                      d2: seq<Detection>, r2: seq<(PixelBox, Centred, real)>, c2: seq<(int, int, int, int)>,
                      h1: real, w1: real, h0: nat, w0: nat)
    requires h0 > 0 && w0 > 0 && h1 > 0.0 && w1 > 0.0
    requires RowsFor(d1, r1, c1, h1, w1, h0, w0) && RowsFor(d2, r2, c2, h1, w1, h0, w0)
    ensures RowsFor(d1 + d2, r1 + r2, c1 + c2, h1, w1, h0, w0)
  {
    var d, r, c := d1 + d2, r1 + r2, c1 + c2;
    forall k | |d1| <= k < |d|
      ensures d[k] == d2[k - |d1|] && r[k] == r2[k - |d1|] && c[k] == c2[k - |d1|]
    {
    }
  }

  /** The rows xyxy_predicted_box appends for the detections of one image. */
  method ImageRows(det: seq<Detection>, h1: real, w1: real, h0: nat, w0: nat)
    returns (rows: seq<(PixelBox, Centred, real)>, coords: seq<(int, int, int, int)>)
    requires h0 > 0 && w0 > 0 && h1 > 0.0 && w1 > 0.0
    ensures RowsFor(det, rows, coords, h1, w1, h0, w0)
  {
    rows, coords := [], [];
    if |det| > 0 {
      var boxes := new Corners[|det|](k requires 0 <= k < |det| => det[k].box);
      ScaleBoxes(h1, w1, boxes, h0 as real, w0 as real, None);
      var scaled := boxes[..];
      for k := 0 to |det|
        invariant RowsFor(det[..k], rows, coords, h1, w1, h0, w0)
      {
        var p := RoundBox(scaled[k], h0, w0);
        YoloCoordsRecoverCorners(p, h0, w0);
        RowsForAppend(det[..k], rows, coords, [det[k]], [(p, NormalisedCentre(p, h0, w0), det[k].conf)],
                      [YoloCoords(p, h0, w0)], h1, w1, h0, w0);
        assert det[..k + 1] == det[..k] + [det[k]];
        rows := rows + [(p, NormalisedCentre(p, h0, w0), det[k].conf)];
        coords := coords + [YoloCoords(p, h0, w0)];
      }
      assert det[..|det|] == det;
    }
  }

  /** xyxy_predicted_box after the network and NMS (`pred`, one detection list per image):
      every detection of every image, in order, rescaled to the h0 x w0 image and rounded,
      with its normalised centre form, its confidence and its pixel corners. */
  method XyxyPredictedBox(pred: seq<seq<Detection>>, h1: real, w1: real, h0: nat, w0: nat)
    returns (xyxylist: seq<(PixelBox, Centred, real)>, yolocoords: seq<(int, int, int, int)>)
    requires h0 > 0 && w0 > 0 && h1 > 0.0 && w1 > 0.0
    ensures RowsFor(Flatten(pred), xyxylist, yolocoords, h1, w1, h0, w0)
  {
    xyxylist, yolocoords := [], [];
    for i := 0 to |pred|
      invariant RowsFor(Flatten(pred[..i]), xyxylist, yolocoords, h1, w1, h0, w0)
    {
      assert pred[..i + 1][..i] == pred[..i];
      var rows, coords := ImageRows(pred[i], h1, w1, h0, w0);
      RowsForAppend(Flatten(pred[..i]), xyxylist, yolocoords, pred[i], rows, coords, h1, w1, h0, w0);
      xyxylist := xyxylist + rows;
      yolocoords := yolocoords + coords;
    }
    assert pred[..|pred|] == pred;
  }
}
