/** From utils/segmentation_datasets.py: get_clossest_prediction, which picks the detection
    whose box centre lies nearest the image centre, and the window arithmetic of
    SegmentationUAVData._clip_image. The distance function and pad_images come from another
    package and are passed in. */
module Segmentation {
  import opened Common

  /** A detection box `x1, y1, x2, y2`. */
  datatype Box = Box(x1: real, y1: real, x2: real, y2: real)

  type Point = (real, real)

  /** Python's `a // 2` on a float. */
  function Half(a: real): real { (a / 2.0).Floor as real }

  /** The centre of a box. */
  function Centre(b: Box): (p: Point)
    ensures p.0 <= (b.x1 + b.x2) / 2.0 < p.0 + 1.0
    ensures p.1 <= (b.y1 + b.y2) / 2.0 < p.1 + 1.0
  {
    (Half(b.x1 + b.x2), Half(b.y1 + b.y2))
  }

  /** The centre get_clossest_prediction computes: its vertical coordinate is taken from the
      x coordinates too. */
  function CentreAsWritten(b: Box): (p: Point)
    ensures p.0 == p.1 == Centre(b).0
  {
    (Half(b.x1 + b.x2), Half(b.x1 + b.x2))
  }

  /** `np.min` of a non-empty list. */
  function Least(s: seq<real>): (m: real)
    requires |s| > 0
    ensures m in s && forall i :: 0 <= i < |s| ==> m <= s[i]
  {
    if |s| == 1 then s[0] else RMin(s[0], Least(s[1..]))
  }

  /** `np.where(np.array(s) == v)[0][0]`: the first position holding v. */
  function FirstAt(s: seq<real>, v: real): (k: nat)
    requires v in s
    ensures k < |s| && s[k] == v && forall i :: 0 <= i < k ==> s[i] != v
  {
    if s[0] == v then 0 else 1 + FirstAt(s[1..], v)
  }

  /** The box chosen from the distances: the first nearest one, if it is nearer than the limit. */
  function Selection(dist: seq<real>, limit: real): Option<nat>
  {
    if |dist| == 0 || Least(dist) >= limit then None else Some(FirstAt(dist, Least(dist)))
  }

  /** A box is chosen exactly when some distance is below the limit; the chosen one is the
      smallest distance, and no earlier box is as near. */
  lemma SelectionChoosesNearest(dist: seq<real>, limit: real)
    ensures Selection(dist, limit).Some? <==> exists i :: 0 <= i < |dist| && dist[i] < limit
    ensures Selection(dist, limit).Some? ==> var k := Selection(dist, limit).value;
      k < |dist| && dist[k] < limit && (forall i :: 0 <= i < |dist| ==> dist[k] <= dist[i])
      && (forall i :: 0 <= i < k ==> dist[k] < dist[i])
  {
    if |dist| > 0 {
      var m := Least(dist);
      if m >= limit {
        assert forall i :: 0 <= i < |dist| ==> dist[i] >= limit;
      }
    }
  }

  /** get_clossest_prediction as written: one distance per box, from the centre it computes
      (both coordinates from the x coordinates) to the image centre, and the index of the
      nearest box when it is nearer than the limit. */
  method GetClossestPredictionAsWritten(imageCentre: Point, predictions: Option<seq<Box>>, distanceLimit: real, distance: (Point, Point) -> real)
    returns (distpos: Option<nat>, dist: seq<real>)
    ensures predictions.None? ==> distpos.None? && dist == []
    ensures predictions.Some? ==> |dist| == |predictions.value|
    ensures predictions.Some? ==> forall i :: 0 <= i < |dist| ==> dist[i] == distance(CentreAsWritten(predictions.value[i]), imageCentre)
    ensures predictions.Some? ==> forall i :: 0 <= i < |dist| && predictions.value[i].x1 + predictions.value[i].x2 == predictions.value[i].y1 + predictions.value[i].y2 ==>
      dist[i] == distance(Centre(predictions.value[i]), imageCentre)
    ensures distpos == Selection(dist, distanceLimit)
  {
    distpos := None;
    dist := [];
    if predictions.Some? {
      var boxes := predictions.value;
      if |boxes| > 0 {
        var i := 0;
        while i < |boxes|
          invariant 0 <= i <= |boxes| && |dist| == i
          invariant forall k :: 0 <= k < i ==> dist[k] == distance(CentreAsWritten(boxes[k]), imageCentre)
        {
          var b := boxes[i];
          var widthCentre := Half(b.x1 + b.x2);
          var heightCentre := Half(b.x1 + b.x2);
          dist := dist + [distance((widthCentre, heightCentre), imageCentre)];
          i := i + 1;
        }
        if Least(dist) < distanceLimit {
          distpos := Some(FirstAt(dist, Least(dist)));
        }
      }
    }
  }

  /** get_clossest_prediction as evidently intended: the same loop with each box's own
      centre, so the vertical coordinate comes from the y coordinates. */
  method GetClossestPrediction(imageCentre: Point, predictions: Option<seq<Box>>, distanceLimit: real, distance: (Point, Point) -> real)
    returns (distpos: Option<nat>, dist: seq<real>)
    ensures predictions.None? ==> distpos.None? && dist == []
    ensures predictions.Some? ==> |dist| == |predictions.value|
    ensures predictions.Some? ==> forall i :: 0 <= i < |dist| ==> dist[i] == distance(Centre(predictions.value[i]), imageCentre)
    ensures distpos == Selection(dist, distanceLimit)
  {
    distpos := None;
    dist := [];
    if predictions.Some? {
      var boxes := predictions.value;
      if |boxes| > 0 {
        var i := 0;
        while i < |boxes|
          invariant 0 <= i <= |boxes| && |dist| == i
          invariant forall k :: 0 <= k < i ==> dist[k] == distance(Centre(boxes[k]), imageCentre)
        {
          var b := boxes[i];
          var widthCentre := Half(b.x1 + b.x2);
          var heightCentre := Half(b.y1 + b.y2);
          dist := dist + [distance((widthCentre, heightCentre), imageCentre)];
          i := i + 1;
        }
        if Least(dist) < distanceLimit {
          distpos := Some(FirstAt(dist, Least(dist)));
        }
      }
    }
  }

  function Square(a: real): real { a * a }

  /** The distance passed in is the Euclidean one. */
  ghost predicate IsEuclidean(distance: (Point, Point) -> real)
  {
    forall p: Point, q: Point {:trigger distance(p, q)} :: distance(p, q) >= 0.0 && Square(distance(p, q)) == Square(p.0 - q.0) + Square(p.1 - q.1)
  }

  lemma SquareRoot(d: real, v: real)
    requires d >= 0.0 && v >= 0.0 && Square(d) == Square(v)
    ensures d == v
  {
    assert (d - v) * (d + v) == Square(d) - Square(v);
    if d + v != 0.0 {
      assert d - v == ((d - v) * (d + v)) / (d + v);
    }
  }

  /** A box ten pixels wide and a hundred high, centred on the image centre (5, 50): with the
      vertical centre taken from the x coordinates it lies 45 pixels away and is not chosen
      within the default limit of 30; with its real centre it lies at distance 0 and is chosen. */
  lemma ClosestAsWrittenMissesTallBox(distance: (Point, Point) -> real)
    requires IsEuclidean(distance)
    ensures var b, c := Box(0.0, 0.0, 10.0, 100.0), (5.0, 50.0);
      Selection([distance(CentreAsWritten(b), c)], 30.0) == None
      && Selection([distance(Centre(b), c)], 30.0) == Some(0)
  {
    var b, c := Box(0.0, 0.0, 10.0, 100.0), (5.0, 50.0);
    assert Half(10.0) == 5.0;
    assert Half(100.0) == 50.0;
    assert CentreAsWritten(b) == (5.0, 5.0);
    assert Centre(b) == c;
    var wrong := distance((5.0, 5.0), c);
    assert Square(wrong) == Square(45.0);
    SquareRoot(wrong, 45.0);
    var right := distance(c, c);
    assert Square(right) == Square(0.0);
    SquareRoot(right, 0.0);
  }

  // ---------------------------------------------------------------------------
  // SegmentationUAVData._clip_image

  /** A Python truth test on the `padding` argument: None and 0 are false. */
  predicate Truthy(padding: Option<real>)
  {
    padding.Some? && padding.value != 0.0
  }

  /** The rows and columns _clip_image cuts when it does not pad with zeros. */
  datatype ClipWindow = ClipWindow(top: int, left: int, rows: int, cols: int)

  /** `padding / 100 if padding > 1 else padding`. */
  function ZoomFactor(padding: real): real
  {
    if padding > 1.0 then padding / 100.0 else padding
  }

  /** Half of the padding along one side of length n, in whole pixels. */
  function PadHalf(n: nat, zf: real): nat
  {
    var grown := n + Trunc(n as real * zf);
    Abs(grown - n) / 2
  }

  /** The padding on one side is half the truncated extra length, rounded down. */
  lemma PadHalfBounds(n: nat, zf: real)
    ensures 2 * PadHalf(n, zf) <= Abs(Trunc(n as real * zf)) <= 2 * PadHalf(n, zf) + 1
  {
    var t := Trunc(n as real * zf);
    assert n + t - n == t;
  }

  function ClipWindowOf(x1: int, y1: int, x2: int, y2: int, padding: real): ClipWindow
  {
    var height, width := Abs(y1 - y2), Abs(x1 - x2);
    var zf := ZoomFactor(padding);
    var padH, padW := PadHalf(height, zf), PadHalf(width, zf);
    var top := if y1 - padH < 0 then 0 else y1 - padH;
    var left := if x1 - padW < 0 then 0 else x1 - padW;
    ClipWindow(top, left, height + padH * 2, width + padW * 2)
  }

  /** The window starts inside the image, grows each side of the box by half the zoomed
      extra length (rounded down to a whole pixel), and keeps the box in view: when nothing is
      clamped, the box lies padH rows and padW columns inside it. */
  lemma ClipWindowFramesBox(x1: int, y1: int, x2: int, y2: int, padding: real)
    ensures var w := ClipWindowOf(x1, y1, x2, y2, padding);
      var zf := ZoomFactor(padding);
      var padH, padW := PadHalf(Abs(y1 - y2), zf), PadHalf(Abs(x1 - x2), zf);
      w.top >= 0 && w.left >= 0
      && w.rows == Abs(y1 - y2) + 2 * padH && w.cols == Abs(x1 - x2) + 2 * padW
      && (y1 >= padH ==> w.top + padH == y1) && (y1 < padH ==> w.top == 0)
      && (x1 >= padW ==> w.left + padW == x1) && (x1 < padW ==> w.left == 0)
      && (y1 <= y2 && y1 >= padH ==> w.top <= y1 && y2 <= w.top + w.rows)
      && (x1 <= x2 && x1 >= padW ==> w.left <= x1 && x2 <= w.left + w.cols)
  {
  }

  /** _clip_image on a box given as `xminyminxmaxymax`: the corners truncated to ints, then
      either the box itself padded by pad_images, or the padded window cut from the image. With
      a false `padding` the result is never assigned; with another box type the corners are not. */
  function ClipImage<T>(image: seq<seq<T>>, box: Box, bbtype: string, padding: Option<real>, paddingWithZeros: bool,
                        padImages: (seq<seq<T>>, real) -> seq<seq<T>>): (r: Result<seq<seq<T>>>)
    ensures r.Ok? ==> Truthy(padding) && bbtype == "xminyminxmaxymax"
    ensures r.Ok? && !paddingWithZeros ==> |r.value| <= |image|
  {
    if !Truthy(padding) then Err(UnboundLocalError("imgclipped"))
    else if bbtype != "xminyminxmaxymax" then Err(UnboundLocalError("y1"))
    else
      var x1, y1, x2, y2 := Trunc(box.x1), Trunc(box.y1), Trunc(box.x2), Trunc(box.y2);
      if paddingWithZeros then Ok(padImages(Crop(image, y1, y2, x1, x2), padding.value))
      else
        var w := ClipWindowOf(x1, y1, x2, y2, padding.value);
        Ok(Crop(image, w.top, w.top + w.rows, w.left, w.left + w.cols))
  }

  /** _clip_image returns an image exactly when padding is true and the box type is known. */
  lemma ClipImageFails<T>(image: seq<seq<T>>, box: Box, bbtype: string, padding: Option<real>, paddingWithZeros: bool,
                          padImages: (seq<seq<T>>, real) -> seq<seq<T>>)
    ensures var r := ClipImage(image, box, bbtype, padding, paddingWithZeros, padImages);
      r.Ok? <==> Truthy(padding) && bbtype == "xminyminxmaxymax"
    ensures !Truthy(padding) ==> ClipImage(image, box, bbtype, padding, paddingWithZeros, padImages) == Err(UnboundLocalError("imgclipped"))
    ensures Truthy(padding) && bbtype != "xminyminxmaxymax" ==> ClipImage(image, box, bbtype, padding, paddingWithZeros, padImages) == Err(UnboundLocalError("y1"))
  {
  }

  /** Without zero padding, a window that lies inside the image is cut whole. */
  lemma ClipImageShape<T>(image: seq<seq<T>>, rows: nat, cols: nat, box: Box, padding: real, padImages: (seq<seq<T>>, real) -> seq<seq<T>>)
    requires IsGrid(image, rows, cols) && padding != 0.0
    ensures var w := ClipWindowOf(Trunc(box.x1), Trunc(box.y1), Trunc(box.x2), Trunc(box.y2), padding);
      var r := ClipImage(image, box, "xminyminxmaxymax", Some(padding), false, padImages);
      w.top + w.rows <= rows && w.left + w.cols <= cols ==> r.Ok? && IsGrid(r.value, w.rows, w.cols)
  {
    var w := ClipWindowOf(Trunc(box.x1), Trunc(box.y1), Trunc(box.x2), Trunc(box.y2), padding);
    ClipWindowFramesBox(Trunc(box.x1), Trunc(box.y1), Trunc(box.x2), Trunc(box.y2), padding);
    if w.top + w.rows <= rows && w.left + w.cols <= cols {
      CropShape(image, rows, cols, w.top, w.top + w.rows, w.left, w.left + w.cols);
    }
  }
}
