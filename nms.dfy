/** The bookkeeping non_max_suppression in utils/od_functions.py does around the NMS kernel:
    the threshold checks, the objectness and best-class filters, the class filter, the sort by
    confidence capped at max_nms boxes, the class offset that keeps classes apart, and the cut
    to max_det detections. The tensor sort and torchvision's NMS kernel are parameters whose
    documented promises are stated as predicates. */
module Nms {
  import opened Common
  import opened Boxes

  /** One row of the network output for one image: the box in centre form, the objectness
      and one score per class (mask columns are not modelled). */
  datatype Raw = Raw(box: Centred, obj: real, scores: seq<real>)

  /** max_wh: the largest box side in pixels, used as the per-class offset. */
  const MaxWh: real := 7680.0

  /** max_nms: the most boxes handed to the NMS kernel. */
  const MaxNms: nat := 30000

  // ---------------------------------------------------------------------------
  // Index sequences and the two foreign operations

  predicate InRange(idx: seq<int>, n: nat)
  {
    forall k :: 0 <= k < |idx| ==> 0 <= idx[k] < n
  }

  predicate Distinct(idx: seq<int>)
  {
    forall k, m :: 0 <= k < m < |idx| ==> idx[k] != idx[m]
  }

  /** The values of s, read in the order idx gives, never increase from one to the next. */
  predicate NonIncreasingAlong(s: seq<real>, idx: seq<int>)
    requires InRange(idx, |s|)
  {
    forall k :: 0 <= k < |idx| - 1 ==> s[idx[k]] >= s[idx[k + 1]]
  }

  /** `s.argsort(descending=True)`: every index of s once, largest value first. */
  predicate DescendingOrder(s: seq<real>, order: seq<int>)
  {
    |order| == |s| && InRange(order, |s|) && Distinct(order) && NonIncreasingAlong(s, order)
  }

  ghost predicate ArgsortsDescending(argsort: seq<real> -> seq<int>)
  {
    forall s {:trigger argsort(s)} :: DescendingOrder(s, argsort(s))
  }

  /** What torchvision.ops.nms(boxes, scores, iou) promises: the indices of the kept boxes,
      each at most once, in decreasing order of score. */
  predicate KeepsByScore(scores: seq<real>, kept: seq<int>)
  {
    InRange(kept, |scores|) && Distinct(kept) && NonIncreasingAlong(scores, kept)
  }

  ghost predicate NmsKernel(nms: (seq<Corners>, seq<real>, real) -> seq<int>)
  {
    forall boxes, scores, iou {:trigger nms(boxes, scores, iou)} ::
      |boxes| == |scores| ==> KeepsByScore(scores, nms(boxes, scores, iou))
  }

  /** `x[idx]` for an index tensor. */
  function Select<T>(s: seq<T>, idx: seq<int>): (r: seq<T>)
    requires InRange(idx, |s|)
    ensures |r| == |idx| && forall k :: 0 <= k < |idx| ==> r[k] == s[idx[k]]
  {
    seq(|idx|, k requires 0 <= k < |idx| => s[idx[k]])
  }

  lemma SelectFrom<T>(s: seq<T>, idx: seq<int>, x: T)
    requires InRange(idx, |s|)
    requires x in Select(s, idx)
    ensures x in s
  {
    var r := Select(s, idx);
    var k :| 0 <= k < |r| && r[k] == x;
    assert s[idx[k]] == x;
  }

  /** Adjacent steps that never increase give an order that never increases between any
      two positions. */
  lemma {:induction false} DescendingAcross(s: seq<real>, idx: seq<int>, k: int, m: int)
    requires InRange(idx, |s|) && NonIncreasingAlong(s, idx)
    requires 0 <= k <= m < |idx|
    ensures s[idx[k]] >= s[idx[m]]
    decreases m - k
  {
    if k < m {
      DescendingAcross(s, idx, k + 1, m);
    }
  }

  /** Cutting the sorted order at max_nms keeps the highest confidences: every index kept
      scores at least as much as every index cut. */
  lemma TopCapKeepsHighest(s: seq<real>, order: seq<int>, cap: nat)
    requires DescendingOrder(s, order)
    ensures forall k, m :: 0 <= k < cap <= m < |order| ==> s[order[k]] >= s[order[m]]
  {
    forall k, m | 0 <= k < cap <= m < |order|
      ensures s[order[k]] >= s[order[m]]
    {
      DescendingAcross(s, order, k, m);
    }
  }

  // ---------------------------------------------------------------------------
  // Per-image filters

  /** `x[xc[xi]]`: the rows whose objectness exceeds conf_thres, in their order. */
  function Candidates(x: seq<Raw>, confThres: real): (r: seq<Raw>)
    ensures |r| <= |x|
    ensures forall row :: row in r <==> row in x && row.obj > confThres
  {
    if |x| == 0 then []
    else
      var rest := Candidates(x[..|x| - 1], confThres);
      assert x == x[..|x| - 1] + [x[|x| - 1]];
      if x[|x| - 1].obj > confThres then rest + [x[|x| - 1]] else rest
  }

  /** The first index of a largest value, as `max(1)` reports it. */
  function FirstArgMax(s: seq<real>): (j: nat)
    requires |s| > 0
    ensures j < |s|
    ensures forall k :: 0 <= k < |s| ==> s[k] <= s[j]
    ensures forall k :: 0 <= k < j ==> s[k] < s[j]
  {
    if |s| == 1 then 0
    else
      var j := FirstArgMax(s[..|s| - 1]);
      if s[|s| - 1] > s[j] then |s| - 1 else j
  }

  /** `x[:, 5:] *= x[:, 4:5]` on one row: the class confidences. */
  function ClassConfidences(row: Raw): (r: seq<real>)
    ensures |r| == |row.scores| && forall c :: 0 <= c < |r| ==> r[c] == row.scores[c] * row.obj
  {
    seq(|row.scores|, c requires 0 <= c < |row.scores| => row.scores[c] * row.obj)
  }

  /** The best-class detection of one row: the box in corner form, the largest class
      confidence and the first class that reaches it. `max` over no classes raises. */
  function BestClass(row: Raw): (r: Result<Detection>)
    ensures r.Err? <==> |row.scores| == 0
    ensures r.Ok? ==>
      && 0 <= r.value.cls < |row.scores|
      && r.value.box == XywhToXyxy(row.box)
      && r.value.conf == ClassConfidences(row)[r.value.cls]
      && (forall c :: 0 <= c < |row.scores| ==> ClassConfidences(row)[c] <= r.value.conf)
      && (forall c :: 0 <= c < r.value.cls ==> ClassConfidences(row)[c] < r.value.conf)
  {
    if |row.scores| == 0 then Err(ForeignError("max over an empty class dimension"))
    else
      var s := ClassConfidences(row);
      var j := FirstArgMax(s);
      Ok(Detection(XywhToXyxy(row.box), s[j], j))
  }

  /** `torch.cat((box, conf, j), 1)[conf > conf_thres]`: the best-class detections whose
      confidence exceeds conf_thres. */
  function BestDetections(x: seq<Raw>, confThres: real): (r: Result<seq<Detection>>)
    ensures r.Err? <==> exists row :: row in x && |row.scores| == 0
    ensures r.Ok? ==> |r.value| <= |x|
    ensures r.Ok? ==> forall d :: d in r.value ==>
      d.conf > confThres && exists row :: row in x && BestClass(row) == Ok(d)
    ensures r.Ok? ==> forall row :: row in x && BestClass(row).Ok? && BestClass(row).value.conf > confThres ==>
      BestClass(row).value in r.value
  {
    if |x| == 0 then Ok([])
    else
      var last := x[|x| - 1];
      assert x == x[..|x| - 1] + [last];
      match BestDetections(x[..|x| - 1], confThres)
      case Err(e) => Err(e)
      case Ok(rest) =>
        match BestClass(last)
        case Err(e) => Err(e)
        case Ok(d) => Ok(if d.conf > confThres then rest + [d] else rest)
  }

  /** `x[(x[:, 5:6] == classes).any(1)]` when classes is given; everything otherwise. */
  function ClassFilter(ds: seq<Detection>, classes: Option<seq<int>>): (r: seq<Detection>)
    ensures |r| <= |ds|
    ensures forall d :: d in r <==> d in ds && (classes.Some? ==> d.cls in classes.value)
  {
    if |ds| == 0 then []
    else
      var rest := ClassFilter(ds[..|ds| - 1], classes);
      var d := ds[|ds| - 1];
      assert ds == ds[..|ds| - 1] + [d];
      if classes.None? || d.cls in classes.value then rest + [d] else rest
  }

  function Confidences(ds: seq<Detection>): (r: seq<real>)
    ensures |r| == |ds| && forall k :: 0 <= k < |ds| ==> r[k] == ds[k].conf
  {
    seq(|ds|, k requires 0 <= k < |ds| => ds[k].conf)
  }

  /** `x[:, 5:6] * (0 if agnostic else max_wh)`: the offset added to every coordinate. */
  function ClassOffset(cls: int, agnostic: bool): real
  {
    cls as real * (if agnostic then 0.0 else MaxWh)
  }

  function OffsetBox(b: Corners, c: real): Corners
  {
    Corners(b.x1 + c, b.y1 + c, b.x2 + c, b.y2 + c)
  }

  /** A box whose coordinates all lie in [0, max_wh). */
  predicate InCanvas(b: Corners)
  {
    0.0 <= b.x1 < MaxWh && 0.0 <= b.y1 < MaxWh && 0.0 <= b.x2 < MaxWh && 0.0 <= b.y2 < MaxWh
  }

  /** Offset by class, boxes of two different classes never overlap, so the one NMS call
      suppresses boxes only within a class. */
  lemma ClassOffsetSeparates(a: Corners, b: Corners, ca: int, cb: int)
    requires InCanvas(a) && InCanvas(b) && ca != cb
    ensures Intersection(OffsetBox(a, ClassOffset(ca, false)), OffsetBox(b, ClassOffset(cb, false))) == 0.0
  {
    var a', b' := OffsetBox(a, ClassOffset(ca, false)), OffsetBox(b, ClassOffset(cb, false));
    if ca < cb {
      assert (ca + 1) as real * MaxWh <= cb as real * MaxWh;
      assert a'.x2 < b'.x1;
    } else {
      assert (cb + 1) as real * MaxWh <= ca as real * MaxWh;
      assert b'.x2 < a'.x1;
    }
    assert RMin(a'.x2, b'.x2) - RMax(a'.x1, b'.x1) < 0.0;
  }

  /** The boxes handed to the NMS kernel, each offset by its class. */
  function OffsetBoxes(ds: seq<Detection>, agnostic: bool): (r: seq<Corners>)
    ensures |r| == |ds|
  {
    seq(|ds|, k requires 0 <= k < |ds| => OffsetBox(ds[k].box, ClassOffset(ds[k].cls, agnostic)))
  }

  /** `x[x[:, 4].argsort(descending=True)[:max_nms]]`, the cut applied only above max_nms. */
  function SortAndCap(ds: seq<Detection>, argsort: seq<real> -> seq<int>): (r: seq<Detection>)
    requires ArgsortsDescending(argsort)
    ensures |r| == Min(|ds|, MaxNms)
    ensures forall k :: 0 <= k < |r| - 1 ==> r[k].conf >= r[k + 1].conf
    ensures forall d :: d in r ==> d in ds
  {
    var order := argsort(Confidences(ds));
    assert DescendingOrder(Confidences(ds), order);
    var top := if |ds| > MaxNms then order[..MaxNms] else order;
    var r := Select(ds, top);
    forall d | d in r
      ensures d in ds
    {
      SelectFrom(ds, top, d);
    }
    r
  }

  /** `i[:max_det]` when the kernel kept more than max_det boxes. */
  function CapDetections(i: seq<int>, maxDet: int): (r: seq<int>)
    ensures maxDet >= 0 ==> |r| <= maxDet
    ensures exists hi :: 0 <= hi <= |i| && r == i[..hi]
  {
    if |i| > maxDet then
      var r := PySlice(i, 0, maxDet);
      assert r == i[..SliceBound(maxDet, |i|)];
      r
    else
      assert i == i[..|i|];
      i
  }

  /** The detections non_max_suppression stores for one image (`output[xi]`), or the exception
      it raises. An image with no candidate keeps the empty result. */
  function ImageNms(x: seq<Raw>, confThres: real, iouThres: real, classes: Option<seq<int>>, agnostic: bool,
                    maxDet: int, argsort: seq<real> -> seq<int>, nms: (seq<Corners>, seq<real>, real) -> seq<int>)
    : (r: Result<seq<Detection>>)
    requires ArgsortsDescending(argsort) && NmsKernel(nms)
    ensures r.Err? <==> exists row :: row in x && row.obj > confThres && |row.scores| == 0
    ensures (forall row :: row in x ==> row.obj <= confThres) ==> r == Ok([])
  {
    var cands := Candidates(x, confThres);
    if |cands| == 0 then Ok([])
    else
      match BestDetections(cands, confThres)
      case Err(e) => Err(e)
      case Ok(dets) =>
        var kept := ClassFilter(dets, classes);
        if |kept| == 0 then Ok([])
        else
          var sorted := SortAndCap(kept, argsort);
          var i := nms(OffsetBoxes(sorted, agnostic), Confidences(sorted), iouThres);
          assert KeepsByScore(Confidences(sorted), i);
          var top := CapDetections(i, maxDet);
          Ok(Select(sorted, top))
  }

  /** What non_max_suppression keeps for an image: at most max_det detections, in
      non-increasing confidence, each with confidence above conf_thres and of a requested
      class, and each the best-class detection of a network row whose objectness exceeds
      conf_thres. */
  lemma ImageNmsSound(x: seq<Raw>, confThres: real, iouThres: real, classes: Option<seq<int>>, agnostic: bool,
                      maxDet: int, argsort: seq<real> -> seq<int>, nms: (seq<Corners>, seq<real>, real) -> seq<int>)
    requires ArgsortsDescending(argsort) && NmsKernel(nms)
    requires ImageNms(x, confThres, iouThres, classes, agnostic, maxDet, argsort, nms).Ok?
    ensures var r := ImageNms(x, confThres, iouThres, classes, agnostic, maxDet, argsort, nms).value;
      && (maxDet >= 0 ==> |r| <= maxDet)
      && (forall k :: 0 <= k < |r| - 1 ==> r[k].conf >= r[k + 1].conf)
      && (forall d :: d in r ==>
            && d.conf > confThres
            && (classes.Some? ==> d.cls in classes.value)
            && exists row :: row in x && row.obj > confThres && BestClass(row) == Ok(d))
  {
    var r := ImageNms(x, confThres, iouThres, classes, agnostic, maxDet, argsort, nms).value;
    var cands := Candidates(x, confThres);
    if |cands| > 0 {
      var dets := BestDetections(cands, confThres).value;
      var kept := ClassFilter(dets, classes);
      if |kept| > 0 {
        var sorted := SortAndCap(kept, argsort);
        var i := nms(OffsetBoxes(sorted, agnostic), Confidences(sorted), iouThres);
        assert KeepsByScore(Confidences(sorted), i);
        var top := CapDetections(i, maxDet);
        PrefixOfKept(sorted, i, top);
        assert r == Select(sorted, top);
        forall d | d in r
          ensures d.conf > confThres && (classes.Some? ==> d.cls in classes.value)
          ensures exists row :: row in x && row.obj > confThres && BestClass(row) == Ok(d)
        {
          assert d in kept && d in dets;
          var row :| row in cands && BestClass(row) == Ok(d);
          assert row in x && row.obj > confThres;
        }
      }
    }
  }

  /** A prefix of what the kernel keeps selects detections of the sorted list in
      non-increasing confidence. */
  lemma PrefixOfKept(sorted: seq<Detection>, i: seq<int>, top: seq<int>)
    requires KeepsByScore(Confidences(sorted), i)
    requires exists hi :: 0 <= hi <= |i| && top == i[..hi]
    ensures InRange(top, |sorted|)
    ensures var r := Select(sorted, top);
      && (forall k :: 0 <= k < |r| - 1 ==> r[k].conf >= r[k + 1].conf)
      && (forall d :: d in r ==> d in sorted)
  {
    var hi :| 0 <= hi <= |i| && top == i[..hi];
    var r := Select(sorted, top);
    forall k | 0 <= k < |r| - 1
      ensures r[k].conf >= r[k + 1].conf
    {
      assert top[k] == i[k] && top[k + 1] == i[k + 1];
      assert Confidences(sorted)[i[k]] >= Confidences(sorted)[i[k + 1]];
    }
    forall d | d in r
      ensures d in sorted
    {
      SelectFrom(sorted, top, d);
    }
  }

  /** Below max_nms boxes the sort drops nothing: every detection reaches the NMS kernel. */
  lemma SortAndCapKeepsAll(ds: seq<Detection>, argsort: seq<real> -> seq<int>)
    requires ArgsortsDescending(argsort)
    requires |ds| <= MaxNms
    ensures forall d :: d in ds ==> d in SortAndCap(ds, argsort)
  {
    var order := argsort(Confidences(ds));
    assert DescendingOrder(Confidences(ds), order);
    var r := Select(ds, order);
    assert SortAndCap(ds, argsort) == r;
    forall d | d in ds
      ensures d in r
    {
      var k :| 0 <= k < |ds| && ds[k] == d;
      CoversAll(order, |ds|, k);
      var m :| 0 <= m < |order| && order[m] == k;
      assert r[m] == d;
    }
  }

  /** A row that passes every filter is never lost before the NMS kernel: when the
      candidates fit under max_nms, it is among the boxes the kernel is given. */
  lemma ImageNmsConsidersEveryCandidate(x: seq<Raw>, confThres: real, classes: Option<seq<int>>,
                                        argsort: seq<real> -> seq<int>, row: Raw)
    requires ArgsortsDescending(argsort)
    requires BestDetections(Candidates(x, confThres), confThres).Ok?
    requires |x| <= MaxNms
    requires row in x && row.obj > confThres && BestClass(row).Ok? && BestClass(row).value.conf > confThres
    requires classes.Some? ==> BestClass(row).value.cls in classes.value
    ensures BestClass(row).value in
      SortAndCap(ClassFilter(BestDetections(Candidates(x, confThres), confThres).value, classes), argsort)
  {
    var cands := Candidates(x, confThres);
    var dets := BestDetections(cands, confThres).value;
    var kept := ClassFilter(dets, classes);
    assert row in cands;
    assert BestClass(row).value in kept;
    SortAndCapKeepsAll(kept, argsort);
  }

  /** The indices 0 .. n-1. */
  function IndexSet(n: nat): (r: set<int>)
    ensures |r| == n && forall j :: j in r <==> 0 <= j < n
  {
    if n == 0 then {} else IndexSet(n - 1) + {n - 1}
  }

  /** The indices an index sequence mentions. */
  function Mentioned(idx: seq<int>): (r: set<int>)
    ensures forall j :: j in r <==> j in idx
  {
    if |idx| == 0 then {}
    else
      assert idx == idx[..|idx| - 1] + [idx[|idx| - 1]];
      Mentioned(idx[..|idx| - 1]) + {idx[|idx| - 1]}
  }

  lemma {:induction false} MentionedDistinct(idx: seq<int>)
    requires Distinct(idx)
    ensures |Mentioned(idx)| == |idx|
  {
    if |idx| > 0 {
      var init := idx[..|idx| - 1];
      assert Distinct(init);
      MentionedDistinct(init);
      assert idx[|idx| - 1] !in init;
    }
  }

  /** An index sequence of length n within [0, n) that repeats no index visits every
      index below n, as an argsort order does. */
  lemma CoversAll(order: seq<int>, n: nat, k: int)
    requires |order| == n && InRange(order, n) && Distinct(order)
    requires 0 <= k < n
    ensures k in order
  {
    MentionedDistinct(order);
    var m := Mentioned(order);
    assert m <= IndexSet(n);
    SubsetOfSameSize(m, IndexSet(n));
    assert k in m;
  }

  /** A subset with as many elements as the whole set is the whole set. */
  lemma SubsetOfSameSize(a: set<int>, b: set<int>)
    requires a <= b && |a| == |b|
    ensures a == b
  {
    var rest := b - a;
    assert b == a + rest && a * rest == {};
    assert |rest| == 0;
  }

  // ---------------------------------------------------------------------------
  // The batch loop

  /** non_max_suppression(prediction, conf_thres, iou_thres, classes, agnostic, max_det=...):
      the threshold assertions, then one result per image, filled in image by image. */
  method NonMaxSuppression(prediction: seq<seq<Raw>>, confThres: real, iouThres: real, classes: Option<seq<int>>,
                           agnostic: bool, maxDet: int, argsort: seq<real> -> seq<int>,
                           nms: (seq<Corners>, seq<real>, real) -> seq<int>)
    returns (r: Result<seq<seq<Detection>>>)
    requires ArgsortsDescending(argsort) && NmsKernel(nms)
    ensures !(0.0 <= confThres <= 1.0) ==> r == Err(AssertionError("Invalid Confidence threshold"))
    ensures 0.0 <= confThres <= 1.0 && !(0.0 <= iouThres <= 1.0) ==> r == Err(AssertionError("Invalid IoU"))
    ensures r.Err? <==>
      || !(0.0 <= confThres <= 1.0 && 0.0 <= iouThres <= 1.0)
      || exists xi :: 0 <= xi < |prediction| &&
           ImageNms(prediction[xi], confThres, iouThres, classes, agnostic, maxDet, argsort, nms).Err?
    ensures r.Ok? ==> |r.value| == |prediction| && forall xi :: 0 <= xi < |prediction| ==>
      r.value[xi] == ImageNms(prediction[xi], confThres, iouThres, classes, agnostic, maxDet, argsort, nms).value
  {
    if !(0.0 <= confThres <= 1.0) {
      return Err(AssertionError("Invalid Confidence threshold"));
    }
    if !(0.0 <= iouThres <= 1.0) {
      return Err(AssertionError("Invalid IoU"));
    }
    var output: seq<seq<Detection>> := seq(|prediction|, _ => []);
    for xi := 0 to |prediction|
      invariant |output| == |prediction|
      invariant forall m :: 0 <= m < xi ==>
        ImageNms(prediction[m], confThres, iouThres, classes, agnostic, maxDet, argsort, nms) == Ok(output[m])
    {
      var res := ImageNms(prediction[xi], confThres, iouThres, classes, agnostic, maxDet, argsort, nms);
      if res.Err? {
        return Err(res.error);
      }
      output := output[xi := res.value];
    }
    r := Ok(output);
  }
}
