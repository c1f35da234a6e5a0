/** Centre zoom without changing the image size: image_zoom of
    ImagesTransform/image_functions.py, and cv2_clipped_zoom, clipped_zoom,
    randomly_zoom and scipy_rotate of utils/image_functions.py. The integer crop,
    pad and trim arithmetic is modelled; the resampling itself (cv2.resize,
    ndimage.zoom, ndimage.rotate) is passed in, together with the output size it
    promises. */
module Zoom {
  import opened Common

  /** One image band as rows of pixel values. */
  type Grid = seq<seq<real>>

  /** What cv2.resize(src, (cols, rows)) promises: an image of exactly the requested size. */
  ghost predicate ResizesExactly(resize: (Grid, nat, nat) -> Grid)
  {
    forall g, rows: nat, cols: nat {:trigger resize(g, rows, cols)} :: IsGrid(resize(g, rows, cols), rows, cols)
  }

  /** The length ndimage.zoom gives an axis of length n: round(n * zf). */
  function ZoomedLength(n: nat, zf: real): nat
    requires zf > 0.0
  {
    assert n as real * zf >= 0.0;
    RoundHalfEven(n as real * zf)
  }

  /** What ndimage.zoom(src, zf) promises about its output: each axis of length n
      becomes `round(n * zf)` long (Python's round, half to even). */
  ghost predicate ZoomsToRoundedSize(zoom: (Grid, real) -> Grid)
  {
    forall g, zf, rows: nat, cols: nat {:trigger zoom(g, zf), IsGrid(g, rows, cols)} ::
      zf > 0.0 && IsGrid(g, rows, cols) ==>
        IsGrid(zoom(g, zf), ZoomedLength(rows, zf), ZoomedLength(cols, zf))
  }

  // ---------------------------------------------------------------------------
  // Pixel-wise steps

  /** `result[result < 0.000001] = 0.0` on one value. */
  function DropTiny(v: real): (r: real)
    ensures r == 0.0 || r >= 0.000001
    ensures v >= 0.000001 ==> r == v
    ensures v < 0.000001 ==> r == 0.0
  {
    if v < 0.000001 then 0.0 else v
  }

  function DropTinyGrid(g: Grid): (r: Grid)
    ensures |r| == |g|
    ensures forall i :: 0 <= i < |g| ==> |r[i]| == |g[i]|
    ensures forall i, j :: 0 <= i < |g| && 0 <= j < |g[i]| ==> r[i][j] == DropTiny(g[i][j])
  {
    seq(|g|, i requires 0 <= i < |g| => seq(|g[i]|, j requires 0 <= j < |g[i]| => DropTiny(g[i][j])))
  }

  function Zeros(n: nat): (r: seq<real>)
    ensures |r| == n && forall k :: 0 <= k < n ==> r[k] == 0.0
  {
    seq(n, _ => 0.0)
  }

  /** `np.pad(g, [(top, bottom), (left, right)])`: zeros around an image of `cols` columns. */
  function ZeroPad(g: Grid, cols: nat, top: nat, bottom: nat, left: nat, right: nat): (r: Grid)
    requires IsGrid(g, |g|, cols)
    ensures IsGrid(r, top + |g| + bottom, left + cols + right)
    ensures forall i, j :: 0 <= i < |r| && 0 <= j < left + cols + right ==>
      r[i][j] == (if top <= i < top + |g| && left <= j < left + cols then g[i - top][j - left] else 0.0)
  {
    var r := seq(top + |g| + bottom, i requires 0 <= i < top + |g| + bottom =>
      if top <= i < top + |g| then PadRow(g[i - top], left, right) else Zeros(left + cols + right));
    assert forall i :: 0 <= i < |r| ==> r[i] == if top <= i < top + |g| then PadRow(g[i - top], left, right) else Zeros(left + cols + right);
    r
  }

  /** One row of np.pad: `left` zeros, the row, `right` zeros. */
  function PadRow(row: seq<real>, left: nat, right: nat): (r: seq<real>)
    ensures |r| == left + |row| + right
    ensures forall j :: 0 <= j < |r| ==> r[j] == if left <= j < left + |row| then row[j - left] else 0.0
  {
    var r := Zeros(left) + row + Zeros(right);
    assert forall j :: left <= j < left + |row| ==> r[j] == row[j - left];
    assert forall j :: left + |row| <= j < |r| ==> r[j] == Zeros(right)[j - left - |row|];
    r
  }

  // ---------------------------------------------------------------------------
  // Zoom-out geometry (cv2_clipped_zoom, and image_zoom with a positive percentage)

  /** `min(int(n * zf), n)`: the length cv2.resize is asked for along an axis of length n. */
  function ResizeExtent(n: nat, zf: real): int
  {
    Min(Trunc(n as real * zf), n)
  }

  /** `(n - resize) // 2`: the zero padding before the resized image. */
  function PadBefore(n: nat, zf: real): int
  {
    (n - ResizeExtent(n, zf)) / 2
  }

  /** `(n - resize) - pad1`: the zero padding after it. */
  function PadAfter(n: nat, zf: real): int
  {
    (n - ResizeExtent(n, zf)) - PadBefore(n, zf)
  }

  /** The two paddings split the missing length evenly, the extra pixel going after,
      and bring the axis back to its length n; a factor of 1 or more needs no padding. */
  lemma PadsRestoreLength(n: nat, zf: real)
    ensures 0 <= PadBefore(n, zf) <= PadAfter(n, zf) <= PadBefore(n, zf) + 1
    ensures ResizeExtent(n, zf) + PadBefore(n, zf) + PadAfter(n, zf) == n
    ensures zf >= 1.0 ==> ResizeExtent(n, zf) == n && PadBefore(n, zf) == 0 && PadAfter(n, zf) == 0
  {
    if zf >= 1.0 {
      assert n as real * zf >= n as real * 1.0;
      TruncMonotone(n as real, n as real * zf);
    }
  }

  /** `max(0, int(n * zf) - n) // 2`: where the kept window starts in the enlarged image. */
  function WindowStart(n: nat, zf: real): int
  {
    Max(0, Trunc(n as real * zf) - n) / 2
  }

  /** `(v / zoom_factor).astype(int)`: a window bound mapped back to source pixels. */
  function BackToSource(v: int, zf: real): int
    requires zf != 0.0
  {
    Trunc(v as real / zf)
  }

  /** The source region cv2_clipped_zoom crops before resizing. */
  function ZoomOutCrop(img: Grid, height: nat, width: nat, zf: real): Grid
    requires zf != 0.0
  {
    Crop(img, BackToSource(WindowStart(height, zf), zf), BackToSource(WindowStart(height, zf) + height, zf),
              BackToSource(WindowStart(width, zf), zf), BackToSource(WindowStart(width, zf) + width, zf))
  }

  /** When shrinking (0 < zf <= 1) the whole image is kept: the window starts at 0 and
      its end maps back beyond the last row and column. */
  lemma ShrinkKeepsWholeImage(n: nat, zf: real)
    requires 0.0 < zf <= 1.0
    ensures WindowStart(n, zf) == 0 && BackToSource(0, zf) == 0
    ensures BackToSource(n, zf) >= n
  {
    TruncScaledWithin(n, zf);
    assert Max(0, Trunc(n as real * zf) - n) == 0;
    assert BackToSource(0, zf) == Trunc(0.0);
    QuotientAtLeast(n as real, zf);
    TruncMonotone(n as real, n as real / zf);
    assert Trunc(n as real) == n;
  }

  /** Dividing by a fraction in (0, 1] does not make a non-negative value smaller. */
  lemma QuotientAtLeast(x: real, f: real)
    requires 0.0 <= x && 0.0 < f <= 1.0
    ensures x / f >= x
  {
    var q := x / f;
    assert q * f == x;
    NonNegativeProduct(q, 1.0 - f);
    assert q - x == q * (1.0 - f);
  }

  /** The zoom-out step: crop, resize to (min(int(h*zf), h), min(int(w*zf), w)),
      zero-pad back to h x w, then zero every value below 1e-6. cv2.resize raises on an
      empty source or a non-positive target size. */
  function ZoomOut(img: Grid, height: nat, width: nat, zf: real, resize: (Grid, nat, nat) -> Grid): (r: Result<Grid>)
    requires zf != 0.0
    requires IsGrid(img, height, width)
    requires ResizesExactly(resize)
    ensures r.Err? <==> ResizeExtent(height, zf) <= 0 || ResizeExtent(width, zf) <= 0
                        || |ZoomOutCrop(img, height, width, zf)| == 0 || |ZoomOutCrop(img, height, width, zf)[0]| == 0
    ensures r.Ok? ==> IsGrid(r.value, height, width)
    ensures r.Ok? ==> forall i, j :: 0 <= i < height && 0 <= j < width ==>
      var (pt, pl) := (PadBefore(height, zf), PadBefore(width, zf));
      var resized := resize(ZoomOutCrop(img, height, width, zf), ResizeExtent(height, zf), ResizeExtent(width, zf));
      r.value[i][j] == if pt <= i < pt + ResizeExtent(height, zf) && pl <= j < pl + ResizeExtent(width, zf)
                       then DropTiny(resized[i - pt][j - pl]) else 0.0
  {
    var crop := ZoomOutCrop(img, height, width, zf);
    var rh, rw := ResizeExtent(height, zf), ResizeExtent(width, zf);
    if rh <= 0 || rw <= 0 || |crop| == 0 || |crop[0]| == 0 then Err(ForeignError("cv2.resize"))
    else
      PadsRestoreLength(height, zf);
      PadsRestoreLength(width, zf);
      var resized := resize(crop, rh, rw);
      Ok(DropTinyGrid(ZeroPad(resized, rw, PadBefore(height, zf), PadAfter(height, zf), PadBefore(width, zf), PadAfter(width, zf))))
  }

  /** cv2_clipped_zoom(img, zoom_factor): a factor of 0 returns the image itself. */
  function Cv2ClippedZoom(img: Grid, height: nat, width: nat, zf: real, resize: (Grid, nat, nat) -> Grid): (r: Result<Grid>)
    requires IsGrid(img, height, width)
    requires ResizesExactly(resize)
    ensures zf == 0.0 ==> r == Ok(img)
    ensures zf != 0.0 && r.Ok? ==> IsGrid(r.value, height, width)
    ensures zf != 0.0 && r.Ok? ==> forall i, j :: 0 <= i < height && 0 <= j < width ==> r.value[i][j] == 0.0 || r.value[i][j] >= 0.000001
    ensures zf < 0.0 ==> r.Err?
  {
    if zf == 0.0 then Ok(img)
    else
      assert zf < 0.0 ==> ResizeExtent(height, zf) <= 0 by {
        if zf < 0.0 {
          assert height as real * zf <= 0.0;
        }
      }
      ZoomOut(img, height, width, zf, resize)
  }

  // ---------------------------------------------------------------------------
  // image_zoom (percentages; negative zooms in)

  /** `int(n * zf) // 2`: half the side of the zoom-in window. */
  function HalfWindow(n: nat, zf: real): int
  {
    Trunc(n as real * zf) / 2
  }

  /** For a zoom-in of at most 100% the window `[n//2 - y1, n//2 + y1)` is centred
      inside the axis and no longer than int(n * zf). */
  lemma ZoomInWindowInside(n: nat, zf: real)
    requires 0.0 < zf <= 1.0
    ensures 0 <= n / 2 - HalfWindow(n, zf) <= n / 2 + HalfWindow(n, zf) <= n
    ensures 2 * HalfWindow(n, zf) <= Trunc(n as real * zf) <= n
  {
    TruncScaledWithin(n, zf);
    HalvesInside(n, Trunc(n as real * zf));
  }

  /** A window of half-side t // 2 centred at n // 2 fits in [0, n] when t <= n. */
  lemma HalvesInside(n: nat, t: int)
    requires 0 <= t <= n
    ensures 0 <= n / 2 - t / 2 <= n / 2 + t / 2 <= n
    ensures 2 * (t / 2) <= t
  {
  }

  /** `img[h//2 - y1 : h//2 + y1, w//2 - x1 : w//2 + x1]`: the window image_zoom crops
      when zooming in by the fraction zf. */
  function CentreCrop(img: Grid, height: nat, width: nat, zf: real): (r: Grid)
    ensures |r| <= |img|
    ensures IsGrid(img, height, width) ==> forall i :: 0 <= i < |r| ==> |r[i]| <= width
  {
    var y1, x1 := HalfWindow(height, zf), HalfWindow(width, zf);
    Crop(img, height / 2 - y1, height / 2 + y1, width / 2 - x1, width / 2 + x1)
  }

  /** For a zoom-in of at most 100% the crop is the 2*y1 x 2*x1 block of the image
      centred on (h//2, w//2). */
  lemma CentreCropInside(img: Grid, height: nat, width: nat, zf: real)
    requires IsGrid(img, height, width) && 0.0 < zf <= 1.0
    ensures var y1, x1 := HalfWindow(height, zf), HalfWindow(width, zf);
      && IsGrid(CentreCrop(img, height, width, zf), 2 * y1, 2 * x1)
      && forall i, j :: 0 <= i < 2 * y1 && 0 <= j < 2 * x1 ==>
           CentreCrop(img, height, width, zf)[i][j] == img[height / 2 - y1 + i][width / 2 - x1 + j]
  {
    var y1, x1 := HalfWindow(height, zf), HalfWindow(width, zf);
    ZoomInWindowInside(height, zf);
    ZoomInWindowInside(width, zf);
    CropShape(img, height, width, height / 2 - y1, height / 2 + y1, width / 2 - x1, width / 2 + x1);
  }

  /** image_zoom(img, zoom_factor) with the zoom as a percentage: 0 returns the image, a
      positive percentage zooms out exactly as cv2_clipped_zoom with zoom_factor / 100, and
      a negative one crops the centred window and resizes it back to h x w, failing in
      cv2.resize when that window is empty; values below 1e-6 become 0 in both cases. */
  function ImageZoom(img: Grid, height: nat, width: nat, percent: real, resize: (Grid, nat, nat) -> Grid): (r: Result<Grid>)
    requires IsGrid(img, height, width)
    requires ResizesExactly(resize)
    ensures percent == 0.0 ==> r == Ok(img)
    ensures percent > 0.0 ==> r == Cv2ClippedZoom(img, height, width, percent / 100.0, resize)
    ensures percent < 0.0 ==>
      var crop := CentreCrop(img, height, width, -1.0 * percent / 100.0);
      && (r.Err? <==> height == 0 || width == 0 || |crop| == 0 || |crop[0]| == 0)
      && (r.Ok? ==> IsGrid(r.value, height, width) && r.value == DropTinyGrid(resize(crop, height, width)))
    ensures percent != 0.0 && r.Ok? ==> forall i, j :: 0 <= i < height && 0 <= j < width ==> r.value[i][j] == 0.0 || r.value[i][j] >= 0.000001
  {
    if percent == 0.0 then Ok(img)
    else if percent > 0.0 then ZoomOut(img, height, width, percent / 100.0, resize)
    else
      var crop := CentreCrop(img, height, width, -1.0 * percent / 100.0);
      if height == 0 || width == 0 || |crop| == 0 || |crop[0]| == 0 then Err(ForeignError("cv2.resize"))
      else Ok(DropTinyGrid(resize(crop, height, width)))
  }

  /** A zoom-in of at most 100% fails exactly when the centred window is empty, that is
      when int(h * zf) or int(w * zf) is below 2; otherwise it is the centred block resized
      back to h x w. */
  lemma ZoomInOutcome(img: Grid, height: nat, width: nat, percent: real, resize: (Grid, nat, nat) -> Grid)
    requires IsGrid(img, height, width) && ResizesExactly(resize)
    requires -100.0 <= percent < 0.0
    ensures var zf := -1.0 * percent / 100.0;
      && (ImageZoom(img, height, width, percent, resize).Err?
          <==> HalfWindow(height, zf) == 0 || HalfWindow(width, zf) == 0)
      && (ImageZoom(img, height, width, percent, resize).Ok? ==>
          ImageZoom(img, height, width, percent, resize).value
          == DropTinyGrid(resize(CentreCrop(img, height, width, zf), height, width)))
  {
    var zf := -1.0 * percent / 100.0;
    assert 0.0 < zf <= 1.0;
    CentreCropInside(img, height, width, zf);
  }

  // ---------------------------------------------------------------------------
  // clipped_zoom (ndimage.zoom based)

  /** `out = np.zeros_like(img); out[top:top+zh, left:left+zw] = z`. */
  function Place(height: nat, width: nat, top: int, left: int, z: Grid, zh: nat, zw: nat): (r: Grid)
    requires IsGrid(z, zh, zw)
    requires 0 <= top && top + zh <= height && 0 <= left && left + zw <= width
    ensures IsGrid(r, height, width)
    ensures forall i, j :: 0 <= i < height && 0 <= j < width ==>
      r[i][j] == if top <= i < top + zh && left <= j < left + zw then z[i - top][j - left] else 0.0
  {
    ZeroPad(z, zw, top, height - top - zh, left, width - left - zw)
  }

  /** Rounding n * zf for 0 < zf < 1 stays within [0, n]. */
  lemma RoundedShrinkFits(n: nat, zf: real)
    requires 0.0 < zf < 1.0
    ensures ZoomedLength(n, zf) <= n
  {
    var x := n as real * zf;
    assert x <= n as real by {
      assert n as real * zf <= n as real * 1.0;
    }
    var r := RoundHalfEven(x);
    assert r as real <= x + 0.5;
    assert r <= n;
  }

  /** Rounding n / zf for zf > 1 stays within [0, n]. */
  lemma RoundedGrowFits(n: nat, zf: real)
    requires zf > 1.0
    ensures 0 <= RoundHalfEven(n as real / zf) <= n
  {
    assert n as real / zf <= n as real by {
      assert (n as real / zf) * zf == n as real;
      assert (n as real / zf) * zf >= (n as real / zf) * 1.0;
    }
    var r := RoundHalfEven(n as real / zf);
    assert r as real <= n as real + 0.5;
  }

  /** ndimage.zoom's size promise, for one image. */
  lemma ZoomShape(zoom: (Grid, real) -> Grid, g: Grid, zf: real, rows: nat, cols: nat)
    requires ZoomsToRoundedSize(zoom)
    requires zf > 0.0 && IsGrid(g, rows, cols)
    ensures IsGrid(zoom(g, zf), ZoomedLength(rows, zf), ZoomedLength(cols, zf))
  {
  }

  /** The side clipped_zoom's shrink branch gives the zoomed image: round(n * zf). */
  function ShrunkExtent(n: nat, zf: real): (r: int)
    requires 0.0 < zf < 1.0
    ensures 0 <= r <= n
  {
    RoundedShrinkFits(n, zf);
    ZoomedLength(n, zf)
  }

  /** The side of the centred window clipped_zoom's grow branch zooms: round(n / zf). */
  function WindowExtent(n: nat, zf: real): (r: int)
    requires zf > 1.0
    ensures 0 <= r <= n
  {
    RoundedGrowFits(n, zf);
    RoundHalfEven(n as real / zf)
  }

  /** The side of the zoomed window: round(round(n / zf) * zf), which rounding can make
      smaller than n. */
  function GrownExtent(n: nat, zf: real): (r: int)
    requires zf > 1.0
    ensures r >= 0
  {
    ZoomedLength(WindowExtent(n, zf), zf)
  }

  /** The shrink branch of clipped_zoom: `out = zeros; out[top:top+zh, left:left+zw] = zoom(img)`. */
  function ShrinkIntoZeros(img: Grid, height: nat, width: nat, zf: real, zoom: (Grid, real) -> Grid): (r: Grid)
    requires IsGrid(img, height, width)
    requires ZoomsToRoundedSize(zoom)
    requires 0.0 < zf < 1.0
    ensures IsGrid(r, height, width)
    ensures forall i, j :: 0 <= i < height && 0 <= j < width ==>
      var (top, left) := ((height - ShrunkExtent(height, zf)) / 2, (width - ShrunkExtent(width, zf)) / 2);
      r[i][j] == if top <= i < top + ShrunkExtent(height, zf) && left <= j < left + ShrunkExtent(width, zf)
                 then zoom(img, zf)[i - top][j - left] else 0.0
  {
    var zh, zw := ShrunkExtent(height, zf), ShrunkExtent(width, zf);
    var z := zoom(img, zf);
    assert IsGrid(z, zh, zw);
    Place(height, width, (height - zh) / 2, (width - zw) / 2, z, zh, zw)
  }

  /** The centre window clipped_zoom's grow branch cuts out: `img[top:top+zh, left:left+zw]`. */
  function CentreWindow(img: Grid, height: nat, width: nat, zf: real): (r: Grid)
    requires IsGrid(img, height, width)
    requires zf > 1.0
    ensures IsGrid(r, WindowExtent(height, zf), WindowExtent(width, zf))
  {
    var zh, zw := WindowExtent(height, zf), WindowExtent(width, zf);
    var top, left := (height - zh) / 2, (width - zw) / 2;
    CropShape(img, height, width, top, top + zh, left, left + zw);
    Crop(img, top, top + zh, left, left + zw)
  }

  /** The zoomed centre window of clipped_zoom's grow branch, before trimming. */
  function GrownWindow(img: Grid, height: nat, width: nat, zf: real, zoom: (Grid, real) -> Grid): (r: Grid)
    requires IsGrid(img, height, width)
    requires ZoomsToRoundedSize(zoom)
    requires zf > 1.0
    ensures IsGrid(r, GrownExtent(height, zf), GrownExtent(width, zf))
  {
    var window := CentreWindow(img, height, width, zf);
    ZoomShape(zoom, window, zf, WindowExtent(height, zf), WindowExtent(width, zf));
    zoom(window, zf)
  }

  /** The grow branch as written: `trim_top = (out_h - h) // 2; out[trim_top:trim_top+h, ...]`.
      It keeps h rows when the zoomed window has at least h rows, and fewer otherwise. */
  function GrowAndTrimAsWritten(img: Grid, height: nat, width: nat, zf: real, zoom: (Grid, real) -> Grid): (r: Grid)
    requires IsGrid(img, height, width)
    requires ZoomsToRoundedSize(zoom)
    requires zf > 1.0
    ensures GrownExtent(height, zf) >= height ==> |r| == height
    ensures GrownExtent(height, zf) < height ==> |r| < height
    ensures GrownExtent(width, zf) < width ==> forall i :: 0 <= i < |r| ==> |r[i]| < width
  {
    var z := GrownWindow(img, height, width, zf, zoom);
    var oh, ow := GrownExtent(height, zf), GrownExtent(width, zf);
    var trimTop, trimLeft := FloorDiv(oh - height, 2), FloorDiv(ow - width, 2);
    Crop(z, trimTop, trimTop + height, trimLeft, trimLeft + width)
  }

  /** `np.zeros_like(img)` for an h x w image. */
  function ZeroGrid(height: nat, width: nat): (r: Grid)
    ensures IsGrid(r, height, width)
    ensures forall i, j :: 0 <= i < height && 0 <= j < width ==> r[i][j] == 0.0
  {
    seq(height, _ => Zeros(width))
  }

  /** clipped_zoom(img, zf) as written. Below 1 the zoomed image is placed centred in
      zeros, above 1 the zoomed centre window is trimmed, and exactly 1 returns the image.
      A factor of 0 takes the shrink branch with an empty box, so only the zeros are left;
      a negative factor asks ndimage.zoom for a negative size, which fails. */
  function ClippedZoomAsWritten(img: Grid, height: nat, width: nat, zf: real, zoom: (Grid, real) -> Grid): (r: Result<Grid>)
    requires IsGrid(img, height, width)
    requires ZoomsToRoundedSize(zoom)
    ensures zf < 0.0 <==> r.Err?
    ensures zf == 0.0 ==> r == Ok(ZeroGrid(height, width))
    ensures zf == 1.0 ==> r == Ok(img)
    ensures 0.0 < zf < 1.0 ==> r == Ok(ShrinkIntoZeros(img, height, width, zf, zoom))
    ensures zf > 1.0 ==> r == Ok(GrowAndTrimAsWritten(img, height, width, zf, zoom))
  {
    if zf < 0.0 then Err(ForeignError("ndimage.zoom"))
    else if zf == 0.0 then Ok(ZeroGrid(height, width))
    else if zf < 1.0 then Ok(ShrinkIntoZeros(img, height, width, zf, zoom))
    else if zf > 1.0 then Ok(GrowAndTrimAsWritten(img, height, width, zf, zoom))
    else Ok(img)
  }

  /** A 25 x 25 image zoomed by 1.75 (one of randomly_zoom's factors): the centred window
      is 14 x 14, ndimage.zoom returns round(24.5) = 24 rows, trim_top is (24 - 25) // 2 = -1,
      and the slice `out[-1:24]` keeps a single row instead of 25. */
  lemma ClippedZoomLosesRows(img: Grid, zoom: (Grid, real) -> Grid)
    requires IsGrid(img, 25, 25)
    requires ZoomsToRoundedSize(zoom)
    ensures ClippedZoomAsWritten(img, 25, 25, 1.75, zoom).Ok?
    ensures |ClippedZoomAsWritten(img, 25, 25, 1.75, zoom).value| == 1
  {
    assert WindowExtent(25, 1.75) == 14 by {
      assert 25.0 / 1.75 == 14.0 + 2.0 / 7.0;
    }
    assert GrownExtent(25, 1.75) == 24 by {
      assert 14 as real * 1.75 == 24.5;
    }
    var z := GrownWindow(img, 25, 25, 1.75, zoom);
    assert PySlice(z, -1, 24) == z[23..24];
  }

  /** `out[trim:trim+n]` made to hold for a zoomed image shorter than the input too:
      centre-crop when longer, centre-pad with zeros when shorter. */
  function FitCentred(z: Grid, zh: nat, zw: nat, height: nat, width: nat): (r: Grid)
    requires IsGrid(z, zh, zw)
    ensures IsGrid(r, height, width)
    ensures forall i, j :: 0 <= i < height && 0 <= j < width ==>
      var (si, sj) := (i + FloorDiv(zh - height, 2), j + FloorDiv(zw - width, 2));
      r[i][j] == if 0 <= si < zh && 0 <= sj < zw then z[si][sj] else 0.0
  {
    var dt, dl := FloorDiv(zh - height, 2), FloorDiv(zw - width, 2);
    seq(height, i requires 0 <= i < height =>
      seq(width, j requires 0 <= j < width =>
        if 0 <= i + dt < zh && 0 <= j + dl < zw then z[i + dt][j + dl] else 0.0))
  }

  /** Where the zoomed image is at least as large as the input, centring by FitCentred is
      exactly the trim clipped_zoom performs. */
  lemma FitCentredAgreesWhenLarger(z: Grid, zh: nat, zw: nat, height: nat, width: nat)
    requires IsGrid(z, zh, zw) && zh >= height && zw >= width
    ensures FitCentred(z, zh, zw, height, width)
            == Crop(z, FloorDiv(zh - height, 2), FloorDiv(zh - height, 2) + height, FloorDiv(zw - width, 2), FloorDiv(zw - width, 2) + width)
  {
    var dt, dl := FloorDiv(zh - height, 2), FloorDiv(zw - width, 2);
    var c := Crop(z, dt, dt + height, dl, dl + width);
    var f := FitCentred(z, zh, zw, height, width);
    assert 0 <= dt && dt + height <= zh && 0 <= dl && dl + width <= zw;
    CropShape(z, zh, zw, dt, dt + height, dl, dl + width);
    assert |f| == height == |c|;
    forall i | 0 <= i < height ensures f[i] == c[i] {
      FitCentredRow(z, zh, zw, height, width, i);
      CropRow(z, zh, zw, dt, dt + height, dl, dl + width, i);
    }
  }

  lemma FitCentredRow(z: Grid, zh: nat, zw: nat, height: nat, width: nat, i: nat)
    requires IsGrid(z, zh, zw) && zh >= height && zw >= width && i < height
    ensures var dt, dl := FloorDiv(zh - height, 2), FloorDiv(zw - width, 2);
      FitCentred(z, zh, zw, height, width)[i] == z[dt + i][dl..dl + width]
  {
  }

  lemma CropRow(z: Grid, zh: nat, zw: nat, r0: nat, r1: nat, c0: nat, c1: nat, i: nat)
    requires IsGrid(z, zh, zw) && r0 <= r1 <= zh && c0 <= c1 <= zw && i < r1 - r0
    ensures |Crop(z, r0, r1, c0, c1)| == r1 - r0
    ensures Crop(z, r0, r1, c0, c1)[i] == z[r0 + i][c0..c1]
  {
  }

  /** clipped_zoom with the trim corrected to FitCentred: the result always keeps the
      input's h x w shape, and it is what clipped_zoom computes whenever that already does. */
  function ClippedZoom(img: Grid, height: nat, width: nat, zf: real, zoom: (Grid, real) -> Grid): (r: Result<Grid>)
    requires IsGrid(img, height, width)
    requires ZoomsToRoundedSize(zoom)
    ensures zf < 0.0 <==> r.Err?
    ensures r.Ok? ==> IsGrid(r.value, height, width)
    ensures zf <= 1.0 ==> r == ClippedZoomAsWritten(img, height, width, zf, zoom)
    ensures zf > 1.0 && GrownExtent(height, zf) >= height && GrownExtent(width, zf) >= width
            ==> r == ClippedZoomAsWritten(img, height, width, zf, zoom)
  {
    if zf > 1.0 then
      var z := GrownWindow(img, height, width, zf, zoom);
      var oh, ow := GrownExtent(height, zf), GrownExtent(width, zf);
      if oh >= height && ow >= width then
        FitCentredAgreesWhenLarger(z, oh, ow, height, width);
        Ok(FitCentred(z, oh, ow, height, width))
      else
        Ok(FitCentred(z, oh, ow, height, width))
    else ClippedZoomAsWritten(img, height, width, zf, zoom)
  }

  // ---------------------------------------------------------------------------
  // Clamping into [0, 1] (scipy_rotate, randomly_zoom)

  function ClampUnit(v: real): (r: real)
    ensures 0.0 <= r <= 1.0
    ensures 0.0 <= v <= 1.0 ==> r == v
  {
    Clamp(v, 0.0, 1.0)
  }

  /** `volume[volume < 0] = 0; volume[volume > 1] = 1` on the flattened volume, as
      scipy_rotate (in both files) applies it to ndimage.rotate's output and randomly_zoom
      to clipped_zoom's. */
  method ClampUnitInPlace(volume: array<real>)
    modifies volume
    ensures forall k :: 0 <= k < volume.Length ==> volume[k] == ClampUnit(old(volume[k]))
    ensures forall k :: 0 <= k < volume.Length ==> 0.0 <= volume[k] <= 1.0
  {
    var k := 0;
    while k < volume.Length
      invariant 0 <= k <= volume.Length
      invariant forall m :: 0 <= m < k ==> volume[m] == if old(volume[m]) < 0.0 then 0.0 else old(volume[m])
      invariant forall m :: k <= m < volume.Length ==> volume[m] == old(volume[m])
    {
      if volume[k] < 0.0 {
        volume[k] := 0.0;
      }
      k := k + 1;
    }
    k := 0;
    while k < volume.Length
      invariant 0 <= k <= volume.Length
      invariant forall m :: 0 <= m < k ==> volume[m] == ClampUnit(old(volume[m]))
      invariant forall m :: k <= m < volume.Length ==> volume[m] == if old(volume[m]) < 0.0 then 0.0 else old(volume[m])
    {
      if volume[k] > 1.0 {
        volume[k] := 1.0;
      }
      k := k + 1;
    }
  }

  /** The factors randomly_zoom picks from. */
  function ZoomFactors(): seq<real>
  {
    [1.75, 1.5, 1.25, 0.75, 0.85]
  }

  /** Every value of an image clamped into [0, 1], whatever its row lengths. */
  function ClampGrid(g: Grid): (r: Grid)
    ensures |r| == |g|
    ensures forall i :: 0 <= i < |g| ==> |r[i]| == |g[i]|
    ensures forall i, j :: 0 <= i < |g| && 0 <= j < |g[i]| ==> r[i][j] == ClampUnit(g[i][j])
  {
    seq(|g|, i requires 0 <= i < |g| => seq(|g[i]|, j requires 0 <= j < |g[i]| => ClampUnit(g[i][j])))
  }

  /** randomly_zoom(volume) with the drawn factor given by `draw`: clipped_zoom as written,
      then clamping into [0, 1]. The zoomed-out factors keep the volume's shape; a
      zoomed-in one keeps its rows only when rounding leaves the zoomed window at least as
      tall as the volume. */
  function RandomlyZoom(img: Grid, height: nat, width: nat, draw: nat, zoom: (Grid, real) -> Grid): (r: Grid)
    requires IsGrid(img, height, width)
    requires ZoomsToRoundedSize(zoom)
    ensures var zf := ZoomFactors()[draw % 5];
      var z := ClippedZoomAsWritten(img, height, width, zf, zoom);
      && z.Ok? && |r| == |z.value|
      && (forall i :: 0 <= i < |r| ==> |r[i]| == |z.value[i]|)
      && (forall i, j :: 0 <= i < |r| && 0 <= j < |r[i]| ==> r[i][j] == ClampUnit(z.value[i][j]))
    ensures forall i, j :: 0 <= i < |r| && 0 <= j < |r[i]| ==> 0.0 <= r[i][j] <= 1.0
    ensures ZoomFactors()[draw % 5] < 1.0 ==> IsGrid(r, height, width)
    ensures var zf := ZoomFactors()[draw % 5];
      zf > 1.0 ==> (|r| == height <==> GrownExtent(height, zf) >= height)
  {
    var zf := ZoomFactors()[draw % 5];
    ClampGrid(ClippedZoomAsWritten(img, height, width, zf, zoom).value)
  }

  /** With factor 1.75 drawn, a 25 x 25 volume comes back from randomly_zoom as one row. */
  lemma RandomlyZoomLosesRows(img: Grid, zoom: (Grid, real) -> Grid)
    requires IsGrid(img, 25, 25)
    requires ZoomsToRoundedSize(zoom)
    ensures |RandomlyZoom(img, 25, 25, 0, zoom)| == 1
  {
    ClippedZoomLosesRows(img, zoom);
  }

  /** randomly_zoom on the corrected clipped_zoom: whatever factor is drawn, the result
      keeps the volume's shape and lies within [0, 1], and it is randomly_zoom's result
      whenever that keeps the shape. */
  function RandomlyZoomCorrected(img: Grid, height: nat, width: nat, draw: nat, zoom: (Grid, real) -> Grid): (r: Grid)
    requires IsGrid(img, height, width)
    requires ZoomsToRoundedSize(zoom)
    ensures IsGrid(r, height, width)
    ensures forall i, j :: 0 <= i < height && 0 <= j < width ==> 0.0 <= r[i][j] <= 1.0
    ensures IsGrid(RandomlyZoom(img, height, width, draw, zoom), height, width) ==> r == RandomlyZoom(img, height, width, draw, zoom)
  {
    var zf := ZoomFactors()[draw % 5];
    ClampGrid(ClippedZoom(img, height, width, zf, zoom).value)
  }
}
