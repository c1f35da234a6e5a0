/** In-place raster edits of utils/image_functions.py: change_bordersvaluesasna, which
    masks a border of a 2-D array with NaN, and radial_filter, which keeps only the pixels
    reached by rays cast from the image centre. The rays (skimage's line_aa from the centre
    to a point on a circle) are an input, one sequence of (row, column) pixels per angle. */
module Raster {
  import opened Common
  import opened Polar

  // ---------------------------------------------------------------------------
  // change_bordersvaluesasna

  /** Whether cell (i, j) is hit by one of the four slice assignments
      `a[h-bx:h, :]`, `a[:, w-by:w]`, `a[:, 0:by]`, `a[0:bx, :]`. */
  predicate Masked(i: int, j: int, h: nat, w: nat, bRows: int, bCols: int)
  {
    InSlice(i, h - bRows, h, h) || InSlice(i, 0, bRows, h) || InSlice(j, w - bCols, w, w) || InSlice(j, 0, bCols, w)
  }

  /** `a[lo:hi, :] = nan`. */
  method MaskRows(a: array2<Option<real>>, lo: int, hi: int)
    modifies a
    ensures forall i, j :: 0 <= i < a.Length0 && 0 <= j < a.Length1 ==>
      a[i, j] == if InSlice(i, lo, hi, a.Length0) then None else old(a[i, j])
  {
    var start, stop := SliceBound(lo, a.Length0), SliceBound(hi, a.Length0);
    for i := start to if start <= stop then stop else start
      invariant forall r, c :: 0 <= r < a.Length0 && 0 <= c < a.Length1 ==>
        a[r, c] == if start <= r < i then None else old(a[r, c])
    {
      for j := 0 to a.Length1
        invariant forall r, c :: 0 <= r < a.Length0 && 0 <= c < a.Length1 ==>
          a[r, c] == if start <= r < i || (r == i && c < j) then None else old(a[r, c])
      {
        a[i, j] := None;
      }
    }
  }

  /** `a[:, lo:hi] = nan`. */
  method MaskColumns(a: array2<Option<real>>, lo: int, hi: int)
    modifies a
    ensures forall i, j :: 0 <= i < a.Length0 && 0 <= j < a.Length1 ==>
      a[i, j] == if InSlice(j, lo, hi, a.Length1) then None else old(a[i, j])
  {
    var start, stop := SliceBound(lo, a.Length1), SliceBound(hi, a.Length1);
    for i := 0 to a.Length0
      invariant forall r, c :: 0 <= r < a.Length0 && 0 <= c < a.Length1 ==>
        a[r, c] == if r < i && start <= c < stop then None else old(a[r, c])
    {
      for j := start to if start <= stop then stop else start
        invariant forall r, c :: 0 <= r < a.Length0 && 0 <= c < a.Length1 ==>
          a[r, c] == if (r < i || (r == i && c < j)) && start <= c < stop then None else old(a[r, c])
      {
        a[i, j] := None;
      }
    }
  }

  /** change_bordersvaluesasna(a, bufferna): `bx = int(h * bufferna / 100)` rows and
      `by = int(w * bufferna / 100)` columns at each edge become NaN, in place. */
  method ChangeBordersToNaN(a: array2<Option<real>>, bufferna: real)
    modifies a
    ensures forall i, j :: 0 <= i < a.Length0 && 0 <= j < a.Length1 ==>
      a[i, j] == if Masked(i, j, a.Length0, a.Length1, BorderWidth(a.Length0, bufferna), BorderWidth(a.Length1, bufferna))
                 then None else old(a[i, j])
  {
    var h, w := a.Length0, a.Length1;
    var bRows, bCols := BorderWidth(h, bufferna), BorderWidth(w, bufferna);
    MaskRows(a, h - bRows, h);
    MaskColumns(a, w - bCols, w);
    MaskColumns(a, 0, bCols);
    MaskRows(a, 0, bRows);
  }

  /** `int(n * (bufferna / 100))`. */
  function BorderWidth(n: nat, bufferna: real): int
  {
    Trunc(n as real * (bufferna / 100.0))
  }

  /** For a border of at most the axis length, the masked cells are exactly the first and
      last bx rows and the first and last by columns. */
  lemma MaskedIsBorder(i: int, j: int, h: nat, w: nat, bRows: int, bCols: int)
    requires 0 <= i < h && 0 <= j < w
    requires 0 <= bRows <= h && 0 <= bCols <= w
    ensures Masked(i, j, h, w, bRows, bCols) <==> i < bRows || i >= h - bRows || j < bCols || j >= w - bCols
  {
  }

  /** A buffer of 0 to 100 percent gives a border between none and the whole axis. */
  lemma BorderWithinAxis(n: nat, bufferna: real)
    requires 0.0 <= bufferna <= 100.0
    ensures 0 <= BorderWidth(n, bufferna) <= n
  {
    TruncScaledWithin(n, bufferna / 100.0);
  }

  /** A border of the whole axis or more (a buffer above 100 percent) masks every cell. */
  lemma WideBorderMasksAll(i: int, j: int, h: nat, w: nat, bRows: int, bCols: int)
    requires 0 <= i < h && 0 <= j < w && bRows >= h
    ensures Masked(i, j, h, w, bRows, bCols)
  {
  }

  // ---------------------------------------------------------------------------
  // radial_filter

  /** The copy radial_filter reads from: the input, with its centre pixel set to 0 when it
      is NaN even at the hull centre. */
  function RadialSource(img: Band, hull: Band -> (int, int)): (r: Band)
    requires WellFormed(img) && HullInside(hull)
    ensures WellFormed(r) && |r| == |img| && |r[0]| == |img[0]|
    ensures forall i, j :: 0 <= i < |img| && 0 <= j < |img[0]| && (i, j) != HullCentre(img, hull) ==> r[i][j] == img[i][j]
    ensures var (cy, cx) := HullCentre(img, hull); r[cy][cx] == if img[cy][cx].None? then Some(0.0) else img[cy][cx]
  {
    var (cy, cx) := HullCentre(img, hull);
    if img[cy][cx].None? then img[cy := img[cy][cx := Some(0.0)]] else img
  }

  /** The cells one ray writes, from its k-th pixel on with `countna` NaNs in a row so far:
      the walk breaks at the first pixel outside the image or once countna reaches the
      threshold, skips NaNs and writes every valid pixel. */
  ghost function RayWrites(src: Band, ray: seq<(int, int)>, k: nat, countna: int, threshold: int): set<(int, int)>
    requires WellFormed(src)
    decreases |ray| - k
  {
    if k >= |ray| then {}
    else
      var (i, j) := ray[k];
      if !(i < |src| && j < |src[0]| && j >= 0 && i >= 0) then {}
      else if countna >= threshold then {}
      else if src[i][j].None? then RayWrites(src, ray, k + 1, countna + 1, threshold)
      else {(i, j)} + RayWrites(src, ray, k + 1, 0, threshold)
  }

  /** The cells written by the first n rays. */
  ghost function Written(src: Band, rays: seq<seq<(int, int)>>, n: nat, threshold: int): set<(int, int)>
    requires WellFormed(src) && n <= |rays|
  {
    if n == 0 then {} else Written(src, rays, n - 1, threshold) + RayWrites(src, rays[n - 1], 0, 0, threshold)
  }

  /** Only valid pixels inside the image are written. */
  lemma {:induction false} RayWritesValid(src: Band, ray: seq<(int, int)>, k: nat, countna: int, threshold: int)
    requires WellFormed(src)
    ensures forall p :: p in RayWrites(src, ray, k, countna, threshold) ==>
      0 <= p.0 < |src| && 0 <= p.1 < |src[0]| && src[p.0][p.1].Some?
    decreases |ray| - k
  {
    if k < |ray| {
      var (i, j) := ray[k];
      if i < |src| && j < |src[0]| && j >= 0 && i >= 0 && countna < threshold {
        RayWritesValid(src, ray, k + 1, if src[i][j].None? then countna + 1 else 0, threshold);
      }
    }
  }

  lemma {:induction false} WrittenValid(src: Band, rays: seq<seq<(int, int)>>, n: nat, threshold: int)
    requires WellFormed(src) && n <= |rays|
    ensures forall p :: p in Written(src, rays, n, threshold) ==>
      0 <= p.0 < |src| && 0 <= p.1 < |src[0]| && src[p.0][p.1].Some?
  {
    if n > 0 {
      WrittenValid(src, rays, n - 1, threshold);
      RayWritesValid(src, rays[n - 1], 0, 0, threshold);
    }
  }

  /** The first pixel of a ray outside the image ends it: nothing from there on is written,
      even pixels that come back inside. */
  lemma {:induction false} RayStopsAtBorder(src: Band, ray: seq<(int, int)>, k: nat, countna: int, threshold: int, m: nat)
    requires WellFormed(src) && k <= m < |ray|
    requires var (i, j) := ray[m]; !(0 <= i < |src| && 0 <= j < |src[0]|)
    ensures RayWrites(src, ray, k, countna, threshold) == RayWrites(src, ray[..m], k, countna, threshold)
    decreases m - k
  {
    if k < m {
      var (i, j) := ray[k];
      assert ray[..m][k] == ray[k];
      if i < |src| && j < |src[0]| && j >= 0 && i >= 0 && countna < threshold {
        RayStopsAtBorder(src, ray, k + 1, if src[i][j].None? then countna + 1 else 0, threshold, m);
      }
    }
  }

  /** One ray of the `for i, j in zip(rr, cc)` loop, writing into modimg. */
  method TraceRay(modimg: array2<Option<real>>, src: Band, ray: seq<(int, int)>, threshold: int)
    requires WellFormed(src) && modimg.Length0 == |src| && modimg.Length1 == |src[0]|
    modifies modimg
    ensures forall i, j :: 0 <= i < modimg.Length0 && 0 <= j < modimg.Length1 ==>
      modimg[i, j] == if (i, j) in RayWrites(src, ray, 0, 0, threshold) then src[i][j] else old(modimg[i, j])
  {
    var countna := 0;
    var k := 0;
    ghost var done: set<(int, int)> := {};
    while k < |ray|
      invariant 0 <= k <= |ray|
      invariant done + RayWrites(src, ray, k, countna, threshold) == RayWrites(src, ray, 0, 0, threshold)
      invariant forall i, j :: 0 <= i < modimg.Length0 && 0 <= j < modimg.Length1 ==>
        modimg[i, j] == if (i, j) in done then src[i][j] else old(modimg[i, j])
    {
      var (i, j) := ray[k];
      if !(i < |src| && j < |src[0]| && j >= 0 && i >= 0) {
        break;
      }
      if countna >= threshold {
        break;
      }
      if src[i][j].None? {
        countna := countna + 1;
      } else {
        modimg[i, j] := src[i][j];
        done := done + {(i, j)};
        countna := 0;
      }
      k := k + 1;
    }
  }

  /** radial_filter(nparray): a fresh NaN array of the input's shape into which every ray
      copies the valid pixels it passes. The caller's image is a value and stays as it was. */
  method RadialFilter(img: Band, rays: seq<seq<(int, int)>>, threshold: int, hull: Band -> (int, int)) returns (modimg: array2<Option<real>>)
    requires WellFormed(img) && HullInside(hull)
    ensures fresh(modimg) && modimg.Length0 == |img| && modimg.Length1 == |img[0]|
    ensures forall i, j :: 0 <= i < |img| && 0 <= j < |img[0]| ==>
      modimg[i, j] == if (i, j) in Written(RadialSource(img, hull), rays, |rays|, threshold)
                      then RadialSource(img, hull)[i][j] else None
    ensures forall i, j :: 0 <= i < |img| && 0 <= j < |img[0]| && modimg[i, j].Some? ==>
      modimg[i, j] == RadialSource(img, hull)[i][j]
  {
    var src := RadialSource(img, hull);
    modimg := new Option<real>[|img|, |img[0]|]((_, _) => None);
    for r := 0 to |rays|
      invariant forall i, j :: 0 <= i < |img| && 0 <= j < |img[0]| ==>
        modimg[i, j] == if (i, j) in Written(src, rays, r, threshold) then src[i][j] else None
    {
      TraceRay(modimg, src, rays[r], threshold);
    }
    WrittenValid(src, rays, |rays|, threshold);
  }

  /** Every value radial_filter keeps is the input pixel at the same place, except at the
      centre, where a NaN centre pixel becomes 0. */
  lemma RadialKeepsInputValues(img: Band, hull: Band -> (int, int), i: int, j: int, v: Option<real>)
    requires WellFormed(img) && HullInside(hull)
    requires 0 <= i < |img| && 0 <= j < |img[0]|
    requires v.Some? && v == RadialSource(img, hull)[i][j]
    ensures v == img[i][j] || ((i, j) == HullCentre(img, hull) && img[i][j].None? && v == Some(0.0))
  {
  }
}
