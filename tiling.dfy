/** Tile offsets, tile lists and augmentation parameter combinatorics of
    ImagesTransform/image_functions.py. Images are row-major grids of pixels of
    any type; the pixel operations of OpenCV are passed in as functions. */
module Tiling {
  import opened Common

  // ---------------------------------------------------------------------------
  // start_points

  /** `int(split_size * (1 - overlap))`, the distance between consecutive offsets. */
  function Stride(splitSize: int, overlap: real): int
  {
    Trunc(splitSize as real * (1.0 - overlap))
  }

  /** The `while True` loop of start_points reaches its `break` exactly when the
      stride is positive or the very first offset already reaches the end of the axis. */
  predicate Terminates(size: int, splitSize: int, stride: int)
  {
    stride > 0 || stride + splitSize >= size
  }

  /** Offsets `stride*k, stride*(k+1), ...` up to and including the first one
      whose tile reaches the end of the axis. */
  function OffsetsFrom(size: int, splitSize: int, stride: int, k: nat): (r: seq<int>)
    requires Terminates(size, splitSize, stride)
    requires k >= 1 && (stride <= 0 ==> k == 1)
    ensures |r| >= 1
    decreases if stride > 0 then size - splitSize - stride * k else 0
  {
    var pt := stride * k;
    if pt + splitSize >= size then [pt]
    else
      assert stride > 0;
      [pt] + OffsetsFrom(size, splitSize, stride, k + 1)
  }

  /** The list start_points returns. */
  function Offsets(size: int, splitSize: int, stride: int): seq<int>
    requires Terminates(size, splitSize, stride)
  {
    [0] + OffsetsFrom(size, splitSize, stride, 1)
  }

  /** What start_points promises about its result: it starts at 0, consecutive
      offsets are one stride apart, every offset strictly between the first and the
      last leaves room for a whole tile, and the last one does not (it is not clamped
      to size - split_size, so its tile may overrun the axis). */
  ghost predicate IsStartPoints(points: seq<int>, size: int, splitSize: int, stride: int)
  {
    && |points| >= 2
    && (forall i :: 0 <= i < |points| ==> points[i] == stride * i)
    && (forall i :: 1 <= i < |points| - 1 ==> points[i] + splitSize < size)
    && points[|points| - 1] + splitSize >= size
  }

  lemma {:induction false} OffsetsFromShape(size: int, splitSize: int, stride: int, k: nat)
    requires Terminates(size, splitSize, stride)
    requires k >= 1 && (stride <= 0 ==> k == 1)
    ensures var r := OffsetsFrom(size, splitSize, stride, k);
            && (forall i :: 0 <= i < |r| ==> r[i] == stride * (k + i))
            && (forall i :: 0 <= i < |r| - 1 ==> r[i] + splitSize < size)
            && r[|r| - 1] + splitSize >= size
    decreases if stride > 0 then size - splitSize - stride * k else 0
  {
    var r := OffsetsFrom(size, splitSize, stride, k);
    if stride * k + splitSize < size {
      OffsetsFromShape(size, splitSize, stride, k + 1);
      var t := OffsetsFrom(size, splitSize, stride, k + 1);
      assert r == [stride * k] + t;
      forall i | 1 <= i < |r| ensures r[i] == stride * (k + i) {
        assert r[i] == t[i - 1];
      }
    }
  }

  /** start_points satisfies its promise. */
  lemma OffsetsAreStartPoints(size: int, splitSize: int, stride: int)
    requires Terminates(size, splitSize, stride)
    ensures IsStartPoints(Offsets(size, splitSize, stride), size, splitSize, stride)
  {
    OffsetsFromShape(size, splitSize, stride, 1);
    var r := OffsetsFrom(size, splitSize, stride, 1);
    var p := Offsets(size, splitSize, stride);
    forall i | 1 <= i < |p| ensures p[i] == stride * i {
      assert p[i] == r[i - 1];
    }
  }

  /** The promise determines the offsets completely. */
  lemma {:induction false} StartPointsUnique(p: seq<int>, q: seq<int>, size: int, splitSize: int, stride: int)
    requires IsStartPoints(p, size, splitSize, stride) && IsStartPoints(q, size, splitSize, stride)
    ensures p == q
  {
    assert forall i :: 0 <= i < |p| && i < |q| ==> p[i] == q[i];
  }

  /** When the loop does not terminate, no offset it computes ever ends it:
      with a stride of 0 (or below) and a tile shorter than the axis, start_points runs forever. */
  lemma NeverEnds(size: int, splitSize: int, stride: int, counter: nat)
    requires !Terminates(size, splitSize, stride)
    requires counter >= 1
    ensures stride * counter + splitSize < size
  {
    assert stride * counter <= stride * 1 by {
      assert stride * (counter - 1) <= 0;
    }
  }

  /** A 1000-pixel axis split into 300-pixel tiles with 10% overlap starts tiles at
      0, 270, 540 and 810: the last tile overruns the axis by 110 pixels. */
  lemma ThousandByThreeHundred()
    ensures Stride(300, 0.1) == 270
    ensures Offsets(1000, 300, 270) == [0, 270, 540, 810]
  {
    assert 300.0 * (1.0 - 0.1) == 270.0;
    OffsetsAreStartPoints(1000, 300, 270);
    var p := Offsets(1000, 300, 270);
    assert |p| == 4;
  }

  /** start_points(size, split_size, overlap). */
  method StartPoints(size: int, splitSize: int, overlap: real) returns (points: seq<int>)
    requires Terminates(size, splitSize, Stride(splitSize, overlap))
    ensures points == Offsets(size, splitSize, Stride(splitSize, overlap))
  {
    points := [0];
    var stride := Stride(splitSize, overlap);
    var counter := 1;
    while true
      invariant counter >= 1 && (stride <= 0 ==> counter == 1)
      invariant points + OffsetsFrom(size, splitSize, stride, counter) == Offsets(size, splitSize, stride)
      invariant |points| == counter
      decreases if stride > 0 then size - splitSize - stride * counter else 0
    {
      var pt := stride * counter;
      if pt + splitSize >= size {
        points := points + [pt];
        break;
      } else {
        points := points + [pt];
      }
      counter := counter + 1;
    }
  }

  // ---------------------------------------------------------------------------
  // itertools.product

  /** The pairs (x, y) for y in ys. */
  function Row<A, B>(x: A, ys: seq<B>): (r: seq<(A, B)>)
    ensures |r| == |ys|
    ensures forall k :: 0 <= k < |ys| ==> r[k] == (x, ys[k])
  {
    seq(|ys|, k requires 0 <= k < |ys| => (x, ys[k]))
  }

  /** `itertools.product(xs, ys)`: the first factor varies slowest. */
  function Pairs<A, B>(xs: seq<A>, ys: seq<B>): (r: seq<(A, B)>)
    ensures |r| == |xs| * |ys|
  {
    if |xs| == 0 then [] else Pairs(xs[..|xs| - 1], ys) + Row(xs[|xs| - 1], ys)
  }

  /** The product lists pair (xs[i], ys[j]) at position i * |ys| + j. */
  lemma {:induction false} PairsAt<A, B>(xs: seq<A>, ys: seq<B>, i: nat, j: nat)
    requires i < |xs| && j < |ys|
    ensures 0 <= i * |ys| + j < |Pairs(xs, ys)|
    ensures Pairs(xs, ys)[i * |ys| + j] == (xs[i], ys[j])
    decreases |xs|
  {
    var n, m := |xs|, |ys|;
    var front := Pairs(xs[..n - 1], ys);
    var last := Row(xs[n - 1], ys);
    assert Pairs(xs, ys) == front + last;
    assert |front| == (n - 1) * m;
    if i < n - 1 {
      PairsAt(xs[..n - 1], ys, i, j);
      assert front[i * m + j] == (xs[i], ys[j]);
    } else {
      assert i * m == |front|;
      assert last[j] == (xs[i], ys[j]);
    }
  }

  /** `[f(x, y) for (x, y) in ps]`. */
  function MapPairs<A, B, X>(ps: seq<(A, B)>, f: (A, B) -> X): (r: seq<X>)
    ensures |r| == |ps|
  {
    if |ps| == 0 then [] else MapPairs(ps[..|ps| - 1], f) + [f(ps[|ps| - 1].0, ps[|ps| - 1].1)]
  }

  lemma {:induction false} MapPairsAt<A, B, X>(ps: seq<(A, B)>, f: (A, B) -> X, k: nat)
    requires k < |ps|
    ensures MapPairs(ps, f)[k] == f(ps[k].0, ps[k].1)
    decreases |ps|
  {
    if k < |ps| - 1 {
      MapPairsAt(ps[..|ps| - 1], f, k);
    }
  }

  /** `out` holds f(xs[i], ys[j]) at position i * |ys| + j, for every i and j. */
  ghost predicate LaidOut<A, B, X>(out: seq<X>, xs: seq<A>, ys: seq<B>, f: (A, B) -> X)
  {
    && |out| == |xs| * |ys|
    && forall i, j {:trigger Flat(i, |ys|, j)} :: 0 <= i < |xs| && 0 <= j < |ys| ==>
         0 <= Flat(i, |ys|, j) < |out| && out[Flat(i, |ys|, j)] == f(xs[i], ys[j])
  }

  /** Position i * n + j of a row-major layout with rows of length n. */
  function Flat(i: int, n: int, j: int): int
  {
    i * n + j
  }

  /** A list built by walking the product, one f(x, y) per pair, is laid out row by row. */
  lemma MapPairsLaidOut<A, B, X>(xs: seq<A>, ys: seq<B>, f: (A, B) -> X)
    ensures LaidOut(MapPairs(Pairs(xs, ys), f), xs, ys, f)
  {
    var out := MapPairs(Pairs(xs, ys), f);
    forall i, j | 0 <= i < |xs| && 0 <= j < |ys|
      ensures 0 <= Flat(i, |ys|, j) < |out| && out[Flat(i, |ys|, j)] == f(xs[i], ys[j])
    {
      PairsAt(xs, ys, i, j);
      MapPairsAt(Pairs(xs, ys), f, i * |ys| + j);
    }
  }

  // ---------------------------------------------------------------------------
  // split_image

  /** Python's `math.ceil(a / b)` on integers (exact, as the sizes involved are far
      below the range where float division rounds). */
  function CeilDiv(a: int, b: int): int
    requires b != 0
  {
    -FloorDiv(-a, b)
  }

  /** For a positive count, `n` tiles of size ceil(a / n) cover the axis, and n - 1 do not. */
  lemma CeilDivCovers(a: int, n: int)
    requires n > 0
    ensures (CeilDiv(a, n) - 1) * n < a <= CeilDiv(a, n) * n
  {
    var q := (-a) / n;
    assert q * n <= -a < q * n + n;
    assert CeilDiv(a, n) == -q;
  }

  /** The tile width and height split_image uses: 2 x 2 tiles when neither count
      is given; a single missing count is a TypeError and a zero count a ZeroDivisionError. */
  function TileSize(height: int, width: int, nrows: Option<int>, ncols: Option<int>): Result<(int, int)>
  {
    if nrows.None? && ncols.None? then Ok((CeilDiv(height, 2), CeilDiv(width, 2)))
    else if ncols.None? then Err(TypeError)
    else if ncols.value == 0 then Err(ZeroDivisionError)
    else if nrows.None? then Err(TypeError)
    else if nrows.value == 0 then Err(ZeroDivisionError)
    else Ok((CeilDiv(height, nrows.value), CeilDiv(width, ncols.value)))
  }

  /** split_image fails exactly when one count is missing or a count is zero; otherwise
      its tiles cover the image: the counts times the tile sizes reach the image size,
      and one tile fewer per axis would not (the default being 2 x 2). */
  lemma TileSizeCovers(height: int, width: int, nrows: Option<int>, ncols: Option<int>)
    ensures TileSize(height, width, nrows, ncols).Err? <==>
      (nrows.None? != ncols.None?) || (ncols.Some? && ncols.value == 0) || (nrows.Some? && nrows.value == 0)
    ensures TileSize(height, width, nrows, ncols).Ok? && nrows.None? ==>
      var (th, tw) := TileSize(height, width, nrows, ncols).value;
      (th - 1) * 2 < height <= th * 2 && (tw - 1) * 2 < width <= tw * 2
    ensures TileSize(height, width, nrows, ncols).Ok? && nrows.Some? && nrows.value > 0 && ncols.value > 0 ==>
      var (th, tw) := TileSize(height, width, nrows, ncols).value;
      && (th - 1) * nrows.value < height <= th * nrows.value
      && (tw - 1) * ncols.value < width <= tw * ncols.value
  {
    if nrows.None? && ncols.None? {
      CeilDivCovers(height, 2);
      CeilDivCovers(width, 2);
    } else if nrows.Some? && ncols.Some? && nrows.value > 0 && ncols.value > 0 {
      CeilDivCovers(height, nrows.value);
      CeilDivCovers(width, ncols.value);
    }
  }

  /** Both start_points calls of split_image end. */
  predicate SplitTerminates(height: int, width: int, nrows: Option<int>, ncols: Option<int>, overlap: real)
  {
    match TileSize(height, width, nrows, ncols)
    case Err(_) => true
    case Ok((th, tw)) => Terminates(height, th, Stride(th, overlap)) && Terminates(width, tw, Stride(tw, overlap))
  }

  /** The label split_image gives the tile at (col_off, row_off). */
  function TileLabel(colOff: int, rowOff: int): string
  {
    IntToString(colOff) + "_" + IntToString(rowOff)
  }

  /** Distinct offsets give distinct labels: the labels identify the tiles. */
  lemma TileLabelInjective(c1: int, r1: int, c2: int, r2: int)
    requires TileLabel(c1, r1) == TileLabel(c2, r2)
    ensures c1 == c2 && r1 == r2
  {
    var a, b := IntToString(c1), IntToString(c2);
    var s := TileLabel(c1, r1);
    assert s[|a|] == '_' && s[|b|] == '_';
    assert forall k :: 0 <= k < |a| ==> s[k] == a[k] && s[k] != '_';
    assert forall k :: 0 <= k < |b| ==> s[k] == b[k] && s[k] != '_';
    assert |a| == |b|;
    assert a == s[..|a|] == b;
    IntToStringInjective(c1, c2);
    assert IntToString(r1) == s[|a| + 1..] == IntToString(r2);
    IntToStringInjective(r1, r2);
  }

  /** The tile split_image cuts at (col_off, row_off): `image[row_off:row_off + th, col_off:col_off + tw]`. */
  function TileAt<T>(image: seq<seq<T>>, th: int, tw: int, colOff: int, rowOff: int): seq<seq<T>>
  {
    Crop(image, rowOff, rowOff + th, colOff, colOff + tw)
  }

  /** split_image(image, nrows, ncols, overlap) on an image of |image| rows of
      `width` pixels: one tile per (column offset, row offset) pair, column offset
      outermost, each cut with numpy slicing and labelled "{col}_{row}". */
  method SplitImage<T>(image: seq<seq<T>>, width: nat, nrows: Option<int>, ncols: Option<int>, overlap: real)
    returns (r: Result<(seq<seq<seq<T>>>, seq<string>)>)
    requires forall k :: 0 <= k < |image| ==> |image[k]| == width
    requires SplitTerminates(|image|, width, nrows, ncols, overlap)
    ensures TileSize(|image|, width, nrows, ncols).Err? ==> r == Err(TileSize(|image|, width, nrows, ncols).error)
    ensures TileSize(|image|, width, nrows, ncols).Ok? ==>
      var th := TileSize(|image|, width, nrows, ncols).value.0;
      var tw := TileSize(|image|, width, nrows, ncols).value.1;
      var rowOffs := Offsets(|image|, th, Stride(th, overlap));
      var colOffs := Offsets(width, tw, Stride(tw, overlap));
      && r.Ok?
      && LaidOut(r.value.0, colOffs, rowOffs, (c: int, w: int) => TileAt(image, th, tw, c, w))
      && LaidOut(r.value.1, colOffs, rowOffs, TileLabel)
  {
    var size := TileSize(|image|, width, nrows, ncols);
    if size.Err? {
      return Err(size.error);
    }
    var th, tw := size.value.0, size.value.1;
    var rowOffs := StartPoints(|image|, th, overlap);
    var colOffs := StartPoints(width, tw, overlap);
    var offsets := Pairs(colOffs, rowOffs);
    var tiles: seq<seq<seq<T>>> := [];
    var combs: seq<string> := [];
    ghost var tileAt := (c: int, w: int) => TileAt(image, th, tw, c, w);
    var k := 0;
    while k < |offsets|
      invariant 0 <= k <= |offsets|
      invariant tiles == MapPairs(offsets[..k], tileAt)
      invariant combs == MapPairs(offsets[..k], TileLabel)
    {
      assert offsets[..k + 1][..k] == offsets[..k];
      var off := offsets[k];
      tiles := tiles + [TileAt(image, th, tw, off.0, off.1)];
      combs := combs + [TileLabel(off.0, off.1)];
      k := k + 1;
    }
    assert offsets[..k] == offsets;
    MapPairsLaidOut(colOffs, rowOffs, tileAt);
    MapPairsLaidOut(colOffs, rowOffs, TileLabel);
    r := Ok((tiles, combs));
  }

  // ---------------------------------------------------------------------------
  // change_images_contrast

  /** The betas of change_images_contrast with neg_brightness. */
  function MirroredBetas(betas: seq<real>): (r: seq<real>)
    ensures |r| == 2 * |betas|
  {
    if |betas| == 0 then []
    else
      var n := |betas| - 1;
      MirroredBetas(betas[..n]) + [betas[n], -1.0 * betas[n]]
  }

  /** With neg_brightness every beta is followed by its negation, in the order of the betas. */
  lemma {:induction false} MirroredBetasPairs(betas: seq<real>)
    ensures forall i :: 0 <= i < |betas| ==>
      MirroredBetas(betas)[2 * i] == betas[i] && MirroredBetas(betas)[2 * i + 1] == -1.0 * betas[i]
  {
    if |betas| > 0 {
      var n := |betas| - 1;
      MirroredBetasPairs(betas[..n]);
    }
  }

  /** The `betshadow` loop of change_images_contrast. */
  method MirrorBetas(betas: seq<real>) returns (betshadow: seq<real>)
    ensures betshadow == MirroredBetas(betas)
  {
    betshadow := [];
    var k := 0;
    while k < |betas|
      invariant 0 <= k <= |betas|
      invariant betshadow == MirroredBetas(betas[..k])
    {
      MirroredSnoc(betas, k);
      betshadow := betshadow + [betas[k]];
      betshadow := betshadow + [-1.0 * betas[k]];
      k := k + 1;
    }
    assert betas[..k] == betas;
  }

  /** One more beta adds it and its negation at the end. */
  lemma MirroredSnoc(betas: seq<real>, k: nat)
    requires k < |betas|
    ensures MirroredBetas(betas[..k + 1]) == MirroredBetas(betas[..k]) + [betas[k], -1.0 * betas[k]]
  {
    assert betas[..k + 1][..k] == betas[..k];
  }

  /** The label "{alpha}_{beta}" of one contrast variant, `fmt` being Python's float formatting. */
  function ContrastLabel(fmt: real -> string, a: real, b: real): string
  {
    fmt(a) + "_" + fmt(b)
  }

  /** change_images_contrast(image, alpha, beta, neg_brightness): one image per
      (alpha, beta) pair, alpha outermost, produced by `convert` (cv2.convertScaleAbs
      applied to the image) and labelled "{alpha}_{beta}". */
  method ChangeImagesContrast<Img>(alpha: ScalarOrList<real>, beta: ScalarOrList<real>, negBrightness: bool,
                                   convert: (real, real) -> Img, fmt: real -> string)
    returns (images: seq<Img>, combs: seq<string>)
    ensures var betas := if negBrightness then MirroredBetas(AsList(beta)) else AsList(beta);
            && LaidOut(images, AsList(alpha), betas, convert)
            && LaidOut(combs, AsList(alpha), betas, (a: real, b: real) => ContrastLabel(fmt, a, b))
  {
    var alphaValues := AsList(alpha);
    var betaValues := AsList(beta);
    if negBrightness {
      betaValues := MirrorBetas(betaValues);
    }
    ghost var labelOf := (a: real, b: real) => ContrastLabel(fmt, a, b);
    images, combs := [], [];
    var i := 0;
    while i < |alphaValues|
      invariant 0 <= i <= |alphaValues|
      invariant LaidOut(images, alphaValues[..i], betaValues, convert)
      invariant LaidOut(combs, alphaValues[..i], betaValues, labelOf)
    {
      var rowImages, rowCombs := ContrastRow(alphaValues[i], betaValues, convert, fmt);
      LaidOutExtend(images, rowImages, alphaValues[..i], alphaValues[i], betaValues, convert);
      LaidOutExtend(combs, rowCombs, alphaValues[..i], alphaValues[i], betaValues, labelOf);
      images, combs := images + rowImages, combs + rowCombs;
      assert alphaValues[..i + 1] == alphaValues[..i] + [alphaValues[i]];
      i := i + 1;
    }
    assert alphaValues[..i] == alphaValues;
  }

  /** The inner loop of change_images_contrast: the variants of one alpha, one per beta. */
  method ContrastRow<Img>(a: real, betas: seq<real>, convert: (real, real) -> Img, fmt: real -> string)
    returns (images: seq<Img>, combs: seq<string>)
    ensures |images| == |combs| == |betas|
    ensures forall q :: 0 <= q < |betas| ==> images[q] == convert(a, betas[q]) && combs[q] == ContrastLabel(fmt, a, betas[q])
  {
    images, combs := [], [];
    var j := 0;
    while j < |betas|
      invariant 0 <= j <= |betas|
      invariant |images| == |combs| == j
      invariant forall q :: 0 <= q < j ==> images[q] == convert(a, betas[q]) && combs[q] == ContrastLabel(fmt, a, betas[q])
    {
      images := images + [convert(a, betas[j])];
      combs := combs + [fmt(a) + "_" + fmt(betas[j])];
      j := j + 1;
    }
  }

  /** Appending the row of a new first-factor value keeps the row-by-row layout. */
  lemma LaidOutExtend<A, B, X>(out: seq<X>, row: seq<X>, xs: seq<A>, x: A, ys: seq<B>, f: (A, B) -> X)
    requires LaidOut(out, xs, ys, f)
    requires |row| == |ys| && forall q :: 0 <= q < |ys| ==> row[q] == f(x, ys[q])
    ensures LaidOut(out + row, xs + [x], ys, f)
  {
    var n, m := |ys|, |xs|;
    var xs', out' := xs + [x], out + row;
    assert |out'| == |xs'| * n by {
      assert |xs'| * n == m * n + n;
    }
    forall i, j | 0 <= i < |xs'| && 0 <= j < n
      ensures 0 <= Flat(i, n, j) < |out'| && out'[Flat(i, n, j)] == f(xs'[i], ys[j])
    {
      if i < m {
        var k := Flat(i, n, j);
        assert 0 <= k < |out| && out[k] == f(xs[i], ys[j]);
        assert out'[k] == out[k];
      } else {
        assert i * n == m * n;
        assert out'[m * n + j] == row[j];
      }
    }
  }

  // ---------------------------------------------------------------------------
  // shift_hsv

  /** Hue look-up table: entry i is (i + hue_shift) mod 180. */
  function HueLut(shift: int): (lut: seq<int>)
    ensures |lut| == 256
    ensures forall i :: 0 <= i < 256 ==> 0 <= lut[i] < 180 && (i + shift - lut[i]) % 180 == 0
  {
    seq(256, i => (i + shift) % 180)
  }

  /** `np.clip(x, 0, 255)`. */
  function ClipByte(x: int): (r: int)
    ensures 0 <= r <= 255
    ensures 0 <= x <= 255 ==> r == x
    ensures x < 0 ==> r == 0
    ensures x > 255 ==> r == 255
  {
    if x < 0 then 0 else if x > 255 then 255 else x
  }

  /** Saturation / value look-up table: entry i is i + shift clipped into [0, 255]. */
  function ClipLut(shift: int): (lut: seq<int>)
    ensures |lut| == 256
    ensures forall i :: 0 <= i < 256 ==> 0 <= lut[i] <= 255 && lut[i] == ClipByte(i + shift)
    ensures forall i :: 0 <= i < 256 && 0 <= i + shift <= 255 ==> lut[i] == i + shift
    ensures forall i, j :: 0 <= i <= j < 256 ==> lut[i] <= lut[j]
  {
    var lut := seq(256, i => ClipByte(i + shift));
    assert forall i :: 0 <= i < 256 ==> lut[i] == ClipByte(i + shift);
    lut
  }

  /** A hue shift of 180 is a full turn: every hue OpenCV produces (0..179) is unchanged. */
  lemma HueFullTurn(h: int)
    requires 0 <= h < 180
    ensures HueLut(180)[h] == h
  {
  }

  /** Two hue shifts in a row are one shift by their sum. */
  lemma {:induction false} HueShiftsCompose(s: int, t: int, h: int)
    requires 0 <= h < 256
    ensures HueLut(t)[HueLut(s)[h]] == HueLut(s + t)[h]
  {
    var a := (h + s) % 180;
    var q := (h + s) / 180;
    assert h + s == 180 * q + a;
    assert a + t == h + s + t - 180 * q;
    ModShift(h + s + t, -q);
  }

  lemma ModShift(x: int, q: int)
    ensures (x + 180 * q) % 180 == x % 180
  {
  }

  /** `cv2.LUT(channel, lut)` on a channel of 8-bit values. */
  function ApplyLut(lut: seq<int>, channel: seq<int>): (r: seq<int>)
    requires |lut| == 256
    requires forall k :: 0 <= k < |channel| ==> 0 <= channel[k] < 256
    ensures |r| == |channel|
    ensures forall k :: 0 <= k < |r| ==> r[k] == lut[channel[k]]
  {
    seq(|channel|, k requires 0 <= k < |channel| => lut[channel[k]])
  }

  /** An HSV image as its three 8-bit channels (cv2.split of cv2.cvtColor(img, RGB2HSV)). */
  datatype Hsv = Hsv(hue: seq<int>, sat: seq<int>, val: seq<int>)

  predicate IsByteChannel(c: seq<int>)
  {
    forall k :: 0 <= k < |c| ==> 0 <= c[k] < 256
  }

  /** shift_hsv on the HSV channels: each shift is drawn from its list when it is a
      list (the draws are passed in); a channel whose shift is 0 is left untouched, the
      hue channel goes through HueLut and the others through ClipLut. Returns the new
      channels and the label "{hue}_{sat}_{val}". */
  function ShiftHsv(img: Hsv, hueShift: ScalarOrList<int>, satShift: ScalarOrList<int>, valShift: ScalarOrList<int>,
                    hueDraw: nat, satDraw: nat, valDraw: nat): (r: Result<(Hsv, string)>)
    requires IsByteChannel(img.hue) && IsByteChannel(img.sat) && IsByteChannel(img.val)
    ensures Choose(satShift, satDraw).Err? || Choose(hueShift, hueDraw).Err? || Choose(valShift, valDraw).Err?
            <==> r.Err?
    ensures r.Ok? ==>
      var h, out := Choose(hueShift, hueDraw).value, r.value.0;
      && |out.hue| == |img.hue| && (h == 0 ==> out.hue == img.hue)
      && (h != 0 ==> forall k :: 0 <= k < |out.hue| ==> out.hue[k] == (img.hue[k] + h) % 180)
      && (forall k :: 0 <= k < |out.hue| ==> 0 <= out.hue[k] < 180 || (h == 0 && out.hue[k] == img.hue[k]))
    ensures r.Ok? ==>
      var s, out := Choose(satShift, satDraw).value, r.value.0;
      && |out.sat| == |img.sat| && (s == 0 ==> out.sat == img.sat)
      && (s != 0 ==> forall k :: 0 <= k < |out.sat| ==> out.sat[k] == ClipByte(img.sat[k] + s))
      && (forall k :: 0 <= k < |out.sat| ==> 0 <= out.sat[k] <= 255)
    ensures r.Ok? ==>
      var v, out := Choose(valShift, valDraw).value, r.value.0;
      && |out.val| == |img.val| && (v == 0 ==> out.val == img.val)
      && (v != 0 ==> forall k :: 0 <= k < |out.val| ==> out.val[k] == ClipByte(img.val[k] + v))
      && (forall k :: 0 <= k < |out.val| ==> 0 <= out.val[k] <= 255)
    ensures r.Ok? ==>
      r.value.1 == IntToString(Choose(hueShift, hueDraw).value) + "_" + IntToString(Choose(satShift, satDraw).value)
                   + "_" + IntToString(Choose(valShift, valDraw).value)
  {
    var sat := Choose(satShift, satDraw);
    var hue := Choose(hueShift, hueDraw);
    var val := Choose(valShift, valDraw);
    if sat.Err? || hue.Err? || val.Err? then
      Err(IndexError)
    else
      var h, s, v := hue.value, sat.value, val.value;
      Ok((Hsv(ShiftHue(h, img.hue), ShiftClipped(s, img.sat), ShiftClipped(v, img.val)),
          IntToString(h) + "_" + IntToString(s) + "_" + IntToString(v)))
  }

  /** The hue channel after a shift: untouched for 0, otherwise through HueLut. */
  function ShiftHue(h: int, c: seq<int>): (r: seq<int>)
    requires IsByteChannel(c)
    ensures |r| == |c| && (h == 0 ==> r == c)
    ensures h != 0 ==> forall k :: 0 <= k < |r| ==> r[k] == (c[k] + h) % 180
    ensures forall k :: 0 <= k < |r| ==> 0 <= r[k] < 180 || (h == 0 && r[k] == c[k])
  {
    if h != 0 then ApplyLut(HueLut(h), c) else c
  }

  /** A saturation or value channel after a shift: untouched for 0, otherwise through ClipLut. */
  function ShiftClipped(s: int, c: seq<int>): (r: seq<int>)
    requires IsByteChannel(c)
    ensures |r| == |c| && (s == 0 ==> r == c)
    ensures s != 0 ==> forall k :: 0 <= k < |r| ==> r[k] == ClipByte(c[k] + s)
    ensures forall k :: 0 <= k < |r| ==> 0 <= r[k] <= 255
  {
    if s != 0 then ApplyLut(ClipLut(s), c) else c
  }

  /** A second hue shift that completes a full turn with the first restores every hue
      OpenCV produces (0..179); the other channels, shifted by 0, stay as they are. */
  lemma {:induction false} ShiftHsvHueUndone(img: Hsv, h: int, t: int)
    requires IsByteChannel(img.hue) && IsByteChannel(img.sat) && IsByteChannel(img.val)
    requires forall k :: 0 <= k < |img.hue| ==> img.hue[k] < 180
    requires h != 0 && t != 0 && (h + t) % 180 == 0
    ensures ShiftHsv(img, Scalar(h), Scalar(0), Scalar(0), 0, 0, 0).Ok?
    ensures var once := ShiftHsv(img, Scalar(h), Scalar(0), Scalar(0), 0, 0, 0).value.0;
      && IsByteChannel(once.hue) && IsByteChannel(once.sat) && IsByteChannel(once.val)
      && ShiftHsv(once, Scalar(t), Scalar(0), Scalar(0), 0, 0, 0).Ok?
      && ShiftHsv(once, Scalar(t), Scalar(0), Scalar(0), 0, 0, 0).value.0 == img
  {
    var once := Hsv(ShiftHue(h, img.hue), img.sat, img.val);
    ShiftHueUndone(img.hue, h, t);
    assert ShiftHsv(img, Scalar(h), Scalar(0), Scalar(0), 0, 0, 0).value.0 == once;
    assert ShiftHsv(once, Scalar(t), Scalar(0), Scalar(0), 0, 0, 0).value.0 == Hsv(ShiftHue(t, once.hue), img.sat, img.val);
  }

  /** On the hue channel alone: a second shift completing a full turn restores every hue. */
  lemma ShiftHueUndone(c: seq<int>, h: int, t: int)
    requires IsByteChannel(c) && forall k :: 0 <= k < |c| ==> c[k] < 180
    requires h != 0 && t != 0 && (h + t) % 180 == 0
    ensures IsByteChannel(ShiftHue(h, c)) && ShiftHue(t, ShiftHue(h, c)) == c
  {
    var once := ShiftHue(h, c);
    var twice := ShiftHue(t, once);
    forall k | 0 <= k < |c|
      ensures twice[k] == c[k]
    {
      var x := c[k];
      var q := (x + h) / 180;
      assert x + h == 180 * q + once[k];
      assert once[k] + t == (x + h + t) - 180 * q;
      ModShift(x + h + t, -q);
      ModSum(x, h + t);
    }
  }

  /** Adding a multiple of 180 does not change a hue in [0, 180). */
  lemma ModSum(x: int, m: int)
    requires 0 <= x < 180 && m % 180 == 0
    ensures (x + m) % 180 == x
  {
    var q := m / 180;
    assert m == 180 * q;
    ModShift(x, q);
  }
}
