/** Reading a region of interest out of an xyz point-cloud file (utils/xyz_functions.py):
    the stepped scan that finds which lines to read, the filter that keeps the chunks inside
    the buffered bounding box, the row-count check, and the two ways the ground altitude is
    removed (from the point tables held by CloudPoints and from a rasterised cloud). The file
    itself is given as its parsed lines; reading it is not modelled. */
module PointCloud {
  import opened Common

  /** A bounding box `(minx, miny, maxx, maxy)` as shapely's `bounds` gives it. */
  datatype Bounds = Bounds(minx: real, miny: real, maxx: real, maxy: real)

  /** One row of an xyz file: easting, northing, altitude and the remaining columns. */
  datatype Row = Row(x: real, y: real, z: real, bands: seq<real>)

  // ---------------------------------------------------------------------------
  // The stepped scan of getchunksize_forxyzfile

  /** The x value read from line n (`linecache.getline(path, n)`, lines counted from 1).
      None when the line is missing or its first field is not a number: both raise inside
      the scan's `try`. */
  function Probe(lines: seq<Option<real>>, n: int): Option<real>
  {
    if 1 <= n <= |lines| then lines[n - 1] else None
  }

  /** The scan stops at a line it cannot read or whose x lies right of the buffered box. */
  predicate StopsAt(lines: seq<Option<real>>, bb: Bounds, buffer: real, n: int)
  {
    match Probe(lines, n)
    case None => true
    case Some(x) => x >= bb.minx - buffer && x > bb.maxx + buffer
  }

  /** Line n was read and lies left of the buffered box. */
  predicate LeftOf(lines: seq<Option<real>>, bb: Bounds, buffer: real, n: int)
  {
    Probe(lines, n).Some? && Probe(lines, n).value < bb.minx - buffer
  }

  /** The line the k-th probe reads: k steps from line 0. */
  function Line(step: int, k: nat): int
  {
    if k == 0 then 0 else Line(step, k - 1) + step
  }

  lemma {:induction false} LineIsMultiple(step: int, k: nat)
    ensures Line(step, k) == k * step
  {
    if k > 0 {
      LineIsMultiple(step, k - 1);
    }
  }

  /** The first probe, from the k-th on, at which the scan stops. */
  function FirstStop(lines: seq<Option<real>>, bb: Bounds, buffer: real, step: int, k: nat): (r: nat)
    requires step > 0
    ensures r >= k && StopsAt(lines, bb, buffer, Line(step, r))
    ensures forall j :: k <= j < r ==> !StopsAt(lines, bb, buffer, Line(step, j))
    decreases |lines| + 1 - Line(step, k)
  {
    if StopsAt(lines, bb, buffer, Line(step, k)) then k
    else FirstStop(lines, bb, buffer, step, k + 1)
  }

  /** The last probe before the k-th that found a line left of the box, or 0 when none did. */
  function LastLeft(lines: seq<Option<real>>, bb: Bounds, buffer: real, step: int, k: nat): (r: nat)
    ensures k == 0 ==> r == 0
    ensures k > 0 ==> r < k
    ensures r > 0 ==> LeftOf(lines, bb, buffer, Line(step, r))
    ensures forall j :: r < j < k && j > 0 ==> !LeftOf(lines, bb, buffer, Line(step, j))
  {
    if k <= 1 then 0
    else if LeftOf(lines, bb, buffer, Line(step, k - 1)) then k - 1
    else LastLeft(lines, bb, buffer, step, k - 1)
  }

  /** Where the scan leaves `idx2`: 0 when it stopped on a line it could not read, one step
      past the stopping line when it stopped right of the box. */
  function ScanEnd(lines: seq<Option<real>>, bb: Bounds, buffer: real, step: int): int
  {
    if step <= 0 then 0
    else
      var stop := Line(step, FirstStop(lines, bb, buffer, step, 1));
      if Probe(lines, stop).None? then 0 else stop + step
  }

  /** Where the scan leaves `idx`: the last line it saw left of the box, or 0. */
  function ScanStart(lines: seq<Option<real>>, bb: Bounds, buffer: real, step: int): int
  {
    if step <= 0 then 0
    else Line(step, LastLeft(lines, bb, buffer, step, FirstStop(lines, bb, buffer, step, 1)))
  }

  /** The `while cond1` loop of getchunksize_forxyzfile: probes lines step, 2·step, … and
      remembers in idx the last one left of the box, until a line cannot be read (idx2
      becomes 0) or a line lies right of the box. */
  method ScanForChunk(lines: seq<Option<real>>, bb: Bounds, buffer: real, step: int) returns (idx: int, idx2: int)
    ensures idx == ScanStart(lines, bb, buffer, step)
    ensures idx2 == ScanEnd(lines, bb, buffer, step)
  {
    var cond1 := true;
    idx := 0;
    idx2 := step;
    ghost var k: nat := 1;
    ghost var stopK: nat := if step > 0 then FirstStop(lines, bb, buffer, step, 1) else 0;
    while cond1
      invariant step <= 0 ==> idx == 0 && (if cond1 then idx2 == step else idx2 == 0)
      invariant step > 0 && cond1 ==> 1 <= k <= stopK && idx2 == Line(step, k)
      invariant step > 0 && cond1 ==> FirstStop(lines, bb, buffer, step, k) == stopK
      invariant step > 0 && cond1 ==> idx == Line(step, LastLeft(lines, bb, buffer, step, k))
      invariant step > 0 && !cond1 ==> idx == ScanStart(lines, bb, buffer, step)
      invariant step > 0 && !cond1 ==> idx2 == ScanEnd(lines, bb, buffer, step)
      decreases (if cond1 then 1 else 0), |lines| + 1 - idx2
    {
      if step > 0 && StopsAt(lines, bb, buffer, idx2) {
        ScanStopsAt(lines, bb, buffer, step, k);
      }
      match Probe(lines, idx2)
      case None =>
        idx2 := 0;
        cond1 := false;
      case Some(x) =>
        var cond2 := x >= bb.minx - buffer;
        if cond2 {
          cond1 := x <= bb.maxx + buffer;
        } else {
          idx := idx2;
        }
        idx2 := idx2 + step;
        k := k + 1;
    }
  }

  /** Where the scan ends once its k-th probe stops it. */
  lemma ScanStopsAt(lines: seq<Option<real>>, bb: Bounds, buffer: real, step: int, k: nat)
    requires step > 0 && k >= 1 && FirstStop(lines, bb, buffer, step, k) == FirstStop(lines, bb, buffer, step, 1)
    requires StopsAt(lines, bb, buffer, Line(step, k))
    ensures ScanStart(lines, bb, buffer, step) == Line(step, LastLeft(lines, bb, buffer, step, k))
    ensures ScanEnd(lines, bb, buffer, step) == if Probe(lines, Line(step, k)).None? then 0 else Line(step, k) + step
  {
  }

  /** The chunk size the scan reports: the distance from idx to idx2, set to 0 when idx is 0
      or when the distance is under 2000 lines either way. */
  function ChunkSize(idx: int, idx2: int): (r: int)
    ensures r != 0 <==> idx != 0 && Abs(idx2 - idx) >= 2000
    ensures r != 0 ==> r == idx2 - idx
  {
    var idxdif := if idx != 0 then idx2 - idx else 0;
    if Abs(idxdif) < 2000 then 0 else idxdif
  }

  /** `[idx, idxdif]` as getchunksize_forxyzfile returns it. */
  function ChunkWindow(lines: seq<Option<real>>, bb: Bounds, buffer: real, step: int): (r: (int, int))
    ensures r.0 == 0 || (step > 0 && LeftOf(lines, bb, buffer, r.0))
    ensures r.1 > 0 ==> step > 0 && r.0 > 0 && r.1 >= 2000
    ensures r.1 > 0 ==> StopsAt(lines, bb, buffer, r.0 + r.1 - step) && !LeftOf(lines, bb, buffer, r.0 + r.1 - step)
  {
    var idx := ScanStart(lines, bb, buffer, step);
    (idx, ChunkSize(idx, ScanEnd(lines, bb, buffer, step)))
  }

  /** The first row to read is only ever a line the scan probed: 0, or the k-th multiple of
      step for the k this lemma returns. */
  lemma ChunkStartIsMultiple(lines: seq<Option<real>>, bb: Bounds, buffer: real, step: int) returns (k: nat)
    ensures var first := ChunkWindow(lines, bb, buffer, step).0;
      first == k * step && (first != 0 ==> step > 0 && k > 0)
  {
    if step > 0 {
      k := LastLeft(lines, bb, buffer, step, FirstStop(lines, bb, buffer, step, 1));
      LineIsMultiple(step, k);
    } else {
      k := 0;
    }
  }

  /** getchunksize_forxyzfile over the parsed lines of a file. */
  method GetChunkSize(lines: seq<Option<real>>, bb: Bounds, buffer: real, step: int) returns (firstRow: int, chunkSize: int)
    ensures (firstRow, chunkSize) == ChunkWindow(lines, bb, buffer, step)
  {
    var idx, idx2 := ScanForChunk(lines, bb, buffer, step);
    firstRow := idx;
    chunkSize := ChunkSize(idx, idx2);
  }

  /** A scan that runs off the end of the file reports no chunk, or a negative one: the
      chunk to read is only positive when a line right of the box was found. */
  lemma ChunkNeedsRightEdge(lines: seq<Option<real>>, bb: Bounds, buffer: real, step: int)
    requires ScanEnd(lines, bb, buffer, step) == 0
    ensures ChunkWindow(lines, bb, buffer, step).1 <= 0
    ensures ChunkWindow(lines, bb, buffer, step).1 < 0 ==> ChunkWindow(lines, bb, buffer, step).1 == -ChunkWindow(lines, bb, buffer, step).0
  {
  }

  // ---------------------------------------------------------------------------
  // The chunk filter `valid`

  /** The row lies strictly inside the bounding box widened by buffer on every side. */
  predicate Inside(row: Row, bb: Bounds, buffer: real)
  {
    bb.miny - buffer < row.y < bb.maxy + buffer && bb.minx - buffer < row.x < bb.maxx + buffer
  }

  /** `mask.all()`. */
  predicate AllInside(chunk: seq<Row>, bb: Bounds, buffer: real)
  {
    forall i :: 0 <= i < |chunk| ==> Inside(chunk[i], bb, buffer)
  }

  /** `chunk.loc[mask]`: the rows inside the box, in file order. */
  function InsideRows(chunk: seq<Row>, bb: Bounds, buffer: real): (r: seq<Row>)
    ensures |r| <= |chunk|
    ensures AllInside(r, bb, buffer)
    ensures forall row :: row in r <==> row in chunk && Inside(row, bb, buffer)
    ensures AllInside(chunk, bb, buffer) ==> r == chunk
  {
    if |chunk| == 0 then []
    else
      assert forall i :: 0 <= i < |chunk| - 1 ==> chunk[1..][i] == chunk[i + 1];
      assert chunk == [chunk[0]] + chunk[1..];
      (if Inside(chunk[0], bb, buffer) then [chunk[0]] else []) + InsideRows(chunk[1..], bb, buffer)
  }

  /** The position of the first chunk with a row outside the box, or the number of chunks. */
  function FirstPartial(chunks: seq<seq<Row>>, bb: Bounds, buffer: real): (r: nat)
    ensures r <= |chunks|
    ensures forall i :: 0 <= i < r ==> AllInside(chunks[i], bb, buffer)
    ensures r < |chunks| ==> !AllInside(chunks[r], bb, buffer)
  {
    if |chunks| == 0 || !AllInside(chunks[0], bb, buffer) then 0
    else 1 + FirstPartial(chunks[1..], bb, buffer)
  }

  /** What `valid` yields: every chunk before the first partial one unchanged, then the
      inside rows of that partial chunk, and nothing after it. */
  function ValidYield(chunks: seq<seq<Row>>, bb: Bounds, buffer: real): seq<seq<Row>>
  {
    var k := FirstPartial(chunks, bb, buffer);
    chunks[..k] + (if k < |chunks| then [InsideRows(chunks[k], bb, buffer)] else [])
  }

  /** The generator `valid` consumed in full, as its `for … break` loop produces it. */
  method Valid(chunks: seq<seq<Row>>, bb: Bounds, buffer: real) returns (yielded: seq<seq<Row>>)
    ensures yielded == ValidYield(chunks, bb, buffer)
  {
    yielded := [];
    var i := 0;
    while i < |chunks|
      invariant 0 <= i <= |chunks|
      invariant forall j :: 0 <= j < i ==> AllInside(chunks[j], bb, buffer)
      invariant yielded == chunks[..i]
    {
      var chunk := chunks[i];
      if AllInside(chunk, bb, buffer) {
        yielded := yielded + [chunk];
      } else {
        yielded := yielded + [InsideRows(chunk, bb, buffer)];
        break;
      }
      i := i + 1;
    }
  }

  /** Every row `valid` yields lies strictly inside the buffered box. */
  lemma {:induction false} ValidRowsInside(chunks: seq<seq<Row>>, bb: Bounds, buffer: real)
    ensures AllInside(Flatten(ValidYield(chunks, bb, buffer)), bb, buffer)
  {
    var y := ValidYield(chunks, bb, buffer);
    assert forall i :: 0 <= i < |y| ==> AllInside(y[i], bb, buffer);
    FlattenAllInside(y, bb, buffer);
  }

  lemma {:induction false} FlattenAllInside(parts: seq<seq<Row>>, bb: Bounds, buffer: real)
    requires forall i :: 0 <= i < |parts| ==> AllInside(parts[i], bb, buffer)
    ensures AllInside(Flatten(parts), bb, buffer)
  {
    if |parts| > 0 {
      FlattenAllInside(parts[..|parts| - 1], bb, buffer);
    }
  }

  /** When no chunk reaches outside the box, `valid` yields every chunk unchanged; otherwise
      it yields one chunk more than the whole ones it passed. */
  lemma ValidYieldShape(chunks: seq<seq<Row>>, bb: Bounds, buffer: real)
    ensures FirstPartial(chunks, bb, buffer) == |chunks| ==> ValidYield(chunks, bb, buffer) == chunks
    ensures FirstPartial(chunks, bb, buffer) < |chunks| ==> |ValidYield(chunks, bb, buffer)| == FirstPartial(chunks, bb, buffer) + 1
  {
  }

  // ---------------------------------------------------------------------------
  // read_cloudpointsfromxyz

  /** `pd.read_csv(…, chunksize=size)`: consecutive pieces of size rows, the last one shorter. */
  function Chunks(rows: seq<Row>, size: nat): (r: seq<seq<Row>>)
    requires size > 0
    ensures Flatten(r) == rows
    ensures forall i :: 0 <= i < |r| ==> 0 < |r[i]| <= size
    ensures |r| == 0 <==> |rows| == 0
    decreases |rows|
  {
    if |rows| == 0 then []
    else if |rows| <= size then
      assert Flatten([rows]) == Flatten([rows][..0]) + rows;
      [rows]
    else
      var rest := Chunks(rows[size..], size);
      FlattenCons(rows[..size], rest);
      assert rows[..size] + rows[size..] == rows;
      [rows[..size]] + rest
  }

  /** The x values the scan reads from a file: every row parses. */
  function XColumn(rows: seq<Row>): (r: seq<Option<real>>)
    ensures |r| == |rows|
  {
    seq(|rows|, i requires 0 <= i < |rows| => Some(rows[i].x))
  }

  /** The message read_cloudpointsfromxyz raises when too few rows were collected. */
  const NoIntersection := "Check the coordinates, there is no intesection in the file"

  /** What `pd.concat(valid(chunks, bb, buffer))` gives for a file whose chunk window is
      (firstRow, chunkSize > 0); pandas refuses to concatenate nothing. */
  function FileRows(rows: seq<Row>, firstRow: int, chunkSize: int, bb: Bounds, buffer: real): (r: Result<seq<Row>>)
    requires chunkSize > 0
    ensures r.Ok? ==> AllInside(r.value, bb, buffer)
    ensures r.Err? ==> r.error.ValueError?
  {
    var chunks := Chunks(rows[IClamp(firstRow, 0, |rows|)..], chunkSize);
    var yielded := ValidYield(chunks, bb, buffer);
    ValidRowsInside(chunks, bb, buffer);
    if |yielded| == 0 then Err(ValueError("No objects to concatenate")) else Ok(Flatten(yielded))
  }

  /** The rows one pass of the `while data` loop collects from a file: None when the scan
      reports no positive chunk size and the file is skipped. */
  function FileRead(rows: seq<Row>, bb: Bounds, buffer: real, step: int): (r: Option<Result<seq<Row>>>)
    ensures r.Some? && r.value.Ok? ==> AllInside(r.value.value, bb, buffer)
    ensures r.Some? && r.value.Err? ==> r.value.error.ValueError?
  {
    var w := ChunkWindow(XColumn(rows), bb, buffer, step);
    if w.1 > 0 then Some(FileRows(rows, w.0, w.1, bb, buffer)) else None
  }

  /** One pass of the `while data` loop over one file: scan, read in chunks, filter. */
  method ReadFile(rows: seq<Row>, bb: Bounds, buffer: real, step: int) returns (r: Option<Result<seq<Row>>>)
    ensures r == FileRead(rows, bb, buffer, step)
  {
    var firstRow, chunkSize := GetChunkSize(XColumn(rows), bb, buffer, step);
    if chunkSize <= 0 {
      return None;
    }
    var chunks := Chunks(rows[IClamp(firstRow, 0, |rows|)..], chunkSize);
    var yielded := Valid(chunks, bb, buffer);
    if |yielded| == 0 {
      return Some(Err(ValueError("No objects to concatenate")));
    }
    r := Some(Ok(Flatten(yielded)));
  }

  /** One pass of the `while data` loop on the collected table: a skipped file leaves it as
      it is, the first file starts it, a later file is appended to it (UnboundLocalError when
      no table was started), and a failing read ends the loop with its exception. */
  function PassStep(read: Option<Result<seq<Row>>>, count: nat, dfp: Option<seq<Row>>): Result<Option<seq<Row>>>
  {
    match read
    case None => Ok(dfp)
    case Some(Err(e)) => Err(e)
    case Some(Ok(df)) =>
      if count == 0 then Ok(Some(df))
      else if dfp.None? then Err(UnboundLocalError("dfp"))
      else Ok(Some(dfp.value + df))
  }

  /** Whether the pass over file `count` of n ends the loop: the first file gave more than
      mindata rows, or it was the last file. */
  predicate PassStops(read: Option<Result<seq<Row>>>, count: nat, n: nat, mindata: int)
  {
    (count == 0 && read.Some? && read.value.Ok? && |read.value.value| > mindata) || count >= n - 1
  }

  /** What each file's pass reads, in file order. */
  function Reads(files: seq<seq<Row>>, bb: Bounds, buffer: real, step: int): (r: seq<Option<Result<seq<Row>>>>)
    ensures |r| == |files| && forall i :: 0 <= i < |files| ==> r[i] == FileRead(files[i], bb, buffer, step)
  {
    seq(|files|, i requires 0 <= i < |files| => FileRead(files[i], bb, buffer, step))
  }

  /** The table the `while data` loop ends with, from file `count` on with `dfp` collected,
      given what each file's pass reads. */
  function Passes(outcomes: seq<Option<Result<seq<Row>>>>, mindata: int, count: nat, dfp: Option<seq<Row>>): Result<Option<seq<Row>>>
    requires count < |outcomes|
    decreases |outcomes| - count
  {
    match PassStep(outcomes[count], count, dfp)
    case Err(e) => Err(e)
    case Ok(d) => if PassStops(outcomes[count], count, |outcomes|, mindata) then Ok(d) else Passes(outcomes, mindata, count + 1, d)
  }

  /** The checks after the loop: no table is UnboundLocalError, fewer than mindata rows a
      ValueError. */
  function Finish(t: Result<Option<seq<Row>>>, mindata: int): Result<seq<Row>>
  {
    match t
    case Err(e) => Err(e)
    case Ok(None) => Err(UnboundLocalError("dfp"))
    case Ok(Some(d)) => if |d| < mindata then Err(ValueError(NoIntersection)) else Ok(d)
  }

  /** What read_cloudpointsfromxyz returns for the files of a folder, each given as its rows. */
  function CloudRows(files: seq<seq<Row>>, bb: Bounds, buffer: real, step: int, mindata: int): (r: Result<seq<Row>>)
    ensures |files| == 0 ==> r == Err(IndexError)
  {
    if |files| == 0 then Err(IndexError) else Finish(Passes(Reads(files, bb, buffer, step), mindata, 0, None), mindata)
  }

  /** The rows a pass contributes when its read does not fail (none when the file is skipped). */
  function Yield(read: Option<Result<seq<Row>>>): seq<Row>
  {
    match read
    case Some(Ok(d)) => d
    case _ => []
  }

  /** The rows of files `from` onwards, one file after another. */
  function YieldFrom(outcomes: seq<Option<Result<seq<Row>>>>, from: nat): seq<Row>
    decreases |outcomes| - from
  {
    if from >= |outcomes| then [] else Yield(outcomes[from]) + YieldFrom(outcomes, from + 1)
  }

  /** No pass from `from` on fails to read. */
  predicate NoneFailFrom(outcomes: seq<Option<Result<seq<Row>>>>, from: nat)
  {
    forall i :: from <= i < |outcomes| ==> outcomes[i].None? || outcomes[i].value.Ok?
  }

  /** Past the first file, every later file's rows are appended to the table in file order. */
  lemma {:induction false} PassesAppend(outcomes: seq<Option<Result<seq<Row>>>>, mindata: int, count: nat, p: seq<Row>)
    requires 1 <= count < |outcomes| && NoneFailFrom(outcomes, count)
    ensures Passes(outcomes, mindata, count, Some(p)) == Ok(Some(p + YieldFrom(outcomes, count)))
    decreases |outcomes| - count
  {
    var y := Yield(outcomes[count]);
    var rest := YieldFrom(outcomes, count + 1);
    if outcomes[count].None? {
      assert p + y == p;
    }
    assert PassStep(outcomes[count], count, Some(p)) == Ok(Some(p + y));
    if count == |outcomes| - 1 {
      assert y + rest == y;
    } else {
      PassesAppend(outcomes, mindata, count + 1, p + y);
      assert p + y + rest == p + (y + rest);
    }
  }

  /** When the first file is read and gives at most mindata rows and no file fails, the
      result is every file's rows in file order, or the ValueError when fewer than mindata
      were collected. */
  lemma CloudRowsAppendsAll(files: seq<seq<Row>>, bb: Bounds, buffer: real, step: int, mindata: int)
    requires |files| > 0
    requires NoneFailFrom(Reads(files, bb, buffer, step), 0)
    requires FileRead(files[0], bb, buffer, step).Some? && |Yield(FileRead(files[0], bb, buffer, step))| <= mindata
    ensures var all := YieldFrom(Reads(files, bb, buffer, step), 0);
      CloudRows(files, bb, buffer, step, mindata) == if |all| < mindata then Err(ValueError(NoIntersection)) else Ok(all)
  {
    var outcomes := Reads(files, bb, buffer, step);
    var y := Yield(outcomes[0]);
    if |files| == 1 {
      assert y + YieldFrom(outcomes, 1) == y;
    } else {
      PassesAppend(outcomes, mindata, 1, y);
    }
  }

  lemma FlattenPair<T>(a: seq<T>, b: seq<T>)
    ensures Flatten([a, b]) == a + b
  {
    assert [a, b][..1] == [a];
    assert [a][..0] == [];
    assert Flatten([a]) == Flatten([a][..0]) + a;
  }

  /** The body of the `while data` loop on file `count` of n: read the file, start or extend
      the collected table, and decide whether the loop ends. */
  method Pass(rows: seq<Row>, bb: Bounds, buffer: real, step: int, mindata: int, count: nat, n: nat, dfp: Option<seq<Row>>)
    returns (next: Result<Option<seq<Row>>>, stop: bool)
    ensures next == PassStep(FileRead(rows, bb, buffer, step), count, dfp)
    ensures next.Ok? ==> stop == PassStops(FileRead(rows, bb, buffer, step), count, n, mindata)
  {
    var read := ReadFile(rows, bb, buffer, step);
    stop := false;
    next := Ok(dfp);
    if read.Some? {
      if read.value.Err? {
        return Err(read.value.error), false;
      }
      var df := read.value.value;
      if count == 0 {
        next := Ok(Some(df));
        if |df| > mindata {
          stop := true;
        }
      } else {
        if dfp.None? {
          return Err(UnboundLocalError("dfp")), false;
        }
        next := Ok(Some(dfp.value + df));
      }
    }
    if count >= n - 1 {
      stop := true;
    }
  }

  /** The `while data` loop of read_cloudpointsfromxyz over the files of a folder, each
      given as its rows: one pass per file until the first file alone gives more than
      mindata rows or the last file is read. */
  method ReadCloudPoints(files: seq<seq<Row>>, bb: Bounds, buffer: real, step: int, mindata: int) returns (r: Result<seq<Row>>)
    ensures r == CloudRows(files, bb, buffer, step, mindata)
  {
    if |files| == 0 {
      return Err(IndexError);
    }
    ghost var outcomes := Reads(files, bb, buffer, step);
    var data := true;
    var dfp: Option<seq<Row>> := None;
    var count := 0;
    while data
      invariant 0 <= count <= |files|
      invariant data ==> count < |files|
      invariant data ==> CloudRows(files, bb, buffer, step, mindata) == Finish(Passes(outcomes, mindata, count, dfp), mindata)
      invariant !data ==> CloudRows(files, bb, buffer, step, mindata) == Finish(Ok(dfp), mindata)
      decreases |files| - count
    {
      var next, stop := Pass(files[count], bb, buffer, step, mindata, count, |files|, dfp);
      assert FileRead(files[count], bb, buffer, step) == outcomes[count];
      if next.Err? {
        return Err(next.error);
      }
      dfp := next.value;
      if stop {
        data := false;
      }
      count := count + 1;
    }
    if dfp.None? {
      return Err(UnboundLocalError("dfp"));
    }
    if |dfp.value| < mindata {
      return Err(ValueError(NoIntersection));
    }
    r := Ok(dfp.value);
  }

  /** Every table a pass collects lies inside the box, and a failing pass raises a
      ValueError from its read or the UnboundLocalError of a table never started. */
  lemma {:induction false} PassesKeepInside(outcomes: seq<Option<Result<seq<Row>>>>, bb: Bounds, buffer: real, mindata: int, count: nat, dfp: Option<seq<Row>>)
    requires count < |outcomes|
    requires forall i :: count <= i < |outcomes| && outcomes[i].Some? && outcomes[i].value.Ok? ==> AllInside(outcomes[i].value.value, bb, buffer)
    requires forall i :: count <= i < |outcomes| && outcomes[i].Some? && outcomes[i].value.Err? ==> outcomes[i].value.error.ValueError?
    requires dfp.Some? ==> AllInside(dfp.value, bb, buffer)
    ensures var t := Passes(outcomes, mindata, count, dfp);
      (t.Ok? && t.value.Some? ==> AllInside(t.value.value, bb, buffer))
      && (t.Err? ==> t.error.ValueError? || t.error == UnboundLocalError("dfp"))
    decreases |outcomes| - count
  {
    var step := PassStep(outcomes[count], count, dfp);
    if step.Ok? && step.value.Some? && count > 0 && outcomes[count].Some? {
      FlattenAllInside([dfp.value, outcomes[count].value.value], bb, buffer);
      FlattenPair(dfp.value, outcomes[count].value.value);
    }
    if step.Ok? && !PassStops(outcomes[count], count, |outcomes|, mindata) {
      PassesKeepInside(outcomes, bb, buffer, mindata, count + 1, step.value);
    }
  }

  /** read_cloudpointsfromxyz on an empty folder raises IndexError; a table it returns has at
      least mindata rows, all inside the box; any other failure is a ValueError or the
      UnboundLocalError of a table never started; and a first file that gives more than
      mindata rows is the result on its own. */
  lemma CloudRowsOutcome(files: seq<seq<Row>>, bb: Bounds, buffer: real, step: int, mindata: int)
    ensures var r := CloudRows(files, bb, buffer, step, mindata);
      (|files| == 0 ==> r == Err(IndexError))
      && (r.Ok? ==> |r.value| >= mindata && AllInside(r.value, bb, buffer))
      && (r.Err? && |files| > 0 ==> r.error.ValueError? || r.error == UnboundLocalError("dfp"))
    ensures |files| > 0 ==>
      var first := FileRead(files[0], bb, buffer, step);
      first.Some? && first.value.Ok? && |first.value.value| > mindata ==> CloudRows(files, bb, buffer, step, mindata) == first.value
  {
    if |files| > 0 {
      PassesKeepInside(Reads(files, bb, buffer, step), bb, buffer, mindata, 0, None);
    }
  }

  // ---------------------------------------------------------------------------
  // Baseline removal on point tables

  /** `data.loc[data.iloc[:,2] >= bsl]`: the rows at or above the baseline, in order. */
  function AboveBaseline(rows: seq<Row>, bsl: real): (r: seq<Row>)
    ensures |r| <= |rows|
    ensures forall i :: 0 <= i < |r| ==> r[i].z >= bsl
    ensures forall row :: row in r <==> row in rows && row.z >= bsl
    ensures (forall i :: 0 <= i < |rows| ==> rows[i].z >= bsl) ==> r == rows
  {
    if |rows| == 0 then []
    else
      assert forall i :: 0 <= i < |rows| - 1 ==> rows[1..][i] == rows[i + 1];
      assert rows == [rows[0]] + rows[1..];
      (if rows[0].z >= bsl then [rows[0]] else []) + AboveBaseline(rows[1..], bsl)
  }

  /** `(z - bsl) * scale_height`: one height measured from the baseline. */
  function Height(z: real, bsl: real, scale: real): (h: real)
    ensures z >= bsl && scale >= 0.0 ==> h >= 0.0
    ensures bsl == 0.0 && scale == 1.0 ==> h == z
  {
    (z - bsl) * scale
  }

  /** `data.iloc[:,2] = (z - bsl) * scale_height`: heights above the baseline. */
  function Rebase(rows: seq<Row>, bsl: real, scale: real): (r: seq<Row>)
    ensures |r| == |rows|
    ensures forall i :: 0 <= i < |r| ==> r[i] == rows[i].(z := Height(rows[i].z, bsl, scale))
  {
    seq(|rows|, i requires 0 <= i < |rows| => rows[i].(z := Height(rows[i].z, bsl, scale)))
  }

  /** What remove_baseline makes of one point table. */
  function RemoveBaselineRows(rows: seq<Row>, bsl: real, scale: real): seq<Row>
  {
    Rebase(AboveBaseline(rows, bsl), bsl, scale)
  }

  /** remove_baseline applied to every table, in place of the old ones. */
  function RemoveBaselineAll(clouds: seq<seq<Row>>, bsl: real, scale: real): (r: seq<seq<Row>>)
    ensures |r| == |clouds|
  {
    seq(|clouds|, i requires 0 <= i < |clouds| => RemoveBaselineRows(clouds[i], bsl, scale))
  }

  /** With a non-negative scale, every height left after the baseline is removed is
      non-negative, and the rows keep their position and other columns. */
  lemma RemoveBaselineHeights(rows: seq<Row>, bsl: real, scale: real)
    requires scale >= 0.0
    ensures var r := RemoveBaselineRows(rows, bsl, scale);
      forall i :: 0 <= i < |r| ==> r[i].z >= 0.0
  {
    var kept := AboveBaseline(rows, bsl);
    var r := RemoveBaselineRows(rows, bsl, scale);
    forall i | 0 <= i < |r|
      ensures r[i].z >= 0.0
    {
      assert r[i].z == Height(kept[i].z, bsl, scale);
    }
  }

  /** A second pass with baseline 0 and scale 1 leaves a table whose baseline was removed
      with a non-negative scale unchanged. */
  lemma RemoveBaselineSettled(rows: seq<Row>, bsl: real, scale: real)
    requires scale >= 0.0
    ensures RemoveBaselineRows(RemoveBaselineRows(rows, bsl, scale), 0.0, 1.0) == RemoveBaselineRows(rows, bsl, scale)
  {
    var r := RemoveBaselineRows(rows, bsl, scale);
    RemoveBaselineHeights(rows, bsl, scale);
    assert AboveBaseline(r, 0.0) == r;
    var again := Rebase(r, 0.0, 1.0);
    assert forall i :: 0 <= i < |r| ==> again[i] == r[i];
  }

  /** Removing the baseline never moves a point sideways: a table inside the box stays inside. */
  lemma RemoveBaselineStaysInside(rows: seq<Row>, bsl: real, scale: real, bb: Bounds, buffer: real)
    requires AllInside(rows, bb, buffer)
    ensures AllInside(RemoveBaselineRows(rows, bsl, scale), bb, buffer)
  {
    var kept := AboveBaseline(rows, bsl);
    assert forall i :: 0 <= i < |kept| ==> kept[i] in rows;
  }

  /** The baseline remove_baseline uses: the given value verbatim, or the estimate the
      foreign get_baseline_altitude makes from the reference table. */
  function Baseline(clouds: seq<seq<Row>>, cloudReference: int, baselineVal: Option<real>,
                    baselineAltitude: seq<Row> -> real): (r: Result<real>)
    ensures baselineVal.Some? ==> r == Ok(baselineVal.value)
    ensures r.Err? <==> baselineVal.None? && !(0 <= Position(cloudReference, |clouds|) < |clouds|)
  {
    match baselineVal
    case Some(v) => Ok(v)
    case None =>
      var k := Position(cloudReference, |clouds|);
      if 0 <= k < |clouds| then Ok(baselineAltitude(clouds[k])) else Err(IndexError)
  }

  /** CloudPoints: the point tables read for each file, clipped to the region of interest,
      and the baseline last removed from them. */
  class CloudPoints {
    var cloudPoints: seq<seq<Row>>
    /** `_bsl`: None until remove_baseline has run. */
    var bsl: Option<real>

    constructor (clouds: seq<seq<Row>>)
      ensures cloudPoints == clouds && bsl == None
    {
      cloudPoints := clouds;
      bsl := None;
    }

    /** remove_baseline: picks the baseline, records it, and when applyBsl holds replaces
        every table by its rows at or above the baseline with heights measured from it. */
    method RemoveBaseline(cloudReference: int, scaleHeight: real, applyBsl: bool, baselineVal: Option<real>,
                          baselineAltitude: seq<Row> -> real) returns (failure: Option<Error>)
      modifies this
      ensures var b := Baseline(old(cloudPoints), cloudReference, baselineVal, baselineAltitude);
        b.Err? ==> failure == Some(b.error) && cloudPoints == old(cloudPoints) && bsl == old(bsl)
      ensures var b := Baseline(old(cloudPoints), cloudReference, baselineVal, baselineAltitude);
        b.Ok? ==> failure == None && bsl == Some(b.value)
      ensures var b := Baseline(old(cloudPoints), cloudReference, baselineVal, baselineAltitude);
        b.Ok? ==> cloudPoints == if applyBsl then RemoveBaselineAll(old(cloudPoints), b.value, scaleHeight) else old(cloudPoints)
    {
      var b := Baseline(cloudPoints, cloudReference, baselineVal, baselineAltitude);
      if b.Err? {
        return Some(b.error);
      }
      bsl := Some(b.value);
      if applyBsl {
        ApplyBaseline(b.value, scaleHeight);
      }
      failure := None;
    }

    /** The loop of remove_baseline: each table in turn replaced by its rebased rows. */
    method ApplyBaseline(b: real, scaleHeight: real)
      modifies this
      ensures cloudPoints == RemoveBaselineAll(old(cloudPoints), b, scaleHeight) && bsl == old(bsl)
    {
      ghost var original := cloudPoints;
      var i := 0;
      while i < |cloudPoints|
        invariant 0 <= i <= |cloudPoints| == |original| && bsl == old(bsl)
        invariant forall j :: 0 <= j < i ==> cloudPoints[j] == RemoveBaselineRows(original[j], b, scaleHeight)
        invariant forall j :: i <= j < |cloudPoints| ==> cloudPoints[j] == original[j]
      {
        cloudPoints := cloudPoints[i := RemoveBaselineRows(cloudPoints[i], b, scaleHeight)];
        i := i + 1;
      }
    }
  }

  // ---------------------------------------------------------------------------
  // Baseline removal on a rasterised cloud

  /** One pixel of a rasterised cloud: the altitude layer `z` and the other layers. */
  datatype Cell = Cell(z: Option<real>, layers: seq<Option<real>>)

  /** remove_bsl_toxarray at one pixel: `where(z > bsl)` blanks every layer of a pixel at or
      below the baseline (or without altitude); the altitude left is scaled from the baseline. */
  function RemoveBslCell(c: Cell, bsl: real, scale: real): (r: Cell)
    ensures |r.layers| == |c.layers|
    ensures r.z.Some? <==> c.z.Some? && c.z.value > bsl
    ensures r.z.Some? ==> r.layers == c.layers
    ensures r.z.None? ==> forall i :: 0 <= i < |r.layers| ==> r.layers[i].None?
  {
    if c.z.Some? && c.z.value > bsl then Cell(Some(Height(c.z.value, bsl, scale)), c.layers)
    else Cell(None, seq(|c.layers|, _ => None))
  }

  /** remove_bsl_toxarray over the pixels of a raster. */
  function RemoveBslToXarray(cells: seq<Cell>, bsl: real, scale: real): (r: seq<Cell>)
    ensures |r| == |cells|
  {
    seq(|cells|, i requires 0 <= i < |cells| => RemoveBslCell(cells[i], bsl, scale))
  }

  /** The two baseline removals agree on every point strictly above the baseline and differ
      exactly at it: the table keeps such a point at height 0, the raster blanks it. */
  lemma BaselineFiltersCompared(row: Row, layers: seq<Option<real>>, bsl: real, scale: real)
    ensures var cell := RemoveBslCell(Cell(Some(row.z), layers), bsl, scale);
      var kept := RemoveBaselineRows([row], bsl, scale);
      (cell.z.Some? ==> kept == [row.(z := cell.z.value)])
      && (|kept| == 1 && cell.z.None? <==> row.z == bsl)
  {
    var kept := RemoveBaselineRows([row], bsl, scale);
    assert [row][1..] == [];
    if row.z >= bsl {
      assert AboveBaseline([row], bsl) == [row];
      var h := Height(row.z, bsl, scale);
      assert kept[0] == row.(z := h);
      assert kept == [row.(z := h)];
      var cell := RemoveBslCell(Cell(Some(row.z), layers), bsl, scale);
      assert cell.z.Some? ==> cell.z.value == h;
    } else {
      assert AboveBaseline([row], bsl) == [];
    }
  }
}
