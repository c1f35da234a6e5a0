/** The polar profile walk of cartimg_topolar_transform, in both of its copies
    (ImagesTransform/image_functions.py and utils/image_functions.py). Each rotated copy of
    the expanded image is walked down its centre column from the centre row, recording the
    row offset and the value of every valid sample, until `nathreshhold` NaNs in a row or the
    last-but-one row; the value profiles are then padded with NaN to a rectangle. The
    rotation itself (PIL) is an input: one band per angle. */
module Polar {
  import opened Common

  /** A band with missing samples: rows of optional pixel values. */
  type Band = seq<seq<Option<real>>>

  /** A non-empty rectangular band, as PIL returns for a non-empty image. */
  predicate WellFormed(b: Band)
  {
    |b| > 0 && |b[0]| > 0 && forall r :: 0 <= r < |b| ==> |b[r]| == |b[0]|
  }

  /** Column x of a band, `imgarray[:, x]`. */
  function Column(b: Band, x: int): (r: seq<Option<real>>)
    requires 0 <= x && forall i :: 0 <= i < |b| ==> x < |b[i]|
    ensures |r| == |b| && forall i :: 0 <= i < |b| ==> r[i] == b[i][x]
  {
    seq(|b|, i requires 0 <= i < |b| => b[i][x])
  }

  // ---------------------------------------------------------------------------
  // Expansion border

  /** `newwidth, newheight` of the expansion border: `int(size * expand_ratio / 100)`, with
      expand_ratio defaulting to `(major / minor - 1) * 100`; a zero-length minor axis
      divides by zero. */
  function ExpandBorder(xsize: nat, ysize: nat, expandRatio: Option<real>): (r: Result<(int, int)>)
    ensures r.Err? <==> expandRatio.None? && (xsize == 0 || ysize == 0)
    ensures r.Err? ==> r.error == ZeroDivisionError
    ensures expandRatio.None? && xsize == ysize > 0 ==> r == Ok((0, 0))
    ensures expandRatio.None? && xsize > ysize > 0 ==> r.Ok? && r.value.1 == xsize - ysize
    ensures expandRatio.None? && ysize > xsize > 0 ==> r.Ok? && r.value.0 == ysize - xsize
  {
    var ratio: Result<real> :=
      match expandRatio
      case Some(e) => Ok(e)
      case None =>
        var (major, minor) := if xsize > ysize then (xsize, ysize) else (ysize, xsize);
        if minor == 0 then Err(ZeroDivisionError) else Ok((major as real / minor as real - 1.0) * 100.0);
    if ratio.Err? then Err(ratio.error)
    else
      assert expandRatio.None? && xsize > ysize > 0 ==> ysize as real * ratio.value / 100.0 == (xsize - ysize) as real by {
        if expandRatio.None? && xsize > ysize > 0 {
          assert ratio.value / 100.0 == xsize as real / ysize as real - 1.0;
          assert ysize as real * (xsize as real / ysize as real) == xsize as real;
        }
      }
      assert expandRatio.None? && ysize > xsize > 0 ==> xsize as real * ratio.value / 100.0 == (ysize - xsize) as real by {
        if expandRatio.None? && ysize > xsize > 0 {
          assert ratio.value / 100.0 == ysize as real / xsize as real - 1.0;
          assert xsize as real * (ysize as real / xsize as real) == ysize as real;
        }
      }
      Ok((Trunc(xsize as real * ratio.value / 100.0), Trunc(ysize as real * ratio.value / 100.0)))
  }

  // ---------------------------------------------------------------------------
  // The walk down one column

  /** The walk down `column` from row i, with `countna` NaNs met in a row so far: the row
      offsets from `centre` and the values of the valid samples it records. */
  function Walk(column: seq<Option<real>>, centre: int, i: int, countna: int, threshold: int): (r: (seq<int>, seq<Option<real>>))
    requires 0 <= centre <= i
    decreases |column| - i
  {
    if countna < threshold && i < |column| - 1 then
      if column[i].None? then Walk(column, centre, i + 1, countna + 1, threshold)
      else
        var rest := Walk(column, centre, i + 1, 0, threshold);
        ([i - centre] + rest.0, [column[i]] + rest.1)
    else ([], [])
  }

  /** What the walk records: as many values as offsets, each offset a row from i to the
      last-but-one whose sample is valid and is the recorded value, offsets increasing. */
  lemma {:induction false} WalkSound(column: seq<Option<real>>, centre: int, i: int, countna: int, threshold: int)
    requires 0 <= centre <= i
    ensures var r := Walk(column, centre, i, countna, threshold);
      && |r.0| == |r.1|
      && (forall k :: 0 <= k < |r.0| ==>
            i <= centre + r.0[k] < |column| - 1 && r.1[k] == column[centre + r.0[k]] && r.1[k].Some?)
      && (forall k, m :: 0 <= k < m < |r.0| ==> r.0[k] < r.0[m])
    decreases |column| - i
  {
    if countna < threshold && i < |column| - 1 {
      if column[i].None? {
        WalkSound(column, centre, i + 1, countna + 1, threshold);
      } else {
        WalkSound(column, centre, i + 1, 0, threshold);
      }
    }
  }

  /** Once the walk is inside a run of NaNs starting at row j, and has counted at least as
      many NaNs as it has passed in the run, it records nothing more. */
  lemma {:induction false} InsideNaNRunRecordsNothing(column: seq<Option<real>>, centre: int, i: int, countna: int, threshold: int, j: int)
    requires 0 <= centre <= i && 0 <= j <= i <= j + threshold && countna >= i - j
    requires j + threshold <= |column|
    requires forall k :: j <= k < j + threshold ==> column[k].None?
    ensures Walk(column, centre, i, countna, threshold).0 == []
    decreases |column| - i
  {
    if countna < threshold && i < |column| - 1 {
      InsideNaNRunRecordsNothing(column, centre, i + 1, countna + 1, threshold, j);
    }
  }

  /** `nathreshhold` NaNs in a row stop the walk: no row at or below the run is recorded. */
  lemma {:induction false} WalkStopsAtNaNRun(column: seq<Option<real>>, centre: int, i: int, countna: int, threshold: int, j: int)
    requires 0 <= centre <= i <= j && 0 <= countna
    requires j + threshold <= |column|
    requires forall k :: j <= k < j + threshold ==> column[k].None?
    ensures forall k :: 0 <= k < |Walk(column, centre, i, countna, threshold).0| ==>
      centre + Walk(column, centre, i, countna, threshold).0[k] < j
    decreases j - i
  {
    if i == j {
      if threshold >= 0 {
        InsideNaNRunRecordsNothing(column, centre, i, countna, threshold, j);
      }
    } else if countna < threshold && i < |column| - 1 {
      if column[i].None? {
        WalkStopsAtNaNRun(column, centre, i + 1, countna + 1, threshold, j);
      } else {
        WalkStopsAtNaNRun(column, centre, i + 1, 0, threshold, j);
      }
    }
  }

  /** A valid sample resets the count: on a column without NaNs below row i, a walk with a
      positive threshold records every row from i to the last-but-one. */
  lemma {:induction false} WalkRecordsEveryValidRow(column: seq<Option<real>>, centre: int, i: int, threshold: int)
    requires 0 <= centre <= i < |column| && threshold > 0
    requires forall k :: i <= k < |column| ==> column[k].Some?
    ensures Walk(column, centre, i, 0, threshold).0 == seq(|column| - 1 - i, k requires 0 <= k < |column| - 1 - i => i + k - centre)
    decreases |column| - i
  {
    var r := Walk(column, centre, i, 0, threshold).0;
    if i < |column| - 1 {
      WalkRecordsEveryValidRow(column, centre, i + 1, threshold);
      assert r == [i - centre] + Walk(column, centre, i + 1, 0, threshold).0;
    }
  }

  /** The `while countna < nathreshhold and i < shape[0] - 1` loop over one column. */
  method WalkColumn(column: seq<Option<real>>, centre: int, threshold: int) returns (coords: seq<int>, values: seq<Option<real>>)
    requires 0 <= centre
    ensures (coords, values) == Walk(column, centre, centre, 0, threshold)
  {
    coords, values := [], [];
    var i, countna := centre, 0;
    while countna < threshold && i < |column| - 1
      invariant centre <= i
      invariant coords + Walk(column, centre, i, countna, threshold).0 == Walk(column, centre, centre, 0, threshold).0
      invariant values + Walk(column, centre, i, countna, threshold).1 == Walk(column, centre, centre, 0, threshold).1
      decreases |column| - i
    {
      ghost var rest := Walk(column, centre, i + 1, if column[i].None? then countna + 1 else 0, threshold);
      if column[i].None? {
        countna := countna + 1;
      } else {
        assert Walk(column, centre, i, countna, threshold) == ([i - centre] + rest.0, [column[i]] + rest.1);
        coords := coords + [i - centre];
        values := values + [column[i]];
        countna := 0;
      }
      i := i + 1;
    }
    assert Walk(column, centre, i, countna, threshold) == ([], []);
    assert coords + [] == coords && values + [] == values;
  }

  // ---------------------------------------------------------------------------
  // Centres

  /** `(int(shape[0] / 2), int(shape[1] / 2))`. */
  function GridCentre(b: Band): (int, int)
    requires WellFormed(b)
  {
    (|b| / 2, |b[0]| / 2)
  }

  /** What getcenter_from_hull is relied on for: a (row, column) pixel of the band. */
  ghost predicate HullInside(hull: Band -> (int, int))
  {
    forall b {:trigger hull(b)} :: WellFormed(b) ==> 0 <= hull(b).0 < |b| && 0 <= hull(b).1 < |b[0]|
  }

  /** The centre the utils copy walks from: the hull centre when the grid centre is NaN. */
  function HullCentre(b: Band, hull: Band -> (int, int)): (c: (int, int))
    requires WellFormed(b) && HullInside(hull)
    ensures 0 <= c.0 < |b| && 0 <= c.1 < |b[0]|
  {
    var (cy, cx) := GridCentre(b);
    if b[cy][cx].None? then hull(b) else (cy, cx)
  }

  /** The profile of one rotated band walked from `centre`. */
  function Profile(b: Band, centre: (int, int), threshold: int): (seq<int>, seq<Option<real>>)
    requires WellFormed(b) && 0 <= centre.0 < |b| && 0 <= centre.1 < |b[0]|
  {
    Walk(Column(b, centre.1), centre.0, centre.0, 0, threshold)
  }

  // ---------------------------------------------------------------------------
  // Padding to a rectangle

  /** Whether profile b is the first of the longest profiles. */
  ghost predicate FirstLongest(ds: seq<seq<int>>, b: int)
  {
    0 <= b < |ds| && (forall a :: 0 <= a < |ds| ==> |ds[a]| <= |ds[b]|) && (forall a :: 0 <= a < b ==> |ds[a]| < |ds[b]|)
  }

  /** The index of the first longest non-empty profile, -1 when every profile is empty. */
  function FirstLongestIndex(ds: seq<seq<int>>): (r: int)
    ensures -1 <= r < |ds|
    ensures r == -1 <==> forall a :: 0 <= a < |ds| ==> |ds[a]| == 0
    ensures r >= 0 ==> FirstLongest(ds, r) && |ds[r]| > 0
  {
    if |ds| == 0 then -1
    else
      var b := FirstLongestIndex(ds[..|ds| - 1]);
      var last := ds[|ds| - 1];
      if (b == -1 && |last| > 0) || (b >= 0 && |ds[b]| < |last|) then |ds| - 1 else b
  }

  /** `nrowid + 1`: one past the last offset of the first longest profile, 1 when all are empty. */
  function PadLength(ds: seq<seq<int>>): int
  {
    var b := FirstLongestIndex(ds);
    if b < 0 then 1 else ds[b][|ds[b]| - 1] + 1
  }

  /** The `maxval`/`nrowid` loop over the offset profiles. */
  method LastOffsetOfLongest(distances: seq<seq<int>>) returns (nrowid: int)
    ensures nrowid + 1 == PadLength(distances)
  {
    var maxval := 0;
    nrowid := 0;
    ghost var best := -1;
    for i := 0 to |distances|
      invariant best == FirstLongestIndex(distances[..i])
      invariant maxval == if best < 0 then 0 else |distances[best]|
      invariant nrowid == if best < 0 then 0 else distances[best][|distances[best]| - 1]
    {
      assert distances[..i + 1][..i] == distances[..i];
      if maxval < |distances[i]| {
        maxval := |distances[i]|;
        nrowid := distances[i][|distances[i]| - 1];
        best := i;
      }
    }
    assert distances[..|distances|] == distances;
  }

  /** `profile + [nan for j in range(n - len(profile))]`: an empty range when n is not larger. */
  function PadWithNaN(profile: seq<Option<real>>, n: int): (r: seq<Option<real>>)
    ensures |r| == Max(|profile|, n)
    ensures r[..|profile|] == profile
    ensures forall k :: |profile| <= k < |r| ==> r[k].None?
  {
    profile + seq(Max(n - |profile|, 0), _ => None)
  }

  /** The padding loop, rewriting each profile of the list in place. */
  method PadProfiles(values: array<seq<Option<real>>>, nrowid: int)
    modifies values
    ensures forall a :: 0 <= a < values.Length ==> values[a] == PadWithNaN(old(values[a]), nrowid + 1)
  {
    for i := 0 to values.Length
      invariant forall a :: 0 <= a < i ==> values[a] == PadWithNaN(old(values[a]), nrowid + 1)
      invariant forall a :: i <= a < values.Length ==> values[a] == old(values[a])
    {
      values[i] := PadWithNaN(values[i], nrowid + 1);
    }
  }

  /** Offsets that start at 0 or later and strictly increase. */
  predicate Increasing(s: seq<int>)
  {
    (forall k :: 0 <= k < |s| ==> 0 <= s[k]) && (forall k, m :: 0 <= k < m < |s| ==> s[k] < s[m])
  }

  /** The last of n increasing offsets is at least n - 1. */
  lemma {:induction false} IncreasingLastBound(s: seq<int>)
    requires Increasing(s) && |s| > 0
    ensures s[|s| - 1] >= |s| - 1
  {
    if |s| > 1 {
      var t := s[..|s| - 1];
      assert Increasing(t);
      IncreasingLastBound(t);
      assert s[|s| - 2] < s[|s| - 1];
    }
  }

  /** Every profile is at most PadLength long, so padding to it yields a rectangle. */
  lemma PadLengthCoversAll(ds: seq<seq<int>>)
    requires forall a :: 0 <= a < |ds| ==> Increasing(ds[a])
    ensures forall a :: 0 <= a < |ds| ==> |ds[a]| <= PadLength(ds)
  {
    var b := FirstLongestIndex(ds);
    if b >= 0 {
      IncreasingLastBound(ds[b]);
    }
  }

  // ---------------------------------------------------------------------------
  // The whole transform

  /** The walk for every angle, each rotated band walked from its given centre. */
  method WalkAngles(rotated: seq<Band>, centres: seq<(int, int)>, threshold: int) returns (distances: seq<seq<int>>, values: seq<seq<Option<real>>>)
    requires |centres| == |rotated|
    requires forall a :: 0 <= a < |rotated| ==>
      WellFormed(rotated[a]) && 0 <= centres[a].0 < |rotated[a]| && 0 <= centres[a].1 < |rotated[a][0]|
    ensures |distances| == |values| == |rotated|
    ensures forall a :: 0 <= a < |rotated| ==>
      distances[a] == Profile(rotated[a], centres[a], threshold).0 && values[a] == Profile(rotated[a], centres[a], threshold).1
    ensures forall a :: 0 <= a < |rotated| ==> Increasing(distances[a]) && |values[a]| == |distances[a]|
  {
    distances, values := [], [];
    for a := 0 to |rotated|
      invariant |distances| == |values| == a
      invariant forall m :: 0 <= m < a ==>
        distances[m] == Profile(rotated[m], centres[m], threshold).0 && values[m] == Profile(rotated[m], centres[m], threshold).1
      invariant forall m :: 0 <= m < a ==> Increasing(distances[m]) && |values[m]| == |distances[m]|
    {
      var (cy, cx) := centres[a];
      var coords, vals := WalkColumn(Column(rotated[a], cx), cy, threshold);
      WalkSound(Column(rotated[a], cx), cy, cy, 0, threshold);
      distances := distances + [coords];
      values := values + [vals];
    }
  }

  /** Pads the walked value profiles to `nrowid + 1`. */
  method PadToLongest(distances: seq<seq<int>>, values: seq<seq<Option<real>>>) returns (padded: seq<seq<Option<real>>>)
    requires |distances| == |values|
    requires forall a :: 0 <= a < |distances| ==> Increasing(distances[a]) && |values[a]| == |distances[a]|
    ensures |padded| == |values|
    ensures forall a :: 0 <= a < |values| ==> padded[a] == PadWithNaN(values[a], PadLength(distances))
    ensures forall a :: 0 <= a < |values| ==> |padded[a]| == PadLength(distances)
  {
    var nrowid := LastOffsetOfLongest(distances);
    var rows := new seq<Option<real>>[|values|](i requires 0 <= i < |values| => values[i]);
    PadProfiles(rows, nrowid);
    padded := rows[..];
    PadLengthCoversAll(distances);
  }

  /** cartimg_topolar_transform of ImagesTransform/image_functions.py on the rotated bands:
      each walked from its grid centre, the values padded to a rectangle. */
  method CartToPolar(rotated: seq<Band>, threshold: int) returns (distances: seq<seq<int>>, values: seq<seq<Option<real>>>)
    requires forall a :: 0 <= a < |rotated| ==> WellFormed(rotated[a])
    ensures |distances| == |values| == |rotated|
    ensures forall a :: 0 <= a < |rotated| ==> distances[a] == Profile(rotated[a], GridCentre(rotated[a]), threshold).0
    ensures forall a :: 0 <= a < |rotated| ==>
      values[a] == PadWithNaN(Profile(rotated[a], GridCentre(rotated[a]), threshold).1, PadLength(distances))
    ensures forall a :: 0 <= a < |rotated| ==> |values[a]| == PadLength(distances)
  {
    var centres := seq(|rotated|, a requires 0 <= a < |rotated| => GridCentre(rotated[a]));
    var walked;
    distances, walked := WalkAngles(rotated, centres, threshold);
    values := PadToLongest(distances, walked);
  }

  /** cartimg_topolar_transform of utils/image_functions.py: as above, but a band whose centre
      pixel is NaN is walked from the hull centre instead. */
  method CartToPolarWithHull(rotated: seq<Band>, threshold: int, hull: Band -> (int, int)) returns (distances: seq<seq<int>>, values: seq<seq<Option<real>>>)
    requires forall a :: 0 <= a < |rotated| ==> WellFormed(rotated[a])
    requires HullInside(hull)
    ensures |distances| == |values| == |rotated|
    ensures forall a :: 0 <= a < |rotated| ==> distances[a] == Profile(rotated[a], HullCentre(rotated[a], hull), threshold).0
    ensures forall a :: 0 <= a < |rotated| ==>
      values[a] == PadWithNaN(Profile(rotated[a], HullCentre(rotated[a], hull), threshold).1, PadLength(distances))
    ensures forall a :: 0 <= a < |rotated| ==> |values[a]| == PadLength(distances)
  {
    var centres := seq(|rotated|, a requires 0 <= a < |rotated| => HullCentre(rotated[a], hull));
    var walked;
    distances, walked := WalkAngles(rotated, centres, threshold);
    values := PadToLongest(distances, walked);
  }
}
