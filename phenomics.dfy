/** Time-series summaries of a multitemporal plant dataset: growth rates between
    consecutive dates, the early-stage date selection and dimension check of the
    Phenomics object, its cache of summary tables, and the areas and volumes computed
    per date from pixel counts and NaN-ignoring sums. */
module Phenomics {
  import opened Common

  // ---------------------------------------------------------------------------
  // Dates

  /** Dates are numpy datetime64[ns] values: nanoseconds. */
  const NanosPerDay: int := 86_400_000_000_000

  /** `(date - d0) / np.timedelta64(1, 'D')`: the elapsed time in (fractional) days. */
  function ElapsedDays(date: int, d0: int): real
  {
    (date - d0) as real / NanosPerDay as real
  }

  /** `Timedelta.days`: the whole days in a span, rounded down (also when negative). */
  function WholeDays(span: int): (r: int)
    ensures r * NanosPerDay <= span < (r + 1) * NanosPerDay
  {
    span / NanosPerDay
  }

  /** `list(range(n))`. */
  function Range(n: nat): (r: seq<int>)
    ensures |r| == n
    ensures forall i :: 0 <= i < n ==> r[i] == i
  {
    seq(n, i => i)
  }

  // ---------------------------------------------------------------------------
  // growth_rate

  /** One row of a growth-rate table: the day gap (when a date column is given), the
      change in value, and the row's name. */
  datatype GrowthRow = GrowthRow(days: Option<int>, value: real, name: string)

  /** The date column growth_rate is given: its name and its values. */
  datatype DateColumn = DateColumn(name: string, dates: seq<int>)

  /** `'gr_t{}t{}'.format(i + 1, i)`. */
  function GrowthName(i: nat): string
  {
    "gr_t" + (NatToString(i + 1) + ("t" + NatToString(i)))
  }

  /** `growth_rate`: the first differences of `values`, row i named after dates i+1 and i.
      With a date column the table also gets the day gap between those dates, read back
      through `grdf.date.dt.days`: a column named otherwise has no `date` attribute, and
      an empty column is not datetime-like, so `.dt` fails on it. */
  function GrowthRate(values: seq<real>, dateColumn: Option<DateColumn>): (r: Result<seq<GrowthRow>>)
    requires dateColumn.Some? ==> |dateColumn.value.dates| == |values|
    ensures r.Err? <==> dateColumn.Some? && (dateColumn.value.name != "date" || |values| <= 1)
    ensures r.Err? ==> r.error == AttributeError(if dateColumn.value.name != "date" then "date" else "dt")
    ensures r.Ok? ==> |r.value| == if |values| == 0 then 0 else |values| - 1
    ensures r.Ok? ==> forall i :: 0 <= i < |r.value| ==>
      r.value[i].value == values[i + 1] - values[i] && r.value[i].name == GrowthName(i)
    ensures r.Ok? ==> forall i :: 0 <= i < |r.value| ==> r.value[i].days == DayGap(dateColumn, i)
  {
    var n := if |values| == 0 then 0 else |values| - 1;
    if dateColumn.Some? && dateColumn.value.name != "date" then Err(AttributeError("date"))
    else if dateColumn.Some? && n == 0 then Err(AttributeError("dt"))
    else Ok(seq(n, i requires 0 <= i < n => GrowthRow(DayGap(dateColumn, i), values[i + 1] - values[i], GrowthName(i))))
  }

  /** The whole days between dates i and i+1 of the column, if one is given. */
  function DayGap(dateColumn: Option<DateColumn>, i: nat): Option<int>
    requires dateColumn.Some? ==> i + 1 < |dateColumn.value.dates|
  {
    if dateColumn.None? then None
    else Some(WholeDays(dateColumn.value.dates[i + 1] - dateColumn.value.dates[i]))
  }

  /** Sum of the values of a growth-rate table. */
  function SumRates(rows: seq<GrowthRow>): real
  {
    if |rows| == 0 then 0.0 else SumRates(rows[..|rows| - 1]) + rows[|rows| - 1].value
  }

  /** The growth rates telescope: adding the first k of them to the first value gives
      value k back, so the table loses nothing but the starting value. */
  lemma {:induction false} GrowthRateTelescopes(values: seq<real>, dateColumn: Option<DateColumn>, k: nat)
    requires dateColumn.Some? ==> |dateColumn.value.dates| == |values|
    requires GrowthRate(values, dateColumn).Ok? && k < |values|
    ensures values[0] + SumRates(GrowthRate(values, dateColumn).value[..k]) == values[k]
  {
    var rows := GrowthRate(values, dateColumn).value;
    if k > 0 {
      GrowthRateTelescopes(values, dateColumn, k - 1);
      assert rows[..k][..k - 1] == rows[..k - 1];
      assert rows[k - 1].value == values[k] - values[k - 1];
    }
  }

  /** Position of the first `m` in s (|s| when there is none). */
  function MarkerPos(s: string, m: char): (r: nat)
    ensures r <= |s|
  {
    if |s| == 0 || s[0] == m then 0 else 1 + MarkerPos(s[1..], m)
  }

  lemma {:induction false} MarkerPosAfter(a: string, m: char, x: string)
    requires m !in a
    ensures MarkerPos(a + ([m] + x), m) == |a|
    decreases |a|
  {
    if |a| == 0 {
      assert (a + ([m] + x))[0] == m;
    } else {
      assert (a + ([m] + x))[1..] == a[1..] + ([m] + x);
      assert a[0] in a;
      MarkerPosAfter(a[1..], m, x);
    }
  }

  /** Two texts made of a prefix, a part without `m`, then `m` and a rest: equal texts have
      equal parts. */
  lemma MarkedPartsEqual(p: string, a: string, x: string, b: string, y: string, m: char)
    requires m !in a && m !in b
    requires p + (a + ([m] + x)) == p + (b + ([m] + y))
    ensures a == b
  {
    var u, w := a + ([m] + x), b + ([m] + y);
    assert u == (p + u)[|p|..] == (p + w)[|p|..] == w;
    MarkerPosAfter(a, m, x);
    MarkerPosAfter(b, m, y);
    assert a == u[..|a|] == w[..|b|] == b;
  }

  lemma DigitsHaveNoT(n: nat)
    ensures 't' !in NatToString(n)
  {
  }

  /** Different rows get different names: the name determines the row. */
  lemma GrowthNameInjective(i: nat, j: nat)
    requires GrowthName(i) == GrowthName(j)
    ensures i == j
  {
    DigitsHaveNoT(i + 1);
    DigitsHaveNoT(j + 1);
    var a, b := NatToString(i + 1), NatToString(j + 1);
    MarkedPartsEqual("gr_t", a, NatToString(i), b, NatToString(j), 't');
    NatToStringInjective(i + 1, j + 1);
  }

  /** With dates in increasing order every day gap is at least 0. */
  lemma GrowthDaysNonNegative(values: seq<real>, dates: seq<int>, i: nat)
    requires |dates| == |values|
    requires forall a, b :: 0 <= a < b < |dates| ==> dates[a] <= dates[b]
    requires GrowthRate(values, Some(DateColumn("date", dates))).Ok?
    requires i < |GrowthRate(values, Some(DateColumn("date", dates))).value|
    ensures GrowthRate(values, Some(DateColumn("date", dates))).value[i].days.value >= 0
  {
    var span := dates[i + 1] - dates[i];
    assert span >= 0;
    assert WholeDays(span) * NanosPerDay <= span < (WholeDays(span) + 1) * NanosPerDay;
  }

  // ---------------------------------------------------------------------------
  // Early-stage date selection (Phenomics.__init__)

  /** Index of the first date more than `days` days after dates[0], searching from i
      (|dates| when there is none). */
  function FirstBeyond(dates: seq<int>, days: real, i: nat): (r: nat)
    requires |dates| > 0 && i <= |dates|
    ensures i <= r <= |dates|
    ensures forall j :: i <= j < r ==> ElapsedDays(dates[j], dates[0]) <= days
    ensures r < |dates| ==> ElapsedDays(dates[r], dates[0]) > days
    decreases |dates| - i
  {
    if i == |dates| || ElapsedDays(dates[i], dates[0]) > days then i
    else FirstBeyond(dates, days, i + 1)
  }

  /** The value `earlystagedate` holds when the loop stops: the index of the last date
      before the first one past the early stage (0 when the very first date is past it). */
  function EarlyStageIndex(dates: seq<int>, days: real): (k: nat)
    ensures k == 0 || k < |dates|
  {
    if |dates| == 0 then 0
    else
      var f := FirstBeyond(dates, days, 0);
      if f == 0 then 0 else f - 1
  }

  /** The early-stage loop: keeps the index of the last date within `days` days of the
      first and stops at the first date beyond; the dates kept are the positions before
      that index. */
  method EarlyStageDates(dates: seq<int>, days: real) returns (selected: seq<int>)
    ensures selected == Range(EarlyStageIndex(dates, days))
  {
    var earlyStageDate := 0;
    var i := 0;
    while i < |dates|
      invariant 0 <= i <= |dates|
      invariant forall j :: 0 <= j < i ==> ElapsedDays(dates[j], dates[0]) <= days
      invariant earlyStageDate == if i == 0 then 0 else i - 1
    {
      if ElapsedDays(dates[i], dates[0]) > days {
        break;
      }
      earlyStageDate := i;
      i := i + 1;
    }
    if |dates| > 0 {
      var f := FirstBeyond(dates, days, 0);
      assert f == i;
    }
    selected := Range(|PySlice(dates, 0, earlyStageDate)|);
  }

  /** Every selected date lies within the early stage, and so does the date at the
      stopping index itself, which the selection leaves out; the next date is past it. */
  lemma EarlyStageWindow(dates: seq<int>, days: real)
    requires |dates| > 0 && days >= 0.0
    ensures var k := EarlyStageIndex(dates, days);
      && k < |dates| && k !in Range(k)
      && (forall j :: 0 <= j <= k ==> ElapsedDays(dates[j], dates[0]) <= days)
      && (k + 1 < |dates| ==> ElapsedDays(dates[k + 1], dates[0]) > days)
  {
    assert ElapsedDays(dates[0], dates[0]) == 0.0;
    var f := FirstBeyond(dates, days, 0);
    assert f > 0;
  }

  // ---------------------------------------------------------------------------
  // The dataset

  /** A multitemporal dataset: its dimension names (the first is the date axis), the
      dates, and per variable one frame of `pixels` samples per date (the y/x grid
      flattened), with the pixel width from the geotransform. */
  datatype Cube = Cube(dims: seq<string>, dates: seq<int>, layers: map<string, seq<seq<Option<real>>>>,
                       pixels: nat, pixelWidth: real)
  {
    predicate WellFormed()
    {
      forall v :: v in layers ==>
        |layers[v]| == |dates| && forall d :: 0 <= d < |dates| ==> |layers[v][d]| == pixels
    }
  }

  predicate ValidPositions(idx: seq<int>, n: nat)
  {
    forall j :: 0 <= j < |idx| ==> 0 <= Position(idx[j], n) < n
  }

  /** `xrdata.isel({date: idx})`: the dates at the given positions, in that order. */
  function SelectDates(c: Cube, idx: seq<int>): (r: Result<Cube>)
    requires c.WellFormed()
    ensures r.Ok? <==> ValidPositions(idx, |c.dates|)
    ensures r.Err? ==> r.error == IndexError
    ensures r.Ok? ==> (r.value.WellFormed() && r.value.layers.Keys == c.layers.Keys
      && r.value.dims == c.dims && r.value.pixels == c.pixels && r.value.pixelWidth == c.pixelWidth)
    ensures r.Ok? ==> (|r.value.dates| == |idx| &&
      forall j :: 0 <= j < |idx| ==> r.value.dates[j] == c.dates[Position(idx[j], |c.dates|)])
    ensures r.Ok? ==> forall v, j :: v in c.layers && 0 <= j < |idx| ==>
                        r.value.layers[v][j] == c.layers[v][Position(idx[j], |c.dates|)]
  {
    var n := |c.dates|;
    if !ValidPositions(idx, n) then Err(IndexError)
    else
      Ok(c.(dates := seq(|idx|, j requires 0 <= j < |idx| => c.dates[Position(idx[j], n)]),
            layers := map v | v in c.layers ::
              seq(|idx|, j requires 0 <= j < |idx| => c.layers[v][Position(idx[j], n)])))
  }

  /** Selecting every position in order gives the dataset back. */
  lemma SelectAllDates(c: Cube)
    requires c.WellFormed()
    ensures SelectDates(c, Range(|c.dates|)) == Ok(c)
  {
    var r := SelectDates(c, Range(|c.dates|)).value;
    assert r.dates == c.dates;
    forall v | v in c.layers
      ensures r.layers[v] == c.layers[v]
    {
    }
    assert r.layers == c.layers;
  }

  const DimsMessage: string := "this functions was conceived to work only with multitemporal xarray"

  /** The dataset a new Phenomics object holds: the dimension check, then the dates of
      interest (all by default, the early-stage dates when filtering on them), then the
      radial filter, which is given as a function. */
  function InitialData(c: Cube, datesOi: Option<seq<int>>, earlyStagesFilter: bool,
                       earlyStagesDates: Option<seq<int>>, daysEarlyStage: real,
                       radialFilter: bool, radial: Cube -> Cube): (r: Result<Cube>)
    requires c.WellFormed()
    ensures r.Err? <==> |c.dims| < 3 || SelectDates(c, SelectedPositions(c, datesOi, earlyStagesFilter,
                                                                          earlyStagesDates, daysEarlyStage)).Err?
    ensures r.Err? && |c.dims| < 3 ==> r.error == ValueError(DimsMessage)
  {
    if |c.dims| < 3 then Err(ValueError(DimsMessage))
    else
      var s := SelectDates(c, SelectedPositions(c, datesOi, earlyStagesFilter, earlyStagesDates, daysEarlyStage));
      if s.Err? then s
      else if radialFilter then Ok(radial(s.value))
      else s
  }

  /** The positions `isel` receives. */
  function SelectedPositions(c: Cube, datesOi: Option<seq<int>>, earlyStagesFilter: bool,
                             earlyStagesDates: Option<seq<int>>, daysEarlyStage: real): seq<int>
  {
    if earlyStagesFilter then
      if earlyStagesDates.None? then Range(EarlyStageIndex(c.dates, daysEarlyStage)) else earlyStagesDates.value
    else if datesOi.None? then Range(|c.dates|)
    else datesOi.value
  }

  /** With the defaults and no radial filter the object holds the whole dataset. */
  lemma InitialKeepsAllDates(c: Cube, daysEarlyStage: real, radial: Cube -> Cube)
    requires c.WellFormed() && |c.dims| >= 3
    ensures InitialData(c, None, false, None, daysEarlyStage, false, radial) == Ok(c)
  {
    SelectAllDates(c);
  }

  /** Filtering on the early stage keeps only dates within `days` of the first one. */
  lemma InitialEarlyStageWithinWindow(c: Cube, days: real, radial: Cube -> Cube)
    requires c.WellFormed() && |c.dims| >= 3 && |c.dates| > 0 && days >= 0.0
    ensures var r := InitialData(c, None, true, None, days, false, radial);
      && r.Ok? && |r.value.dates| == EarlyStageIndex(c.dates, days)
      && forall j :: 0 <= j < |r.value.dates| ==> ElapsedDays(r.value.dates[j], c.dates[0]) <= days
  {
    EarlyStageWindow(c.dates, days);
    var k := EarlyStageIndex(c.dates, days);
    assert ValidPositions(Range(k), |c.dates|);
  }

  // ---------------------------------------------------------------------------
  // Per-date areas and volumes

  /** `transform[0] * scalefactor`: the side of a pixel in the scaled unit. */
  function PixelSize(c: Cube, scalefactor: real): real
  {
    c.pixelWidth * scalefactor
  }

  /** `(transform[0] * 100)^2`: the pixel area calculate_volume uses, whatever the scale
      used elsewhere. */
  function VolumePixelArea(c: Cube): real
  {
    (c.pixelWidth * 100.0) * (c.pixelWidth * 100.0)
  }

  /** A summary table: one value per date, and the metric's name. */
  datatype Table = Table(dates: seq<int>, values: seq<real>, metric: string)

  /** `math.pi`. */
  const Pi: real := 3.141592653589793

  /** Area covered by `count` pixels of side `ps`. */
  function PixelArea(count: nat, ps: real): real
  {
    count as real * ps * ps
  }

  lemma PixelAreaMonotone(c1: nat, c2: nat, ps: real)
    requires c1 <= c2
    ensures 0.0 <= PixelArea(c1, ps) <= PixelArea(c2, ps)
  {
    var q := ps * ps;
    assert q >= 0.0;
    assert PixelArea(c1, ps) == c1 as real * q;
    assert PixelArea(c2, ps) == c2 as real * q;
    assert (c2 - c1) as real * q >= 0.0;
  }

  /** Area of the disc of radius r pixels of side ps. */
  function RosetteValue(r: real, ps: real): real
  {
    r * r * ps * ps * Pi
  }

  /** The rosette area never shrinks as the radius grows, and is never negative. */
  lemma RosetteValueMonotone(r1: real, r2: real, ps: real)
    requires 0.0 <= r1 <= r2
    ensures 0.0 <= RosetteValue(r1, ps) <= RosetteValue(r2, ps)
  {
    var q := ps * ps * Pi;
    assert q >= 0.0;
    assert RosetteValue(r1, ps) == (r1 * r1) * q;
    assert RosetteValue(r2, ps) == (r2 * r2) * q;
    assert r1 * r1 <= r1 * r2 <= r2 * r2;
    assert (r2 * r2 - r1 * r1) * q >= 0.0;
  }

  lemma {:induction false} CountValidZero(s: seq<Option<real>>)
    ensures CountValid(s) == 0 <==> forall i :: 0 <= i < |s| ==> s[i].None?
  {
    if |s| > 0 {
      CountValidZero(s[..|s| - 1]);
      assert forall i :: 0 <= i < |s| - 1 ==> s[..|s| - 1][i] == s[i];
    }
  }

  lemma {:induction false} CountValidFull(s: seq<Option<real>>)
    ensures CountValid(s) == |s| <==> forall i :: 0 <= i < |s| ==> s[i].Some?
  {
    if |s| > 0 {
      CountValidFull(s[..|s| - 1]);
      assert forall i :: 0 <= i < |s| - 1 ==> s[..|s| - 1][i] == s[i];
    }
  }

  /** The leaf area of each frame: its non-NaN pixels times the pixel area. */
  function LeafAreas(frames: seq<seq<Option<real>>>, ps: real): (r: seq<real>)
    ensures |r| == |frames|
  {
    seq(|frames|, d requires 0 <= d < |frames| => PixelArea(CountValid(frames[d]), ps))
  }

  /** Leaf area lies between 0 and the whole frame's area: 0 when every pixel is NaN, the
      whole area when none is. */
  lemma LeafAreaBounds(frames: seq<seq<Option<real>>>, ps: real, d: nat)
    requires d < |frames|
    ensures 0.0 <= LeafAreas(frames, ps)[d] <= PixelArea(|frames[d]|, ps)
    ensures (forall i :: 0 <= i < |frames[d]| ==> frames[d][i].None?) ==> LeafAreas(frames, ps)[d] == 0.0
    ensures (forall i :: 0 <= i < |frames[d]| ==> frames[d][i].Some?) ==>
              LeafAreas(frames, ps)[d] == PixelArea(|frames[d]|, ps)
  {
    var c := CountValid(frames[d]);
    PixelAreaMonotone(c, |frames[d]|, ps);
    CountValidZero(frames[d]);
    CountValidFull(frames[d]);
    assert PixelArea(0, ps) == 0.0;
  }

  method ValidPixelAreas(frames: seq<seq<Option<real>>>, ps: real) returns (values: seq<real>)
    ensures values == LeafAreas(frames, ps)
  {
    values := [];
    for d := 0 to |frames|
      invariant |values| == d
      invariant forall j :: 0 <= j < d ==> values[j] == PixelArea(CountValid(frames[j]), ps)
    {
      values := values + [PixelArea(CountValid(frames[d]), ps)];
    }
  }

  /** `leaf_area`: per date, the non-NaN pixels of `refband` times the squared pixel size
      `transform[0] * scalefactor`. The band is only looked up inside the loop over dates. */
  function LeafAreaTable(c: Cube, refband: string, scalefactor: real): (r: Result<Table>)
    requires c.WellFormed()
    ensures r.Err? <==> |c.dates| > 0 && refband !in c.layers
    ensures r.Err? ==> r.error == KeyError(refband)
    ensures r.Ok? ==> r.value.dates == c.dates && |r.value.values| == |c.dates| && r.value.metric == "leaf_area"
  {
    if |c.dates| == 0 then Ok(Table(c.dates, [], "leaf_area"))
    else if refband !in c.layers then Err(KeyError(refband))
    else Ok(Table(c.dates, LeafAreas(c.layers[refband], PixelSize(c, scalefactor)), "leaf_area"))
  }

  /** Rosette area per date: a disc whose radius is that date's longest centre-to-edge
      distance (given, one per date) in pixels of side `transform[0] * scalefactor`. */
  function RosetteAreas(longest: seq<real>, ps: real): (r: seq<real>)
    ensures |r| == |longest|
  {
    seq(|longest|, d requires 0 <= d < |longest| => RosetteValue(longest[d], ps))
  }

  function RosetteTable(c: Cube, longest: seq<real>, scalefactor: real): (r: Table)
    requires |longest| == |c.dates|
    ensures r.dates == c.dates && |r.values| == |c.dates| && r.metric == "rosette_area"
  {
    Table(c.dates, RosetteAreas(longest, PixelSize(c, scalefactor)), "rosette_area")
  }

  /** Convex hull area per date: the hull's pixel count (given, one per date) times the
      pixel area; the band is read before the loop. */
  function HullTable(c: Cube, refband: string, hullCounts: seq<nat>, scalefactor: real): (r: Result<Table>)
    requires |hullCounts| == |c.dates|
    ensures r.Err? <==> refband !in c.layers
    ensures r.Err? ==> r.error == KeyError(refband)
    ensures r.Ok? ==> r.value.dates == c.dates && |r.value.values| == |c.dates| && r.value.metric == "convex_hull"
  {
    if refband !in c.layers then Err(KeyError(refband))
    else
      var ps := PixelSize(c, scalefactor);
      Ok(Table(c.dates, seq(|c.dates|, d requires 0 <= d < |c.dates| => PixelArea(hullCounts[d], ps)), "convex_hull"))
  }

  /** A convex hull holds every valid pixel of its frame, so its area is never below the
      leaf area of the same band and date. */
  lemma HullCoversLeafArea(c: Cube, refband: string, hullCounts: seq<nat>, scalefactor: real, d: nat)
    requires c.WellFormed() && |hullCounts| == |c.dates| && refband in c.layers && d < |c.dates|
    requires CountValid(c.layers[refband][d]) <= hullCounts[d]
    ensures LeafAreaTable(c, refband, scalefactor).value.values[d] <= HullTable(c, refband, hullCounts, scalefactor).value.values[d]
  {
    PixelAreaMonotone(CountValid(c.layers[refband][d]), hullCounts[d], PixelSize(c, scalefactor));
  }

  /** `xrdata.where(angle > thresh, nan)[height]` on one frame: the heights where the
      angle is above the threshold (a NaN angle compares false). */
  function AboveThreshold(heights: seq<Option<real>>, angles: seq<Option<real>>, thresh: real): (r: seq<Option<real>>)
    requires |angles| == |heights|
    ensures |r| == |heights|
    ensures forall i :: 0 <= i < |r| ==> r[i].None? || r[i] == heights[i]
  {
    seq(|heights|, i requires 0 <= i < |heights| =>
      if angles[i].Some? && angles[i].value > thresh then heights[i] else None)
  }

  /** A volume value: the NaN-ignoring sum of heights times the pixel area. */
  function VolumeValue(frame: seq<Option<real>>, area: real): real
  {
    NanSum(frame) * area
  }

  function VolumeValues(frames: seq<seq<Option<real>>>, area: real): (r: seq<real>)
    ensures |r| == |frames|
  {
    seq(|frames|, d requires 0 <= d < |frames| => VolumeValue(frames[d], area))
  }

  /** The height frames calculate_volume sums: filtered by leaf angle, or those of the
      window filter (given, one per date); None when neither branch applies and
      `xrfiltered` is never bound. */
  function VolumeFrames(c: Cube, filterMethod: string, heightVar: string, angleVar: string, thresh: real,
                        window: seq<seq<Option<real>>>): (r: Option<seq<seq<Option<real>>>>)
    requires c.WellFormed() && heightVar in c.layers && |window| == |c.dates|
    ensures r.Some? ==> |r.value| == |c.dates|
  {
    if filterMethod == "leaf_angle" && angleVar in c.layers then
      Some(seq(|c.dates|, d requires 0 <= d < |c.dates| =>
        AboveThreshold(c.layers[heightVar][d], c.layers[angleVar][d], thresh)))
    else if filterMethod == "window" then Some(window)
    else None
  }

  const HeightMessage: string := "the height variable is not in the xarray"

  /** `calculate_volume`: a missing height variable is refused; each date's value is the
      NaN-ignoring sum of the filtered heights times the pixel area. */
  function VolumeTable(c: Cube, filterMethod: string, heightVar: string, angleVar: string, thresh: real,
                       window: seq<seq<Option<real>>>): (r: Result<Table>)
    requires c.WellFormed() && |window| == |c.dates|
    ensures r.Err? && r.error.ValueError? <==> heightVar !in c.layers
    ensures r.Err? && !r.error.ValueError? <==>
      heightVar in c.layers && !(filterMethod == "leaf_angle" && angleVar in c.layers) && filterMethod != "window"
    ensures r.Err? ==> r.error in {ValueError(HeightMessage), UnboundLocalError("xrfiltered")}
    ensures r.Ok? ==> r.value.dates == c.dates && |r.value.values| == |c.dates| && r.value.metric == "volume"
  {
    if heightVar !in c.layers then Err(ValueError(HeightMessage))
    else
      var frames := VolumeFrames(c, filterMethod, heightVar, angleVar, thresh, window);
      if frames.None? then Err(UnboundLocalError("xrfiltered"))
      else Ok(Table(c.dates, VolumeValues(frames.value, VolumePixelArea(c)), "volume"))
  }

  lemma {:induction false} NanSumNonNegative(s: seq<Option<real>>)
    requires forall i :: 0 <= i < |s| && s[i].Some? ==> s[i].value >= 0.0
    ensures NanSum(s) >= 0.0
  {
    if |s| > 0 {
      assert forall i :: 0 <= i < |s| - 1 ==> s[..|s| - 1][i] == s[i];
      NanSumNonNegative(s[..|s| - 1]);
    }
  }

  /** Dropping samples from non-negative data never raises the NaN-ignoring sum. */
  lemma {:induction false} NanSumFilteredAtMost(f: seq<Option<real>>, s: seq<Option<real>>)
    requires |f| == |s|
    requires forall i :: 0 <= i < |s| ==> f[i].None? || f[i] == s[i]
    requires forall i :: 0 <= i < |s| && s[i].Some? ==> s[i].value >= 0.0
    ensures NanSum(f) <= NanSum(s)
  {
    if |s| > 0 {
      var n := |s| - 1;
      assert forall i :: 0 <= i < n ==> s[..n][i] == s[i] && f[..n][i] == f[i];
      NanSumFilteredAtMost(f[..n], s[..n]);
    }
  }

  /** With non-negative heights, each leaf-angle-filtered volume lies between 0 and the
      volume of the unfiltered heights of that date. */
  lemma VolumeLeafAngleBounds(c: Cube, heightVar: string, angleVar: string, thresh: real,
                              window: seq<seq<Option<real>>>, d: nat)
    requires c.WellFormed() && |window| == |c.dates| && d < |c.dates|
    requires heightVar in c.layers && angleVar in c.layers
    requires forall i :: 0 <= i < c.pixels && c.layers[heightVar][d][i].Some? ==> c.layers[heightVar][d][i].value >= 0.0
    ensures var area := VolumePixelArea(c);
      var v := VolumeTable(c, "leaf_angle", heightVar, angleVar, thresh, window).value.values[d];
      0.0 <= v <= VolumeValue(c.layers[heightVar][d], area)
  {
    var area := VolumePixelArea(c);
    var h := c.layers[heightVar][d];
    var f := AboveThreshold(h, c.layers[angleVar][d], thresh);
    assert VolumeTable(c, "leaf_angle", heightVar, angleVar, thresh, window).value.values[d] == VolumeValue(f, area);
    NanSumFilteredAtMost(f, h);
    NanSumNonNegative(f);
    assert area >= 0.0;
    assert (NanSum(h) - NanSum(f)) * area >= 0.0;
    assert NanSum(f) * area >= 0.0;
  }

  /** The per-date loop of calculate_volume. */
  method CalculateVolume(c: Cube, filterMethod: string, heightVar: string, angleVar: string, thresh: real,
                         window: seq<seq<Option<real>>>) returns (r: Result<Table>)
    requires c.WellFormed() && |window| == |c.dates|
    ensures r == VolumeTable(c, filterMethod, heightVar, angleVar, thresh, window)
  {
    if heightVar !in c.layers {
      return Err(ValueError(HeightMessage));
    }
    var pixelArea := VolumePixelArea(c);
    var filtered := VolumeFrames(c, filterMethod, heightVar, angleVar, thresh, window);
    if filtered.None? {
      return Err(UnboundLocalError("xrfiltered"));
    }
    var volValues: seq<real> := [];
    for i := 0 to |filtered.value|
      invariant |volValues| == i
      invariant forall j :: 0 <= j < i ==> volValues[j] == VolumeValue(filtered.value[j], pixelArea)
    {
      volValues := volValues + [VolumeValue(filtered.value[i], pixelArea)];
    }
    assert volValues == VolumeValues(filtered.value, pixelArea);
    r := Ok(Table(c.dates, volValues, "volume"));
  }

  // ---------------------------------------------------------------------------
  // The Phenomics object and its summary cache

  const SpectralMetrics: seq<string> := ["edge", "nir", "ndvi", "ndre"]

  /** What the object's summaries draw from outside the modelled code, per date of its
      dataset: the quantile tables (`get_df_quantiles`, by variable), the window-filtered
      heights, the longest centre-to-edge distances and the convex hull pixel counts. */
  datatype Foreign = Foreign(quantiles: string -> Result<Table>, window: seq<seq<Option<real>>>,
                             longest: seq<real>, hullCounts: seq<nat>)
  {
    predicate Fits(c: Cube)
    {
      |window| == |c.dates| && |longest| == |c.dates| && |hullCounts| == |c.dates|
    }
  }

  /** The table check_dfphen_availability computes, with the default arguments of each
      summary, for a phenotype that is not cached yet; an unknown name is looked up
      anyway and raises KeyError. */
  function ComputedTable(c: Cube, phen: string, env: Foreign): (r: Result<Table>)
    requires c.WellFormed() && env.Fits(c)
    ensures r == Err(KeyError(phen)) <== phen !in SpectralMetrics &&
      phen !in {"plant_height", "leaf_angle", "volume", "leaf_area", "rosette_area", "convex_hull"}
  {
    if phen == "plant_height" then env.quantiles("z")
    else if phen == "leaf_angle" then env.quantiles("leaf_angle")
    else if phen == "volume" then VolumeTable(c, "leaf_angle", "z", "leaf_angle", 70.0, env.window)
    else if phen in SpectralMetrics then env.quantiles(phen)
    else if phen == "leaf_area" then LeafAreaTable(c, "red", 100.0)
    else if phen == "rosette_area" then Ok(RosetteTable(c, env.longest, 100.0))
    else if phen == "convex_hull" then HullTable(c, "red", env.hullCounts, 100.0)
    else Err(KeyError(phen))
  }

  class Phenomics {
    /** The dataset after date selection and radial filtering. */
    var xrdata: Cube
    /** `_phenomic_summary`: tables already computed, by phenotype name. */
    var summary: map<string, Table>
    /** The variable names of the dataset as given. */
    var varnames: set<string>

    predicate Valid()
      reads this
    {
      xrdata.WellFormed()
    }

    constructor (data: Cube, names: set<string>)
      requires data.WellFormed()
      ensures Valid() && xrdata == data && summary == map[] && varnames == names
    {
      xrdata := data;
      summary := map[];
      varnames := names;
    }

    /** `Phenomics(...)`: refuses data with fewer than three dimensions, then keeps the
        dates of interest. The radial filter is given as a function that keeps the
        dataset's shape. */
    static method Create(c: Cube, datesOi: Option<seq<int>>, earlyStagesFilter: bool,
                         earlyStagesDates: Option<seq<int>>, daysEarlyStage: real,
                         radialFilter: bool, radial: Cube -> Cube) returns (r: Result<Phenomics>)
      requires c.WellFormed()
      requires forall x: Cube :: x.WellFormed() ==> radial(x).WellFormed()
      ensures var init := InitialData(c, datesOi, earlyStagesFilter, earlyStagesDates, daysEarlyStage,
                                      radialFilter, radial);
        && (r.Err? <==> init.Err?)
        && (r.Err? ==> r.error == init.error)
        && (r.Ok? ==> fresh(r.value) && r.value.Valid() && r.value.xrdata == init.value
                      && r.value.summary == map[] && r.value.varnames == c.layers.Keys)
    {
      if |c.dims| < 3 {
        return Err(ValueError(DimsMessage));
      }
      var oi := if datesOi.None? then Range(|c.dates|) else datesOi.value;
      var early: seq<int>;
      if earlyStagesDates.None? {
        early := EarlyStageDates(c.dates, daysEarlyStage);
      } else {
        early := earlyStagesDates.value;
      }
      if earlyStagesFilter {
        oi := early;
      }
      var selected := SelectDates(c, oi);
      if selected.Err? {
        return Err(selected.error);
      }
      var data := selected.value;
      if radialFilter {
        data := radial(data);
      }
      var p := new Phenomics(data, c.layers.Keys);
      r := Ok(p);
    }

    /** `leaf_area`: stores and returns the leaf-area table. */
    method LeafArea(refband: string, scalefactor: real) returns (r: Result<Table>)
      requires Valid()
      modifies this
      ensures r == LeafAreaTable(old(xrdata), refband, scalefactor)
      ensures xrdata == old(xrdata) && varnames == old(varnames)
      ensures summary == if r.Ok? then old(summary)["leaf_area" := r.value] else old(summary)
    {
      if |xrdata.dates| > 0 && refband !in xrdata.layers {
        return Err(KeyError(refband));
      }
      var values: seq<real> := [];
      if |xrdata.dates| > 0 {
        values := ValidPixelAreas(xrdata.layers[refband], PixelSize(xrdata, scalefactor));
      }
      var t := Table(xrdata.dates, values, "leaf_area");
      summary := summary["leaf_area" := t];
      r := Ok(t);
    }

    /** `rosette_area`: stores and returns the rosette-area table. The source's loop over
        the dates only collects each date's longest distance, which a routine of another
        package computes; those distances are the parameter `longest`, so the loop
        leaves nothing more to model. */
    method RosetteArea(longest: seq<real>, scalefactor: real) returns (t: Table)
      requires |longest| == |xrdata.dates|
      modifies this
      ensures t == RosetteTable(old(xrdata), longest, scalefactor)
      ensures xrdata == old(xrdata) && varnames == old(varnames)
      ensures summary == old(summary)["rosette_area" := t]
    {
      t := Table(xrdata.dates, RosetteAreas(longest, PixelSize(xrdata, scalefactor)), "rosette_area");
      summary := summary["rosette_area" := t];
    }

    /** `convex_hull_area`: stores and returns the convex hull table. */
    method ConvexHullArea(refband: string, hullCounts: seq<nat>, scalefactor: real) returns (r: Result<Table>)
      requires |hullCounts| == |xrdata.dates|
      modifies this
      ensures r == HullTable(old(xrdata), refband, hullCounts, scalefactor)
      ensures xrdata == old(xrdata) && varnames == old(varnames)
      ensures summary == if r.Ok? then old(summary)["convex_hull" := r.value] else old(summary)
    {
      r := HullTable(xrdata, refband, hullCounts, scalefactor);
      if r.Ok? {
        summary := summary["convex_hull" := r.value];
      }
    }

    /** `volume_summary` with the leaf-angle method and the default names. */
    method VolumeSummary(window: seq<seq<Option<real>>>) returns (r: Result<Table>)
      requires Valid() && |window| == |xrdata.dates|
      modifies this
      ensures r == VolumeTable(old(xrdata), "leaf_angle", "z", "leaf_angle", 70.0, window)
      ensures xrdata == old(xrdata) && varnames == old(varnames)
      ensures summary == if r.Ok? then old(summary)["volume" := r.value] else old(summary)
    {
      r := CalculateVolume(xrdata, "leaf_angle", "z", "leaf_angle", 70.0, window);
      if r.Ok? {
        summary := summary["volume" := r.value];
      }
    }

    /** A summary stored from a quantile table (`plant_height_summary`,
        `leaf_angle_summary`, `splectral_reflectance` on one index). */
    method QuantileSummary(key: string, table: Result<Table>) returns (r: Result<Table>)
      modifies this
      ensures r == table
      ensures xrdata == old(xrdata) && varnames == old(varnames)
      ensures summary == if r.Ok? then old(summary)[key := r.value] else old(summary)
    {
      r := table;
      if r.Ok? {
        summary := summary[key := r.value];
      }
    }

    /** `check_dfphen_availability`: a cached table is returned as it is; otherwise the
        phenotype is computed, stored under its own name, and read back. */
    method CheckDfphenAvailability(phen: string, env: Foreign) returns (r: Result<Table>)
      requires Valid() && env.Fits(xrdata)
      modifies this
      ensures xrdata == old(xrdata) && varnames == old(varnames)
      ensures phen in old(summary) ==> r == Ok(old(summary)[phen]) && summary == old(summary)
      ensures phen !in old(summary) ==>
                && r == ComputedTable(old(xrdata), phen, env)
                && summary == if r.Ok? then old(summary)[phen := r.value] else old(summary)
      ensures r.Ok? ==> phen in summary && summary[phen] == r.value
    {
      if phen in summary {
        return Ok(summary[phen]);
      }
      if phen == "plant_height" {
        r := QuantileSummary("plant_height", env.quantiles("z"));
      } else if phen == "leaf_angle" {
        r := QuantileSummary("leaf_angle", env.quantiles("leaf_angle"));
      } else if phen == "volume" {
        r := VolumeSummary(env.window);
      } else if phen in SpectralMetrics {
        r := QuantileSummary(phen, env.quantiles(phen));
      } else if phen == "leaf_area" {
        r := LeafArea("red", 100.0);
      } else if phen == "rosette_area" {
        var t := RosetteArea(env.longest, 100.0);
        r := Ok(t);
      } else if phen == "convex_hull" {
        r := ConvexHullArea("red", env.hullCounts, 100.0);
      } else {
        r := Err(KeyError(phen));
      }
    }
  }
}
