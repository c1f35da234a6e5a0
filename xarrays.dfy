/** Dataset bookkeeping from utils/xr_functions.py: the per-variable minimum and maximum
    folded over a list of datasets (in memory or one pickle file at a time), the polygons
    of the tiles split_xarray_data cuts, and the checks and size choice of
    stack_as4dxarray and adding_newxarray. Values are flattened per date; resizing,
    resampling and the tiling itself are library calls whose results are inputs. */
module Xarrays {
  import opened Common

  /** One data variable: its name and its values, one flattened frame per date (a single
      frame when the dataset has no date dimension). */
  datatype Variable = Variable(name: string, frames: seq<seq<Option<real>>>)

  /** A dataset: whether it has a date dimension (more than two dimensions), how many dates
      it holds, and its variables in key order. */
  datatype Dataset = Dataset(temporal: bool, dates: nat, vars: seq<Variable>)
  {
    /** Every variable lies on the dataset's dimensions. */
    predicate WellFormed()
    {
      forall j :: 0 <= j < |vars| ==> |vars[j].frames| == (if temporal then dates else 1)
    }
  }

  /** `list(ds.keys())`. */
  function Names(d: Dataset): (r: seq<string>)
    ensures |r| == |d.vars|
    ensures forall j :: 0 <= j < |r| ==> r[j] == d.vars[j].name
  {
    seq(|d.vars|, j requires 0 <= j < |d.vars| => d.vars[j].name)
  }

  // ---------------------------------------------------------------------------
  // The running minimum and maximum

  /** The sentinels the dictionaries start from. */
  const MinSentinel: real := 9999.0
  const MaxSentinel: real := -9999.0

  /** The samples folded into one variable's running value, in order. */
  datatype Entry = Entry(name: string, samples: seq<seq<Option<real>>>)

  /** a is at least as far towards the extreme the fold seeks as b. */
  predicate Beyond(lower: bool, a: real, b: real)
  {
    if lower then a <= b else a >= b
  }

  /** `np.nanmin` (lower) or `np.nanmax` of one sample. */
  function Extreme(lower: bool, sample: seq<Option<real>>): Option<real>
  {
    if lower then NanMin(sample) else NanMax(sample)
  }

  /** The reduction numpy names in its zero-size error: fmin for `np.nanmin`, fmax for
      `np.nanmax`. */
  function ReductionName(lower: bool): string
  {
    if lower then "fmin" else "fmax"
  }

  /** One update: a sample's extreme strictly beyond the running value replaces it
      (`minval > np.nanmin(v)`, `maxval < np.nanmax(v)`); an all-NaN sample compares
      false, and an empty sample makes the reduction itself raise ValueError. */
  function Step(lower: bool, cur: real, sample: seq<Option<real>>): (r: Result<real>)
    ensures r.Err? <==> |sample| == 0
    ensures r.Err? ==> r.error == EmptyReduction(ReductionName(lower))
    ensures r.Ok? ==> Beyond(lower, r.value, cur)
  {
    if |sample| == 0 then Err(EmptyReduction(ReductionName(lower)))
    else
      match Extreme(lower, sample)
      case None => Ok(cur)
      case Some(v) => Ok(if (lower && cur > v) || (!lower && cur < v) then v else cur)
  }

  /** Every sample holds at least one value, NaN or not. */
  predicate NoEmpty(samples: seq<seq<Option<real>>>)
  {
    forall i :: 0 <= i < |samples| ==> |samples[i]| > 0
  }

  /** The running value after folding samples into cur; the first empty sample raises. */
  function Running(lower: bool, cur: real, samples: seq<seq<Option<real>>>): (r: Result<real>)
    ensures r.Ok? <==> NoEmpty(samples)
    ensures r.Err? ==> r.error == EmptyReduction(ReductionName(lower))
    ensures r.Ok? ==> Beyond(lower, r.value, cur)
  {
    if |samples| == 0 then Ok(cur)
    else
      var front := samples[..|samples| - 1];
      assert forall i :: 0 <= i < |front| ==> front[i] == samples[i];
      match Running(lower, cur, front)
      case Err(e) => Err(e)
      case Ok(c) => Step(lower, c, samples[|samples| - 1])
  }

  /** A running value that exists is at least as extreme as every non-NaN value folded in,
      and it is the starting value or one of those values. */
  lemma {:induction false} RunningBounds(lower: bool, cur: real, samples: seq<seq<Option<real>>>)
    ensures Running(lower, cur, samples).Ok? ==>
      var r := Running(lower, cur, samples).value;
      (forall i, j :: 0 <= i < |samples| && 0 <= j < |samples[i]| && samples[i][j].Some? ==> Beyond(lower, r, samples[i][j].value))
      && (r == cur || exists i, j :: 0 <= i < |samples| && 0 <= j < |samples[i]| && samples[i][j] == Some(r))
    decreases |samples|
  {
    if |samples| > 0 {
      var front := samples[..|samples| - 1];
      assert forall i :: 0 <= i < |front| ==> front[i] == samples[i];
      RunningBounds(lower, cur, front);
    }
  }

  /** While folding, the running minimum never increases and the running maximum never
      decreases; once a sample has raised, later samples do not change the outcome. */
  lemma RunningNeverRetreats(lower: bool, cur: real, samples: seq<seq<Option<real>>>, k: nat)
    requires k < |samples|
    ensures Running(lower, cur, samples[..k]).Err? ==> Running(lower, cur, samples[..k + 1]) == Running(lower, cur, samples[..k])
    ensures Running(lower, cur, samples[..k + 1]).Ok? ==>
      Running(lower, cur, samples[..k]).Ok?
      && Beyond(lower, Running(lower, cur, samples[..k + 1]).value, Running(lower, cur, samples[..k]).value)
  {
    assert samples[..k + 1][..k] == samples[..k];
  }

  /** x is at least as extreme as every non-NaN value of every sample folded under name. */
  predicate BeyondAll(lower: bool, es: seq<Entry>, name: string, x: real)
  {
    forall k, i, j :: (0 <= k < |es| && es[k].name == name && 0 <= i < |es[k].samples| && 0 <= j < |es[k].samples[i]| && es[k].samples[i][j].Some?) ==> Beyond(lower, x, es[k].samples[i][j].value)
  }

  /** x is a value of some sample folded under name. */
  predicate Occurs(es: seq<Entry>, name: string, x: real)
  {
    exists k, i, j :: 0 <= k < |es| && es[k].name == name && 0 <= i < |es[k].samples| && 0 <= j < |es[k].samples[i]| && es[k].samples[i][j] == Some(x)
  }

  /** An entry folds without an exception: its name is a key and none of its samples is empty. */
  predicate Sound(keys: set<string>, e: Entry)
  {
    e.name in keys && NoEmpty(e.samples)
  }

  /** The exception an unsound entry raises: KeyError for a name that is not a key (the
      dictionary lookup comes first), otherwise the zero-size ValueError. */
  function Fault(lower: bool, keys: set<string>, e: Entry): Error
  {
    if e.name !in keys then KeyError(e.name) else EmptyReduction(ReductionName(lower))
  }

  /** The dictionary after folding every entry into the value kept under its name; looking
      up a name the dictionary lacks raises KeyError, and an empty sample raises ValueError. */
  function ExtremeTable(lower: bool, table: map<string, real>, entries: seq<Entry>): (r: Result<map<string, real>>)
    ensures r.Ok? ==> r.value.Keys == table.Keys
  {
    if |entries| == 0 then Ok(table)
    else
      var front := entries[..|entries| - 1];
      assert forall k :: 0 <= k < |front| ==> front[k] == entries[k];
      match ExtremeTable(lower, table, front)
      case Err(e) => Err(e)
      case Ok(t) =>
        var e := entries[|entries| - 1];
        if e.name !in t then Err(KeyError(e.name))
        else
          match Running(lower, t[e.name], e.samples)
          case Err(x) => Err(x)
          case Ok(v) => Ok(t[e.name := v])
  }

  /** The position of the first unsound entry, or the number of entries when all are sound. */
  function FirstUnsound(keys: set<string>, es: seq<Entry>): (k: nat)
    ensures k <= |es|
    ensures forall i :: 0 <= i < k ==> Sound(keys, es[i])
    ensures k < |es| ==> !Sound(keys, es[k])
  {
    if |es| == 0 || !Sound(keys, es[0]) then 0 else 1 + FirstUnsound(keys, es[1..])
  }

  /** Appending an entry moves the first unsound position only when all earlier entries are sound. */
  lemma FirstUnsoundSnoc(keys: set<string>, front: seq<Entry>, e: Entry)
    ensures FirstUnsound(keys, front + [e]) ==
      if FirstUnsound(keys, front) < |front| then FirstUnsound(keys, front)
      else if Sound(keys, e) then |front| + 1 else |front|
  {
    var es := front + [e];
    assert forall i :: 0 <= i < |front| ==> es[i] == front[i];
    assert es[|front|] == e;
  }

  /** The fold raises exactly when there is an unsound entry, and then with the exception of
      the first one. */
  lemma {:induction false} ExtremeTableFirstFault(lower: bool, table: map<string, real>, entries: seq<Entry>)
    ensures var r, k := ExtremeTable(lower, table, entries), FirstUnsound(table.Keys, entries);
      (r.Ok? <==> k == |entries|) && (r.Err? ==> k < |entries| && r.error == Fault(lower, table.Keys, entries[k]))
    decreases |entries|
  {
    if |entries| > 0 {
      var n := |entries| - 1;
      var front, e := entries[..n], entries[n];
      assert entries == front + [e];
      ExtremeTableFirstFault(lower, table, front);
      ExtremeTableSnoc(lower, table, front, e);
      FirstUnsoundSnoc(table.Keys, front, e);
      var k := FirstUnsound(table.Keys, front);
      if k < n {
        assert entries[k] == front[k];
      }
    }
  }

  /** The fold fails exactly when some entry is unsound, and then with the exception of
      the first unsound entry. */
  lemma ExtremeTableFails(lower: bool, table: map<string, real>, entries: seq<Entry>)
    ensures ExtremeTable(lower, table, entries).Ok? <==> forall k :: 0 <= k < |entries| ==> Sound(table.Keys, entries[k])
    ensures var r := ExtremeTable(lower, table, entries);
      r.Err? ==> (exists k :: 0 <= k < |entries| && (forall i :: 0 <= i < k ==> Sound(table.Keys, entries[i]))
                    && !Sound(table.Keys, entries[k]) && r.error == Fault(lower, table.Keys, entries[k]))
  {
    ExtremeTableFirstFault(lower, table, entries);
    var k := FirstUnsound(table.Keys, entries);
    if k < |entries| {
      assert !Sound(table.Keys, entries[k]);
    }
  }

  /** Once the fold has failed, later entries do not change the outcome. */
  lemma {:induction false} ExtremeTableErrPersists(lower: bool, table: map<string, real>, entries: seq<Entry>, prefix: seq<Entry>)
    requires prefix <= entries && ExtremeTable(lower, table, prefix).Err?
    ensures ExtremeTable(lower, table, entries) == ExtremeTable(lower, table, prefix)
    decreases |entries|
  {
    if |entries| > |prefix| {
      var front := entries[..|entries| - 1];
      assert prefix <= front;
      ExtremeTableErrPersists(lower, table, front, prefix);
    } else {
      assert entries == prefix;
    }
  }

  /** Per name, the result is at least as extreme as the starting value and as every
      non-NaN value of every sample folded under that name. */
  lemma {:induction false} ExtremeTableBound(lower: bool, table: map<string, real>, entries: seq<Entry>, name: string)
    requires ExtremeTable(lower, table, entries).Ok? && name in table
    ensures var t := ExtremeTable(lower, table, entries).value;
      Beyond(lower, t[name], table[name]) && BeyondAll(lower, entries, name, t[name])
    decreases |entries|
  {
    if |entries| > 0 {
      var front := entries[..|entries| - 1];
      assert forall k :: 0 <= k < |front| ==> front[k] == entries[k];
      ExtremeTableBound(lower, table, front, name);
      RunningBounds(lower, ExtremeTable(lower, table, front).value[entries[|entries| - 1].name], entries[|entries| - 1].samples);
    }
  }

  /** Per name, the result is the starting value or a value some sample folded under that
      name holds: the fold invents no value. */
  lemma {:induction false} ExtremeTableAttained(lower: bool, table: map<string, real>, entries: seq<Entry>, name: string)
    requires ExtremeTable(lower, table, entries).Ok? && name in table
    ensures var t := ExtremeTable(lower, table, entries).value;
      t[name] == table[name] || Occurs(entries, name, t[name])
    decreases |entries|
  {
    if |entries| > 0 {
      var front := entries[..|entries| - 1];
      assert forall k :: 0 <= k < |front| ==> front[k] == entries[k];
      ExtremeTableAttained(lower, table, front, name);
      RunningBounds(lower, ExtremeTable(lower, table, front).value[entries[|entries| - 1].name], entries[|entries| - 1].samples);
    }
  }

  /** A dictionary from the names to one sentinel (`dict(zip(names, [v] * len(names)))`). */
  function Sentinels(names: seq<string>, v: real): (m: map<string, real>)
    ensures forall n :: n in m <==> n in names
    ensures forall n :: n in m ==> m[n] == v
  {
    map n | n in names :: v
  }

  // ---------------------------------------------------------------------------
  // get_minmax_fromlistxarray

  /** What one variable contributes: one sample per date, or all its values at once when
      the dataset has no date dimension. */
  function Samples(d: Dataset, v: Variable): seq<seq<Option<real>>>
  {
    if d.temporal then v.frames else [Flatten(v.frames)]
  }

  function DatasetEntries(d: Dataset): (r: seq<Entry>)
    ensures |r| == |d.vars|
  {
    seq(|d.vars|, j requires 0 <= j < |d.vars| => Entry(d.vars[j].name, Samples(d, d.vars[j])))
  }

  /** The entries of every dataset, datasets in list order and variables in key order. */
  function ListEntries(ds: seq<Dataset>): seq<Entry>
  {
    if |ds| == 0 then [] else ListEntries(ds[..|ds| - 1]) + DatasetEntries(ds[|ds| - 1])
  }

  lemma {:induction false} ListEntriesPrefix(ds: seq<Dataset>, i: nat)
    requires i <= |ds|
    ensures ListEntries(ds[..i]) <= ListEntries(ds)
    decreases |ds|
  {
    if i < |ds| {
      var front := ds[..|ds| - 1];
      assert ds[..i] == front[..i];
      ListEntriesPrefix(front, i);
    } else {
      assert ds[..i] == ds;
    }
  }

  const ListMessage := "xrdatalist must be a list of xarray"

  /** The two dictionaries get_minmax_fromlistxarray returns, keyed by the first dataset's
      variables; a variable of a later dataset the first lacks raises KeyError. */
  function MinMaxFromList(ds: seq<Dataset>): (r: Result<(map<string, real>, map<string, real>)>)
    requires |ds| > 0
    ensures r.Ok? ==> forall n :: (n in r.value.0 <==> n in Names(ds[0])) && (n in r.value.1 <==> n in Names(ds[0]))
  {
    var entries := ListEntries(ds);
    var lo := ExtremeTable(true, Sentinels(Names(ds[0]), MinSentinel), entries);
    var hi := ExtremeTable(false, Sentinels(Names(ds[0]), MaxSentinel), entries);
    if lo.Err? then Err(lo.error)
    else if hi.Err? then Err(hi.error)
    else Ok((lo.value, hi.value))
  }

  /** The inner `for i in range(dims[name4d])` loop (or the single 2-D sample): the running
      minimum and maximum of one variable of one dataset. An empty sample makes the
      `np.nanmin` comparison raise before either value is updated. */
  method FoldSamples(minval: real, maxval: real, samples: seq<seq<Option<real>>>) returns (r: Result<(real, real)>)
    ensures !NoEmpty(samples) ==> r == Err(EmptyReduction("fmin"))
    ensures NoEmpty(samples) ==> r == Ok((Running(true, minval, samples).value, Running(false, maxval, samples).value))
  {
    var newMin, newMax := minval, maxval;
    var i := 0;
    while i < |samples|
      invariant 0 <= i <= |samples|
      invariant Running(true, minval, samples[..i]) == Ok(newMin)
      invariant Running(false, maxval, samples[..i]) == Ok(newMax)
    {
      assert samples[..i + 1][..i] == samples[..i];
      if |samples[i]| == 0 {
        return Err(EmptyReduction("fmin"));
      }
      var lo := NanMin(samples[i]);
      if lo.Some? && newMin > lo.value {
        newMin := lo.value;
      }
      var hi := NanMax(samples[i]);
      if hi.Some? && newMax < hi.value {
        newMax := hi.value;
      }
      i := i + 1;
    }
    assert samples[..i] == samples;
    r := Ok((newMin, newMax));
  }

  /** The body of the loop over variables: look up both running values (KeyError when the
      first dataset has no such variable) and fold the variable's samples into them. */
  method FoldVariable(name: string, samples: seq<seq<Option<real>>>, lows: map<string, real>, highs: map<string, real>)
    returns (r: Result<(map<string, real>, map<string, real>)>)
    requires lows.Keys == highs.Keys
    ensures name !in lows ==> r == Err(KeyError(name))
    ensures name in lows && !NoEmpty(samples) ==> r == Err(EmptyReduction("fmin"))
    ensures name in lows && NoEmpty(samples) ==>
      r == Ok((lows[name := Running(true, lows[name], samples).value], highs[name := Running(false, highs[name], samples).value]))
  {
    if name !in lows {
      return Err(KeyError(name));
    }
    var folded := FoldSamples(lows[name], highs[name], samples);
    if folded.Err? {
      return Err(folded.error);
    }
    r := Ok((lows[name := folded.value.0], highs[name := folded.value.1]));
  }

  /** The loop over one dataset's variables: each variable's running minimum and maximum
      is folded on from the dictionaries built from the entries seen so far. */
  method FoldDataset(d: Dataset, minInit: map<string, real>, maxInit: map<string, real>, ghost seen: seq<Entry>,
                     minDict: map<string, real>, maxDict: map<string, real>)
    returns (r: Result<(map<string, real>, map<string, real>)>)
    requires minInit.Keys == maxInit.Keys
    requires ExtremeTable(true, minInit, seen) == Ok(minDict)
    requires ExtremeTable(false, maxInit, seen) == Ok(maxDict)
    ensures r.Ok? ==> ExtremeTable(true, minInit, seen + DatasetEntries(d)[..|d.vars|]) == Ok(r.value.0)
    ensures r.Ok? ==> ExtremeTable(false, maxInit, seen + DatasetEntries(d)[..|d.vars|]) == Ok(r.value.1)
    ensures r.Err? ==> ExtremeTable(true, minInit, seen + DatasetEntries(d)) == Err(r.error)
  {
    ghost var entries := DatasetEntries(d);
    var lows, highs := minDict, maxDict;
    assert seen + entries[..0] == seen;
    var j := 0;
    while j < |d.vars|
      invariant 0 <= j <= |d.vars|
      invariant ExtremeTable(true, minInit, seen + entries[..j]) == Ok(lows)
      invariant ExtremeTable(false, maxInit, seen + entries[..j]) == Ok(highs)
      invariant lows.Keys == highs.Keys
    {
      var step := FoldVariable(d.vars[j].name, Samples(d, d.vars[j]), lows, highs);
      if step.Err? {
        assert ExtremeTable(true, minInit, seen + entries) == Err(step.error) by {
          ExtendFold(true, minInit, seen, entries, j, lows);
        }
        return Err(step.error);
      }
      assert ExtremeTable(true, minInit, seen + entries[..j + 1]) == Ok(step.value.0) by {
        ExtendFold(true, minInit, seen, entries, j, lows);
      }
      assert ExtremeTable(false, maxInit, seen + entries[..j + 1]) == Ok(step.value.1) by {
        ExtendFold(false, maxInit, seen, entries, j, highs);
      }
      lows, highs := step.value.0, step.value.1;
      j := j + 1;
    }
    r := Ok((lows, highs));
  }

  /** get_minmax_fromlistxarray: the nested loops over datasets and variables updating the
      two dictionaries in place. */
  method GetMinmaxFromListXarray(input: ScalarOrList<Dataset>) returns (r: Result<(map<string, real>, map<string, real>)>)
    ensures input.Scalar? ==> r == Err(ValueError(ListMessage))
    ensures input.List? && |input.items| == 0 ==> r == Err(IndexError)
    ensures input.List? && |input.items| > 0 ==> r == MinMaxFromList(input.items)
  {
    if input.Scalar? {
      return Err(ValueError(ListMessage));
    }
    var ds := input.items;
    if |ds| == 0 {
      return Err(IndexError);
    }
    var minInit := Sentinels(Names(ds[0]), MinSentinel);
    var maxInit := Sentinels(Names(ds[0]), MaxSentinel);
    assert minInit.Keys == maxInit.Keys;
    var minDict := minInit;
    var maxDict := maxInit;
    var idpol := 0;
    while idpol < |ds|
      invariant 0 <= idpol <= |ds|
      invariant ExtremeTable(true, minInit, ListEntries(ds[..idpol])) == Ok(minDict)
      invariant ExtremeTable(false, maxInit, ListEntries(ds[..idpol])) == Ok(maxDict)
    {
      assert ds[..idpol + 1][..idpol] == ds[..idpol];
      assert ListEntries(ds[..idpol + 1]) == ListEntries(ds[..idpol]) + DatasetEntries(ds[idpol]);
      assert DatasetEntries(ds[idpol])[..|ds[idpol].vars|] == DatasetEntries(ds[idpol]);
      var step := FoldDataset(ds[idpol], minInit, maxInit, ListEntries(ds[..idpol]), minDict, maxDict);
      if step.Err? {
        ListEntriesPrefix(ds, idpol + 1);
        ExtremeTableErrPersists(true, minInit, ListEntries(ds), ListEntries(ds[..idpol + 1]));
        return Err(step.error);
      }
      minDict, maxDict := step.value.0, step.value.1;
      idpol := idpol + 1;
    }
    assert ds[..idpol] == ds;
    r := Ok((minDict, maxDict));
  }

  /** One more entry of a dataset folded in, or the exception the whole fold ends with. */
  lemma ExtendFold(lower: bool, init: map<string, real>, seen: seq<Entry>, entries: seq<Entry>, j: nat, dict: map<string, real>)
    requires j < |entries| && ExtremeTable(lower, init, seen + entries[..j]) == Ok(dict)
    ensures var e := entries[j];
      e.name in dict && NoEmpty(e.samples) ==>
        ExtremeTable(lower, init, seen + entries[..j + 1]) == Ok(dict[e.name := Running(lower, dict[e.name], e.samples).value])
    ensures var e := entries[j];
      !(e.name in dict && NoEmpty(e.samples)) ==>
        ExtremeTable(lower, init, seen + entries) == Err(if e.name !in dict then KeyError(e.name) else EmptyReduction(ReductionName(lower)))
  {
    var e := entries[j];
    assert entries[..j + 1] == entries[..j] + [e];
    assert seen + entries[..j + 1] == (seen + entries[..j]) + [e];
    ExtremeTableSnoc(lower, init, seen + entries[..j], e);
    if !(e.name in dict && NoEmpty(e.samples)) {
      assert entries[..j + 1] <= entries;
      ExtremeTableErrPersists(lower, init, seen + entries, seen + entries[..j + 1]);
    }
  }

  lemma ExtremeTableSnoc(lower: bool, table: map<string, real>, front: seq<Entry>, e: Entry)
    ensures ExtremeTable(lower, table, front + [e]) ==
      match ExtremeTable(lower, table, front)
      case Err(x) => Err(x)
      case Ok(t) =>
        if e.name !in t then Err(KeyError(e.name))
        else match Running(lower, t[e.name], e.samples) case Err(x) => Err(x) case Ok(v) => Ok(t[e.name := v])
  {
    assert (front + [e])[..|front|] == front;
  }

  /** Per variable, the minimum returned is at most 9999 and at most every non-NaN value
      of that variable on every date of every dataset, and it is 9999 or one of those values;
      the maximum likewise from -9999 upwards. */
  lemma MinMaxFromListBounds(ds: seq<Dataset>, name: string)
    requires |ds| > 0 && MinMaxFromList(ds).Ok? && name in Names(ds[0])
    ensures var (lo, hi) := MinMaxFromList(ds).value;
      var es := ListEntries(ds);
      lo[name] <= MinSentinel && hi[name] >= MaxSentinel
      && BeyondAll(true, es, name, lo[name]) && BeyondAll(false, es, name, hi[name])
      && (lo[name] == MinSentinel || Occurs(es, name, lo[name]))
      && (hi[name] == MaxSentinel || Occurs(es, name, hi[name]))
  {
    var es := ListEntries(ds);
    var minInit := Sentinels(Names(ds[0]), MinSentinel);
    var maxInit := Sentinels(Names(ds[0]), MaxSentinel);
    ExtremeTableBound(true, minInit, es, name);
    ExtremeTableBound(false, maxInit, es, name);
    ExtremeTableAttained(true, minInit, es, name);
    ExtremeTableAttained(false, maxInit, es, name);
  }

  /** get_minmax_fromlistxarray fails exactly when some variable, in dataset and key order,
      is missing from the first dataset or has an empty frame, and then with the exception
      of the first such variable: KeyError, or the ValueError `np.nanmin` raises. */
  lemma MinMaxFromListOutcome(ds: seq<Dataset>)
    requires |ds| > 0
    ensures var keys, es := Sentinels(Names(ds[0]), MinSentinel).Keys, ListEntries(ds);
      (MinMaxFromList(ds).Ok? <==> forall k :: 0 <= k < |es| ==> Sound(keys, es[k]))
      && (MinMaxFromList(ds).Err? ==>
            exists k :: 0 <= k < |es| && (forall i :: 0 <= i < k ==> Sound(keys, es[i]))
              && !Sound(keys, es[k]) && MinMaxFromList(ds).error == Fault(true, keys, es[k]))
  {
    var es := ListEntries(ds);
    var minInit := Sentinels(Names(ds[0]), MinSentinel);
    var maxInit := Sentinels(Names(ds[0]), MaxSentinel);
    assert minInit.Keys == maxInit.Keys;
    ExtremeTableFails(true, minInit, es);
    ExtremeTableFails(false, maxInit, es);
    var lo, hi := ExtremeTable(true, minInit, es), ExtremeTable(false, maxInit, es);
    assert lo.Ok? <==> hi.Ok?;
    if lo.Ok? {
      assert MinMaxFromList(ds) == Ok((lo.value, hi.value));
    } else {
      assert MinMaxFromList(ds) == Err(lo.error);
      var k :| 0 <= k < |es| && (forall i :: 0 <= i < k ==> Sound(minInit.Keys, es[i]))
               && !Sound(minInit.Keys, es[k]) && lo.error == Fault(true, minInit.Keys, es[k]);
    }
  }

  /** A dated variable with an empty frame: `np.nanmin` of that frame raises the zero-size
      ValueError, although the first frame already folded. */
  lemma EmptyFrameRaises()
    ensures MinMaxFromList([Dataset(true, 2, [Variable("red", [[Some(3.0)], []])])]) == Err(EmptyReduction("fmin"))
  {
    var d := Dataset(true, 2, [Variable("red", [[Some(3.0)], []])]);
    var e := Entry("red", [[Some(3.0)], []]);
    assert DatasetEntries(d)[0] == e;
    assert ListEntries([d]) == [e] by {
      assert [d][..0] == [];
    }
    assert Names(d) == ["red"];
    var keys := Sentinels(Names(d), MinSentinel).Keys;
    assert "red" in keys;
    assert !Sound(keys, e) by {
      assert |e.samples[1]| == 0;
    }
    MinMaxFromListOutcome([d]);
  }

  // ---------------------------------------------------------------------------
  // get_minmax_from_picklelistxarray

  const PickleMessage := "fns_list must be a list of pickle"

  /** Whether the dataset has a variable of that name. */
  predicate Has(vars: seq<Variable>, name: string)
  {
    exists j :: 0 <= j < |vars| && vars[j].name == name
  }

  /** `xrdata[name]`: the first variable with that name. */
  function Lookup(vars: seq<Variable>, name: string): (r: Option<Variable>)
    ensures r.Some? <==> Has(vars, name)
    ensures r.Some? ==> r.value in vars && r.value.name == name
  {
    if |vars| == 0 then None
    else if vars[0].name == name then Some(vars[0])
    else
      var r := Lookup(vars[1..], name);
      assert Has(vars[1..], name) ==> Has(vars, name);
      assert Has(vars, name) ==> Has(vars[1..], name) by {
        if Has(vars, name) {
          var j :| 0 <= j < |vars| && vars[j].name == name;
          assert vars[1..][j - 1] == vars[j];
        }
      }
      r
  }

  /** The date a file is cut to before folding: `isel({name4d: dateref})` on a dataset with
      a date dimension when dateref is given (IndexError when out of range), none otherwise. */
  function SelectedDate(d: Dataset, dateref: Option<int>): (r: Result<Option<nat>>)
    ensures r.Ok? && r.value.Some? ==> r.value.value < d.dates
  {
    if d.temporal && dateref.Some? then
      var k := Position(dateref.value, d.dates);
      if 0 <= k < d.dates then Ok(Some(k)) else Err(IndexError)
    else Ok(None)
  }

  /** The one sample a band of a file contributes: its values on the selected date, or all
      its values. */
  function BandSample(v: Variable, date: Option<nat>): seq<Option<real>>
  {
    match date
    case Some(k) => if k < |v.frames| then v.frames[k] else []
    case None => Flatten(v.frames)
  }

  /** The file has the band and the band's sample holds at least one value, so both
      reductions succeed. */
  predicate Readable(d: Dataset, band: string, date: Option<nat>)
  {
    match Lookup(d.vars, band)
    case None => false
    case Some(v) => |BandSample(v, date)| > 0
  }

  /** The position of the first band the file lacks or holds no values for, or the number
      of bands. */
  function FirstUnreadable(d: Dataset, bands: seq<string>, date: Option<nat>): (r: nat)
    ensures r <= |bands|
    ensures forall i :: 0 <= i < r ==> Readable(d, bands[i], date)
    ensures r < |bands| ==> !Readable(d, bands[r], date)
  {
    if |bands| == 0 || !Readable(d, bands[0], date) then 0
    else 1 + FirstUnreadable(d, bands[1..], date)
  }

  /** The entries of one file, one per band in order (a band the file lacks contributes
      nothing: reading it raises KeyError first). */
  function BandEntries(d: Dataset, bands: seq<string>, date: Option<nat>): (r: seq<Entry>)
    ensures |r| == |bands|
    ensures forall j :: 0 <= j < |r| ==> r[j].name == bands[j]
    ensures forall j :: 0 <= j < |r| && Readable(d, bands[j], date) ==> NoEmpty(r[j].samples)
  {
    seq(|bands|, j requires 0 <= j < |bands| =>
      Entry(bands[j], match Lookup(d.vars, bands[j]) case Some(v) => [BandSample(v, date)] case None => []))
  }

  /** What one file adds, or the exception reading it raises: IndexError for the date, then
      band by band KeyError for a band the file lacks or the zero-size ValueError of
      `np.nanmin` for a band without values. */
  function FileEntries(d: Dataset, bands: seq<string>, dateref: Option<int>): (r: Result<seq<Entry>>)
    ensures r.Ok? ==> forall j :: 0 <= j < |r.value| ==> r.value[j].name in bands && NoEmpty(r.value[j].samples)
  {
    match SelectedDate(d, dateref)
    case Err(e) => Err(e)
    case Ok(date) =>
      var m := FirstUnreadable(d, bands, date);
      if m == |bands| then Ok(BandEntries(d, bands, date))
      else if Has(d.vars, bands[m]) then Err(EmptyReduction("fmin"))
      else Err(KeyError(bands[m]))
  }

  /** A file reads when, if a date is to be selected, the date is in range and it has
      values for every band; otherwise it raises IndexError for the date, KeyError for a
      band it lacks, or the zero-size ValueError for a band without values. */
  lemma FileEntriesOutcome(d: Dataset, bands: seq<string>, dateref: Option<int>)
    ensures var r := FileEntries(d, bands, dateref);
      r.Ok? <==> SelectedDate(d, dateref).Ok? && forall j :: 0 <= j < |bands| ==> Readable(d, bands[j], SelectedDate(d, dateref).value)
    ensures var r := FileEntries(d, bands, dateref);
      r.Err? ==> r.error == IndexError || (r.error.KeyError? && r.error.key in bands && !Has(d.vars, r.error.key)) || r.error == EmptyReduction("fmin")
    ensures FileEntries(d, bands, dateref) == Err(IndexError) <==> d.temporal && dateref.Some? && !(0 <= Position(dateref.value, d.dates) < d.dates)
  {
  }

  /** The entries of every file in order, or the first exception. */
  function PickleEntries(files: seq<Dataset>, bands: seq<string>, dateref: Option<int>): (r: Result<seq<Entry>>)
    ensures r.Ok? ==> forall j :: 0 <= j < |r.value| ==> r.value[j].name in bands && NoEmpty(r.value[j].samples)
  {
    if |files| == 0 then Ok([])
    else
      match PickleEntries(files[..|files| - 1], bands, dateref)
      case Err(e) => Err(e)
      case Ok(es) =>
        match FileEntries(files[|files| - 1], bands, dateref)
        case Err(e) => Err(e)
        case Ok(fs) => Ok(es + fs)
  }

  lemma {:induction false} PickleEntriesErrPersists(files: seq<Dataset>, bands: seq<string>, dateref: Option<int>, k: nat)
    requires k <= |files| && PickleEntries(files[..k], bands, dateref).Err?
    ensures PickleEntries(files, bands, dateref) == PickleEntries(files[..k], bands, dateref)
    decreases |files|
  {
    if k < |files| {
      var front := files[..|files| - 1];
      assert files[..k] == front[..k];
      PickleEntriesErrPersists(front, bands, dateref, k);
    } else {
      assert files[..k] == files;
    }
  }

  /** Every file before the i-th reads without an exception. */
  predicate ReadsUpTo(files: seq<Dataset>, bands: seq<string>, dateref: Option<int>, i: nat)
    requires i <= |files|
  {
    forall k :: 0 <= k < i ==> FileEntries(files[k], bands, dateref).Ok?
  }

  lemma ReadsUpToPrefix(files: seq<Dataset>, bands: seq<string>, dateref: Option<int>, i: nat)
    requires 0 < |files| && i < |files|
    ensures ReadsUpTo(files[..|files| - 1], bands, dateref, i) <==> ReadsUpTo(files, bands, dateref, i)
  {
    assert forall k :: 0 <= k < i ==> files[..|files| - 1][k] == files[k];
  }

  /** The files are read in order: the result is an exception exactly when some file raises one. */
  lemma {:induction false} PickleEntriesOk(files: seq<Dataset>, bands: seq<string>, dateref: Option<int>)
    ensures PickleEntries(files, bands, dateref).Ok? <==> ReadsUpTo(files, bands, dateref, |files|)
    decreases |files|
  {
    if |files| > 0 {
      var n := |files| - 1;
      var front, last := files[..n], files[n];
      PickleEntriesOk(front, bands, dateref);
      ReadsUpToPrefix(files, bands, dateref, n);
      ReadsUpToNext(files, bands, dateref, n);
      PickleEntriesLast(files, bands, dateref);
    }
  }

  lemma ReadsUpToNext(files: seq<Dataset>, bands: seq<string>, dateref: Option<int>, i: nat)
    requires i < |files|
    ensures ReadsUpTo(files, bands, dateref, i + 1) <==> ReadsUpTo(files, bands, dateref, i) && FileEntries(files[i], bands, dateref).Ok?
  {
    if ReadsUpTo(files, bands, dateref, i) && FileEntries(files[i], bands, dateref).Ok? {
      forall k | 0 <= k < i + 1
        ensures FileEntries(files[k], bands, dateref).Ok?
      {
        if k < i {
          assert FileEntries(files[k], bands, dateref).Ok?;
        }
      }
    }
  }

  lemma PickleEntriesLast(files: seq<Dataset>, bands: seq<string>, dateref: Option<int>)
    requires |files| > 0
    ensures PickleEntries(files, bands, dateref).Ok? <==>
      PickleEntries(files[..|files| - 1], bands, dateref).Ok? && FileEntries(files[|files| - 1], bands, dateref).Ok?
  {
  }

  /** ... and then the exception is the first failing file's. */
  lemma {:induction false} PickleEntriesFirstError(files: seq<Dataset>, bands: seq<string>, dateref: Option<int>)
    requires PickleEntries(files, bands, dateref).Err?
    ensures exists i :: 0 <= i < |files| && ReadsUpTo(files, bands, dateref, i) && FileEntries(files[i], bands, dateref) == PickleEntries(files, bands, dateref)
    decreases |files|
  {
    var n := |files| - 1;
    var front := files[..n];
    if PickleEntries(front, bands, dateref).Err? {
      PickleEntriesFirstError(front, bands, dateref);
      var i :| 0 <= i < n && ReadsUpTo(front, bands, dateref, i) && FileEntries(front[i], bands, dateref) == PickleEntries(front, bands, dateref);
      ReadsUpToPrefix(files, bands, dateref, i);
      assert front[i] == files[i];
    } else {
      PickleEntriesOk(front, bands, dateref);
      ReadsUpToPrefix(files, bands, dateref, n);
    }
  }

  /** The two dictionaries get_minmax_from_picklelistxarray returns, keyed by bands or by
      the first file's variables. */
  function MinMaxFromPickles(files: seq<Dataset>, bands: seq<string>, dateref: Option<int>): (r: Result<(map<string, real>, map<string, real>)>)
    ensures r.Ok? <==> PickleEntries(files, bands, dateref).Ok?
    ensures r.Err? ==> r.error == PickleEntries(files, bands, dateref).error
    ensures r.Ok? ==> forall n :: (n in r.value.0 <==> n in bands) && (n in r.value.1 <==> n in bands)
  {
    match PickleEntries(files, bands, dateref)
    case Err(e) => Err(e)
    case Ok(es) =>
      var minInit := Sentinels(bands, MinSentinel);
      var maxInit := Sentinels(bands, MaxSentinel);
      ExtremeTableFails(true, minInit, es);
      ExtremeTableFails(false, maxInit, es);
      Ok((ExtremeTable(true, minInit, es).value, ExtremeTable(false, maxInit, es).value))
  }

  /** Per band, the minimum returned is at most 9999 and at most every non-NaN value the
      band takes in the folded files, and it is 9999 or one of those values; the maximum
      likewise from -9999 upwards. */
  lemma MinMaxFromPicklesBounds(files: seq<Dataset>, bands: seq<string>, dateref: Option<int>, es: seq<Entry>, name: string)
    requires PickleEntries(files, bands, dateref) == Ok(es) && name in bands
    ensures MinMaxFromPickles(files, bands, dateref).Ok?
    ensures var (lo, hi) := MinMaxFromPickles(files, bands, dateref).value;
      lo[name] <= MinSentinel && hi[name] >= MaxSentinel
      && BeyondAll(true, es, name, lo[name]) && BeyondAll(false, es, name, hi[name])
      && (lo[name] == MinSentinel || Occurs(es, name, lo[name]))
      && (hi[name] == MaxSentinel || Occurs(es, name, hi[name]))
  {
    var minInit := Sentinels(bands, MinSentinel);
    var maxInit := Sentinels(bands, MaxSentinel);
    ExtremeTableFails(true, minInit, es);
    ExtremeTableFails(false, maxInit, es);
    ExtremeTableBound(true, minInit, es, name);
    ExtremeTableBound(false, maxInit, es, name);
    ExtremeTableAttained(true, minInit, es, name);
    ExtremeTableAttained(false, maxInit, es, name);
  }

  /** A file whose band has no values: `np.nanmin` of it raises the zero-size ValueError. */
  lemma EmptyBandRaises()
    ensures MinMaxFromPickles([Dataset(false, 1, [Variable("red", [[]])])], ["red"], None) == Err(EmptyReduction("fmin"))
  {
    var d := Dataset(false, 1, [Variable("red", [[]])]);
    assert Lookup(d.vars, "red") == Some(Variable("red", [[]]));
    assert Flatten<Option<real>>([[]]) == [];
    assert FirstUnreadable(d, ["red"], None) == 0;
    assert Has(d.vars, "red");
    assert FileEntries(d, ["red"], None) == Err(EmptyReduction("fmin"));
    assert [d][..0] == [];
  }

  /** One pass of the loop over the bands: `xrdata[varname]` (KeyError when the file lacks
      the band), then the update of both dictionaries, which raises on an empty sample. */
  method FoldBand(d: Dataset, bands: seq<string>, date: Option<nat>, j: nat, minInit: map<string, real>, maxInit: map<string, real>,
                  ghost seen: seq<Entry>, lows: map<string, real>, highs: map<string, real>)
    returns (r: Result<(map<string, real>, map<string, real>)>)
    requires j < |bands| && j <= FirstUnreadable(d, bands, date) && bands[j] in minInit && lows.Keys == highs.Keys == minInit.Keys
    requires ExtremeTable(true, minInit, seen + BandEntries(d, bands, date)[..j]) == Ok(lows)
    requires ExtremeTable(false, maxInit, seen + BandEntries(d, bands, date)[..j]) == Ok(highs)
    ensures r.Err? ==> FirstUnreadable(d, bands, date) == j
    ensures r.Err? ==> r.error == if Has(d.vars, bands[j]) then EmptyReduction("fmin") else KeyError(bands[j])
    ensures r.Ok? ==> j < FirstUnreadable(d, bands, date)
    ensures r.Ok? ==> r.value.0.Keys == r.value.1.Keys == minInit.Keys
    ensures r.Ok? ==> ExtremeTable(true, minInit, seen + BandEntries(d, bands, date)[..j + 1]) == Ok(r.value.0)
    ensures r.Ok? ==> ExtremeTable(false, maxInit, seen + BandEntries(d, bands, date)[..j + 1]) == Ok(r.value.1)
  {
    var v := Lookup(d.vars, bands[j]);
    if v.None? {
      return Err(KeyError(bands[j]));
    }
    ghost var entries := BandEntries(d, bands, date);
    var step := FoldVariable(bands[j], [BandSample(v.value, date)], lows, highs);
    if step.Err? {
      return Err(step.error);
    }
    ExtendFold(true, minInit, seen, entries, j, lows);
    ExtendFold(false, maxInit, seen, entries, j, highs);
    r := Ok(step.value);
  }

  /** One loaded file: its date is selected, then its bands are folded in. */
  method FoldFile(d: Dataset, bands: seq<string>, dateref: Option<int>, minInit: map<string, real>, maxInit: map<string, real>,
                  ghost seen: seq<Entry>, minDict: map<string, real>, maxDict: map<string, real>)
    returns (r: Result<(map<string, real>, map<string, real>)>)
    requires minInit.Keys == maxInit.Keys && forall j :: 0 <= j < |bands| ==> bands[j] in minInit
    requires ExtremeTable(true, minInit, seen) == Ok(minDict)
    requires ExtremeTable(false, maxInit, seen) == Ok(maxDict)
    ensures r.Err? ==> FileEntries(d, bands, dateref) == Err(r.error)
    ensures r.Ok? ==> FileEntries(d, bands, dateref).Ok?
    ensures r.Ok? ==> ExtremeTable(true, minInit, seen + FileEntries(d, bands, dateref).value) == Ok(r.value.0)
    ensures r.Ok? ==> ExtremeTable(false, maxInit, seen + FileEntries(d, bands, dateref).value) == Ok(r.value.1)
  {
    var date := SelectedDate(d, dateref);
    if date.Err? {
      return Err(date.error);
    }
    r := FoldBands(d, bands, date.value, minInit, maxInit, seen, minDict, maxDict);
  }

  /** The loop over the bands of one loaded file, after its date is selected; it stops at
      the first band that cannot be read. */
  method FoldBands(d: Dataset, bands: seq<string>, date: Option<nat>, minInit: map<string, real>, maxInit: map<string, real>,
                   ghost seen: seq<Entry>, minDict: map<string, real>, maxDict: map<string, real>)
    returns (r: Result<(map<string, real>, map<string, real>)>)
    requires minInit.Keys == maxInit.Keys && forall j :: 0 <= j < |bands| ==> bands[j] in minInit
    requires ExtremeTable(true, minInit, seen) == Ok(minDict)
    requires ExtremeTable(false, maxInit, seen) == Ok(maxDict)
    ensures var m := FirstUnreadable(d, bands, date);
      r.Err? ==> m < |bands| && r.error == if Has(d.vars, bands[m]) then EmptyReduction("fmin") else KeyError(bands[m])
    ensures r.Ok? ==> FirstUnreadable(d, bands, date) == |bands|
    ensures r.Ok? ==> ExtremeTable(true, minInit, seen + BandEntries(d, bands, date)) == Ok(r.value.0)
    ensures r.Ok? ==> ExtremeTable(false, maxInit, seen + BandEntries(d, bands, date)) == Ok(r.value.1)
  {
    ghost var entries := BandEntries(d, bands, date);
    var lows, highs := minDict, maxDict;
    assert seen + entries[..0] == seen;
    var j := 0;
    while j < |bands|
      invariant 0 <= j <= |bands|
      invariant j <= FirstUnreadable(d, bands, date)
      invariant ExtremeTable(true, minInit, seen + entries[..j]) == Ok(lows)
      invariant ExtremeTable(false, maxInit, seen + entries[..j]) == Ok(highs)
      invariant lows.Keys == highs.Keys == minInit.Keys
    {
      var step := FoldBand(d, bands, date, j, minInit, maxInit, seen, lows, highs);
      if step.Err? {
        return Err(step.error);
      }
      lows, highs := step.value.0, step.value.1;
      j := j + 1;
    }
    WholePrefix(entries);
    r := Ok((lows, highs));
  }

  lemma WholePrefix<T>(s: seq<T>)
    ensures s[..|s|] == s
  {
  }

  lemma PickleEntriesSnoc(files: seq<Dataset>, bands: seq<string>, dateref: Option<int>, i: nat, seen: seq<Entry>)
    requires i < |files| && PickleEntries(files[..i], bands, dateref) == Ok(seen)
    ensures PickleEntries(files[..i + 1], bands, dateref) ==
      match FileEntries(files[i], bands, dateref) case Err(e) => Err(e) case Ok(fs) => Ok(seen + fs)
  {
    assert files[..i + 1][..i] == files[..i];
  }

  /** get_minmax_from_picklelistxarray over the loaded files (loading a pickle is not
      modelled): the same update rule as get_minmax_fromlistxarray, applied once per band
      and file to the file's values on the selected date, or to all its values. */
  method GetMinmaxFromPickleListXarray(input: ScalarOrList<Dataset>, bands: Option<seq<string>>, dateref: Option<int>)
    returns (r: Result<(map<string, real>, map<string, real>)>)
    ensures input.Scalar? ==> r == Err(ValueError(PickleMessage))
    ensures input.List? && |input.items| == 0 ==> r == Err(IndexError)
    ensures input.List? && |input.items| > 0 ==>
      r == MinMaxFromPickles(input.items, if bands.Some? then bands.value else Names(input.items[0]), dateref)
  {
    if input.Scalar? {
      return Err(ValueError(PickleMessage));
    }
    var files := input.items;
    if |files| == 0 {
      return Err(IndexError);
    }
    var names := if bands.Some? then bands.value else Names(files[0]);
    var minInit := Sentinels(names, MinSentinel);
    var maxInit := Sentinels(names, MaxSentinel);
    var minDict, maxDict := minInit, maxInit;
    ghost var seen: seq<Entry> := [];
    var idpol := 0;
    while idpol < |files|
      invariant 0 <= idpol <= |files|
      invariant PickleEntries(files[..idpol], names, dateref) == Ok(seen)
      invariant ExtremeTable(true, minInit, seen) == Ok(minDict)
      invariant ExtremeTable(false, maxInit, seen) == Ok(maxDict)
    {
      var step := FoldFile(files[idpol], names, dateref, minInit, maxInit, seen, minDict, maxDict);
      PickleEntriesSnoc(files, names, dateref, idpol, seen);
      if step.Err? {
        PickleEntriesErrPersists(files, names, dateref, idpol + 1);
        return Err(step.error);
      }
      seen := seen + FileEntries(files[idpol], names, dateref).value;
      minDict, maxDict := step.value.0, step.value.1;
      idpol := idpol + 1;
    }
    WholePrefix(files);
    r := Ok((minDict, maxDict));
  }

  // ---------------------------------------------------------------------------
  // split_xarray_data

  /** A raster window; `toranges()` gives its row range and its column range. */
  datatype Window = Window(rowStart: int, rowStop: int, colStart: int, colStop: int)

  type Point = (int, int)

  /** The polygon of a window, as (x, y) corners in the order split_xarray_data lists them. */
  function Corners(w: Window): (r: seq<Point>)
    ensures |r| == 4
  {
    [(w.colStart, w.rowStart), (w.colStop, w.rowStart), (w.colStop, w.rowStop), (w.colStart, w.rowStop)]
  }

  /** Twice the signed area of the closed polygon through ps[k..] and back to ps[0]
      (the shoelace sum). */
  function Shoelace(ps: seq<Point>, k: nat): int
    requires k <= |ps|
    decreases |ps| - k
  {
    if k == |ps| then 0
    else
      var a := ps[k];
      var b := if k + 1 < |ps| then ps[k + 1] else ps[0];
      a.0 * b.1 - b.0 * a.1 + Shoelace(ps, k + 1)
  }

  /** The k-th corner and the next one (cyclically) lie on one axis-parallel line. */
  predicate SidesMeet(c: seq<Point>, k: nat)
    requires k < |c|
  {
    var n := if k + 1 < |c| then c[k + 1] else c[0];
    c[k].0 == n.0 || c[k].1 == n.1
  }

  /** The polygon of a window is the window's rectangle: every corner lies on its border
      lines, consecutive corners share one coordinate, and the polygon encloses
      (colStop - colStart) * (rowStop - rowStart), counter-clockwise in (x, y) when the
      ranges increase. */
  lemma CornersTraceWindow(w: Window)
    ensures var c := Corners(w);
      forall k :: 0 <= k < 4 ==> (c[k].0 == w.colStart || c[k].0 == w.colStop) && (c[k].1 == w.rowStart || c[k].1 == w.rowStop)
    ensures forall k :: 0 <= k < 4 ==> SidesMeet(Corners(w), k)
    ensures Shoelace(Corners(w), 0) == 2 * ((w.colStop - w.colStart) * (w.rowStop - w.rowStart))
  {
    var c := Corners(w);
    var x0, x1, y0, y1 := w.colStart, w.colStop, w.rowStart, w.rowStop;
    assert Shoelace(c, 4) == 0;
    assert Shoelace(c, 3) == x0 * y0 - x0 * y1;
    assert Shoelace(c, 2) == x1 * y1 - x0 * y1 + Shoelace(c, 3);
    assert Shoelace(c, 1) == x1 * y1 - x1 * y0 + Shoelace(c, 2);
    assert Shoelace(c, 0) == x0 * y0 - x1 * y0 + Shoelace(c, 1);
    assert (x1 - x0) * (y1 - y0) == x1 * y1 - x1 * y0 - x0 * y1 + x0 * y0;
  }

  /** What split_xarray_data returns: the tiles and the numbered polygons, or the tiles alone. */
  datatype Split<T> = WithBoxes(tiles: seq<(Window, T)>, boxes: seq<(nat, seq<Point>)>) | TilesOnly(tiles: seq<(Window, T)>)

  /** split_xarray_data over the (window, transform) pairs get_tiles yields: box i is the
      polygon of the i-th window, numbered i, in window order. */
  method SplitXarrayData<T>(tiles: seq<(Window, T)>, polygons: bool) returns (out: Split<T>)
    ensures out.WithBoxes? <==> polygons
    ensures out.tiles == tiles
    ensures out.WithBoxes? ==> |out.boxes| == |tiles|
    ensures out.WithBoxes? ==> forall k :: 0 <= k < |tiles| ==> out.boxes[k] == (k, Corners(tiles[k].0))
  {
    var boxes: seq<(nat, seq<Point>)> := [];
    var organised: seq<(Window, T)> := [];
    var i := 0;
    while i < |tiles|
      invariant 0 <= i <= |tiles|
      invariant organised == tiles[..i]
      invariant polygons ==> |boxes| == i
      invariant polygons ==> forall k :: 0 <= k < i ==> boxes[k] == (k, Corners(tiles[k].0))
    {
      var (window, transform) := tiles[i];
      organised := organised + [(window, transform)];
      if polygons {
        var ys := (window.rowStart, window.rowStop);
        var xs := (window.colStart, window.colStop);
        boxes := boxes + [(i, [(xs.0, ys.0), (xs.1, ys.0), (xs.1, ys.1), (xs.0, ys.1)])];
      }
      i := i + 1;
    }
    if polygons {
      out := WithBoxes(tiles, boxes);
    } else {
      assert organised == tiles;
      out := TilesOnly(organised);
    }
  }

  // ---------------------------------------------------------------------------
  // stack_as4dxarray and adding_newxarray

  /** A value on the stacking axis: a default position, or one the caller gives. */
  datatype AxisValue = Ordinal(n: nat) | Label(text: string)

  /** A two-dimensional xarray, by its dimensions in order with their sizes. */
  datatype Frame = Frame(dims: seq<(string, nat)>)

  /** A stacked xarray: its dimension names in order, the stacking axis, the common grid
      size, and the value of each layer on the axis. */
  datatype Stacked = Stacked(dimNames: seq<string>, axis: string, width: nat, height: nat, values: seq<AxisValue>)

  /** The reference adding_newxarray receives: an xarray Dataset, or anything else. */
  datatype Reference = DatasetRef(stack: Stacked) | NotDataset

  const OnlyListMessage := "Only list xarray are allowed"
  const OnlyXarrayMessage := "Only xarray is allowed"
  const EmptyConcatMessage := "must supply at least one object to concatenate"

  /** `dims[name]`: the size of the first dimension of that name. */
  function DimSize(dims: seq<(string, nat)>, name: string): (r: Option<nat>)
    ensures r.Some? ==> (name, r.value) in dims
    ensures r.None? ==> forall j :: 0 <= j < |dims| ==> dims[j].0 != name
  {
    if |dims| == 0 then None
    else if dims[0].0 == name then Some(dims[0].1)
    else DimSize(dims[1..], name)
  }

  /** The position of the first occurrence of name. */
  function DimPosition(names: seq<string>, name: string): (r: Option<nat>)
    ensures r.Some? ==> r.value < |names| && names[r.value] == name
    ensures r.Some? ==> forall j :: 0 <= j < r.value ==> names[j] != name
    ensures r.None? <==> name !in names
  {
    if |names| == 0 then None
    else if names[0] == name then Some(0)
    else match DimPosition(names[1..], name)
      case None => None
      case Some(k) => Some(k + 1)
  }

  /** The default axis values `range(n)`. */
  function Ordinals(n: nat): (r: seq<AxisValue>)
    ensures |r| == n && forall i :: 0 <= i < n ==> r[i] == Ordinal(i)
  {
    seq(n, i requires 0 <= i < n => Ordinal(i))
  }

  /** adding_newxarray: every new frame is resampled onto the reference grid (a library
      call, not modelled) and appended on the axis with its axis value, in order. */
  function AddingNewXarray(ref: Reference, news: ScalarOrList<Frame>, axis: string, values: Option<seq<AxisValue>>, resampleMethod: string): (r: Result<Stacked>)
    ensures r.Ok? ==>
      (ref.DatasetRef? && r.value.dimNames == ref.stack.dimNames
       && |r.value.values| > |ref.stack.values| && r.value.values[..|ref.stack.values|] == ref.stack.values)
  {
    if ref.NotDataset? then Err(ValueError(OnlyXarrayMessage))
    else
      var frames := AsList(news);
      var vals := if values.Some? then values.value else Ordinals(|frames|);
      if DimPosition(ref.stack.dimNames, axis).None? then Err(IndexError)
      else if |ref.stack.values| == 0 then Err(IndexError)
      else if |vals| < |frames| then Err(IndexError)
      else if |frames| == 0 then Err(ValueError(EmptyConcatMessage))
      else Ok(ref.stack.(values := ref.stack.values + vals[..|frames|]))
  }

  /** adding_newxarray succeeds exactly on a Dataset reference that has the axis (and a first
      layer on it), at least one new frame and an axis value for each; the result keeps the
      reference's dimensions and grid and appends one value per frame, `0..n-1` by default. */
  lemma AddingNewXarrayOutcome(ref: Reference, news: ScalarOrList<Frame>, axis: string, values: Option<seq<AxisValue>>, resampleMethod: string)
    ensures var r := AddingNewXarray(ref, news, axis, values, resampleMethod);
      var n := |AsList(news)|;
      r.Ok? <==> (ref.DatasetRef? && axis in ref.stack.dimNames && |ref.stack.values| > 0 && n > 0
        && (values.Some? ==> |values.value| >= n))
    ensures var r := AddingNewXarray(ref, news, axis, values, resampleMethod);
      var n := |AsList(news)|;
      r.Ok? ==> (r.value.dimNames == ref.stack.dimNames && r.value.axis == ref.stack.axis
        && r.value.width == ref.stack.width && r.value.height == ref.stack.height
        && |r.value.values| == |ref.stack.values| + n && r.value.values[..|ref.stack.values|] == ref.stack.values)
    ensures var r := AddingNewXarray(ref, news, axis, values, resampleMethod);
      r.Ok? && values.None? ==> forall i :: 0 <= i < |AsList(news)| ==> r.value.values[|ref.stack.values| + i] == Ordinal(i)
    ensures ref.NotDataset? ==> AddingNewXarray(ref, news, axis, values, resampleMethod) == Err(ValueError(OnlyXarrayMessage))
  {
  }

  /** `[dims[xdim], dims[ydim]]` for every xarray of the list, or the KeyError of the first
      dimension one of them lacks. */
  function Coords(frames: seq<Frame>, xdim: string, ydim: string): (r: Result<seq<(nat, nat)>>)
    ensures r.Ok? ==> |r.value| == |frames|
    ensures r.Ok? ==> forall i :: 0 <= i < |frames| ==> DimSize(frames[i].dims, xdim) == Some(r.value[i].0) && DimSize(frames[i].dims, ydim) == Some(r.value[i].1)
    ensures r.Err? ==> r.error == KeyError(xdim) || r.error == KeyError(ydim)
  {
    if |frames| == 0 then Ok([])
    else
      match DimSize(frames[0].dims, xdim)
      case None => Err(KeyError(xdim))
      case Some(w) =>
        match DimSize(frames[0].dims, ydim)
        case None => Err(KeyError(ydim))
        case Some(h) =>
          match Coords(frames[1..], xdim, ydim)
          case Err(e) => Err(e)
          case Ok(rest) => Ok([(w, h)] + rest)
  }

  function Largest(s: seq<nat>): (m: nat)
    requires |s| > 0
    ensures m in s && forall i :: 0 <= i < |s| ==> s[i] <= m
  {
    if |s| == 1 then s[0] else Max(s[0], Largest(s[1..]))
  }

  function Smallest(s: seq<nat>): (m: nat)
    requires |s| > 0
    ensures m in s && forall i :: 0 <= i < |s| ==> m <= s[i]
  {
    if |s| == 1 then s[0] else Min(s[0], Smallest(s[1..]))
  }

  function Total(s: seq<nat>): nat
  {
    if |s| == 0 then 0 else s[0] + Total(s[1..])
  }

  function Widths(c: seq<(nat, nat)>): seq<nat> { seq(|c|, i requires 0 <= i < |c| => c[i].0) }
  function Heights(c: seq<(nat, nat)>): seq<nat> { seq(|c|, i requires 0 <= i < |c| => c[i].1) }

  /** The common size `np.max` or `np.mean(...).astype(np.uint)` picks per axis; any other
      method leaves `sizex` unassigned. */
  function CommonSize(sizemethod: string, coords: seq<(nat, nat)>): Result<(nat, nat)>
    requires |coords| > 0
  {
    if sizemethod == "max" then Ok((Largest(Widths(coords)), Largest(Heights(coords))))
    else if sizemethod == "mean" then Ok((Total(Widths(coords)) / |coords|, Total(Heights(coords)) / |coords|))
    else Err(UnboundLocalError("sizex"))
  }

  lemma {:induction false} TotalBounds(s: seq<nat>, lo: nat, hi: nat)
    requires forall i :: 0 <= i < |s| ==> lo <= s[i] <= hi
    ensures |s| * lo <= Total(s) <= |s| * hi
  {
    if |s| > 0 {
      TotalBounds(s[1..], lo, hi);
      assert |s| * lo == lo + (|s| - 1) * lo;
      assert |s| * hi == hi + (|s| - 1) * hi;
    }
  }

  lemma MulCancel(n: int, a: int, b: int)
    requires n > 0 && n * a <= n * b
    ensures a <= b
  {
    assert n * (a - b) == n * a - n * b;
  }
  lemma MulCancelStrict(n: int, a: int, b: int)
    requires n > 0 && n * a < n * b
    ensures a < b
  {
    assert n * (a - b) == n * a - n * b;
  }

  lemma QuotientBetween(t: nat, n: nat, lo: nat, hi: nat)
    requires n > 0 && n * lo <= t <= n * hi
    ensures lo <= t / n <= hi
  {
    var q, r := t / n, t % n;
    assert t == n * q + r && 0 <= r < n;
    MulCancel(n, q, hi);
    assert n * (q + 1) == n * q + n;
    MulCancelStrict(n, lo, q + 1);
  }

  /** With "max" each side of the common grid is the largest of that side over the list and
      some xarray has it; with "mean" it lies between the smallest and the largest. */
  lemma CommonSizeBounds(sizemethod: string, coords: seq<(nat, nat)>)
    requires |coords| > 0
    ensures var r := CommonSize(sizemethod, coords);
      r.Ok? <==> sizemethod == "max" || sizemethod == "mean"
    ensures var r := CommonSize(sizemethod, coords);
      sizemethod == "max" ==> ((forall i :: 0 <= i < |coords| ==> coords[i].0 <= r.value.0 && coords[i].1 <= r.value.1)
        && (exists i :: 0 <= i < |coords| && coords[i].0 == r.value.0) && (exists i :: 0 <= i < |coords| && coords[i].1 == r.value.1))
    ensures var r := CommonSize(sizemethod, coords);
      sizemethod == "mean" ==> (Smallest(Widths(coords)) <= r.value.0 <= Largest(Widths(coords))
        && Smallest(Heights(coords)) <= r.value.1 <= Largest(Heights(coords)))
  {
    var ws, hs := Widths(coords), Heights(coords);
    if sizemethod == "max" {
      assert Largest(ws) in ws;
      assert Largest(hs) in hs;
      assert forall i :: 0 <= i < |coords| ==> ws[i] == coords[i].0 && hs[i] == coords[i].1;
    } else if sizemethod == "mean" {
      TotalBounds(ws, Smallest(ws), Largest(ws));
      QuotientBetween(Total(ws), |coords|, Smallest(ws), Largest(ws));
      TotalBounds(hs, Smallest(hs), Largest(hs));
      QuotientBetween(Total(hs), |coords|, Smallest(hs), Largest(hs));
    }
  }

  /** `expand_dims(dim={axis: 1}, axis=pos)`: the new axis inserted at pos (negative counts
      from the end); a clash with an existing dimension or a position out of range is an
      error raised inside xarray. */
  function ExpandDims(names: seq<string>, axis: string, pos: int): (r: Result<seq<string>>)
    ensures r.Ok? ==> |r.value| == |names| + 1 && axis in r.value && forall n :: n in names ==> n in r.value
  {
    var p := Position(pos, |names| + 1);
    if axis in names || !(0 <= p <= |names|) then Err(ForeignError("expand_dims"))
    else Ok(names[..p] + [axis] + names[p..])
  }

  /** The reference layer stack_as4dxarray builds from the first xarray, resized to the common
      grid, with the first axis value; and the arguments of the call that adds the rest. */
  function StackReference(input: ScalarOrList<Frame>, sizemethod: string, axis: string, values: Option<seq<AxisValue>>, newDimpos: int): (r: Result<Stacked>)
    ensures input.Scalar? ==> r == Err(ValueError(OnlyListMessage))
    ensures r.Ok? ==>
      (input.List? && |input.items| > 0 && values.Some? && |values.value| > 0
       && r.value.values == [values.value[0]] && r.value.axis == axis)
  {
    if input.Scalar? then Err(ValueError(OnlyListMessage))
    else
      var frames := input.items;
      if |frames| == 0 then Err(IndexError)
      else if |frames[0].dims| > 2 then Err(ValueError("too many values to unpack (expected 2)"))
      else if |frames[0].dims| < 2 then Err(ValueError("not enough values to unpack (expected 2, got " + NatToString(|frames[0].dims|) + ")"))
      else
        var ydim, xdim := frames[0].dims[0].0, frames[0].dims[1].0;
        match Coords(frames, xdim, ydim)
        case Err(e) => Err(e)
        case Ok(coords) =>
          match CommonSize(sizemethod, coords)
          case Err(e) => Err(e)
          case Ok(size) =>
            if values.None? then Err(TypeError)
            else if |values.value| == 0 then Err(IndexError)
            else
              match ExpandDims([ydim, xdim], axis, newDimpos)
              case Err(e) => Err(e)
              case Ok(names) => Ok(Stacked(names, axis, size.0, size.1, [values.value[0]]))
  }

  /** The interpolation adding_newxarray is asked to resample with. */
  function ResampleMethod(resizeMethod: string): string
  {
    if resizeMethod != "nearest" then "linear" else resizeMethod
  }

  /** stack_as4dxarray as written: the call to adding_newxarray passes the keyword `method`,
      which adding_newxarray does not take, so once the reference is built Python raises
      TypeError before anything is added. */
  function StackAs4dXarrayAsWritten(input: ScalarOrList<Frame>, sizemethod: string, axis: string, values: Option<seq<AxisValue>>, newDimpos: int, resizeMethod: string): (r: Result<Stacked>)
    ensures input.Scalar? ==> r == Err(ValueError(OnlyListMessage))
    ensures r.Err?
  {
    match StackReference(input, sizemethod, axis, values, newDimpos)
    case Err(e) => Err(e)
    case Ok(_) => Err(TypeError)
  }

  /** As written, stack_as4dxarray never returns a stack. */
  lemma StackAsWrittenNeverStacks(input: ScalarOrList<Frame>, sizemethod: string, axis: string, values: Option<seq<AxisValue>>, newDimpos: int, resizeMethod: string)
    ensures StackAs4dXarrayAsWritten(input, sizemethod, axis, values, newDimpos, resizeMethod).Err?
    ensures StackReference(input, sizemethod, axis, values, newDimpos).Ok? ==> StackAs4dXarrayAsWritten(input, sizemethod, axis, values, newDimpos, resizeMethod) == Err(TypeError)
  {
  }

  /** A list of two 2 x 3 frames with two axis labels, which stack_as4dxarray exists to stack. */
  lemma StackAsWrittenRejectsTwoFrames()
    ensures var frames := List([Frame([("y", 2), ("x", 3)]), Frame([("y", 2), ("x", 3)])]);
      var labels := Some([Label("d1"), Label("d2")]);
      StackAs4dXarray(frames, "max", "date", labels, 0, "nearest") == Ok(Stacked(["date", "y", "x"], "date", 3, 2, [Label("d1"), Label("d2")]))
      && StackAs4dXarrayAsWritten(frames, "max", "date", labels, 0, "nearest") == Err(TypeError)
  {
    var f := Frame([("y", 2), ("x", 3)]);
    var frames := [f, f];
    var labels := [Label("d1"), Label("d2")];
    var ref := Stacked(["date", "y", "x"], "date", 3, 2, [Label("d1")]);
    TwoFramesReference();
    assert DimPosition(ref.dimNames, "date") == Some(0);
    assert labels[1..][..1] == [Label("d2")];
    assert [Label("d1")] + [Label("d2")] == labels;
    assert |AsList(List(frames[1..]))| == 1;
    assert AddingNewXarray(DatasetRef(ref), List(frames[1..]), "date", Some(labels[1..]), "nearest") == Ok(ref.(values := labels));
  }

  /** Both frames are 3 wide and 2 high. */
  lemma TwoFramesCoords()
    ensures var f := Frame([("y", 2), ("x", 3)]);
      Coords([f, f], "x", "y") == Ok([(3, 2), (3, 2)])
  {
    var f := Frame([("y", 2), ("x", 3)]);
    var frames := [f, f];
    assert DimSize(f.dims[1..], "x") == Some(3);
    assert DimSize(f.dims, "x") == Some(3);
    assert DimSize(f.dims, "y") == Some(2);
    assert [f][1..] == [];
    assert Coords([f][1..], "x", "y") == Ok([]);
    assert [f][0] == f;
    assert [(3, 2)] + [] == [(3, 2)];
    assert Coords([f], "x", "y") == Ok([(3, 2)]);
    assert frames[1..] == [f];
    assert frames[0] == f;
    assert [(3, 2)] + [(3, 2)] == [(3, 2), (3, 2)];
  }

  /** The reference built from the first of the two frames. */
  lemma TwoFramesReference()
    ensures var f := Frame([("y", 2), ("x", 3)]);
      StackReference(List([f, f]), "max", "date", Some([Label("d1"), Label("d2")]), 0)
        == Ok(Stacked(["date", "y", "x"], "date", 3, 2, [Label("d1")]))
  {
    TwoFramesCoords();
    assert Widths([(3, 2), (3, 2)]) == [3, 3];
    assert Heights([(3, 2), (3, 2)]) == [2, 2];
    var names := ["y", "x"];
    assert "date" !in names;
    assert names[..0] + ["date"] + names[0..] == ["date", "y", "x"];
    assert ExpandDims(names, "date", 0) == Ok(["date", "y", "x"]);
    assert Largest(Widths([(3, 2), (3, 2)])) == 3 by { assert [3, 3][1..] == [3]; }
    assert Largest(Heights([(3, 2), (3, 2)])) == 2 by { assert [2, 2][1..] == [2]; }
  }

  /** stack_as4dxarray with the rest of the list added the way adding_newxarray takes it:
      resampled with `resample_method` along the same `axis_name`. */
  function StackAs4dXarray(input: ScalarOrList<Frame>, sizemethod: string, axis: string, values: Option<seq<AxisValue>>, newDimpos: int, resizeMethod: string): (r: Result<Stacked>)
    ensures input.Scalar? ==> r == Err(ValueError(OnlyListMessage))
    ensures r.Ok? ==> StackReference(input, sizemethod, axis, values, newDimpos).Ok?
  {
    match StackReference(input, sizemethod, axis, values, newDimpos)
    case Err(e) => Err(e)
    case Ok(ref) => AddingNewXarray(DatasetRef(ref), List(input.items[1..]), axis, Some(values.value[1..]), ResampleMethod(resizeMethod))
  }

  /** A stack holds one layer per xarray of the list, on the axis values given in order, on the
      common grid; it needs at least two xarrays (adding none is an empty concatenation), and
      a non-list input is rejected. */
  lemma StackOutcome(input: ScalarOrList<Frame>, sizemethod: string, axis: string, values: Option<seq<AxisValue>>, newDimpos: int, resizeMethod: string)
    ensures input.Scalar? ==> StackAs4dXarray(input, sizemethod, axis, values, newDimpos, resizeMethod) == Err(ValueError(OnlyListMessage))
    ensures var r := StackAs4dXarray(input, sizemethod, axis, values, newDimpos, resizeMethod);
      r.Ok? ==> (input.List? && |input.items| >= 2 && values.Some? && |values.value| >= |input.items|
        && r.value.values == values.value[..|input.items|] && r.value.axis == axis && axis in r.value.dimNames)
  {
    var r := StackAs4dXarray(input, sizemethod, axis, values, newDimpos, resizeMethod);
    if r.Ok? {
      var frames := input.items;
      var ref := StackReference(input, sizemethod, axis, values, newDimpos).value;
      AddingNewXarrayOutcome(DatasetRef(ref), List(frames[1..]), axis, Some(values.value[1..]), ResampleMethod(resizeMethod));
      assert [values.value[0]] + values.value[1..][..|frames| - 1] == values.value[..|frames|];
    }
  }

  /** With "max", the grid of a stack is as wide and as high as the widest and the highest
      xarray of the list, and no more. */
  lemma StackGridIsLargest(input: ScalarOrList<Frame>, axis: string, values: Option<seq<AxisValue>>, newDimpos: int, resizeMethod: string)
    requires StackAs4dXarray(input, "max", axis, values, newDimpos, resizeMethod).Ok?
    ensures var r := StackAs4dXarray(input, "max", axis, values, newDimpos, resizeMethod).value;
      var xdim, ydim := input.items[0].dims[1].0, input.items[0].dims[0].0;
      Coords(input.items, xdim, ydim).Ok? &&
      var c := Coords(input.items, xdim, ydim).value;
      (forall i :: 0 <= i < |c| ==> c[i].0 <= r.width && c[i].1 <= r.height)
      && (exists i :: 0 <= i < |c| && c[i].0 == r.width) && (exists i :: 0 <= i < |c| && c[i].1 == r.height)
  {
    var frames := input.items;
    var ref := StackReference(input, "max", axis, values, newDimpos).value;
    var coords := Coords(frames, frames[0].dims[1].0, frames[0].dims[0].0).value;
    CommonSizeBounds("max", coords);
    AddingNewXarrayOutcome(DatasetRef(ref), List(frames[1..]), axis, Some(values.value[1..]), ResampleMethod(resizeMethod));
  }
}
