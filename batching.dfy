/** From ml_utils/data_transform.py: the two value scalers, minmax_scale and standard_scale,
    and the batch bookkeeping of the Keras data generator GettingDLDatafromMTdata (its
    length, the ids and targets of a batch, the epoch reshuffle and the generator loop).
    Arrays are flattened; NaN and the infinities a division by zero yields are None.
    Reading and augmenting the image files of a batch is not modelled. */
module Batching {
  import opened Common

  // ---------------------------------------------------------------------------
  // minmax_scale and standard_scale

  /** `(x - shift) / span` on numpy floats: NaN in, NaN out; a zero span gives NaN or an
      infinity (None). */
  function Scale(x: Option<real>, shift: Option<real>, span: Option<real>): (r: Option<real>)
    ensures r.Some? <==> x.Some? && shift.Some? && span.Some? && span.value != 0.0
  {
    if x.None? || shift.None? || span.None? || span.value == 0.0 then None
    else Some((x.value - shift.value) / span.value)
  }

  /** Scaling is undone by multiplying back by the span and adding the shift. */
  lemma ScaleRoundTrip(x: real, shift: real, span: real)
    requires span != 0.0
    ensures Scale(Some(x), Some(shift), Some(span)).Some?
    ensures Scale(Some(x), Some(shift), Some(span)).value * span + shift == x
  {
  }

  function ScaleAll(data: seq<Option<real>>, shift: Option<real>, span: Option<real>): (r: seq<Option<real>>)
    ensures |r| == |data| && forall i :: 0 <= i < |data| ==> r[i] == Scale(data[i], shift, span)
  {
    seq(|data|, i requires 0 <= i < |data| => Scale(data[i], shift, span))
  }

  /** minmax_scale: the bounds default to the NaN-ignoring extremes of the data. */
  function MinmaxScale(data: seq<Option<real>>, minval: Option<Option<real>>, maxval: Option<Option<real>>): (r: Result<seq<Option<real>>>)
    ensures r.Err? <==> |data| == 0 && (minval.None? || maxval.None?)
    ensures r.Ok? ==> |r.value| == |data| && forall k :: 0 <= k < |data| && data[k].None? ==> r.value[k].None?
  {
    if minval.None? && |data| == 0 then Err(EmptyReduction("fmin"))
    else if maxval.None? && |data| == 0 then Err(EmptyReduction("fmax"))
    else
      var lo := if minval.Some? then minval.value else NanMin(data);
      var hi := if maxval.Some? then maxval.value else NanMax(data);
      var span := if lo.Some? && hi.Some? then Some(hi.value - lo.value) else None;
      Ok(ScaleAll(data, lo, span))
  }

  /** With both bounds given, minmax_scale sends every value equal to minval to 0 and every
      value equal to maxval to 1, whatever else the data holds. */
  lemma MinmaxScaleEndpoints(data: seq<Option<real>>, lo: real, hi: real)
    requires lo != hi
    ensures MinmaxScale(data, Some(Some(lo)), Some(Some(hi))).Ok?
    ensures var r := MinmaxScale(data, Some(Some(lo)), Some(Some(hi))).value;
      forall i :: 0 <= i < |data| ==> (data[i] == Some(lo) ==> r[i] == Some(0.0)) && (data[i] == Some(hi) ==> r[i] == Some(1.0))
  {
    UnitEnds(hi - lo);
  }

  lemma UnitEnds(s: real)
    requires s != 0.0
    ensures 0.0 / s == 0.0 && s / s == 1.0
  {
  }

  /** Scaling by [lo, hi] maps the values between them into [0, 1], lo to 0 and hi to 1. */
  lemma ScaleIntoUnit(data: seq<Option<real>>, lo: real, hi: real, r: seq<Option<real>>)
    requires lo < hi && r == ScaleAll(data, Some(lo), Some(hi - lo))
    requires forall i :: 0 <= i < |data| && data[i].Some? ==> lo <= data[i].value <= hi
    ensures |r| == |data|
    ensures forall i :: 0 <= i < |data| ==>
        (r[i].Some? <==> data[i].Some?)
        && (data[i].Some? ==> 0.0 <= r[i].value <= 1.0)
        && (data[i] == Some(lo) ==> r[i] == Some(0.0))
        && (data[i] == Some(hi) ==> r[i] == Some(1.0))
  {
    UnitEnds(hi - lo);
    forall i | 0 <= i < |data| && data[i].Some?
      ensures 0.0 <= r[i].value <= 1.0
    {
      UnitQuotient(data[i].value - lo, hi - lo);
    }
  }

  /** With the default bounds, minmax_scale fails only on empty data, keeps NaN where the data
      has it, and maps every other value into [0, 1], its minimum to 0 and its maximum to 1. */
  lemma MinmaxScaleDefaults(data: seq<Option<real>>)
    ensures MinmaxScale(data, None, None).Err? <==> |data| == 0
    ensures var r := MinmaxScale(data, None, None);
      var lo, hi := NanMin(data), NanMax(data);
      r.Ok? && lo.Some? && lo.value < hi.value ==> forall i :: 0 <= i < |data| ==>
        (r.value[i].Some? <==> data[i].Some?)
        && (data[i].Some? ==> 0.0 <= r.value[i].value <= 1.0)
        && (data[i] == lo ==> r.value[i] == Some(0.0))
        && (data[i] == hi ==> r.value[i] == Some(1.0))
  {
    var lo, hi := NanMin(data), NanMax(data);
    if |data| > 0 && lo.Some? && lo.value < hi.value {
      var a, b := lo.value, hi.value;
      var s := ScaleAll(data, Some(a), Some(b - a));
      MinmaxScaleDefault(data, a, b);
      NanExtremesBound(data);
      ScaleIntoUnit(data, a, b, s);
    }
  }

  lemma NanExtremesBound(data: seq<Option<real>>)
    requires NanMin(data).Some?
    ensures forall i :: 0 <= i < |data| && data[i].Some? ==> NanMin(data).value <= data[i].value <= NanMax(data).value
  {
  }

  lemma MinmaxScaleDefault(data: seq<Option<real>>, lo: real, hi: real)
    requires |data| > 0 && NanMin(data) == Some(lo) && NanMax(data) == Some(hi)
    ensures MinmaxScale(data, None, None) == Ok(ScaleAll(data, Some(lo), Some(hi - lo)))
  {
    var span := Some(hi - lo);
    assert MinmaxScale(data, None, None) == Ok(ScaleAll(data, Some(lo), span));
  }

  lemma UnitQuotient(a: real, b: real)
    requires 0.0 <= a <= b && b > 0.0
    ensures 0.0 <= a / b <= 1.0
  {
    assert a / b * b == a;
  }

  /** `np.nanmean`: NaN when no value is present. */
  function NanMean(s: seq<Option<real>>): Option<real>
  {
    if CountValid(s) == 0 then None else Some(NanSum(s) / CountValid(s) as real)
  }

  function SquaredDeviations(s: seq<Option<real>>, m: real): (r: seq<Option<real>>)
    ensures |r| == |s|
  {
    seq(|s|, i requires 0 <= i < |s| => match s[i] case Some(v) => Some((v - m) * (v - m)) case None => None)
  }

  /** `np.nanstd` (population form), given the square root numpy takes. */
  function NanStd(s: seq<Option<real>>, sqrt: real -> real): Option<real>
  {
    match NanMean(s)
    case None => None
    case Some(m) =>
      match NanMean(SquaredDeviations(s, m))
      case None => None
      case Some(v) => Some(sqrt(v))
  }

  /** standard_scale: the mean and the deviation default to the NaN-ignoring ones of the data. */
  function StandardScale(data: seq<Option<real>>, meanval: Option<Option<real>>, stdval: Option<Option<real>>, sqrt: real -> real): (r: seq<Option<real>>)
    ensures |r| == |data| && forall k :: 0 <= k < |data| && data[k].None? ==> r[k].None?
    ensures meanval.Some? && stdval.Some? && meanval.value.Some? && stdval.value.Some? && stdval.value.value != 0.0 ==>
      forall k :: 0 <= k < |data| && data[k].Some? ==> r[k].Some? && r[k].value * stdval.value.value + meanval.value.value == data[k].value
  {
    var m := if meanval.Some? then meanval.value else NanMean(data);
    var s := if stdval.Some? then stdval.value else NanStd(data, sqrt);
    ScaleAll(data, m, s)
  }

  /** With the mean and deviation given, standard_scale sends every value equal to meanval
      to 0 and every value equal to meanval + stdval to 1, whatever else the data holds. */
  lemma StandardScaleEndpoints(data: seq<Option<real>>, m: real, s: real, sqrt: real -> real)
    requires s != 0.0
    ensures var r := StandardScale(data, Some(Some(m)), Some(Some(s)), sqrt);
      forall i :: 0 <= i < |data| ==> (data[i] == Some(m) ==> r[i] == Some(0.0)) && (data[i] == Some(m + s) ==> r[i] == Some(1.0))
  {
    UnitEnds(s);
    assert m + s - m == s;
  }

  lemma DivAdd(x: real, y: real, s: real)
    requires s != 0.0
    ensures x / s + y / s == (x + y) / s
  {
    assert (x / s) * s == x;
    assert (y / s) * s == y;
    assert ((x + y) / s) * s == x + y;
    assert (x / s + y / s) * s == x + y;
  }

  /** Scaling every present value scales the sum of their deviations from the shift. */
  lemma {:induction false} NanSumScaled(data: seq<Option<real>>, m: real, s: real)
    requires s != 0.0
    ensures CountValid(ScaleAll(data, Some(m), Some(s))) == CountValid(data)
    ensures NanSum(ScaleAll(data, Some(m), Some(s))) == NanSum(ScaleAll(data, Some(m), Some(1.0))) / s
  {
    var scaled := ScaleAll(data, Some(m), Some(s));
    var shifted := ScaleAll(data, Some(m), Some(1.0));
    if |data| == 0 {
      assert 0.0 / s == 0.0;
    } else {
      var n := |data| - 1;
      var front := data[..n];
      assert scaled[..n] == ScaleAll(front, Some(m), Some(s));
      assert shifted[..n] == ScaleAll(front, Some(m), Some(1.0));
      NanSumScaled(front, m, s);
      match data[n]
      case None =>
      case Some(v) =>
        DivAdd(NanSum(shifted[..n]), v - m, s);
    }
  }

  /** m added up c times. */
  function Times(c: nat, m: real): real
  {
    if c == 0 then 0.0 else Times(c - 1, m) + m
  }

  lemma {:induction false} TimesIsProduct(c: nat, m: real)
    ensures Times(c, m) == c as real * m
  {
    if c > 0 {
      TimesIsProduct(c - 1, m);
      assert c as real * m == (c - 1) as real * m + m;
    }
  }

  /** Shifting every present value by m takes m off their sum once per value. */
  lemma {:induction false} NanSumShifted(data: seq<Option<real>>, m: real)
    ensures NanSum(ScaleAll(data, Some(m), Some(1.0))) == NanSum(data) - Times(CountValid(data), m)
  {
    var shifted := ScaleAll(data, Some(m), Some(1.0));
    if |data| > 0 {
      var n := |data| - 1;
      var front := data[..n];
      assert shifted[..n] == ScaleAll(front, Some(m), Some(1.0));
      NanSumShifted(front, m);
      match data[n]
      case None =>
      case Some(v) =>
        assert shifted[n] == Some(v - m);
    }
  }

  /** With the default mean, the scaled values that are present average to 0. */
  lemma StandardScaleCentres(data: seq<Option<real>>, stdval: Option<Option<real>>, sqrt: real -> real)
    requires CountValid(data) > 0
    requires var s := if stdval.Some? then stdval.value else NanStd(data, sqrt); s.Some? && s.value != 0.0
    ensures NanMean(StandardScale(data, None, stdval, sqrt)) == Some(0.0)
  {
    var s := (if stdval.Some? then stdval.value else NanStd(data, sqrt)).value;
    var m := NanSum(data) / CountValid(data) as real;
    var scaled := ScaleAll(data, Some(m), Some(s));
    assert StandardScale(data, None, stdval, sqrt) == scaled;
    NanSumScaled(data, m, s);
    NanSumShifted(data, m);
    MeanTimesCount(NanSum(data), CountValid(data));
    assert NanSum(ScaleAll(data, Some(m), Some(1.0))) == 0.0;
    ZeroQuotient(s);
    assert NanSum(scaled) == 0.0;
    ZeroQuotient(CountValid(scaled) as real);
  }

  lemma ZeroQuotient(s: real)
    requires s != 0.0
    ensures 0.0 / s == 0.0
  {
  }

  /** The mean added up once per value gives back the sum. */
  lemma MeanTimesCount(total: real, c: nat)
    requires c > 0
    ensures Times(c, total / c as real) == total
  {
    TimesIsProduct(c, total / c as real);
  }

  // ---------------------------------------------------------------------------
  // GettingDLDatafromMTdata

  /** `list(range(n))`. */
  function Range(n: nat): (r: seq<nat>)
    ensures |r| == n && forall i :: 0 <= i < n ==> r[i] == i
  {
    seq(n, i requires 0 <= i < n => i)
  }

  /** An order of the ids 0..n-1: each exactly once. */
  predicate IsOrder(ids: seq<nat>, n: nat)
  {
    |ids| == n && (forall i :: 0 <= i < n ==> ids[i] < n) && (forall i, j :: 0 <= i < j < n ==> ids[i] != ids[j])
  }

  lemma RangeIsOrder(n: nat)
    ensures IsOrder(Range(n), n)
  {
  }

  /** The ids and the (normalised) targets of one batch; the images themselves are not modelled. */
  datatype Batch = Batch(ids: seq<nat>, targets: seq<Option<real>>)

  /** __normalize: `(y - s0) / s1`, applied when a target scaler is set. */
  function Normalize(y: real, scaler: Option<(real, real)>): (r: Option<real>)
    ensures scaler.None? ==> r == Some(y)
    ensures scaler.Some? ==> (r.Some? <==> scaler.value.1 != 0.0)
  {
    match scaler
    case None => Some(y)
    case Some((s0, s1)) => Scale(Some(y), Some(s0), Some(s1))
  }

  /** Without a scaler the target is kept; with one it is recovered as `y' * s1 + s0`, and a
      zero s1 leaves no finite target. */
  lemma NormalizeRoundTrip(y: real, scaler: Option<(real, real)>)
    ensures scaler.None? ==> Normalize(y, scaler) == Some(y)
    ensures scaler.Some? ==> (Normalize(y, scaler).Some? <==> scaler.value.1 != 0.0)
    ensures scaler.Some? && scaler.value.1 != 0.0 ==> Normalize(y, scaler).value * scaler.value.1 + scaler.value.0 == y
  {
    if scaler.Some? && scaler.value.1 != 0.0 {
      ScaleRoundTrip(y, scaler.value.0, scaler.value.1);
    }
  }

  /** `ids[idx*bs : (idx+1)*bs]`: the ids __getitem__ takes. */
  function BatchSlice(ids: seq<nat>, idx: int, bs: int): seq<nat>
  {
    PySlice(ids, idx * bs, (idx + 1) * bs)
  }

  lemma MulLe(a: int, b: int, c: nat)
    requires a <= b
    ensures a * c <= b * c
  {
  }

  /** Batch i of a full-size order starts at id position i*bs and holds bs ids. */
  lemma BatchAt(ids: seq<nat>, n: nat, bs: nat, i: nat)
    requires |ids| == n && bs > 0 && i < n / bs
    ensures i * bs + bs <= n
    ensures BatchSlice(ids, i, bs) == ids[i * bs..i * bs + bs]
  {
    MulLe(i + 1, n / bs, bs);
    assert (i + 1) * bs == i * bs + bs;
  }

  /** Every id of batch idx has a target. */
  predicate Servable(ids: seq<nat>, idx: int, bs: int, targets: nat)
  {
    var s := BatchSlice(ids, idx, bs);
    forall k :: 0 <= k < |s| ==> s[k] < targets
  }

  /** The batch __getitem__ serves: the ids of batch idx and their (normalised) targets. */
  function ServedBatch(ids: seq<nat>, idx: int, bs: int, target: seq<real>, scaler: Option<(real, real)>): (b: Batch)
    requires Servable(ids, idx, bs, |target|)
    ensures b.ids == BatchSlice(ids, idx, bs) && |b.targets| == |b.ids|
    ensures forall k :: 0 <= k < |b.ids| ==> b.targets[k] == Normalize(target[b.ids[k]], scaler)
  {
    var s := BatchSlice(ids, idx, bs);
    Batch(s, seq(|s|, k requires 0 <= k < |s| => Normalize(target[s[k]], scaler)))
  }

  /** The batches 0 .. |batches|-1, each served as __getitem__ serves it. */
  predicate ServedInOrder(ids: seq<nat>, bs: int, target: seq<real>, scaler: Option<(real, real)>, batches: seq<Batch>)
  {
    forall j :: 0 <= j < |batches| ==>
      Servable(ids, j, bs, |target|) && batches[j] == ServedBatch(ids, j, bs, target, scaler)
  }

  lemma ServedInOrderSnoc(ids: seq<nat>, bs: int, target: seq<real>, scaler: Option<(real, real)>, batches: seq<Batch>, b: Batch)
    requires ServedInOrder(ids, bs, target, scaler, batches)
    requires Servable(ids, |batches|, bs, |target|) && b == ServedBatch(ids, |batches|, bs, target, scaler)
    ensures ServedInOrder(ids, bs, target, scaler, batches + [b])
  {
  }

  /** For an order of the ids and a positive batch size, every batch index below
      `len(fn_list) // batch_size` selects exactly batch_size ids, and two different batches
      share none. */
  lemma BatchesPartition(ids: seq<nat>, n: nat, bs: nat, i: nat, j: nat)
    requires IsOrder(ids, n) && bs > 0 && i < n / bs && j < n / bs
    ensures |BatchSlice(ids, i, bs)| == bs
    ensures i != j ==> forall a, b :: 0 <= a < |BatchSlice(ids, i, bs)| && 0 <= b < |BatchSlice(ids, j, bs)| ==>
      BatchSlice(ids, i, bs)[a] != BatchSlice(ids, j, bs)[b]
  {
    BatchAt(ids, n, bs, i);
    BatchAt(ids, n, bs, j);
    if i < j {
      RunsApart(i, j, bs);
      DisjointRuns(ids, n, i * bs, j * bs, bs, BatchSlice(ids, i, bs), BatchSlice(ids, j, bs));
    } else if j < i {
      RunsApart(j, i, bs);
      DisjointRuns(ids, n, j * bs, i * bs, bs, BatchSlice(ids, j, bs), BatchSlice(ids, i, bs));
    }
  }

  /** An earlier batch ends before a later one starts. */
  lemma RunsApart(i: nat, j: nat, bs: nat)
    requires i < j
    ensures i * bs + bs <= j * bs
  {
    MulLe(i + 1, j, bs);
    assert (i + 1) * bs == i * bs + bs;
  }

  /** Two runs of an order that do not overlap hold no id in common. */
  lemma DisjointRuns(ids: seq<nat>, n: nat, p: nat, q: nat, len: nat, x: seq<nat>, y: seq<nat>)
    requires IsOrder(ids, n) && p + len <= q && q + len <= n
    requires x == ids[p..p + len] && y == ids[q..q + len]
    ensures forall a, b :: 0 <= a < |x| && 0 <= b < |y| ==> x[a] != y[b]
  {
    forall a, b | 0 <= a < |x| && 0 <= b < |y|
      ensures x[a] != y[b]
    {
      assert x[a] == ids[p + a] && y[b] == ids[q + b];
    }
  }

  /** __len__ serves `len(fn_list) // batch_size` batches: the ids left over after the last
      full batch are never served. */
  lemma LenDropsRemainder(n: nat, bs: nat)
    requires bs > 0
    ensures FloorDiv(n, bs) * bs <= n < (FloorDiv(n, bs) + 1) * bs
  {
  }

  /** What `__data_generation` raises before it reads any target. With `workers` set, only
      the 'starmap' branch assigns `listdata`, so any other `parallel` (the default is
      'pool') leaves it unbound when the ids are zipped with it; a pool of no workers
      cannot be made. Without workers the list is built directly. */
  function ListDataError(workers: Option<nat>, parallel: string): (r: Option<Error>)
    ensures r.None? <==> workers.None? || (parallel == "starmap" && workers.value > 0)
    ensures workers.Some? && parallel != "starmap" ==> r == Some(UnboundLocalError("listdata"))
  {
    if workers.None? then None
    else if parallel != "starmap" then Some(UnboundLocalError("listdata"))
    else if workers.value == 0 then Some(ForeignError("multiprocessing.Pool"))
    else None
  }

  /** The generator's defaults, `workers=6, parrallel='pool'`, make every batch raise. */
  lemma DefaultsNeverServe()
    ensures ListDataError(Some(6), "pool") == Some(UnboundLocalError("listdata"))
  {
  }

  /** `__data_generation` as evidently intended: the 'pool' mode, the constructor's
      default, runs the transform through a pool just as 'starmap' does, so with workers
      set only a mode that names neither leaves `listdata` unbound. */
  function ListDataErrorIntended(workers: Option<nat>, parallel: string): (r: Option<Error>)
    ensures r.None? <==> workers.None? || ((parallel == "starmap" || parallel == "pool") && workers.value > 0)
    ensures workers.Some? && parallel != "starmap" && parallel != "pool" ==> r == Some(UnboundLocalError("listdata"))
  {
    if workers.None? then None
    else if parallel != "starmap" && parallel != "pool" then Some(UnboundLocalError("listdata"))
    else if workers.value == 0 then Some(ForeignError("multiprocessing.Pool"))
    else None
  }

  /** The intended generation differs from the code as written only in the 'pool' mode:
      every other mode fails or succeeds alike, and whatever the code as written serves
      the intended one serves too. */
  lemma ListDataIntendedOnlyAddsPool(workers: Option<nat>, parallel: string)
    ensures parallel != "pool" ==> ListDataErrorIntended(workers, parallel) == ListDataError(workers, parallel)
    ensures ListDataError(workers, parallel).None? ==> ListDataErrorIntended(workers, parallel).None?
    ensures parallel == "pool" && workers.Some? && workers.value > 0 ==>
      ListDataError(workers, parallel).Some? && ListDataErrorIntended(workers, parallel).None?
  {
  }

  /** With the defaults `workers=6, parrallel='pool'` the intended generation serves. */
  lemma DefaultsServeIntended()
    ensures ListDataErrorIntended(Some(6), "pool").None?
    ensures ListDataError(Some(6), "pool").Some?
  {
  }

  class DLDataGenerator {
    var fnList: seq<string>
    var target: seq<real>
    var shuffle: bool
    var scalerTarget: Option<(real, real)>
    var batchSize: int
    var workers: Option<nat>
    var parallel: string
    var listIds: seq<nat>

    /** The ids are an order of the files. */
    ghost predicate Valid()
      reads this
    {
      IsOrder(listIds, |fnList|)
    }

    /** The constructor stores its arguments and ends with on_epoch_end; `order` is the
        permutation np.random.shuffle would produce. */
    constructor (fnList: seq<string>, target: seq<real>, shuffle: bool, scalerTarget: Option<(real, real)>, batchSize: int,
                 workers: Option<nat>, parallel: string, order: seq<nat>)
      requires shuffle ==> IsOrder(order, |fnList|)
      ensures this.fnList == fnList && this.target == target && this.shuffle == shuffle
      ensures this.scalerTarget == scalerTarget && this.batchSize == batchSize
      ensures this.workers == workers && this.parallel == parallel
      ensures listIds == if shuffle then order else Range(|fnList|)
      ensures Valid()
    {
      this.fnList := fnList;
      this.target := target;
      this.shuffle := shuffle;
      this.scalerTarget := scalerTarget;
      this.batchSize := batchSize;
      this.workers := workers;
      this.parallel := parallel;
      RangeIsOrder(|fnList|);
      listIds := if shuffle then order else Range(|fnList|);
    }

    /** __len__: `int(np.floor(len(fn_list) / batch_size))`. */
    function Len(): (r: Result<int>)
      reads this
      ensures batchSize == 0 <==> r == Err(ZeroDivisionError)
      ensures batchSize > 0 ==> r == Ok(|fnList| / batchSize)
    {
      if batchSize == 0 then Err(ZeroDivisionError) else Ok(FloorDiv(|fnList|, batchSize))
    }

    /** on_epoch_end: the ids back in file order, shuffled when asked. */
    method OnEpochEnd(order: seq<nat>)
      requires shuffle ==> IsOrder(order, |fnList|)
      modifies this
      ensures listIds == if shuffle then order else Range(|fnList|)
      ensures fnList == old(fnList) && target == old(target) && shuffle == old(shuffle)
      ensures scalerTarget == old(scalerTarget) && batchSize == old(batchSize)
      ensures workers == old(workers) && parallel == old(parallel)
      ensures Valid()
    {
      RangeIsOrder(|fnList|);
      listIds := Range(|fnList|);
      if shuffle {
        listIds := order;
      }
    }

    /** __getitem__: the ids of batch idx and, one per id in order, its target (normalised
        when a target scaler is set). The data generation fails first as ListDataError
        says; otherwise IndexError when an id has no target. */
    method GetItem(idx: int) returns (r: Result<Batch>)
      ensures ListDataError(workers, parallel).Some? ==> r == Err(ListDataError(workers, parallel).value)
      ensures ListDataError(workers, parallel).None? ==> (r.Ok? <==> Servable(listIds, idx, batchSize, |target|))
      ensures ListDataError(workers, parallel).None? && r.Err? ==> r.error == IndexError
      ensures r.Ok? ==> r.value == ServedBatch(listIds, idx, batchSize, target, scalerTarget)
    {
      var indexes := BatchSlice(listIds, idx, batchSize);
      var failure := ListDataError(workers, parallel);
      if failure.Some? {
        return Err(failure.value);
      }
      var ys: seq<Option<real>> := [];
      var k := 0;
      while k < |indexes|
        invariant 0 <= k <= |indexes| && |ys| == k
        invariant forall j :: 0 <= j < k ==> indexes[j] < |target| && ys[j] == Normalize(target[indexes[j]], scalerTarget)
      {
        var id := indexes[k];
        if id >= |target| {
          assert !(indexes[k] < |target|);
          return Err(IndexError);
        }
        ys := ys + [Normalize(target[id], scalerTarget)];
        k := k + 1;
      }
      r := Ok(Batch(indexes, ys));
    }

    /** __call__: the batches 0 .. len-1 in order, then on_epoch_end once, after the last.
        The first batch that fails ends the run: with the data generation's error when
        there is one, else with IndexError for an id beyond the targets. */
    method Call(order: seq<nat>) returns (r: Result<seq<Batch>>)
      requires Valid() && (shuffle ==> IsOrder(order, |fnList|))
      modifies this
      ensures old(Len()).Err? ==> r == Err(ZeroDivisionError) && listIds == old(listIds)
      ensures old(Len()).Ok? ==>
        (r.Ok? <==> (old(Len()).value <= 0 || (ListDataError(workers, parallel).None?
                      && forall i :: 0 <= i < old(Len()).value ==> Servable(old(listIds), i, batchSize, |target|))))
      ensures old(Len()).Ok? && r.Err? ==>
        (listIds == old(listIds)
         && r.error == if ListDataError(workers, parallel).Some? then ListDataError(workers, parallel).value else IndexError)
      ensures old(Len()).Ok? && r.Ok? ==> |r.value| == Max(old(Len()).value, 0)
      ensures r.Ok? ==> forall i :: 0 <= i < |r.value| ==> r.value[i] == ServedBatch(old(listIds), i, batchSize, target, scalerTarget)
      ensures r.Ok? ==> listIds == if |r.value| == 0 then old(listIds) else if shuffle then order else Range(|fnList|)
      ensures fnList == old(fnList) && target == old(target) && batchSize == old(batchSize) && shuffle == old(shuffle)
      ensures workers == old(workers) && parallel == old(parallel)
      ensures scalerTarget == old(scalerTarget) && Valid()
    {
      var len := Len();
      if len.Err? {
        return Err(len.error);
      }
      var batches: seq<Batch> := [];
      var i := 0;
      ghost var ids := listIds;
      while i < len.value
        invariant 0 <= i <= Max(len.value, 0) && |batches| == i
        invariant fnList == old(fnList) && target == old(target) && batchSize == old(batchSize) && shuffle == old(shuffle)
        invariant scalerTarget == old(scalerTarget) && Valid()
        invariant workers == old(workers) && parallel == old(parallel)
        invariant i > 0 ==> ListDataError(workers, parallel).None?
        invariant ServedInOrder(ids, batchSize, target, scalerTarget, batches)
        invariant listIds == if i == 0 || i < len.value then ids else if shuffle then order else Range(|fnList|)
      {
        var b := GetItem(i);
        if b.Err? {
          return Err(b.error);
        }
        ServedInOrderSnoc(ids, batchSize, target, scalerTarget, batches, b.value);
        batches := batches + [b.value];
        if i == len.value - 1 {
          OnEpochEnd(order);
        }
        i := i + 1;
      }
      r := Ok(batches);
    }
  }
}
