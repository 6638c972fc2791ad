/**
 * The offline validation script (UjiCobaModel.py): for each asset, replay
 * one-step predictions over a fixed date range against realised closes,
 * compute the error metrics, and record one entry per asset that produced
 * predictions. An asset that fails in any way is skipped and leaves no entry.
 */
module Validation {
  import opened Wrappers
  import opened Sequences
  import opened RealMath
  import opened Indicators
  import opened Scaling

  /** 2026-01-01 and 2026-01-21 as day numbers (days since 1970-01-01). */
  const TestStart: int := 20454
  const TestEnd: int := 20474

  const Coins: seq<string> := ["BTC-USD", "ETH-USD", "DOGE-USD", "SHIB-USD", "FLOKI-USD"]

  /** The trained network: a scaled 60 x 6 window in, its output row out. */
  type Predictor = seq<seq<real>> -> seq<real>

  /** The three lists the date loop appends to. */
  datatype Track = Track(dates: seq<int>, actual: seq<real>, predicted: seq<real>)

  /* ---------- test dates and the date loop ---------- */

  /** Positions of the rows dated in `[start, end]`, both ends included, in index order. */
  function TestIndices(table: seq<FeatureRow>, start: int, end: int): (idx: seq<nat>)
    ensures forall k :: 0 <= k < |idx| ==> idx[k] < |table| && start <= table[idx[k]].bar.date <= end
    ensures forall k, l :: 0 <= k < l < |idx| ==> idx[k] < idx[l]
    ensures forall i :: 0 <= i < |table| && start <= table[i].bar.date <= end ==> i in idx
  {
    Kept(table, (r: FeatureRow) => if start <= r.bar.date <= end then Some(r) else None)
  }

  /** The test positions that have a full window before them; the others are skipped. */
  function Evaluated(idx: seq<nat>): (e: seq<nat>)
    ensures forall k :: 0 <= k < |e| ==> Lookback <= e[k] && e[k] in idx
  {
    if idx == [] then []
    else Evaluated(idx[..|idx| - 1]) + (if idx[|idx| - 1] >= Lookback then [idx[|idx| - 1]] else [])
  }

  /** The evaluated positions are exactly the test positions from row 60 on. */
  lemma {:induction false} EvaluatedMembers(idx: seq<nat>)
    ensures forall i :: i in Evaluated(idx) <==> i in idx && Lookback <= i
    decreases |idx|
  {
    if idx != [] {
      var init := idx[..|idx| - 1];
      EvaluatedMembers(init);
      assert idx == init + [idx[|idx| - 1]];
    }
  }

  /** A price carried forward by a log return: `price * exp(r)`. */
  function Compounded(price: real, r: real, exp: real -> real): real {
    price * exp(r)
  }

  /** The rows `[i - 60, i)`, scaled, and what the model makes of them. */
  function OutputAt(table: seq<FeatureRow>, i: nat, sc: Scaler, predict: Predictor): seq<real>
    requires Fitted(sc) && Lookback <= i <= |table|
  {
    predict(TransformRows(sc, Vectors(table[i - Lookback..i])))
  }

  /**
   * The date loop over test positions `idx`: a position before row 60 is
   * skipped; otherwise the first model output is decoded to a log return and
   * compounded off the real close of the day before. An empty model output
   * raises, which ends the loop.
   */
  function Backtest(table: seq<FeatureRow>, idx: seq<nat>, sc: Scaler, predict: Predictor,
                    exp: real -> real): (r: Result<Track, PipelineError>)
    requires Fitted(sc)
    requires forall k :: 0 <= k < |idx| ==> idx[k] < |table|
    ensures r.Err? ==> r.error == ShapeMismatch
    ensures r.Ok? ==> |r.value.dates| == |r.value.actual| == |r.value.predicted|
  {
    if idx == [] then Ok(Track([], [], []))
    else
      var init := idx[..|idx| - 1];
      match Backtest(table, init, sc, predict, exp)
      case Err(e) => Err(e)
      case Ok(track) =>
        var i := idx[|idx| - 1];
        if i < Lookback then Ok(track)
        else
          var out := OutputAt(table, i, sc, predict);
          if |out| == 0 then Err(ShapeMismatch)
          else
            var predicted := Compounded(table[i - 1].bar.close, DecodeFirst(sc, out[0]), exp);
            Ok(Track(track.dates + [table[i].bar.date], track.actual + [table[i].bar.close],
                     track.predicted + [predicted]))
  }

  /** Every evaluated position is a row of the table. */
  lemma {:induction false} EvaluatedBounded(idx: seq<nat>, n: nat)
    requires forall k :: 0 <= k < |idx| ==> idx[k] < n
    ensures forall k :: 0 <= k < |Evaluated(idx)| ==> Evaluated(idx)[k] < n
    decreases |idx|
  {
    if idx != [] {
      EvaluatedBounded(idx[..|idx| - 1], n);
    }
  }

  /** The model gives a non-empty output for every position in `e`. */
  predicate AllAnswered(table: seq<FeatureRow>, e: seq<nat>, sc: Scaler, predict: Predictor)
    requires Fitted(sc)
    requires forall k :: 0 <= k < |e| ==> Lookback <= e[k] < |table|
  {
    forall k :: 0 <= k < |e| ==> |OutputAt(table, e[k], sc, predict)| > 0
  }

  /** The date loop finishes exactly when the model answers every evaluated date. */
  lemma {:induction false} BacktestSucceeds(table: seq<FeatureRow>, idx: seq<nat>, sc: Scaler,
                                            predict: Predictor, exp: real -> real)
    requires Fitted(sc)
    requires forall k :: 0 <= k < |idx| ==> idx[k] < |table|
    ensures forall k :: 0 <= k < |Evaluated(idx)| ==> Evaluated(idx)[k] < |table|
    ensures Backtest(table, idx, sc, predict, exp).Ok? <==> AllAnswered(table, Evaluated(idx), sc, predict)
    decreases |idx|
  {
    EvaluatedBounded(idx, |table|);
    if idx != [] {
      var init := idx[..|idx| - 1];
      BacktestSucceeds(table, init, sc, predict, exp);
      var i, ei := idx[|idx| - 1], Evaluated(init);
      var e := Evaluated(idx);
      assert e == ei + (if i >= Lookback then [i] else []);
      assert forall k :: 0 <= k < |ei| ==> e[k] == ei[k];
      if Backtest(table, init, sc, predict, exp).Err? {
        assert !AllAnswered(table, ei, sc, predict);
        var k :| 0 <= k < |ei| && !(|OutputAt(table, ei[k], sc, predict)| > 0);
        assert e[k] == ei[k];
      } else if i >= Lookback {
        assert AllAnswered(table, ei, sc, predict);
        assert e[|ei|] == i;
        if |OutputAt(table, i, sc, predict)| > 0 {
          forall k | 0 <= k < |e| ensures |OutputAt(table, e[k], sc, predict)| > 0 {
            if k < |ei| {
              assert e[k] == ei[k];
            }
          }
        }
      } else {
        assert e == ei;
      }
    }
  }

  /** Entry `k` of the track belongs to the evaluated position `e[k]`. */
  predicate EntryAt(table: seq<FeatureRow>, tr: Track, e: seq<nat>, k: nat, sc: Scaler, predict: Predictor,
                    exp: real -> real)
    requires Fitted(sc)
    requires k < |e| && Lookback <= e[k] < |table|
    requires k < |tr.dates| && k < |tr.actual| && k < |tr.predicted|
  {
    var out := OutputAt(table, e[k], sc, predict);
    && |out| > 0
    && tr.dates[k] == table[e[k]].bar.date
    && tr.actual[k] == table[e[k]].bar.close
    && tr.predicted[k] == Compounded(table[e[k] - 1].bar.close, DecodeFirst(sc, out[0]), exp)
  }

  /**
   * What the date loop produces: one entry per evaluated date, in lockstep;
   * the actual price is that date's close, the prediction compounds the decoded
   * output off the previous day's real close, never off an earlier prediction.
   */
  lemma {:induction false} BacktestEntries(table: seq<FeatureRow>, idx: seq<nat>, sc: Scaler,
                                           predict: Predictor, exp: real -> real)
    requires Fitted(sc)
    requires forall k :: 0 <= k < |idx| ==> idx[k] < |table|
    requires Backtest(table, idx, sc, predict, exp).Ok?
    ensures forall k :: 0 <= k < |Evaluated(idx)| ==> Evaluated(idx)[k] < |table|
    ensures var tr, e := Backtest(table, idx, sc, predict, exp).value, Evaluated(idx);
      && |tr.dates| == |e|
      && forall k :: 0 <= k < |e| ==> EntryAt(table, tr, e, k, sc, predict, exp)
    decreases |idx|
  {
    EvaluatedBounded(idx, |table|);
    if idx != [] {
      var init := idx[..|idx| - 1];
      var i, ei := idx[|idx| - 1], Evaluated(init);
      assert Backtest(table, init, sc, predict, exp).Ok?;
      BacktestEntries(table, init, sc, predict, exp);
      var tr0 := Backtest(table, init, sc, predict, exp).value;
      var tr, e := Backtest(table, idx, sc, predict, exp).value, Evaluated(idx);
      if i < Lookback {
        assert tr == tr0 && e == ei;
      } else {
        assert e == ei + [i];
        forall k | 0 <= k < |e| ensures EntryAt(table, tr, e, k, sc, predict, exp) {
          if k < |ei| {
            assert EntryAt(table, tr0, ei, k, sc, predict, exp);
            assert e[k] == ei[k];
          }
        }
      }
    }
  }

  /** One step of the date loop, in terms of the prefix already processed. */
  lemma BacktestStep(table: seq<FeatureRow>, idx: seq<nat>, j: nat, sc: Scaler, predict: Predictor,
                     exp: real -> real, track: Track)
    requires Fitted(sc) && j < |idx|
    requires forall k :: 0 <= k < |idx| ==> idx[k] < |table|
    requires Backtest(table, idx[..j], sc, predict, exp) == Ok(track)
    ensures idx[j] < Lookback ==> Backtest(table, idx[..j + 1], sc, predict, exp) == Ok(track)
    ensures Lookback <= idx[j] && |OutputAt(table, idx[j], sc, predict)| == 0 ==>
      Backtest(table, idx[..j + 1], sc, predict, exp) == Err(ShapeMismatch)
    ensures Lookback <= idx[j] && |OutputAt(table, idx[j], sc, predict)| > 0 ==>
      var i := idx[j];
      Backtest(table, idx[..j + 1], sc, predict, exp) ==
        Ok(Track(track.dates + [table[i].bar.date], track.actual + [table[i].bar.close],
                 track.predicted + [Compounded(table[i - 1].bar.close, DecodeFirst(sc, OutputAt(table, i, sc, predict)[0]), exp)]))
  {
    assert idx[..j + 1][..j] == idx[..j];
  }

  /** Once the loop has raised, later dates cannot undo it. */
  lemma {:induction false} BacktestErrorPersists(table: seq<FeatureRow>, idx: seq<nat>, j: nat, sc: Scaler,
                                                 predict: Predictor, exp: real -> real)
    requires Fitted(sc) && j <= |idx|
    requires forall k :: 0 <= k < |idx| ==> idx[k] < |table|
    requires Backtest(table, idx[..j], sc, predict, exp).Err?
    ensures Backtest(table, idx, sc, predict, exp) == Err(ShapeMismatch)
    decreases |idx| - j
  {
    if j < |idx| {
      assert idx[..j + 1][..j] == idx[..j];
      BacktestErrorPersists(table, idx, j + 1, sc, predict, exp);
    } else {
      assert idx[..j] == idx;
    }
  }

  /** The per-date loop: skip early dates, slice the window, predict, append to the three lists. */
  method WalkForward(table: seq<FeatureRow>, testIdx: seq<nat>, sc: Scaler, predict: Predictor,
                     exp: real -> real) returns (r: Result<Track, PipelineError>)
    requires Fitted(sc)
    requires forall k :: 0 <= k < |testIdx| ==> testIdx[k] < |table|
    ensures r == Backtest(table, testIdx, sc, predict, exp)
  {
    var dates: seq<int> := [];
    var actualPrices: seq<real> := [];
    var predictedPrices: seq<real> := [];
    var j := 0;
    while j < |testIdx|
      invariant 0 <= j <= |testIdx|
      invariant Backtest(table, testIdx[..j], sc, predict, exp) == Ok(Track(dates, actualPrices, predictedPrices))
    {
      BacktestStep(table, testIdx, j, sc, predict, exp, Track(dates, actualPrices, predictedPrices));
      var idx := testIdx[j];
      if idx >= Lookback {
        var inputWindow := table[idx - Lookback..idx];
        var inputScaled := TransformRows(sc, Vectors(inputWindow));
        var output := predict(inputScaled);
        assert output == OutputAt(table, idx, sc, predict);
        if |output| == 0 {
          BacktestErrorPersists(table, testIdx, j + 1, sc, predict, exp);
          return Err(ShapeMismatch);
        }
        var predLogRet := DecodeFirst(sc, output[0]);
        var lastClose := inputWindow[Lookback - 1].bar.close;
        var predPrice := Compounded(lastClose, predLogRet, exp);
        var actualPrice := table[idx].bar.close;
        dates := dates + [table[idx].bar.date];
        actualPrices := actualPrices + [actualPrice];
        predictedPrices := predictedPrices + [predPrice];
      }
      j := j + 1;
    }
    assert testIdx[..j] == testIdx;
    r := Ok(Track(dates, actualPrices, predictedPrices));
  }

  /* ---------- error metrics ---------- */

  /** `np.finfo(np.float64).eps`, the floor scikit-learn puts under `|actual|` in MAPE. */
  const Epsilon: real := 1.0 / 4503599627370496.0

  function SquaredErrors(a: seq<real>, p: seq<real>): (e: seq<real>)
    requires |a| == |p|
    ensures |e| == |a| && forall i :: 0 <= i < |a| ==> e[i] == Product(a[i] - p[i], a[i] - p[i])
  {
    seq(|a|, i requires 0 <= i < |a| => Product(a[i] - p[i], a[i] - p[i]))
  }

  function AbsoluteErrors(a: seq<real>, p: seq<real>): (e: seq<real>)
    requires |a| == |p|
    ensures |e| == |a| && forall i :: 0 <= i < |a| ==> e[i] == Abs(a[i] - p[i])
  {
    seq(|a|, i requires 0 <= i < |a| => Abs(a[i] - p[i]))
  }

  /** `|actual - predicted| / max(|actual|, eps)`, per entry. */
  function RelativeError(a: real, p: real): (e: real)
    ensures e >= 0.0 && (e == 0.0 <==> a == p)
  {
    Abs(a - p) / Max(Abs(a), Epsilon)
  }

  function RelativeErrors(a: seq<real>, p: seq<real>): (e: seq<real>)
    requires |a| == |p|
    ensures |e| == |a| && forall i :: 0 <= i < |a| ==> e[i] == RelativeError(a[i], p[i])
  {
    seq(|a|, i requires 0 <= i < |a| => RelativeError(a[i], p[i]))
  }

  /** A product kept whole, so that the sign facts below apply to it as one term. */
  function Product(a: real, b: real): real { a * b }

  lemma SameSignProduct(a: real, b: real)
    requires (a > 0.0 && b > 0.0) || (a < 0.0 && b < 0.0)
    ensures Product(a, b) > 0.0
  {
  }

  /** A square is never negative, and zero only for zero. */
  lemma SquareFacts(x: real)
    ensures Product(x, x) >= 0.0 && (Product(x, x) == 0.0 <==> x == 0.0)
  {
    if x != 0.0 {
      SameSignProduct(x, x);
    }
  }

  /** `mean_squared_error`: never negative, zero exactly for perfect predictions. */
  function Mse(a: seq<real>, p: seq<real>): (r: real)
    requires |a| == |p| > 0
    ensures r >= 0.0 && (r == 0.0 <==> a == p)
  {
    var e := SquaredErrors(a, p);
    forall i | 0 <= i < |a| ensures e[i] >= 0.0 && (e[i] == 0.0 <==> a[i] == p[i]) {
      SquareFacts(a[i] - p[i]);
    }
    MeanNonNegative(e);
    assert (forall i :: 0 <= i < |a| ==> e[i] == 0.0) <==> (forall i :: 0 <= i < |a| ==> a[i] == p[i]);
    Mean(e)
  }

  /** `mean_absolute_error`: never negative, zero exactly for perfect predictions. */
  function Mae(a: seq<real>, p: seq<real>): (r: real)
    requires |a| == |p| > 0
    ensures r >= 0.0 && (r == 0.0 <==> a == p)
  {
    var e := AbsoluteErrors(a, p);
    MeanNonNegative(e);
    assert forall i :: 0 <= i < |a| ==> (e[i] == 0.0 <==> a[i] == p[i]);
    assert (forall i :: 0 <= i < |a| ==> e[i] == 0.0) <==> (forall i :: 0 <= i < |a| ==> a[i] == p[i]);
    Mean(e)
  }

  /** `mean_absolute_percentage_error`, as a fraction: never negative, zero exactly for perfect predictions. */
  function Mape(a: seq<real>, p: seq<real>): (r: real)
    requires |a| == |p| > 0
    ensures r >= 0.0 && (r == 0.0 <==> a == p)
  {
    var e := RelativeErrors(a, p);
    MeanNonNegative(e);
    assert (forall i :: 0 <= i < |a| ==> e[i] == 0.0) <==> (forall i :: 0 <= i < |a| ==> a[i] == p[i]);
    Mean(e)
  }

  function Rmse(a: seq<real>, p: seq<real>, sqrt: real -> real): real
    requires |a| == |p| > 0
  {
    sqrt(Mse(a, p))
  }

  /** RMSE is the non-negative root of MSE. */
  lemma RmseIsRootOfMse(a: seq<real>, p: seq<real>, sqrt: real -> real)
    requires |a| == |p| > 0 && SqrtLaws(sqrt)
    ensures Rmse(a, p, sqrt) >= 0.0
    ensures Rmse(a, p, sqrt) * Rmse(a, p, sqrt) == Mse(a, p)
  {
    assert SqrtAt(sqrt, Mse(a, p));
  }

  /** `100 * (1 - mape)`: at most 100, and exactly 100 for perfect predictions. */
  function Accuracy(mape: real): (r: real)
    ensures mape >= 0.0 ==> r <= 100.0
    ensures r == 100.0 <==> mape == 0.0
  {
    100.0 * (1.0 - mape)
  }

  /** Three actual closes against three predictions: MAPE is 389/5940 (about 6.55%), accuracy about 93.45%. */
  lemma MapeExample()
    ensures Mape([100.0, 110.0, 90.0], [105.0, 100.0, 95.0]) == 389.0 / 5940.0
    ensures Accuracy(389.0 / 5940.0) == 555100.0 / 5940.0
  {
    var a, p := [100.0, 110.0, 90.0], [105.0, 100.0, 95.0];
    var e := RelativeErrors(a, p);
    assert e[0] == 5.0 / 100.0 && e[1] == 10.0 / 110.0 && e[2] == 5.0 / 90.0;
    assert e == [5.0 / 100.0, 10.0 / 110.0, 5.0 / 90.0];
    assert e[..2] == [e[0], e[1]] && e[..2][..1] == [e[0]] && [e[0]][..0] == [];
    assert Sum([e[0]]) == e[0];
    assert Sum(e[..2]) == e[0] + e[1];
    assert Sum(e) == 5.0 / 100.0 + 10.0 / 110.0 + 5.0 / 90.0;
  }

  /* ---------- per-asset isolation and the metrics map ---------- */

  /** What `metrics.json` holds per asset: RMSE rounded to 8 decimals and MAPE in percent rounded to 2. */
  datatype MetricsEntry = MetricsEntry(rmse: real, mape: real)

  /** One asset's inputs: its model and scaler files (None when missing or unreadable) and its download. */
  datatype TickerInput = TickerInput(ticker: string, model: Option<Predictor>, scaler: Option<Scaler>,
                                     download: Frame)

  /** A download is a well-formed frame, and a scaler that loads is a fitted one. */
  predicate Loadable(t: TickerInput) {
    WellShaped(t.download) && (t.scaler.Some? ==> Fitted(t.scaler.value))
  }

  /** The metrics of a finished date loop; nothing when no date was evaluated. */
  function TrackEntry(track: Track, m: Transcendentals): (r: Option<MetricsEntry>)
    requires |track.actual| == |track.predicted|
    ensures r.Some? <==> |track.actual| > 0
  {
    if |track.actual| == 0 then None
    else
      var rmse := Rmse(track.actual, track.predicted, m.sqrt);
      var mape := Mape(track.actual, track.predicted);
      Some(MetricsEntry(m.round(rmse, 8), m.round(mape * 100.0, 2)))
  }

  /** The metrics of one feature table: test dates, date loop, metrics. */
  function TableEntry(table: seq<FeatureRow>, sc: Scaler, predict: Predictor, m: Transcendentals): Option<MetricsEntry>
    requires Fitted(sc)
  {
    var idx := TestIndices(table, TestStart, TestEnd);
    if |idx| == 0 then None
    else
      match Backtest(table, idx, sc, predict, m.exp)
      case Err(_) => None
      case Ok(track) => TrackEntry(track, m)
  }

  /**
   * The entry an asset contributes, or None when it is skipped: no model, no
   * scaler, a failed download, no test dates, a failed prediction, or no
   * evaluated date.
   */
  function TickerEntry(t: TickerInput, m: Transcendentals): Option<MetricsEntry>
    requires Loadable(t)
  {
    if t.model.None? || t.scaler.None? then None
    else
      match DownloadFeatures(t.download, m.ln)
      case Err(_) => None
      case Ok(table) => TableEntry(table, t.scaler.value, t.model.value, m)
  }

  /** A table yields metrics exactly when some test date has a full window and the model answers every such date. */
  lemma TableEntryWhen(table: seq<FeatureRow>, sc: Scaler, predict: Predictor, m: Transcendentals)
    requires Fitted(sc)
    ensures var e := Evaluated(TestIndices(table, TestStart, TestEnd));
      && (forall k :: 0 <= k < |e| ==> e[k] < |table|)
      && (TableEntry(table, sc, predict, m).Some? <==> |e| > 0 && AllAnswered(table, e, sc, predict))
  {
    var idx := TestIndices(table, TestStart, TestEnd);
    BacktestSucceeds(table, idx, sc, predict, m.exp);
    if Backtest(table, idx, sc, predict, m.exp).Ok? {
      BacktestEntries(table, idx, sc, predict, m.exp);
    }
    if |idx| == 0 {
      assert idx == [];
    }
  }

  /** An asset is recorded exactly when it has a model, a scaler and data, and its table yields metrics. */
  lemma TickerEntryWhen(t: TickerInput, m: Transcendentals)
    requires Loadable(t)
    ensures TickerEntry(t, m).Some? <==>
      && t.model.Some? && t.scaler.Some?
      && DownloadFeatures(t.download, m.ln).Ok?
      && TableEntry(DownloadFeatures(t.download, m.ln).value, t.scaler.value, t.model.value, m).Some?
  {
  }

  /** Storing one asset's entry, if it has one, under its ticker. */
  function Record(metrics: map<string, MetricsEntry>, ticker: string, entry: Option<MetricsEntry>): map<string, MetricsEntry>
  {
    match entry
    case Some(e) => metrics[ticker := e]
    case None => metrics
  }

  /** The metrics map after storing `entries[i]` under `tickers[i]`, in order. */
  function RecordEach(metrics: map<string, MetricsEntry>, tickers: seq<string>, entries: seq<Option<MetricsEntry>>): map<string, MetricsEntry>
    requires |tickers| == |entries|
  {
    if tickers == [] then metrics
    else
      var n := |tickers| - 1;
      Record(RecordEach(metrics, tickers[..n], entries[..n]), tickers[n], entries[n])
  }

  function Tickers(ts: seq<TickerInput>): (r: seq<string>)
    ensures |r| == |ts| && forall i :: 0 <= i < |ts| ==> r[i] == ts[i].ticker
  {
    seq(|ts|, i requires 0 <= i < |ts| => ts[i].ticker)
  }

  function Entries(ts: seq<TickerInput>, m: Transcendentals): (r: seq<Option<MetricsEntry>>)
    requires forall i :: 0 <= i < |ts| ==> Loadable(ts[i])
    ensures |r| == |ts| && forall i :: 0 <= i < |ts| ==> r[i] == TickerEntry(ts[i], m)
  {
    seq(|ts|, i requires 0 <= i < |ts| => TickerEntry(ts[i], m))
  }

  /** The metrics map after the asset loop over `ts`. */
  function RecordAll(metrics: map<string, MetricsEntry>, ts: seq<TickerInput>, m: Transcendentals): map<string, MetricsEntry>
    requires forall i :: 0 <= i < |ts| ==> Loadable(ts[i])
  {
    RecordEach(metrics, Tickers(ts), Entries(ts, m))
  }

  lemma TickersPrefix(ts: seq<TickerInput>, i: nat)
    requires i < |ts|
    ensures Tickers(ts[..i + 1])[..i] == Tickers(ts[..i])
    ensures Tickers(ts[..i + 1])[i] == ts[i].ticker
  {
    var a, b := Tickers(ts[..i + 1])[..i], Tickers(ts[..i]);
    forall k | 0 <= k < i ensures a[k] == b[k] {
      assert ts[..i + 1][k] == ts[..i][k];
    }
  }

  lemma EntriesPrefix(ts: seq<TickerInput>, i: nat, m: Transcendentals)
    requires forall k :: 0 <= k < |ts| ==> Loadable(ts[k])
    requires i < |ts|
    ensures Entries(ts[..i + 1], m)[..i] == Entries(ts[..i], m)
    ensures Entries(ts[..i + 1], m)[i] == TickerEntry(ts[i], m)
  {
    var a, b := Entries(ts[..i + 1], m)[..i], Entries(ts[..i], m);
    forall k | 0 <= k < i ensures a[k] == b[k] {
      assert ts[..i + 1][k] == ts[..i][k];
    }
  }

  /** Storing one more asset extends the fold by one step. */
  lemma RecordAllStep(metrics: map<string, MetricsEntry>, ts: seq<TickerInput>, i: nat, m: Transcendentals)
    requires forall k :: 0 <= k < |ts| ==> Loadable(ts[k])
    requires i < |ts|
    ensures RecordAll(metrics, ts[..i + 1], m) ==
      Record(RecordAll(metrics, ts[..i], m), ts[i].ticker, TickerEntry(ts[i], m))
  {
    var tk, es := Tickers(ts[..i + 1]), Entries(ts[..i + 1], m);
    TickersPrefix(ts, i);
    EntriesPrefix(ts, i, m);
    assert RecordEach(metrics, tk, es) == Record(RecordEach(metrics, tk[..i], es[..i]), tk[i], es[i]);
  }

  predicate DistinctTickers(ts: seq<TickerInput>) {
    forall i, j :: 0 <= i < j < |ts| ==> ts[i].ticker != ts[j].ticker
  }

  /** With distinct tickers, each ticker's slot holds exactly its own entry. */
  lemma {:induction false} RecordEachIsolation(tickers: seq<string>, entries: seq<Option<MetricsEntry>>)
    requires |tickers| == |entries|
    requires forall i, j :: 0 <= i < j < |tickers| ==> tickers[i] != tickers[j]
    ensures var metrics := RecordEach(map[], tickers, entries);
      forall i :: 0 <= i < |tickers| ==>
        && (tickers[i] in metrics <==> entries[i].Some?)
        && (tickers[i] in metrics ==> metrics[tickers[i]] == entries[i].value)
    decreases |tickers|
  {
    if tickers != [] {
      var n := |tickers| - 1;
      var tk, es := tickers[..n], entries[..n];
      RecordEachIsolation(tk, es);
      var before := RecordEach(map[], tk, es);
      var after := RecordEach(map[], tickers, entries);
      assert after == Record(before, tickers[n], entries[n]);
      forall i | 0 <= i < |tickers|
        ensures tickers[i] in after <==> entries[i].Some?
        ensures tickers[i] in after ==> after[tickers[i]] == entries[i].value
      {
        if i < n {
          assert tk[i] == tickers[i] && es[i] == entries[i] && tickers[i] != tickers[n];
          assert tk[i] in before <==> es[i].Some?;
        } else {
          RecordEachKeys(map[], tk, es);
          assert tickers[n] !in tk;
        }
      }
    }
  }

  /** Only stored tickers are keys. */
  lemma {:induction false} RecordEachKeys(metrics: map<string, MetricsEntry>, tickers: seq<string>,
                                          entries: seq<Option<MetricsEntry>>)
    requires |tickers| == |entries|
    ensures forall key :: key in RecordEach(metrics, tickers, entries) ==> key in metrics || key in tickers
    decreases |tickers|
  {
    if tickers != [] {
      var n := |tickers| - 1;
      RecordEachKeys(metrics, tickers[..n], entries[..n]);
      assert forall key :: key in tickers[..n] ==> key in tickers;
    }
  }

  /**
   * Per-asset isolation: starting from an empty map, an asset has an entry
   * exactly when its own evaluation succeeded, whatever happened to the others,
   * the entry is its own, and nothing else is recorded.
   */
  lemma RecordAllIsolation(ts: seq<TickerInput>, m: Transcendentals)
    requires forall i :: 0 <= i < |ts| ==> Loadable(ts[i])
    requires DistinctTickers(ts)
    ensures var metrics := RecordAll(map[], ts, m);
      && (forall i :: 0 <= i < |ts| ==>
            && (ts[i].ticker in metrics <==> TickerEntry(ts[i], m).Some?)
            && (ts[i].ticker in metrics ==> metrics[ts[i].ticker] == TickerEntry(ts[i], m).value))
      && (forall key :: key in metrics ==> exists i :: 0 <= i < |ts| && ts[i].ticker == key)
  {
    var tk, es := Tickers(ts), Entries(ts, m);
    RecordEachIsolation(tk, es);
    RecordEachKeys(map[], tk, es);
    forall key | key in RecordAll(map[], ts, m)
      ensures exists i :: 0 <= i < |ts| && ts[i].ticker == key
    {
      var i :| 0 <= i < |tk| && tk[i] == key;
      assert ts[i].ticker == key;
    }
  }

  /** The validation run's state: the global `metrics_dict`. */
  class Harness {
    var metrics: map<string, MetricsEntry>

    constructor()
      ensures metrics == map[]
    {
      metrics := map[];
    }

    /** One iteration of the asset loop; every failure leaves `metrics` as it was. */
    method EvaluateTicker(t: TickerInput, m: Transcendentals)
      requires Loadable(t)
      modifies this
      ensures metrics == Record(old(metrics), t.ticker, TickerEntry(t, m))
    {
      if t.model.None? || t.scaler.None? {
        assert TickerEntry(t, m).None?;
        return;
      }
      var model, scaler := t.model.value, t.scaler.value;
      var data := DownloadFeatures(t.download, m.ln);
      if data.Err? {
        assert TickerEntry(t, m).None?;
        return;
      }
      var table := data.value;
      assert TickerEntry(t, m) == TableEntry(table, scaler, model, m);
      var testIdx := TestIndices(table, TestStart, TestEnd);
      if |testIdx| == 0 {
        assert TableEntry(table, scaler, model, m).None?;
        return;
      }
      var track := WalkForward(table, testIdx, scaler, model, m.exp);
      if track.Err? {
        assert TableEntry(table, scaler, model, m).None?;
        return;
      }
      var tr := track.value;
      assert TableEntry(table, scaler, model, m) == TrackEntry(tr, m);
      var entry := TrackEntry(tr, m);
      if entry.Some? {
        metrics := metrics[t.ticker := entry.value];
      }
    }

    /** The loop over assets: every asset is tried, in order. */
    method Run(ts: seq<TickerInput>, m: Transcendentals)
      requires forall i :: 0 <= i < |ts| ==> Loadable(ts[i])
      modifies this
      ensures metrics == RecordAll(old(metrics), ts, m)
    {
      var i := 0;
      while i < |ts|
        invariant 0 <= i <= |ts|
        invariant metrics == RecordAll(old(metrics), ts[..i], m)
      {
        RecordAllStep(old(metrics), ts, i, m);
        EvaluateTicker(ts[i], m);
        i := i + 1;
      }
      assert ts[..i] == ts;
    }
  }
}
