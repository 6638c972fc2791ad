/**
 * The model's input protocol: a feature row as a six-wide vector in a fixed
 * column order, the fitted min-max scaler, and the trailing 60-row window.
 */
module Scaling {
  import opened Wrappers
  import opened Indicators

  const NumFeatures: nat := 6
  const Lookback: nat := 60

  /** `[Log_Ret, RSI, MACD, MACD_Signal, ATR, Volume]`, the order the scaler was fitted on. */
  function FeatureVector(r: FeatureRow): (v: seq<real>)
    ensures |v| == NumFeatures
    ensures v[0] == r.logRet && v[5] == r.bar.volume
  {
    [r.logRet, r.rsi, r.macd, r.macdSignal, r.atr, r.bar.volume]
  }

  /** scikit-learn's `MinMaxScaler`: `scale_` and `min_`, one entry per feature. */
  datatype Scaler = Scaler(scale: seq<real>, min: seq<real>)

  /** A fitted scaler is six wide and never has a zero scale (zero ranges are fitted with scale 1). */
  predicate Fitted(sc: Scaler) {
    && |sc.scale| == NumFeatures && |sc.min| == NumFeatures
    && forall j :: 0 <= j < NumFeatures ==> sc.scale[j] != 0.0
  }

  /** `transform`: `x * scale_ + min_`, column by column. */
  function Transform(sc: Scaler, v: seq<real>): (s: seq<real>)
    requires Fitted(sc) && |v| == NumFeatures
    ensures |s| == NumFeatures
  {
    seq(NumFeatures, j requires 0 <= j < NumFeatures => v[j] * sc.scale[j] + sc.min[j])
  }

  /** `inverse_transform`: `(s - min_) / scale_`, column by column. */
  function InverseTransform(sc: Scaler, s: seq<real>): (v: seq<real>)
    requires Fitted(sc) && |s| == NumFeatures
    ensures |v| == NumFeatures
  {
    seq(NumFeatures, j requires 0 <= j < NumFeatures => (s[j] - sc.min[j]) / sc.scale[j])
  }

  /** Column 0 of `inverse_transform`: a scaled log return back in log-return units. */
  function DecodeFirst(sc: Scaler, s: real): real
    requires Fitted(sc)
  {
    (s - sc.min[0]) / sc.scale[0]
  }

  /** Decoding inverts the scaling in both directions, in every column. */
  lemma ScalingRoundTrip(sc: Scaler, v: seq<real>)
    requires Fitted(sc) && |v| == NumFeatures
    ensures InverseTransform(sc, Transform(sc, v)) == v
    ensures Transform(sc, InverseTransform(sc, v)) == v
  {
    var s := Transform(sc, v);
    forall j | 0 <= j < NumFeatures ensures InverseTransform(sc, s)[j] == v[j] {
      assert (v[j] * sc.scale[j] + sc.min[j] - sc.min[j]) / sc.scale[j] == v[j];
    }
    var u := InverseTransform(sc, v);
    forall j | 0 <= j < NumFeatures ensures Transform(sc, u)[j] == v[j] {
      assert (v[j] - sc.min[j]) / sc.scale[j] * sc.scale[j] == v[j] - sc.min[j];
    }
  }

  /** Column 0 of the inverse depends on column 0 alone, and it undoes the forward map. */
  lemma DecodeFirstIsColumnZero(sc: Scaler, s: seq<real>, v: seq<real>)
    requires Fitted(sc) && |s| == NumFeatures && |v| == NumFeatures
    ensures InverseTransform(sc, s)[0] == DecodeFirst(sc, s[0])
    ensures DecodeFirst(sc, Transform(sc, v)[0]) == v[0]
  {
    ScalingRoundTrip(sc, v);
    assert InverseTransform(sc, Transform(sc, v))[0] == v[0];
  }

  function TransformRows(sc: Scaler, rows: seq<seq<real>>): (r: seq<seq<real>>)
    requires Fitted(sc)
    requires forall k :: 0 <= k < |rows| ==> |rows[k]| == NumFeatures
    ensures |r| == |rows| && forall k :: 0 <= k < |rows| ==> r[k] == Transform(sc, rows[k])
  {
    seq(|rows|, k requires 0 <= k < |rows| => Transform(sc, rows[k]))
  }

  function Vectors(table: seq<FeatureRow>): (m: seq<seq<real>>)
    ensures |m| == |table|
    ensures forall k :: 0 <= k < |table| ==> m[k] == FeatureVector(table[k])
  {
    seq(|table|, k requires 0 <= k < |table| => FeatureVector(table[k]))
  }

  function Min(a: nat, b: nat): nat { if a < b then a else b }

  /** `values[-LOOKBACK:]`: the last `min(60, n)` rows, in order. */
  function Recent(table: seq<FeatureRow>): (m: seq<seq<real>>)
    ensures |m| == Min(Lookback, |table|)
    ensures forall k :: 0 <= k < |m| ==> m[k] == FeatureVector(table[|table| - |m| + k])
  {
    Vectors(table[|table| - Min(Lookback, |table|)..])
  }

  /** The window the live model sees: the reshape to `(1, 60, 6)` fails on fewer rows, and is never padded. */
  function LastWindow(table: seq<FeatureRow>): (r: Result<seq<seq<real>>, PipelineError>)
    ensures r.Err? <==> |table| < Lookback
    ensures r.Err? ==> r.error == InsufficientHistory
    ensures r.Ok? ==> |r.value| == Lookback
    ensures r.Ok? ==> forall k :: 0 <= k < Lookback ==> r.value[k] == FeatureVector(table[|table| - Lookback + k])
  {
    var recent := Recent(table);
    if |recent| != Lookback then Err(InsufficientHistory) else Ok(recent)
  }
}
