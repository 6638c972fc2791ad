/**
 * The indicator engine: daily bars in, six feature columns out, then `dropna`.
 *
 * Each pandas column is a sequence with one entry per bar; a missing value
 * (NaN) is `None`. The engine exists in two variants that differ only in how
 * the gain and loss series treat the missing first price change:
 * `Where` (`delta.where(...)`, in utils.py and pages/Prediction.py) turns it
 * into 0, `Clip` (`delta.clip(...)`, in UjiCobaModel.py) keeps it missing.
 */
module Indicators {
  import opened Wrappers
  import opened Sequences

  const RsiWindow: nat := 14
  const AtrWindow: nat := 14
  const FastSpan: nat := 12
  const SlowSpan: nat := 26
  const SignalSpan: nat := 9

  /** The columns utils.py checks for before computing features. */
  const RequiredColumns: seq<string> := ["Open", "High", "Low", "Close", "Volume"]

  /** One trading day; `date` is a day number. */
  datatype Bar = Bar(date: int, high: real, low: real, close: real, volume: real)

  /** A downloaded frame: a date index and named numeric columns. */
  datatype Frame = Frame(index: seq<int>, columns: map<string, seq<real>>)

  /** Exceptions the pipeline raises or reports, per asset; `MissingArtifact` is a model or scaler file that does not load. */
  datatype PipelineError = EmptyData | MissingColumn | InsufficientHistory | ShapeMismatch | MissingArtifact

  datatype GainRule = Where | Clip

  /** A row before `dropna`: log return, RSI and ATR may be missing; MACD and its signal never are. */
  datatype RawRow = RawRow(bar: Bar, logRet: Option<real>, rsi: Option<real>,
                           macd: real, macdSignal: real, atr: Option<real>)

  /** A row that survived `dropna`. */
  datatype FeatureRow = FeatureRow(bar: Bar, logRet: real, rsi: real,
                                   macd: real, macdSignal: real, atr: real)

  /* ---------- the frame ---------- */

  /** Every column of a DataFrame is as long as its index. */
  predicate WellShaped(f: Frame) {
    forall c :: c in f.columns ==> |f.columns[c]| == |f.index|
  }

  /** pandas' `DataFrame.empty`: no rows or no columns. */
  predicate IsEmpty(f: Frame) {
    |f.index| == 0 || |f.columns| == 0
  }

  predicate HasColumns(f: Frame, names: seq<string>) {
    forall i :: 0 <= i < |names| ==> names[i] in f.columns
  }

  predicate HasRequiredColumns(f: Frame) {
    HasColumns(f, RequiredColumns)
  }

  /** The columns the feature rows are read from; the opening price is never used. */
  predicate HasBarColumns(f: Frame) {
    "High" in f.columns && "Low" in f.columns && "Close" in f.columns && "Volume" in f.columns
  }

  /** Every column a bar is read from is among the columns utils.py requires. */
  lemma RequiredColumnsHoldBars(f: Frame)
    requires HasRequiredColumns(f)
    ensures HasBarColumns(f)
  {
    assert RequiredColumns[1] in f.columns && RequiredColumns[2] in f.columns
      && RequiredColumns[3] in f.columns && RequiredColumns[4] in f.columns;
  }

  function Bars(f: Frame): (bars: seq<Bar>)
    requires WellShaped(f) && HasBarColumns(f)
    ensures |bars| == |f.index|
    ensures forall t :: 0 <= t < |bars| ==>
      && bars[t].date == f.index[t] && bars[t].close == f.columns["Close"][t]
      && bars[t].high == f.columns["High"][t] && bars[t].low == f.columns["Low"][t]
      && bars[t].volume == f.columns["Volume"][t]
  {
    seq(|f.index|, t requires 0 <= t < |f.index| =>
      Bar(f.index[t], f.columns["High"][t], f.columns["Low"][t],
          f.columns["Close"][t], f.columns["Volume"][t]))
  }

  /* ---------- columns ---------- */

  function Closes(bars: seq<Bar>): (c: seq<real>)
    ensures |c| == |bars| && forall t :: 0 <= t < |bars| ==> c[t] == bars[t].close
  {
    seq(|bars|, t requires 0 <= t < |bars| => bars[t].close)
  }

  /** A price relative; kept as a function so that the solver treats the quotient as one term. */
  function Ratio(a: real, b: real): real
    requires b != 0.0
  {
    a / b
  }

  /** Whether `np.log(close[t] / close[t-1])` is a number: not at row 0, not after a zero close, not for a negative ratio. */
  predicate LogReturnDefined(c: seq<real>, t: nat)
    requires t < |c|
  {
    t > 0 && c[t - 1] != 0.0 && Ratio(c[t], c[t - 1]) >= 0.0
  }

  /** `np.log(close / close.shift(1))`: NaN (missing) wherever it is not a number. */
  function LogReturns(c: seq<real>, ln: real -> real): (r: seq<Option<real>>)
    ensures |r| == |c|
    ensures forall t :: 0 <= t < |c| ==>
      r[t] == if LogReturnDefined(c, t) then Some(ln(Ratio(c[t], c[t - 1]))) else None
  {
    seq(|c|, t requires 0 <= t < |c| =>
      if LogReturnDefined(c, t) then Some(ln(Ratio(c[t], c[t - 1]))) else None)
  }

  /** `close.diff()`: missing at row 0. */
  function Deltas(c: seq<real>): (d: seq<Option<real>>)
    ensures |d| == |c|
    ensures forall t :: 0 <= t < |c| ==> (d[t].None? <==> t == 0)
    ensures forall t :: 0 < t < |c| ==> c[t - 1] + d[t].value == c[t]
  {
    seq(|c|, t requires 0 <= t < |c| => if t == 0 then None else Some(c[t] - c[t - 1]))
  }

  /** The positive part of a price change; `where` fills the missing change with 0, `clip` keeps it missing. */
  function Gain(d: Option<real>, rule: GainRule): (g: Option<real>)
    ensures g.Some? ==> g.value >= 0.0
    ensures g.None? <==> rule == Clip && d.None?
    ensures d.Some? ==> g == Some(if d.value > 0.0 then d.value else 0.0)
  {
    match rule
    case Where => Some(if d.Some? && d.value > 0.0 then d.value else 0.0)
    case Clip => if d.None? then None else Some(if d.value > 0.0 then d.value else 0.0)
  }

  /** The size of a price drop; `where` fills the missing change with 0, `clip` keeps it missing. */
  function Loss(d: Option<real>, rule: GainRule): (l: Option<real>)
    ensures l.Some? ==> l.value >= 0.0
    ensures l.None? <==> rule == Clip && d.None?
    ensures d.Some? ==> l == Some(if d.value < 0.0 then -d.value else 0.0)
  {
    match rule
    case Where => Some(if d.Some? && d.value < 0.0 then -d.value else 0.0)
    case Clip => if d.None? then None else Some(if d.value < 0.0 then -d.value else 0.0)
  }

  function Gains(d: seq<Option<real>>, rule: GainRule): (g: seq<Option<real>>)
    ensures |g| == |d|
    ensures forall t :: 0 <= t < |g| ==> g[t] == Gain(d[t], rule)
  {
    seq(|d|, t requires 0 <= t < |d| => Gain(d[t], rule))
  }

  function Losses(d: seq<Option<real>>, rule: GainRule): (l: seq<Option<real>>)
    ensures |l| == |d|
    ensures forall t :: 0 <= t < |l| ==> l[t] == Loss(d[t], rule)
  {
    seq(|d|, t requires 0 <= t < |d| => Loss(d[t], rule))
  }

  predicate AllSome(s: seq<Option<real>>) {
    forall i :: 0 <= i < |s| ==> s[i].Some?
  }

  function Values(s: seq<Option<real>>): (v: seq<real>)
    requires AllSome(s)
    ensures |v| == |s| && forall i :: 0 <= i < |s| ==> v[i] == s[i].value
  {
    seq(|s|, i requires 0 <= i < |s| => s[i].value)
  }

  /** `rolling(window=w).mean()` at row `t`: defined once `w` values are present and none is missing. */
  function WindowMean(x: seq<Option<real>>, w: nat, t: nat): Option<real>
    requires 0 < w && t < |x|
  {
    if t + 1 < w then None
    else
      var win := x[t + 1 - w..t + 1];
      if AllSome(win) then Some(Mean(Values(win))) else None
  }

  function Rolling(x: seq<Option<real>>, w: nat): (r: seq<Option<real>>)
    requires 0 < w
    ensures |r| == |x| && forall t :: 0 <= t < |x| ==> r[t] == WindowMean(x, w, t)
  {
    seq(|x|, t requires 0 <= t < |x| => WindowMean(x, w, t))
  }

  /**
   * `100 - 100 / (1 + gain / loss)` with IEEE division: a zero loss with a
   * positive gain is an infinite ratio, hence 100; `0 / 0` is NaN.
   * The result is the textbook closed form 100 * gain / (gain + loss).
   */
  function Rsi(g: Option<real>, l: Option<real>): (r: Option<real>)
    requires g.Some? ==> g.value >= 0.0
    requires l.Some? ==> l.value >= 0.0
    ensures r.Some? <==> g.Some? && l.Some? && (g.value > 0.0 || l.value > 0.0)
    ensures r.Some? ==> r.value * (g.value + l.value) == 100.0 * g.value
    ensures r.Some? ==> 0.0 <= r.value <= 100.0
    ensures r.Some? ==> (r.value == 100.0 <==> l.value == 0.0)
  {
    if g.None? || l.None? then None
    else if l.value > 0.0 then
      var rs := g.value / l.value;
      assert rs * l.value == g.value;
      assert (1.0 + rs) * l.value == g.value + l.value;
      var v := 100.0 - 100.0 / (1.0 + rs);
      assert 100.0 / (1.0 + rs) * (g.value + l.value) == 100.0 * l.value;
      assert 0.0 < 100.0 / (1.0 + rs) <= 100.0;
      Some(v)
    else if g.value > 0.0 then Some(100.0)
    else None
  }

  /** The smoothing factor of `ewm(span=s, adjust=False)`. */
  function Alpha(span: nat): (a: real)
    ensures 0.0 < a <= 1.0 <==> span >= 1
  {
    var d := span as real + 1.0;
    assert 2.0 / d * d == 2.0;
    if span >= 1 then
      assert d >= 2.0;
      2.0 / d
    else
      assert d == 1.0;
      2.0 / d
  }

  /** `ewm(alpha, adjust=False).mean()` at row `t`, seeded with the first value. */
  function EmaAt(x: seq<real>, alpha: real, t: nat): real
    requires t < |x|
  {
    if t == 0 then x[0] else alpha * x[t] + (1.0 - alpha) * EmaAt(x, alpha, t - 1)
  }

  function Ema(x: seq<real>, alpha: real): (r: seq<real>)
    ensures |r| == |x| && forall t :: 0 <= t < |x| ==> r[t] == EmaAt(x, alpha, t)
  {
    seq(|x|, t requires 0 <= t < |x| => EmaAt(x, alpha, t))
  }

  /** `ema12 - ema26` over the full close series. */
  function MacdLine(c: seq<real>): (m: seq<real>)
    ensures |m| == |c|
    ensures forall t :: 0 <= t < |c| ==> m[t] == EmaAt(c, Alpha(FastSpan), t) - EmaAt(c, Alpha(SlowSpan), t)
  {
    var fast := Ema(c, Alpha(FastSpan));
    var slow := Ema(c, Alpha(SlowSpan));
    seq(|c|, t requires 0 <= t < |c| => fast[t] - slow[t])
  }

  function SignalLine(c: seq<real>): (s: seq<real>)
    ensures |s| == |c|
  {
    Ema(MacdLine(c), Alpha(SignalSpan))
  }

  function Abs(x: real): real { if x < 0.0 then -x else x }

  function Max(a: real, b: real): real { if a < b then b else a }

  /**
   * The row maximum of `[high - low, |high - prev close|, |low - prev close|]`;
   * at row 0 the two missing terms are skipped, leaving `high - low`.
   */
  function TrueRange(bars: seq<Bar>, t: nat): real
    requires t < |bars|
  {
    var b := bars[t];
    if t == 0 then b.high - b.low
    else Max(Max(b.high - b.low, Abs(b.high - bars[t - 1].close)), Abs(b.low - bars[t - 1].close))
  }

  function TrueRanges(bars: seq<Bar>): (tr: seq<Option<real>>)
    ensures |tr| == |bars| && forall t :: 0 <= t < |bars| ==> tr[t] == Some(TrueRange(bars, t))
  {
    seq(|bars|, t requires 0 <= t < |bars| => Some(TrueRange(bars, t)))
  }

  /* ---------- the feature table ---------- */

  function GainSeries(bars: seq<Bar>, rule: GainRule): (g: seq<Option<real>>)
    ensures |g| == |bars|
  {
    Rolling(Gains(Deltas(Closes(bars)), rule), RsiWindow)
  }

  function LossSeries(bars: seq<Bar>, rule: GainRule): (l: seq<Option<real>>)
    ensures |l| == |bars|
  {
    Rolling(Losses(Deltas(Closes(bars)), rule), RsiWindow)
  }

  function AtrSeries(bars: seq<Bar>): (a: seq<Option<real>>)
    ensures |a| == |bars|
  {
    Rolling(TrueRanges(bars), AtrWindow)
  }

  /** Row `t` of the frame once every feature column has been appended. */
  function RowAt(bars: seq<Bar>, ln: real -> real, rule: GainRule, t: nat): RawRow
    requires t < |bars|
  {
    var c := Closes(bars);
    GainsLossesNonNegative(bars, rule);
    RawRow(bars[t], LogReturns(c, ln)[t], Rsi(GainSeries(bars, rule)[t], LossSeries(bars, rule)[t]),
           MacdLine(c)[t], SignalLine(c)[t], AtrSeries(bars)[t])
  }

  /** Every column appended to the frame, row by row, before `dropna`. */
  function Columns(bars: seq<Bar>, ln: real -> real, rule: GainRule): (rows: seq<RawRow>)
    ensures |rows| == |bars| && forall t :: 0 <= t < |bars| ==> rows[t] == RowAt(bars, ln, rule, t)
  {
    seq(|bars|, t requires 0 <= t < |bars| => RowAt(bars, ln, rule, t))
  }

  /** `dropna` keeps a row only when every feature is present. */
  function Complete(r: RawRow): Option<FeatureRow> {
    if r.logRet.Some? && r.rsi.Some? && r.atr.Some? then
      Some(FeatureRow(r.bar, r.logRet.value, r.rsi.value, r.macd, r.macdSignal, r.atr.value))
    else None
  }

  function FeatureTable(bars: seq<Bar>, ln: real -> real, rule: GainRule): seq<FeatureRow> {
    FilterMap(Columns(bars, ln, rule), Complete)
  }

  /** Rows of `bars` that survive `dropna`, by position. */
  function Surviving(bars: seq<Bar>, ln: real -> real, rule: GainRule): seq<nat> {
    Kept(Columns(bars, ln, rule), Complete)
  }

  /** `get_data_with_indikacators` in utils.py: an empty frame or a missing column gives an empty table. */
  function DataWithIndicators(f: Frame, ln: real -> real): (table: seq<FeatureRow>)
    requires WellShaped(f)
    ensures IsEmpty(f) || !HasRequiredColumns(f) ==> table == []
    ensures !IsEmpty(f) && HasRequiredColumns(f) ==>
      HasBarColumns(f) && table == FeatureTable(Bars(f), ln, Where)
  {
    if IsEmpty(f) then []
    else if !HasRequiredColumns(f) then []
    else
      RequiredColumnsHoldBars(f);
      FeatureTable(Bars(f), ln, Where)
  }

  /**
   * `get_data_with_indicators` in UjiCobaModel.py: an empty download raises;
   * so does reading a column the download lacks (`Open` is never read).
   */
  function DownloadFeatures(f: Frame, ln: real -> real): (r: Result<seq<FeatureRow>, PipelineError>)
    requires WellShaped(f)
    ensures r == Err(EmptyData) <==> IsEmpty(f)
    ensures r == Err(MissingColumn) <==> !IsEmpty(f) && !HasBarColumns(f)
    ensures r.Ok? ==> r.value == FeatureTable(Bars(f), ln, Clip)
  {
    if IsEmpty(f) then Err(EmptyData)
    else if !HasBarColumns(f) then Err(MissingColumn)
    else Ok(FeatureTable(Bars(f), ln, Clip))
  }

  /* ---------- properties ---------- */

  /** Gain and loss entries are never negative, before and after the rolling mean. */
  lemma GainsLossesNonNegative(bars: seq<Bar>, rule: GainRule)
    ensures forall t :: 0 <= t < |bars| && GainSeries(bars, rule)[t].Some? ==> GainSeries(bars, rule)[t].value >= 0.0
    ensures forall t :: 0 <= t < |bars| && LossSeries(bars, rule)[t].Some? ==> LossSeries(bars, rule)[t].value >= 0.0
  {
    var d := Deltas(Closes(bars));
    RollingNonNegative(Gains(d, rule), RsiWindow);
    RollingNonNegative(Losses(d, rule), RsiWindow);
  }

  /** A trailing mean of non-negative values is non-negative. */
  lemma RollingNonNegative(x: seq<Option<real>>, w: nat)
    requires 0 < w
    requires forall i :: 0 <= i < |x| && x[i].Some? ==> x[i].value >= 0.0
    ensures forall t :: 0 <= t < |x| && Rolling(x, w)[t].Some? ==> Rolling(x, w)[t].value >= 0.0
  {
    forall t | 0 <= t < |x| && Rolling(x, w)[t].Some?
      ensures Rolling(x, w)[t].value >= 0.0
    {
      var win := x[t + 1 - w..t + 1];
      SumNonNegative(Values(win));
    }
  }

  /** A rolling mean is missing for the first `w - 1` rows. */
  lemma RollingWarmUp(x: seq<Option<real>>, w: nat, t: nat)
    requires 0 < w && t < |x| && t + 1 < w
    ensures Rolling(x, w)[t].None?
  {
  }

  /** Rolling means agree wherever their windows agree. */
  lemma RollingLocal(x: seq<Option<real>>, y: seq<Option<real>>, w: nat, t: nat)
    requires 0 < w && t < |x| && |x| == |y| && w <= t + 1
    requires x[t + 1 - w..t + 1] == y[t + 1 - w..t + 1]
    ensures Rolling(x, w)[t] == Rolling(y, w)[t]
  {
  }

  lemma ProductNonNegative(a: real, b: real)
    requires a >= 0.0 && b >= 0.0
    ensures a * b >= 0.0
  {
  }

  /** A convex combination of two values in `[lo, hi]` stays in `[lo, hi]`. */
  lemma ConvexBetween(alpha: real, a: real, b: real, lo: real, hi: real)
    requires 0.0 <= alpha <= 1.0 && lo <= a <= hi && lo <= b <= hi
    ensures lo <= alpha * a + (1.0 - alpha) * b <= hi
  {
    ProductNonNegative(alpha, a - lo);
    ProductNonNegative(1.0 - alpha, b - lo);
    ProductNonNegative(alpha, hi - a);
    ProductNonNegative(1.0 - alpha, hi - b);
  }

  /** The EMA is a running convex combination: it stays within the range of the values seen so far. */
  lemma {:induction false} EmaWithinRange(x: seq<real>, alpha: real, t: nat, lo: real, hi: real)
    requires t < |x| && 0.0 <= alpha <= 1.0
    requires forall i :: 0 <= i <= t ==> lo <= x[i] <= hi
    ensures lo <= EmaAt(x, alpha, t) <= hi
  {
    if t > 0 {
      EmaWithinRange(x, alpha, t - 1, lo, hi);
      ConvexBetween(alpha, x[t], EmaAt(x, alpha, t - 1), lo, hi);
    }
  }

  /** Flat prices give a flat MACD: both MACD and its signal line are zero on every row. */
  lemma MacdOfConstantPrices(bars: seq<Bar>, p: real)
    requires forall t :: 0 <= t < |bars| ==> bars[t].close == p
    ensures forall t :: 0 <= t < |bars| ==> MacdLine(Closes(bars))[t] == 0.0
    ensures forall t :: 0 <= t < |bars| ==> SignalLine(Closes(bars))[t] == 0.0
  {
    var c := Closes(bars);
    var m := MacdLine(c);
    forall t | 0 <= t < |bars| ensures m[t] == 0.0 {
      EmaWithinRange(c, Alpha(FastSpan), t, p, p);
      EmaWithinRange(c, Alpha(SlowSpan), t, p, p);
    }
    forall t | 0 <= t < |bars| ensures SignalLine(c)[t] == 0.0 {
      EmaWithinRange(m, Alpha(SignalSpan), t, 0.0, 0.0);
    }
  }

  /** The true range dominates each of its terms and equals one of them. */
  lemma TrueRangeIsMaximum(bars: seq<Bar>, t: nat)
    requires 0 < t < |bars|
    ensures var b, p, tr := bars[t], bars[t - 1].close, TrueRange(bars, t);
      && tr >= b.high - b.low && tr >= Abs(b.high - p) && tr >= Abs(b.low - p)
      && (tr == b.high - b.low || tr == Abs(b.high - p) || tr == Abs(b.low - p))
      && tr >= 0.0
  {
  }

  predicate HighAtLeastLow(bars: seq<Bar>) {
    forall t :: 0 <= t < |bars| ==> bars[t].low <= bars[t].high
  }

  /** ATR is never negative when each day's high is at least its low. */
  lemma AtrNonNegative(bars: seq<Bar>)
    requires HighAtLeastLow(bars)
    ensures forall t :: 0 <= t < |bars| && AtrSeries(bars)[t].Some? ==> AtrSeries(bars)[t].value >= 0.0
  {
    var tr := TrueRanges(bars);
    forall i | 0 <= i < |tr| ensures tr[i].value >= 0.0 {
      if i > 0 { TrueRangeIsMaximum(bars, i); }
    }
    RollingNonNegative(tr, AtrWindow);
  }

  /** The first row whose RSI and ATR windows can both be full. */
  function WarmUp(rule: GainRule): nat {
    match rule
    case Where => RsiWindow - 1
    case Clip => RsiWindow
  }

  /** The first rolling window of clipped gains starts at row 0, whose change is missing. */
  lemma ClipFirstWindowMissing(bars: seq<Bar>)
    requires RsiWindow <= |bars|
    ensures GainSeries(bars, Clip)[RsiWindow - 1].None?
  {
    var d := Deltas(Closes(bars));
    var gains := Gains(d, Clip);
    assert d[0].None?;
    var win := gains[0..RsiWindow];
    assert win[0] == Gain(d[0], Clip) == None;
    assert !AllSome(win);
    assert Rolling(gains, RsiWindow)[RsiWindow - 1] == WindowMean(gains, RsiWindow, RsiWindow - 1);
  }

  /** The smoothed gain is missing on every row before the warm-up row. */
  lemma GainMissingBeforeWarmUp(bars: seq<Bar>, rule: GainRule, t: nat)
    requires t < |bars| && t < WarmUp(rule)
    ensures GainSeries(bars, rule)[t].None?
  {
    if t + 1 < RsiWindow {
      RollingWarmUp(Gains(Deltas(Closes(bars)), rule), RsiWindow, t);
    } else {
      assert rule == Clip && t == RsiWindow - 1;
      ClipFirstWindowMissing(bars);
    }
  }

  /** Before the warm-up row no row is complete: RSI (and ATR) are still missing. */
  lemma IncompleteBeforeWarmUp(bars: seq<Bar>, ln: real -> real, rule: GainRule, t: nat)
    requires t < |bars| && t < WarmUp(rule)
    ensures Complete(Columns(bars, ln, rule)[t]).None?
  {
    var raw := Columns(bars, ln, rule)[t];
    assert raw == RowAt(bars, ln, rule, t);
    GainMissingBeforeWarmUp(bars, rule, t);
    assert raw.rsi.None?;
  }

  lemma CompleteRowLogReturn(bars: seq<Bar>, ln: real -> real, rule: GainRule, i: nat)
    requires i < |bars| && Complete(Columns(bars, ln, rule)[i]).Some?
    ensures LogReturnDefined(Closes(bars), i)
    ensures i > 0 && bars[i - 1].close != 0.0
    ensures Complete(Columns(bars, ln, rule)[i]).value.logRet == ln(Ratio(bars[i].close, bars[i - 1].close))
  {
    var raw := Columns(bars, ln, rule)[i];
    assert raw == RowAt(bars, ln, rule, i);
    var c := Closes(bars);
    assert raw.logRet == LogReturns(c, ln)[i];
    assert raw.logRet.Some?;
    assert c[i] == bars[i].close && c[i - 1] == bars[i - 1].close;
    assert Complete(raw).value.logRet == raw.logRet.value;
  }

  lemma CompleteRowColumns(bars: seq<Bar>, ln: real -> real, rule: GainRule, i: nat)
    requires i < |bars| && Complete(Columns(bars, ln, rule)[i]).Some?
    ensures var row := Complete(Columns(bars, ln, rule)[i]).value;
      && row.bar == bars[i]
      && row.macd == MacdLine(Closes(bars))[i]
      && row.macdSignal == SignalLine(Closes(bars))[i]
      && 0.0 <= row.rsi <= 100.0
      && Some(row.atr) == AtrSeries(bars)[i]
  {
    var raw := Columns(bars, ln, rule)[i];
    assert raw == RowAt(bars, ln, rule, i);
  }

  /** A row `dropna` keeps lies past the warm-up and carries the indicators of its own bar. */
  lemma CompleteRowFacts(bars: seq<Bar>, ln: real -> real, rule: GainRule, i: nat)
    requires i < |bars| && Complete(Columns(bars, ln, rule)[i]).Some?
    ensures var row := Complete(Columns(bars, ln, rule)[i]).value;
      && WarmUp(rule) <= i
      && row.bar == bars[i]
      && bars[i - 1].close != 0.0
      && row.logRet == ln(Ratio(bars[i].close, bars[i - 1].close))
      && row.macd == MacdLine(Closes(bars))[i]
      && row.macdSignal == SignalLine(Closes(bars))[i]
      && 0.0 <= row.rsi <= 100.0
      && Some(row.atr) == AtrSeries(bars)[i]
  {
    if i < WarmUp(rule) { IncompleteBeforeWarmUp(bars, ln, rule, i); }
    CompleteRowLogReturn(bars, ln, rule, i);
    CompleteRowColumns(bars, ln, rule, i);
  }

  /** What `dropna` keeps: the complete rows, in order, each carrying the indicators of its own bar. */
  lemma FeatureTableRows(bars: seq<Bar>, ln: real -> real, rule: GainRule)
    ensures var table, ks := FeatureTable(bars, ln, rule), Surviving(bars, ln, rule);
      && |table| == |ks|
      && (forall k, l :: 0 <= k < l < |ks| ==> ks[k] < ks[l])
      && (forall i :: 0 <= i < |bars| && Complete(Columns(bars, ln, rule)[i]).Some? ==> i in ks)
      && forall k :: 0 <= k < |table| ==>
           && WarmUp(rule) <= ks[k] < |bars|
           && table[k].bar == bars[ks[k]]
           && bars[ks[k] - 1].close != 0.0
           && table[k].logRet == ln(Ratio(bars[ks[k]].close, bars[ks[k] - 1].close))
           && table[k].macd == MacdLine(Closes(bars))[ks[k]]
           && table[k].macdSignal == SignalLine(Closes(bars))[ks[k]]
           && 0.0 <= table[k].rsi <= 100.0
           && Some(table[k].atr) == AtrSeries(bars)[ks[k]]
  {
    var rows := Columns(bars, ln, rule);
    var table, ks := FeatureTable(bars, ln, rule), Surviving(bars, ln, rule);
    forall k | 0 <= k < |table|
      ensures var i := ks[k];
        && WarmUp(rule) <= i < |bars|
        && table[k].bar == bars[i]
        && bars[i - 1].close != 0.0
        && table[k].logRet == ln(Ratio(bars[i].close, bars[i - 1].close))
        && table[k].macd == MacdLine(Closes(bars))[i]
        && table[k].macdSignal == SignalLine(Closes(bars))[i]
        && 0.0 <= table[k].rsi <= 100.0
        && Some(table[k].atr) == AtrSeries(bars)[i]
    {
      assert Complete(rows[ks[k]]) == Some(table[k]);
      CompleteRowFacts(bars, ln, rule, ks[k]);
    }
  }

  /** `dropna` keeps at most the rows after the warm-up. */
  lemma FeatureTableLength(bars: seq<Bar>, ln: real -> real, rule: GainRule)
    ensures |bars| <= WarmUp(rule) ==> FeatureTable(bars, ln, rule) == []
    ensures |bars| >= WarmUp(rule) ==> |FeatureTable(bars, ln, rule)| <= |bars| - WarmUp(rule)
  {
    FeatureTableRows(bars, ln, rule);
    IncreasingPositionsBound(Surviving(bars, ln, rule), WarmUp(rule), |bars|);
  }

  /** The close does not move over the 14 price changes that end at row `t`, the RSI window. */
  predicate ClosesFlat(bars: seq<Bar>, t: nat)
    requires t < |bars|
  {
    forall k :: 0 < k <= t && t + 1 - RsiWindow <= k ==> bars[k].close == bars[k - 1].close
  }

  /** A window with every value present has a mean. */
  lemma WindowPresent(x: seq<Option<real>>, w: nat, t: nat)
    requires 0 < w <= t + 1 && t < |x|
    requires forall k :: t + 1 - w <= k <= t ==> x[k].Some?
    ensures AllSome(x[t + 1 - w..t + 1])
    ensures Rolling(x, w)[t] == Some(Mean(Values(x[t + 1 - w..t + 1])))
  {
    var win := x[t + 1 - w..t + 1];
    forall i | 0 <= i < w ensures win[i].Some? {
      assert win[i] == x[t + 1 - w + i];
    }
  }

  /** From row 13 on, the true-range window is full, so the ATR is present. */
  lemma AtrPresentAfterWarmUp(bars: seq<Bar>, t: nat)
    requires AtrWindow <= t + 1 && t < |bars|
    ensures AtrSeries(bars)[t].Some?
  {
    WindowPresent(TrueRanges(bars), AtrWindow, t);
  }

  /** A present change has a gain and a loss, and one of them is positive exactly when the close moved. */
  lemma GainLossAt(bars: seq<Bar>, rule: GainRule, k: nat)
    requires k < |bars| && (rule == Clip ==> k > 0)
    ensures var d := Deltas(Closes(bars));
      && Gains(d, rule)[k].Some? && Losses(d, rule)[k].Some?
      && Gains(d, rule)[k].value >= 0.0 && Losses(d, rule)[k].value >= 0.0
      && (Gains(d, rule)[k].value > 0.0 || Losses(d, rule)[k].value > 0.0
          <==> k > 0 && bars[k].close != bars[k - 1].close)
  {
    var c := Closes(bars);
    var d := Deltas(c);
    if k > 0 {
      assert c[k - 1] + d[k].value == c[k];
    }
  }

  /**
   * Two series of present, non-negative terms over the window ending at row
   * `t`, one of them positive at `k` exactly when the close moved at `k`:
   * some window mean is positive exactly when the close moved in the window.
   */
  lemma WindowMovesIff(bars: seq<Bar>, t: nat, gs: seq<Option<real>>, ls: seq<Option<real>>)
    requires RsiWindow <= t + 1 && t < |bars| && t < |gs| && t < |ls|
    requires forall k {:trigger gs[k]} {:trigger ls[k]} :: t + 1 - RsiWindow <= k <= t ==>
      && gs[k].Some? && ls[k].Some? && gs[k].value >= 0.0 && ls[k].value >= 0.0
      && (gs[k].value > 0.0 || ls[k].value > 0.0 <==> k > 0 && bars[k].close != bars[k - 1].close)
    ensures AllSome(gs[t + 1 - RsiWindow..t + 1]) && AllSome(ls[t + 1 - RsiWindow..t + 1])
    ensures Mean(Values(gs[t + 1 - RsiWindow..t + 1])) > 0.0 || Mean(Values(ls[t + 1 - RsiWindow..t + 1])) > 0.0
      <==> !ClosesFlat(bars, t)
  {
    var lo := t + 1 - RsiWindow;
    assert AllSome(gs[lo..t + 1]) && AllSome(ls[lo..t + 1]);
    var gv, lv := Values(gs[lo..t + 1]), Values(ls[lo..t + 1]);
    MeanPositive(gv);
    MeanPositive(lv);
    if !ClosesFlat(bars, t) {
      var k :| 0 < k <= t && lo <= k && bars[k].close != bars[k - 1].close;
      assert gv[k - lo] > 0.0 || lv[k - lo] > 0.0;
    } else {
      forall j | 0 <= j < RsiWindow ensures gv[j] == 0.0 && lv[j] == 0.0 {
        var k := lo + j;
        assert gv[j] == gs[k].value && lv[j] == ls[k].value;
        if k > 0 {
          assert bars[k].close == bars[k - 1].close;
        }
      }
    }
  }

  /** Two series present over the RSI window ending at `t` have both 14-row rolling means at `t`. */
  lemma RollingPairPresent(gs: seq<Option<real>>, ls: seq<Option<real>>, t: nat)
    requires RsiWindow <= t + 1 && t < |gs| && t < |ls|
    requires forall k {:trigger gs[k]} {:trigger ls[k]} :: t + 1 - RsiWindow <= k <= t ==> gs[k].Some? && ls[k].Some?
    ensures AllSome(gs[t + 1 - RsiWindow..t + 1]) && AllSome(ls[t + 1 - RsiWindow..t + 1])
    ensures Rolling(gs, RsiWindow)[t] == Some(Mean(Values(gs[t + 1 - RsiWindow..t + 1])))
    ensures Rolling(ls, RsiWindow)[t] == Some(Mean(Values(ls[t + 1 - RsiWindow..t + 1])))
  {
    WindowPresent(gs, RsiWindow, t);
    WindowPresent(ls, RsiWindow, t);
  }

  /** Every change in the RSI window ending at a row past the warm-up has a gain and a loss, as `GainLossAt` states. */
  lemma GainLossTerms(bars: seq<Bar>, rule: GainRule, t: nat)
    requires WarmUp(rule) <= t < |bars|
    ensures var gs, ls := Gains(Deltas(Closes(bars)), rule), Losses(Deltas(Closes(bars)), rule);
      forall k {:trigger gs[k]} {:trigger ls[k]} :: t + 1 - RsiWindow <= k <= t ==>
        && gs[k].Some? && ls[k].Some? && gs[k].value >= 0.0 && ls[k].value >= 0.0
        && (gs[k].value > 0.0 || ls[k].value > 0.0 <==> k > 0 && bars[k].close != bars[k - 1].close)
  {
    var gs, ls := Gains(Deltas(Closes(bars)), rule), Losses(Deltas(Closes(bars)), rule);
    forall k {:trigger gs[k]} {:trigger ls[k]} | t + 1 - RsiWindow <= k <= t
      ensures gs[k].Some? && ls[k].Some? && gs[k].value >= 0.0 && ls[k].value >= 0.0
      ensures gs[k].value > 0.0 || ls[k].value > 0.0 <==> k > 0 && bars[k].close != bars[k - 1].close
    {
      GainLossAt(bars, rule, k);
    }
  }

  /**
   * From the warm-up row on, the smoothed gain and loss are present, and one
   * of them is positive exactly when the close moved within the window.
   */
  lemma GainLossAfterWarmUp(bars: seq<Bar>, rule: GainRule, t: nat)
    requires WarmUp(rule) <= t < |bars|
    ensures GainSeries(bars, rule)[t].Some? && LossSeries(bars, rule)[t].Some?
    ensures GainSeries(bars, rule)[t].value > 0.0 || LossSeries(bars, rule)[t].value > 0.0
      <==> !ClosesFlat(bars, t)
  {
    var gs, ls := Gains(Deltas(Closes(bars)), rule), Losses(Deltas(Closes(bars)), rule);
    GainLossTerms(bars, rule, t);
    RollingPairPresent(gs, ls, t);
    WindowMovesIff(bars, t, gs, ls);
  }

  /**
   * The converse of `IncompleteBeforeWarmUp`: from the warm-up row on, a row
   * survives `dropna` exactly when its log return is a number and the close
   * moved within its RSI window (otherwise the RSI is `0/0`).
   */
  lemma CompleteAfterWarmUp(bars: seq<Bar>, ln: real -> real, rule: GainRule, t: nat)
    requires WarmUp(rule) <= t < |bars|
    ensures Complete(Columns(bars, ln, rule)[t]).Some?
      <==> LogReturnDefined(Closes(bars), t) && !ClosesFlat(bars, t)
  {
    var raw := Columns(bars, ln, rule)[t];
    assert raw == RowAt(bars, ln, rule, t);
    GainsLossesNonNegative(bars, rule);
    GainLossAfterWarmUp(bars, rule, t);
    AtrPresentAfterWarmUp(bars, t);
    assert raw.logRet == LogReturns(Closes(bars), ln)[t];
    assert raw.rsi == Rsi(GainSeries(bars, rule)[t], LossSeries(bars, rule)[t]);
  }

  /**
   * When every row from the warm-up on has a numeric log return and a moving
   * close, `dropna` removes exactly the warm-up rows: 13 with `Where`, 14 with `Clip`.
   */
  lemma FeatureTableExactLength(bars: seq<Bar>, ln: real -> real, rule: GainRule)
    requires WarmUp(rule) <= |bars|
    requires forall t :: WarmUp(rule) <= t < |bars| ==>
      LogReturnDefined(Closes(bars), t) && !ClosesFlat(bars, t)
    ensures |FeatureTable(bars, ln, rule)| == |bars| - WarmUp(rule)
  {
    FeatureTableRows(bars, ln, rule);
    var ks := Surviving(bars, ln, rule);
    forall i | WarmUp(rule) <= i < |bars| ensures i in ks {
      CompleteAfterWarmUp(bars, ln, rule, i);
    }
    IncreasingPositionsCover(ks, WarmUp(rule), |bars|);
  }

  predicate DatesIncreasing(bars: seq<Bar>) {
    forall i, j :: 0 <= i < j < |bars| ==> bars[i].date < bars[j].date
  }

  /** Rows keep their original order. */
  lemma FeatureTableOrdered(bars: seq<Bar>, ln: real -> real, rule: GainRule)
    requires DatesIncreasing(bars)
    ensures DatesIncreasing(seq(|FeatureTable(bars, ln, rule)|,
      k requires 0 <= k < |FeatureTable(bars, ln, rule)| => FeatureTable(bars, ln, rule)[k].bar))
  {
    FeatureTableRows(bars, ln, rule);
  }

  /** From row 14 on, both gain rules produce the same row: the missing first change has left every window. */
  lemma RulesAgreeAfterWarmUp(bars: seq<Bar>, ln: real -> real, t: nat)
    requires RsiWindow <= t < |bars|
    ensures Columns(bars, ln, Clip)[t] == Columns(bars, ln, Where)[t]
  {
    var d := Deltas(Closes(bars));
    var lo := t + 1 - RsiWindow;
    assert Gains(d, Clip)[lo..t + 1] == Gains(d, Where)[lo..t + 1];
    assert Losses(d, Clip)[lo..t + 1] == Losses(d, Where)[lo..t + 1];
    RollingLocal(Gains(d, Clip), Gains(d, Where), RsiWindow, t);
    RollingLocal(Losses(d, Clip), Losses(d, Where), RsiWindow, t);
  }

  lemma ClipTailMatchesWhere(bars: seq<Bar>, ln: real -> real)
    requires |bars| >= RsiWindow
    ensures Columns(bars, ln, Clip)[RsiWindow..] == Columns(bars, ln, Where)[RsiWindow..]
  {
    var w, c := Columns(bars, ln, Where), Columns(bars, ln, Clip);
    forall t | RsiWindow <= t < |bars| ensures c[t] == w[t] { RulesAgreeAfterWarmUp(bars, ln, t); }
  }

  lemma ClipHeadDropped(bars: seq<Bar>, ln: real -> real)
    requires |bars| >= RsiWindow
    ensures FilterMap(Columns(bars, ln, Clip)[..RsiWindow], Complete) == []
  {
    var c := Columns(bars, ln, Clip)[..RsiWindow];
    forall t | 0 <= t < RsiWindow ensures Complete(c[t]).None? { IncompleteBeforeWarmUp(bars, ln, Clip, t); }
    FilterMapNone(c, Complete);
  }

  lemma WhereHeadKeepsAtMostRowThirteen(bars: seq<Bar>, ln: real -> real)
    requires |bars| >= RsiWindow
    ensures var w := Columns(bars, ln, Where);
      FilterMap(w[..RsiWindow], Complete) ==
        if Complete(w[RsiWindow - 1]).Some? then [Complete(w[RsiWindow - 1]).value] else []
  {
    var w := Columns(bars, ln, Where);
    var n := RsiWindow;
    var head := w[..n - 1];
    forall t | 0 <= t < n - 1 ensures Complete(head[t]).None? { IncompleteBeforeWarmUp(bars, ln, Where, t); }
    FilterMapNone(head, Complete);
    assert w[..n] == head + [w[n - 1]];
    FilterMapAppend(head, [w[n - 1]], Complete);
    assert [w[n - 1]][..0] == [];
  }

  /**
   * The two copies of the engine differ by at most one row: the `Clip` table is
   * the `Where` table without row 13, which only the `Where` form can keep.
   */
  lemma ClipDropsRowThirteen(bars: seq<Bar>, ln: real -> real)
    requires |bars| >= RsiWindow
    ensures var whereTable := FeatureTable(bars, ln, Where);
      FeatureTable(bars, ln, Clip) ==
        if Complete(Columns(bars, ln, Where)[RsiWindow - 1]).Some? then whereTable[1..] else whereTable
  {
    var w, c := Columns(bars, ln, Where), Columns(bars, ln, Clip);
    var n := RsiWindow;
    assert w == w[..n] + w[n..];
    assert c == c[..n] + c[n..];
    ClipTailMatchesWhere(bars, ln);
    FilterMapAppend(w[..n], w[n..], Complete);
    FilterMapAppend(c[..n], c[n..], Complete);
    ClipHeadDropped(bars, ln);
    WhereHeadKeepsAtMostRowThirteen(bars, ln);
  }
}
