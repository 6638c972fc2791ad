/**
 * The prediction page (pages/Prediction.py): features of the last year of
 * daily bars, one model call on the last 60-row window, the seven decoded log
 * returns compounded off the last close, the seven-row table, and the stored
 * metrics shown above it.
 */
module Forecast {
  import opened Wrappers
  import opened Sequences
  import opened RealMath
  import opened Indicators
  import opened Scaling
  import opened Display
  import opened Validation

  /** Days forecast, and rows of the array the model output is decoded through. */
  const Horizon: nat := 7

  /* ---------- decoding the model output ---------- */

  /**
   * Column 0 of `inverse_transform` applied to a 7 x 6 zero array whose column
   * 0 holds the model output: seven outputs fill the column, a single output is
   * broadcast to all seven rows, any other length cannot be assigned.
   */
  function Decoded(out: seq<real>, sc: Scaler): (r: Result<seq<real>, PipelineError>)
    requires Fitted(sc)
    ensures r.Err? <==> |out| != Horizon && |out| != 1
    ensures r.Err? ==> r.error == ShapeMismatch
    ensures r.Ok? ==> |r.value| == Horizon
  {
    if |out| == Horizon then Ok(seq(Horizon, i requires 0 <= i < Horizon => DecodeFirst(sc, out[i])))
    else if |out| == 1 then
      var x := DecodeFirst(sc, out[0]);
      Ok(seq(Horizon, _ => x))
    else Err(ShapeMismatch)
  }

  /** Decoding undoes the scaler on column 0: scaled log returns come back as themselves. */
  lemma DecodedInvertsScaling(sc: Scaler, x: seq<real>)
    requires Fitted(sc) && |x| == Horizon
    ensures Decoded(seq(Horizon, i requires 0 <= i < Horizon => x[i] * sc.scale[0] + sc.min[0]), sc) == Ok(x)
  {
    var out := seq(Horizon, i requires 0 <= i < Horizon => x[i] * sc.scale[0] + sc.min[0]);
    var r := Decoded(out, sc).value;
    forall i | 0 <= i < Horizon ensures r[i] == x[i] {
      var v := [x[i], 0.0, 0.0, 0.0, 0.0, 0.0];
      DecodeFirstIsColumnZero(sc, Transform(sc, v), v);
      assert Transform(sc, v)[0] == out[i];
    }
    assert r == x;
  }

  /** A single model output is one return repeated over all seven days. */
  lemma SingleOutputRepeats(out: seq<real>, sc: Scaler)
    requires Fitted(sc) && |out| == 1
    ensures Decoded(out, sc).Ok?
    ensures forall i :: 0 <= i < Horizon ==> Decoded(out, sc).value[i] == DecodeFirst(sc, out[0])
  {
  }

  /** Fill column 0 of the zero array, then read column 0 of each inverse-transformed row. */
  method DecodeOutputs(out: seq<real>, sc: Scaler) returns (r: Result<seq<real>, PipelineError>)
    requires Fitted(sc)
    ensures r == Decoded(out, sc)
  {
    if |out| != Horizon && |out| != 1 {
      return Err(ShapeMismatch);
    }
    var dummy := new real[Horizon, NumFeatures]((i, j) => 0.0);
    var i := 0;
    while i < Horizon
      invariant 0 <= i <= Horizon
      invariant forall k :: 0 <= k < i ==> dummy[k, 0] == (if |out| == 1 then out[0] else out[k])
    {
      dummy[i, 0] := if |out| == 1 then out[0] else out[i];
      i := i + 1;
    }
    var logRets: seq<real> := [];
    i := 0;
    while i < Horizon
      invariant 0 <= i <= Horizon
      invariant forall k :: 0 <= k < Horizon ==> dummy[k, 0] == (if |out| == 1 then out[0] else out[k])
      invariant |logRets| == i
      invariant forall k :: 0 <= k < i ==> logRets[k] == DecodeFirst(sc, dummy[k, 0])
    {
      var row := seq(NumFeatures, j requires 0 <= j < NumFeatures reads dummy => dummy[i, j]);
      DecodeFirstIsColumnZero(sc, row, row);
      logRets := logRets + [InverseTransform(sc, row)[0]];
      i := i + 1;
    }
    assert logRets == Decoded(out, sc).value;
    r := Ok(logRets);
  }

  /* ---------- compounding the returns ---------- */

  /** The price a day starts from: the last close on the first day, then the previous forecast. */
  function Previous(last: real, prices: seq<real>): real {
    if prices == [] then last else prices[|prices| - 1]
  }

  /** Each day's price is the previous one times `exp` of that day's log return. */
  function PricePath(last: real, rs: seq<real>, exp: real -> real): (p: seq<real>)
    ensures |p| == |rs|
  {
    if rs == [] then []
    else
      var init := PricePath(last, rs[..|rs| - 1], exp);
      init + [Compounded(Previous(last, init), rs[|rs| - 1], exp)]
  }

  /** `((next - cur) / cur) * 100`, NaN (None) when `cur` is 0. */
  function DayChange(cur: real, next: real): (c: Option<real>)
    ensures c.None? <==> cur == 0.0
    ensures c.Some? ==> cur + c.value * cur / 100.0 == next
  {
    if cur == 0.0 then None else Some((next - cur) / cur * 100.0)
  }

  /** The change column: each price against the one before it. */
  function Changes(last: real, prices: seq<real>): (c: seq<Option<real>>)
    ensures |c| == |prices|
  {
    if prices == [] then []
    else
      var init := prices[..|prices| - 1];
      Changes(last, init) + [DayChange(Previous(last, init), prices[|prices| - 1])]
  }

  function FutureDates(lastDate: int, n: nat): (d: seq<int>)
    ensures |d| == n && forall i :: 0 <= i < n ==> d[i] == lastDate + i + 1
  {
    seq(n, i requires 0 <= i < n => lastDate + i + 1)
  }

  /** The forecast: dates, prices, and day-on-day changes in percent. */
  datatype Projection = Projection(dates: seq<int>, prices: seq<real>, changes: seq<Option<real>>)

  /** The loop over the decoded returns. */
  method Rollout(lastDate: int, lastClose: real, rs: seq<real>, exp: real -> real) returns (p: Projection)
    ensures p.dates == FutureDates(lastDate, |rs|)
    ensures p.prices == PricePath(lastClose, rs, exp)
    ensures p.changes == Changes(lastClose, p.prices)
  {
    var futureDates: seq<int> := [];
    var futurePrices: seq<real> := [];
    var changesPct: seq<Option<real>> := [];
    var current := lastClose;
    var i := 0;
    while i < |rs|
      invariant 0 <= i <= |rs|
      invariant futurePrices == PricePath(lastClose, rs[..i], exp)
      invariant current == Previous(lastClose, futurePrices)
      invariant changesPct == Changes(lastClose, futurePrices)
      invariant |futureDates| == i && forall k :: 0 <= k < i ==> futureDates[k] == lastDate + k + 1
    {
      var next := Compounded(current, rs[i], exp);
      var change := DayChange(current, next);
      PricePathSnoc(lastClose, rs, i, exp);
      ChangesSnoc(lastClose, futurePrices, next);
      futurePrices := futurePrices + [next];
      changesPct := changesPct + [change];
      futureDates := futureDates + [lastDate + i + 1];
      current := next;
      i := i + 1;
    }
    assert rs[..i] == rs;
    p := Projection(futureDates, futurePrices, changesPct);
  }

  /** One more return extends the price path by one compounded price. */
  lemma PricePathSnoc(last: real, rs: seq<real>, i: nat, exp: real -> real)
    requires i < |rs|
    ensures var p := PricePath(last, rs[..i], exp);
      PricePath(last, rs[..i + 1], exp) == p + [Compounded(Previous(last, p), rs[i], exp)]
  {
    assert rs[..i + 1][..i] == rs[..i];
  }

  /** One more price extends the change column by that price's change. */
  lemma ChangesSnoc(last: real, prices: seq<real>, next: real)
    ensures Changes(last, prices + [next]) == Changes(last, prices) + [DayChange(Previous(last, prices), next)]
    ensures Previous(last, prices + [next]) == next
  {
    assert (prices + [next])[..|prices|] == prices;
  }

  /* ---------- properties of the compounding ---------- */

  /** Day `i`'s price is the day before's (the last close on day 0) carried by return `i`. */
  lemma {:induction false} PricePathStep(last: real, rs: seq<real>, exp: real -> real)
    ensures var p := PricePath(last, rs, exp);
      forall i :: 0 <= i < |rs| ==> p[i] == Compounded(Previous(last, p[..i]), rs[i], exp)
    decreases |rs|
  {
    if rs != [] {
      var n := |rs|;
      var init := PricePath(last, rs[..n - 1], exp);
      PricePathStep(last, rs[..n - 1], exp);
      var p := PricePath(last, rs, exp);
      assert p == init + [Compounded(Previous(last, init), rs[n - 1], exp)];
      forall i | 0 <= i < n ensures p[i] == Compounded(Previous(last, p[..i]), rs[i], exp) {
        if i < n - 1 {
          assert p[..i] == init[..i];
          assert rs[..n - 1][i] == rs[i];
        } else {
          assert p[..i] == init;
        }
      }
    }
  }

  /** Change `i` compares price `i` with the price before it (the last close for day 0). */
  lemma {:induction false} ChangesStep(last: real, prices: seq<real>)
    ensures var c := Changes(last, prices);
      forall i :: 0 <= i < |prices| ==> c[i] == DayChange(Previous(last, prices[..i]), prices[i])
    decreases |prices|
  {
    if prices != [] {
      var n := |prices|;
      var init := prices[..n - 1];
      ChangesStep(last, init);
      forall i | 0 <= i < n
        ensures Changes(last, prices)[i] == DayChange(Previous(last, prices[..i]), prices[i])
      {
        if i < n - 1 {
          assert prices[..i] == init[..i];
        }
      }
    }
  }

  /** Carrying a price by `a` and then by `b` is carrying it by `a + b`. */
  lemma CompoundTwice(price: real, a: real, b: real, exp: real -> real)
    requires ExpLaws(exp)
    ensures Compounded(Compounded(price, a, exp), b, exp) == Compounded(price, a + b, exp)
  {
    assert ExpAdd(exp, a, b);
    assert price * exp(a) * exp(b) == price * (exp(a) * exp(b));
  }

  /** Compounding day by day is compounding the running sum: `p[i] = last * exp(r[0] + ... + r[i])`. */
  lemma {:induction false} PricePathClosedForm(last: real, rs: seq<real>, exp: real -> real, i: nat)
    requires ExpLaws(exp) && i < |rs|
    ensures PricePath(last, rs, exp)[i] == Compounded(last, Sum(rs[..i + 1]), exp)
    decreases |rs|
  {
    var n := |rs|;
    var init := PricePath(last, rs[..n - 1], exp);
    if i < n - 1 {
      PricePathClosedForm(last, rs[..n - 1], exp, i);
      assert rs[..n - 1][..i + 1] == rs[..i + 1];
    } else {
      var prev := Compounded(last, Sum(rs[..n - 1]), exp);
      assert Previous(last, init) == prev by {
        if n == 1 {
          assert rs[..n - 1] == [];
          assert exp(0.0) == 1.0;
        } else {
          PricePathClosedForm(last, rs[..n - 1], exp, n - 2);
          assert rs[..n - 1][..n - 2 + 1] == rs[..n - 1];
        }
      }
      CompoundTwice(last, Sum(rs[..n - 1]), rs[n - 1], exp);
      SumAppend(rs[..n - 1], rs[n - 1]);
      assert rs[..n - 1] + [rs[n - 1]] == rs[..n];
    }
  }

  lemma DivideBack(x: real, y: real, c: real)
    requires c != 0.0 && x == y * c
    ensures x / c == y
  {
  }

  /** `(c * e - c) / c * 100 = (e - 1) * 100` for a non-zero `c`. */
  lemma RelativeGrowth(c: real, e: real)
    requires c != 0.0
    ensures (c * e - c) / c * 100.0 == (e - 1.0) * 100.0
  {
    assert c * e - c == (e - 1.0) * c;
    DivideBack(c * e - c, e - 1.0, c);
  }

  lemma NonZeroTimesPositive(a: real, b: real)
    requires a != 0.0 && b > 0.0
    ensures a * b != 0.0
  {
    if a > 0.0 {
      assert a * b > 0.0;
    } else {
      assert (-a) * b > 0.0;
    }
  }

  /** A day that starts from `prev` and grows by the factor `e > 0` changes by `(e - 1) * 100` percent, or NaN from zero. */
  lemma DayChangeOfGrowth(prev: real, r: real, exp: real -> real)
    ensures prev == 0.0 ==> DayChange(prev, Compounded(prev, r, exp)).None?
    ensures prev != 0.0 ==> DayChange(prev, Compounded(prev, r, exp)) == Some((exp(r) - 1.0) * 100.0)
  {
    var e := exp(r);
    assert Compounded(prev, r, exp) == prev * e;
    if prev != 0.0 {
      RelativeGrowth(prev, e);
      assert DayChange(prev, prev * e) == Some((prev * e - prev) / prev * 100.0);
    }
  }

  /** Day `i` starts from `last * exp(r[0] + ... + r[i-1])`. */
  lemma PreviousClosedForm(last: real, rs: seq<real>, exp: real -> real, i: nat)
    requires ExpLaws(exp) && i < |rs|
    ensures Previous(last, PricePath(last, rs, exp)[..i]) == Compounded(last, Sum(rs[..i]), exp)
  {
    if i == 0 {
      assert rs[..0] == [];
      assert exp(0.0) == 1.0;
    } else {
      PricePathClosedForm(last, rs, exp, i - 1);
      assert rs[..i - 1 + 1] == rs[..i];
    }
  }

  /** A carried price is zero exactly when the price it started from is. */
  lemma CompoundedZero(price: real, r: real, exp: real -> real)
    requires ExpLaws(exp)
    ensures Compounded(price, r, exp) == 0.0 <==> price == 0.0
  {
    assert ExpPositive(exp, r);
    if price != 0.0 {
      NonZeroTimesPositive(price, exp(r));
    }
  }

  lemma ChangeAt(last: real, rs: seq<real>, exp: real -> real, i: nat)
    requires ExpLaws(exp) && i < |rs|
    ensures var c := Changes(last, PricePath(last, rs, exp))[i];
      && (last == 0.0 ==> c.None?)
      && (last != 0.0 ==> c == Some((exp(rs[i]) - 1.0) * 100.0))
  {
    var p := PricePath(last, rs, exp);
    PricePathStep(last, rs, exp);
    ChangesStep(last, p);
    var prev := Previous(last, p[..i]);
    PreviousClosedForm(last, rs, exp, i);
    CompoundedZero(last, Sum(rs[..i]), exp);
    assert p[i] == Compounded(prev, rs[i], exp);
    DayChangeOfGrowth(prev, rs[i], exp);
  }

  /**
   * The change column depends on the returns alone: from a zero last close
   * every change is NaN; otherwise day `i`'s change is `(exp(r[i]) - 1) * 100`,
   * whatever the price level.
   */
  lemma ChangesFollowReturns(last: real, rs: seq<real>, exp: real -> real)
    requires ExpLaws(exp)
    ensures var c := Changes(last, PricePath(last, rs, exp));
      && |c| == |rs|
      && (last == 0.0 ==> forall i :: 0 <= i < |rs| ==> c[i].None?)
      && (last != 0.0 ==> forall i :: 0 <= i < |rs| ==> c[i] == Some((exp(rs[i]) - 1.0) * 100.0))
  {
    forall i | 0 <= i < |rs| ensures
      var c := Changes(last, PricePath(last, rs, exp))[i];
      && (last == 0.0 ==> c.None?)
      && (last != 0.0 ==> c == Some((exp(rs[i]) - 1.0) * 100.0))
    {
      ChangeAt(last, rs, exp, i);
    }
  }

  /** A change is non-negative exactly when its return is, provided the last close is not zero. */
  lemma ChangeSignFollowsReturn(last: real, rs: seq<real>, exp: real -> real, i: nat)
    requires ExpLaws(exp) && last != 0.0 && i < |rs|
    ensures var c := Changes(last, PricePath(last, rs, exp))[i];
      c.Some? && (c.value >= 0.0 <==> rs[i] >= 0.0) && (c.value == 0.0 <==> rs[i] == 0.0)
  {
    ChangesFollowReturns(last, rs, exp);
    ExpComparedToOne(exp, rs[i]);
  }

  /** Over positive closes every log return after the first row is present: `ln(c[t+1] / c[t])`. */
  lemma LogReturnsOfPositiveCloses(c: seq<real>, ln: real -> real)
    requires |c| > 0 && forall t :: 0 <= t < |c| ==> c[t] > 0.0
    ensures AllSome(LogReturns(c, ln)[1..])
    ensures forall t :: 0 <= t < |c| - 1 ==> Values(LogReturns(c, ln)[1..])[t] == ln(Ratio(c[t + 1], c[t]))
  {
    var r := LogReturns(c, ln);
    forall t | 1 <= t < |c| ensures LogReturnDefined(c, t) {
      assert c[t] / c[t - 1] > 0.0;
    }
    assert AllSome(r[1..]);
    forall t | 0 <= t < |c| - 1 ensures Values(r[1..])[t] == ln(Ratio(c[t + 1], c[t])) {
      assert r[1..][t] == r[t + 1];
    }
  }

  /** Carrying `a` by `ln(b / a)` gives `b`. */
  lemma CompoundRatio(a: real, b: real, exp: real -> real, ln: real -> real)
    requires LnLaws(exp, ln) && a > 0.0 && b > 0.0
    ensures Compounded(a, ln(Ratio(b, a)), exp) == b
  {
    var q := Ratio(b, a);
    assert q == b / a;
    assert q > 0.0;
    assert ExpOfLn(exp, ln, q);
    assert a * q == b;
  }

  lemma {:induction false} CompoundingInvertsAt(c: seq<real>, exp: real -> real, ln: real -> real, i: nat)
    requires LnLaws(exp, ln)
    requires |c| > 0 && forall t :: 0 <= t < |c| ==> c[t] > 0.0
    requires i < |c| - 1
    ensures AllSome(LogReturns(c, ln)[1..])
    ensures PricePath(c[0], Values(LogReturns(c, ln)[1..]), exp)[i] == c[i + 1]
    decreases i
  {
    LogReturnsOfPositiveCloses(c, ln);
    var rs := Values(LogReturns(c, ln)[1..]);
    var p := PricePath(c[0], rs, exp);
    var prev := Previous(c[0], p[..i]);
    assert prev == c[i] by {
      if i > 0 {
        CompoundingInvertsAt(c, exp, ln, i - 1);
      }
    }
    assert p[i] == Compounded(prev, rs[i], exp) by {
      PricePathStep(c[0], rs, exp);
    }
    CompoundRatio(c[i], c[i + 1], exp, ln);
  }

  /**
   * Compounding inverts the log-return feature: carrying the first close by the
   * series' own log returns (every row after the first) gives back every later
   * close.
   */
  lemma CompoundingInvertsLogReturns(c: seq<real>, exp: real -> real, ln: real -> real)
    requires LnLaws(exp, ln)
    requires |c| > 0 && forall t :: 0 <= t < |c| ==> c[t] > 0.0
    ensures AllSome(LogReturns(c, ln)[1..])
    ensures PricePath(c[0], Values(LogReturns(c, ln)[1..]), exp) == c[1..]
  {
    LogReturnsOfPositiveCloses(c, ln);
    var rs := Values(LogReturns(c, ln)[1..]);
    forall i | 0 <= i < |c| - 1 ensures PricePath(c[0], rs, exp)[i] == c[1..][i] {
      CompoundingInvertsAt(c, exp, ln, i);
    }
  }

  /* ---------- the page ---------- */

  /** What the page works from: the model and scaler loaded for the coin (None when loading failed) and its last year of daily bars. */
  datatype PageInput = PageInput(model: Option<Predictor>, scaler: Option<Scaler>, history: seq<Bar>)

  /**
   * The page after feature engineering: the last 60 rows scaled, one model
   * call, the decoded returns compounded off the last remaining close, dated
   * from the day after the last remaining row.
   */
  function ForecastFrom(predict: Predictor, sc: Scaler, table: seq<FeatureRow>, exp: real -> real): Result<Projection, PipelineError>
    requires Fitted(sc)
  {
    match LastWindow(table)
    case Err(e) => Err(e)
    case Ok(window) =>
      match Decoded(predict(TransformRows(sc, window)), sc)
      case Err(e) => Err(e)
      case Ok(rs) =>
        var last := table[|table| - 1].bar;
        var prices := PricePath(last.close, rs, exp);
        Ok(Projection(FutureDates(last.date, Horizon), prices, Changes(last.close, prices)))
  }

  /** The whole prediction: stop without assets, then features with the `where` gain rule and `dropna`. */
  function PagePrediction(p: PageInput, m: Transcendentals): Result<Projection, PipelineError>
    requires p.scaler.Some? ==> Fitted(p.scaler.value)
  {
    if p.model.None? || p.scaler.None? then Err(MissingArtifact)
    else ForecastFrom(p.model.value, p.scaler.value, FeatureTable(p.history, m.ln, Where), m.exp)
  }

  /** The page's window is the validation's window for the day after the last row. */
  lemma PageWindowIsNextDay(table: seq<FeatureRow>, sc: Scaler, predict: Predictor)
    requires Fitted(sc) && |table| >= Lookback
    ensures LastWindow(table).Ok?
    ensures predict(TransformRows(sc, LastWindow(table).value)) == OutputAt(table, |table|, sc, predict)
  {
    var n := |table|;
    var w, v := LastWindow(table).value, Vectors(table[n - Lookback..n]);
    forall k | 0 <= k < Lookback ensures w[k] == v[k] {
      assert table[n - Lookback + k] == table[n - Lookback..n][k];
    }
    assert w == v;
  }

  /**
   * After feature engineering, the page fails with fewer than 60 rows and
   * otherwise forecasts exactly when the model gives 1 or 7 outputs; a
   * forecast covers the seven consecutive days after the last row, and its
   * prices and changes are those of the decoded returns.
   */
  lemma ForecastFromFacts(predict: Predictor, sc: Scaler, table: seq<FeatureRow>, exp: real -> real)
    requires Fitted(sc)
    ensures var r := ForecastFrom(predict, sc, table, exp);
      && (r == Err(InsufficientHistory) <==> |table| < Lookback)
      && (r.Ok? <==> |table| >= Lookback && |OutputAt(table, |table|, sc, predict)| in {1, Horizon})
      && (r.Ok? ==>
            var last, rs := table[|table| - 1].bar, Decoded(OutputAt(table, |table|, sc, predict), sc).value;
            && |r.value.dates| == |r.value.prices| == |r.value.changes| == Horizon
            && (forall i :: 0 <= i < Horizon ==> r.value.dates[i] == last.date + i + 1)
            && r.value.prices == PricePath(last.close, rs, exp)
            && r.value.changes == Changes(last.close, r.value.prices))
  {
    if |table| >= Lookback {
      PageWindowIsNextDay(table, sc, predict);
    }
  }

  /**
   * The page stops without assets, fails with fewer than 60 complete rows,
   * and otherwise shows a forecast exactly when the model gives 1 or 7
   * outputs; the forecast covers the seven days after the last complete row,
   * with the prices and changes of the returns decoded from the model's
   * answer on the last 60 rows.
   */
  lemma PagePredictionFacts(p: PageInput, m: Transcendentals)
    requires p.scaler.Some? ==> Fitted(p.scaler.value)
    ensures var r, table := PagePrediction(p, m), FeatureTable(p.history, m.ln, Where);
      && (r == Err(MissingArtifact) <==> p.model.None? || p.scaler.None?)
      && (p.model.Some? && p.scaler.Some? ==>
            var sc, predict := p.scaler.value, p.model.value;
            && (r == Err(InsufficientHistory) <==> |table| < Lookback)
            && (r.Ok? <==> |table| >= Lookback && |OutputAt(table, |table|, sc, predict)| in {1, Horizon})
            && (r.Ok? ==>
                  var last, rs := table[|table| - 1].bar, Decoded(OutputAt(table, |table|, sc, predict), sc).value;
                  && |r.value.dates| == |r.value.prices| == |r.value.changes| == Horizon
                  && (forall i :: 0 <= i < Horizon ==> r.value.dates[i] == last.date + i + 1)
                  && r.value.prices == PricePath(last.close, rs, m.exp)
                  && r.value.changes == Changes(last.close, r.value.prices)))
  {
    if p.model.Some? && p.scaler.Some? {
      ForecastFromFacts(p.model.value, p.scaler.value, FeatureTable(p.history, m.ln, Where), m.exp);
    }
  }

  /** The page's steps in order: asset check, features, window, one model call, decoding, rollout. */
  method PredictPage(p: PageInput, m: Transcendentals) returns (r: Result<Projection, PipelineError>)
    requires p.scaler.Some? ==> Fitted(p.scaler.value)
    ensures r == PagePrediction(p, m)
  {
    if p.model.None? || p.scaler.None? {
      return Err(MissingArtifact);
    }
    var model, sc := p.model.value, p.scaler.value;
    var table := FeatureTable(p.history, m.ln, Where);
    var window := LastWindow(table);
    if window.Err? {
      return Err(window.error);
    }
    var out := model(TransformRows(sc, window.value));
    var logRets := DecodeOutputs(out, sc);
    if logRets.Err? {
      return Err(logRets.error);
    }
    var last := table[|table| - 1].bar;
    var projection := Rollout(last.date, last.close, logRets.value, m.exp);
    r := Ok(projection);
  }

  /* ---------- the table ---------- */

  /** The CSS class of a change cell. */
  datatype Tone = ChangeUp | ChangeDown

  /** One table row: date, formatted price, the change as computed, its class and whether a `+` is shown. */
  datatype TableRow = TableRow(date: int, price: PriceText, change: Option<real>, tone: Tone, plus: bool)

  /** `change >= 0` as Python evaluates it: false for NaN. */
  predicate NonNegative(c: Option<real>) {
    c.Some? && c.value >= 0.0
  }

  /** The table loop over the first seven forecast days. */
  method PredictionTable(p: Projection) returns (rows: seq<TableRow>)
    requires |p.dates| >= Horizon && |p.prices| >= Horizon && |p.changes| >= Horizon
    ensures |rows| == Horizon
    ensures forall i :: 0 <= i < Horizon ==>
      && rows[i].date == p.dates[i]
      && rows[i].price == FormatPrice(Some(p.prices[i]))
      && rows[i].change == p.changes[i]
      && (rows[i].tone == ChangeUp <==> NonNegative(p.changes[i]))
      && (rows[i].plus <==> rows[i].tone == ChangeUp)
  {
    rows := [];
    for i := 0 to Horizon
      invariant |rows| == i
      invariant forall k :: 0 <= k < i ==>
        && rows[k].date == p.dates[k]
        && rows[k].price == FormatPrice(Some(p.prices[k]))
        && rows[k].change == p.changes[k]
        && (rows[k].tone == ChangeUp <==> NonNegative(p.changes[k]))
        && (rows[k].plus <==> rows[k].tone == ChangeUp)
    {
      var changeVal := p.changes[i];
      var up := changeVal.Some? && changeVal.value >= 0.0;
      var tone := if up then ChangeUp else ChangeDown;
      rows := rows + [TableRow(p.dates[i], FormatPrice(Some(p.prices[i])), changeVal, tone, up)];
    }
  }

  /* ---------- the stored metrics shown above the forecast ---------- */

  /** `metrics.json` as loaded: any failure to read it gives `{}`. */
  function LoadMetrics(stored: Option<map<string, MetricsEntry>>): map<string, MetricsEntry> {
    if stored.Some? then stored.value else map[]
  }

  /** The coin's entry, or RMSE 0 and MAPE 0 when the coin has none. */
  function CoinMetrics(metrics: map<string, MetricsEntry>, coin: string): MetricsEntry {
    if coin in metrics then metrics[coin] else MetricsEntry(0.0, 0.0)
  }

  /**
   * The scores shown for a coin are the ones its own walk-forward validation
   * recorded, or zeros when it was skipped or not validated at all.
   */
  lemma ShownMetricsAreRecorded(ts: seq<TickerInput>, m: Transcendentals, coin: string)
    requires forall i :: 0 <= i < |ts| ==> Loadable(ts[i])
    requires DistinctTickers(ts)
    ensures var shown := CoinMetrics(LoadMetrics(Some(RecordAll(map[], ts, m))), coin);
      && (forall i :: 0 <= i < |ts| && ts[i].ticker == coin ==>
            shown == TickerEntry(ts[i], m).GetOr(MetricsEntry(0.0, 0.0)))
      && ((forall i :: 0 <= i < |ts| ==> ts[i].ticker != coin) ==> shown == MetricsEntry(0.0, 0.0))
  {
    RecordAllIsolation(ts, m);
  }

  /** Without a readable metrics file every coin shows zeros. */
  lemma MissingMetricsShowZeros(coin: string)
    ensures CoinMetrics(LoadMetrics(None), coin) == MetricsEntry(0.0, 0.0)
  {
  }
}
