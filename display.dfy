/**
 * Display values of utils.py: the two number formatters and the per-ticker
 * arithmetic of the market summary. A formatter is modelled by the tier it
 * selects (the number shown, its scale suffix, its decimals, whether digits are
 * grouped), not by the digit string it renders.
 */
module Display {
  import opened Wrappers
  import opened Sequences
  import opened Indicators

  /* ---------- format_big_number ---------- */

  datatype Magnitude = Trillion | Billion | Million

  function Divisor(m: Magnitude): (d: real)
    ensures d >= 1_000_000.0
  {
    match m
    case Trillion => 1_000_000_000_000.0
    case Billion => 1_000_000_000.0
    case Million => 1_000_000.0
  }

  function Suffix(m: Magnitude): string {
    match m
    case Trillion => "T"
    case Billion => "B"
    case Million => "M"
  }

  /** `"-"`, a mantissa with two decimals and a scale suffix, or whole dollars with thousands separators. */
  datatype BigNumberText = Dash | Scaled(mantissa: real, magnitude: Magnitude) | WholeDollars(amount: real)

  /**
   * `format_big_number`: a missing or zero amount is a dash; otherwise the
   * largest magnitude the amount reaches scales it, and anything below a
   * million is shown whole.
   */
  function FormatBigNumber(num: Option<real>): (r: BigNumberText)
    ensures r.Dash? <==> num.None? || num.value == 0.0
    ensures r.Scaled? ==> r.mantissa * Divisor(r.magnitude) == num.value
    ensures r.Scaled? ==> 1.0 <= r.mantissa && (r.magnitude != Trillion ==> r.mantissa < 1000.0)
    ensures r.WholeDollars? ==> r.amount == num.value && r.amount < 1_000_000.0
  {
    if num.None? || num.value == 0.0 then Dash
    else
      var x := num.value;
      if x >= 1_000_000_000_000.0 then Scaled(x / 1_000_000_000_000.0, Trillion)
      else if x >= 1_000_000_000.0 then Scaled(x / 1_000_000_000.0, Billion)
      else if x >= 1_000_000.0 then Scaled(x / 1_000_000.0, Million)
      else WholeDollars(x)
  }

  /** Tiers by size: whole dollars, then M, B, T. */
  function BigNumberTier(r: BigNumberText): nat {
    match r
    case Dash => 0
    case WholeDollars(_) => 1
    case Scaled(_, Million) => 2
    case Scaled(_, Billion) => 3
    case Scaled(_, Trillion) => 4
  }

  /** A larger positive amount never gets a smaller scale suffix. */
  lemma BigNumberTierMonotone(x: real, y: real)
    requires 0.0 < x <= y
    ensures BigNumberTier(FormatBigNumber(Some(x))) <= BigNumberTier(FormatBigNumber(Some(y)))
  {
  }

  /* ---------- format_price ---------- */

  /** The `"$0.00"` sentinel, or the amount with a fixed number of decimals, grouped or not. */
  datatype PriceText = ZeroSentinel | Fixed(amount: real, decimals: nat, grouped: bool)

  /**
   * `format_price`: a missing or zero price is the sentinel; every other price
   * is shown as itself, with 12 decimals below 1e-7 (negative prices included),
   * 8 decimals below 1, and 2 grouped decimals from 1 up.
   */
  function FormatPrice(num: Option<real>): (r: PriceText)
    ensures r.ZeroSentinel? <==> num.None? || num.value == 0.0
    ensures r.Fixed? ==> r.amount == num.value
    ensures r.Fixed? ==> (r.decimals == 12 <==> r.amount < 0.000_000_1)
    ensures r.Fixed? ==> (r.decimals == 8 <==> 0.000_000_1 <= r.amount < 1.0)
    ensures r.Fixed? ==> (r.decimals == 2 <==> 1.0 <= r.amount)
    ensures r.Fixed? ==> (r.grouped <==> r.decimals == 2)
  {
    if num.None? || num.value == 0.0 then ZeroSentinel
    else if num.value < 0.000_000_1 then Fixed(num.value, 12, false)
    else if num.value < 1.0 then Fixed(num.value, 8, false)
    else Fixed(num.value, 2, true)
  }

  /** A larger positive price is never shown with more decimals. */
  lemma PriceDecimalsMonotone(x: real, y: real)
    requires 0.0 < x <= y
    ensures FormatPrice(Some(y)).decimals <= FormatPrice(Some(x)).decimals
  {
  }

  /* ---------- get_market_summary ---------- */

  /** What a ticker's `info` call and daily history give; `info` is `{}` when the call failed. */
  datatype TickerSnapshot = TickerSnapshot(ticker: string, info: map<string, real>, history: seq<Bar>)

  datatype SummaryRow = SummaryRow(ticker: string, price: real, change: real, atl: real,
                                   marketCap: real, volume: real)

  /** `info.get(key)` read as a Python truth value: missing or zero is falsy. */
  function Truthy(info: map<string, real>, key: string): Option<real> {
    if key in info && info[key] != 0.0 then Some(info[key]) else None
  }

  function GetOr(info: map<string, real>, key: string, default: real): real {
    if key in info then info[key] else default
  }

  /** `currentPrice or regularMarketPrice or` the last close. */
  function CurrentPrice(s: TickerSnapshot): real
    requires |s.history| > 0
  {
    Truthy(s.info, "currentPrice").GetOr(
      Truthy(s.info, "regularMarketPrice").GetOr(s.history[|s.history| - 1].close))
  }

  /** `previousClose or regularMarketPreviousClose or` the close before last, which raises on a one-day history. */
  function PreviousClose(s: TickerSnapshot): Option<real>
    requires |s.history| > 0
  {
    var a, b := Truthy(s.info, "previousClose"), Truthy(s.info, "regularMarketPreviousClose");
    if a.Some? then a
    else if b.Some? then b
    else if |s.history| >= 2 then Some(s.history[|s.history| - 2].close)
    else None
  }

  /** The day's change in percent: relative to a positive previous close, otherwise exactly 0. */
  function ChangePct(price: real, prev: real): (r: real)
    ensures prev <= 0.0 ==> r == 0.0
    ensures prev > 0.0 ==> prev + r * prev / 100.0 == price
    ensures prev > 0.0 ==> (r > 0.0 <==> price > prev) && (r < 0.0 <==> price < prev)
  {
    if prev > 0.0 then (price - prev) / prev * 100.0 else 0.0
  }

  /** The all-time low: the least strictly positive low, or 0 when there is none. */
  function AllTimeLow(lows: seq<real>): (r: real)
    ensures r >= 0.0
    ensures r == 0.0 <==> forall i :: 0 <= i < |lows| ==> lows[i] <= 0.0
    ensures r > 0.0 ==> r in lows
    ensures forall i :: 0 <= i < |lows| && lows[i] > 0.0 ==> r <= lows[i]
  {
    if lows == [] then 0.0
    else
      var init := lows[..|lows| - 1];
      var rest := AllTimeLow(init);
      var x := lows[|lows| - 1];
      assert forall i :: 0 <= i < |init| ==> init[i] == lows[i];
      assert rest > 0.0 ==> rest in lows;
      if x <= 0.0 then rest
      else if rest == 0.0 || x < rest then x
      else rest
  }

  function Lows(bars: seq<Bar>): (l: seq<real>)
    ensures |l| == |bars| && forall i :: 0 <= i < |bars| ==> l[i] == bars[i].low
  {
    seq(|bars|, i requires 0 <= i < |bars| => bars[i].low)
  }

  /** One ticker's summary row; an empty history is skipped and so is a ticker whose fallback raises. */
  function SummaryEntry(s: TickerSnapshot): Option<SummaryRow> {
    if |s.history| == 0 then None
    else
      var prev := PreviousClose(s);
      if prev.None? then None
      else
        var price := CurrentPrice(s);
        var volume := Truthy(s.info, "volume24Hr").GetOr(GetOr(s.info, "volume", 0.0));
        Some(SummaryRow(s.ticker, price, ChangePct(price, prev.value), AllTimeLow(Lows(s.history)),
                        GetOr(s.info, "marketCap", 0.0), volume))
  }

  /** The loop over tickers: each usable ticker appends its row, in ticker order. */
  method MarketSummary(snapshots: seq<TickerSnapshot>) returns (rows: seq<SummaryRow>)
    ensures rows == FilterMap(snapshots, SummaryEntry)
    ensures |rows| <= |snapshots|
    ensures forall k :: 0 <= k < |rows| ==>
      SummaryEntry(snapshots[Kept(snapshots, SummaryEntry)[k]]) == Some(rows[k])
  {
    rows := [];
    var i := 0;
    while i < |snapshots|
      invariant 0 <= i <= |snapshots|
      invariant rows == FilterMap(snapshots[..i], SummaryEntry)
    {
      assert snapshots[..i + 1][..i] == snapshots[..i];
      var entry := SummaryEntry(snapshots[i]);
      if entry.Some? {
        rows := rows + [entry.value];
      }
      i := i + 1;
    }
    assert snapshots[..i] == snapshots;
    IncreasingPositionsBound(Kept(snapshots, SummaryEntry), 0, |snapshots|);
  }

  /** A row's change is relative to the close it fell back to, and its low is a real positive low of the history. */
  lemma SummaryEntryFacts(s: TickerSnapshot)
    requires SummaryEntry(s).Some?
    ensures var row := SummaryEntry(s).value;
      && row.ticker == s.ticker
      && |s.history| > 0
      && (row.atl > 0.0 ==> exists i :: 0 <= i < |s.history| && s.history[i].low == row.atl)
      && (forall i :: 0 <= i < |s.history| && s.history[i].low > 0.0 ==> row.atl <= s.history[i].low)
      && (row.atl == 0.0 <==> forall i :: 0 <= i < |s.history| ==> s.history[i].low <= 0.0)
  {
    var lows := Lows(s.history);
    var atl := AllTimeLow(lows);
    if atl > 0.0 {
      var i :| 0 <= i < |lows| && lows[i] == atl;
      assert s.history[i].low == atl;
    }
  }
}
