/**
 * The analyses of src/analysis/price_analyzer.py over a price frame:
 * rolling volatility, z-score anomalies, the peak / off-peak ratio, the
 * day-by-day historical fetch and the hourly, daily and weekend patterns.
 * NaN and infinity results are spelled out as datatype cases; standard
 * deviations are carried as the variances they are the square roots of.
 */
module PriceAnalyzer {
  import opened Wrappers
  import opened Calendar
  import opened Prices
  import opened Rolling
  import PriceFetchers

  const RollingStdColumn: string := "rolling_std"
  const RollingRangeColumn: string := "rolling_range"
  const VolatilityRatioColumn: string := "volatility_ratio"
  const ZScoreColumn: string := "z_score"
  const IsAnomalyColumn: string := "is_anomaly"

  function PriceValues(rows: seq<PriceRecord>): (r: seq<real>)
    ensures |r| == |rows| && forall i :: 0 <= i < |rows| ==> r[i] == rows[i].price
  {
    seq(|rows|, i requires 0 <= i < |rows| => rows[i].price)
  }

  /** The frame carries both the `date` and the `price_€/MWh` column. */
  predicate HasDateAndPrice(df: PriceFrame)
  {
    DateColumn in df.columns && PriceColumn in df.columns
  }

  /** `df[name] = ...` on a frame: a new column goes last, an existing one keeps its place. */
  function AddColumn(columns: seq<string>, name: string): (r: seq<string>)
    ensures name in r && forall c :: c in columns ==> c in r
    ensures name in columns ==> r == columns
  {
    if name in columns then columns else columns + [name]
  }

  /** The columns without every occurrence of name. */
  function Without(columns: seq<string>, name: string): (r: seq<string>)
    ensures name !in r && forall c :: c in columns && c != name ==> c in r
  {
    if columns == [] then []
    else (if columns[0] == name then [] else [columns[0]]) + Without(columns[1..], name)
  }

  // ---------------------------------------------------------------------
  // analyze_price_volatility

  /**
   * `rolling_std / rolling_mean` after `fillna(0)`: NaN (a one-row window,
   * or 0 / 0) becomes 0, a non-zero deviation over a zero mean stays
   * +infinity, and otherwise the value is sqrt(variance) / mean.
   */
  datatype Ratio = Zero | PlusInfinity | StdOverMean(variance: real, mean: real)

  /** One output row: the record, the rolling variance (None is NaN), range and ratio. */
  datatype VolatilityRow = VolatilityRow(date: int, price: real, variance: Option<real>, range: real, ratio: Ratio)

  datatype VolatilityResult =
    | NoColumns                                                          // `pd.DataFrame()`
    | VolatilityFrame(columns: seq<string>, rows: seq<VolatilityRow>)
    | VolatilityRaises(error: string)                                    // pandas rejects the window

  function VolatilityRatio(variance: Option<real>, mean: real): (r: Ratio)
    ensures r == PlusInfinity <==> mean == 0.0 && variance.Some? && variance.value != 0.0
    ensures r == Zero <==> variance.None? || (mean == 0.0 && variance == Some(0.0))
    ensures r.StdOverMean? ==> r.mean == mean && mean != 0.0 && Some(r.variance) == variance
  {
    match variance
    case None => Zero
    case Some(v) =>
      if mean == 0.0 then (if v == 0.0 then Zero else PlusInfinity)
      else StdOverMean(v, mean)
  }

  /** Row i of the result: the window's sample variance, max - min, and the std-over-mean ratio. */
  function VolatilityRowAt(rows: seq<PriceRecord>, i: int, w: int): (r: VolatilityRow)
    requires 0 <= i < |rows| && 1 <= w
    ensures r.date == rows[i].date && r.price == rows[i].price
    ensures r.variance == SampleVariance(Window(PriceValues(rows), i, w))
    ensures r.range == RollingRange(PriceValues(rows), i, w)
    ensures r.ratio == VolatilityRatio(r.variance, RollingMean(PriceValues(rows), i, w))
  {
    var win := Window(PriceValues(rows), i, w);
    var variance := SampleVariance(win);
    VolatilityRow(rows[i].date, rows[i].price, variance, RollingRange(PriceValues(rows), i, w),
                  VolatilityRatio(variance, Mean(win)))
  }

  /**
   * `analyze_price_volatility`.  `window` is the caller's window size; None
   * falls back to `defaultWindow` (ANALYSIS_VOLATILITY_WINDOW_SIZE).
   */
  function AnalyzePriceVolatility(df: PriceFrame, window: Option<int>, defaultWindow: int): (r: VolatilityResult)
    ensures !HasDateAndPrice(df) <==> r == NoColumns
    ensures HasDateAndPrice(df) && df.rows == [] ==>
      r == VolatilityFrame([DateColumn, RollingStdColumn, RollingRangeColumn, VolatilityRatioColumn], [])
    ensures r.VolatilityRaises? <==>
      HasDateAndPrice(df) && df.rows != [] && (if window.Some? then window.value else defaultWindow) < 1
    ensures r.VolatilityFrame? && df.rows != [] ==>
      var w := if window.Some? then window.value else defaultWindow;
      && r.columns == [DateColumn] + Without(df.columns, DateColumn) + [RollingStdColumn, RollingRangeColumn, VolatilityRatioColumn]
      && |r.rows| == |df.rows|
      && forall i :: 0 <= i < |df.rows| ==>
           && r.rows[i].date == df.rows[i].date && r.rows[i].price == df.rows[i].price
           && r.rows[i].variance == SampleVariance(Window(PriceValues(df.rows), i, w))
           && r.rows[i].range == RollingRange(PriceValues(df.rows), i, w)
           && r.rows[i].ratio == VolatilityRatio(r.rows[i].variance, RollingMean(PriceValues(df.rows), i, w))
           && r.rows[i].range >= 0.0
           && (r.rows[i].variance.None? <==> i == 0 || w == 1)
           && (w == 1 ==> r.rows[i].range == 0.0 && r.rows[i].ratio == Zero)
  {
    var w := if window.Some? then window.value else defaultWindow;
    if !HasDateAndPrice(df) then NoColumns
    else if df.rows == [] then VolatilityFrame([DateColumn, RollingStdColumn, RollingRangeColumn, VolatilityRatioColumn], [])
    else if w < 1 then VolatilityRaises("ValueError")
    else
      VolatilityFrame([DateColumn] + Without(df.columns, DateColumn) + [RollingStdColumn, RollingRangeColumn, VolatilityRatioColumn],
                      seq(|df.rows|, i requires 0 <= i < |df.rows| => VolatilityRowAt(df.rows, i, w)))
  }

  /** Constant prices c show no volatility: every range is 0, every std 0 or NaN, and every ratio 0 or 0 / c. */
  lemma FlatPricesNoVolatility(df: PriceFrame, window: Option<int>, defaultWindow: int, c: real)
    requires HasDateAndPrice(df) && df.rows != [] && FlatPrices(df.rows, c)
    requires (if window.Some? then window.value else defaultWindow) >= 1
    ensures var r := AnalyzePriceVolatility(df, window, defaultWindow);
      && r.VolatilityFrame? && |r.rows| == |df.rows|
      && forall i :: 0 <= i < |r.rows| ==>
           && r.rows[i].range == 0.0
           && (r.rows[i].variance.None? || r.rows[i].variance == Some(0.0))
           && (r.rows[i].ratio == Zero || r.rows[i].ratio == StdOverMean(0.0, c))
  {
    var w := if window.Some? then window.value else defaultWindow;
    var r := AnalyzePriceVolatility(df, window, defaultWindow);
    var xs := PriceValues(df.rows);
    forall i | 0 <= i < |r.rows|
      ensures r.rows[i].range == 0.0
      ensures r.rows[i].variance.None? || r.rows[i].variance == Some(0.0)
      ensures r.rows[i].ratio == Zero || r.rows[i].ratio == StdOverMean(0.0, c)
    {
      FlatWindow(xs, i, w, c);
    }
  }

  lemma FlatWindow(xs: seq<real>, i: int, w: int, c: real)
    requires 0 <= i < |xs| && 1 <= w && forall k :: 0 <= k < |xs| ==> xs[k] == c
    ensures RollingRange(xs, i, w) == 0.0 && RollingMean(xs, i, w) == c
    ensures var v := SampleVariance(Window(xs, i, w)); v.None? || v == Some(0.0)
  {
    var win := Window(xs, i, w);
    assert forall k :: 0 <= k < |win| ==> win[k] == c;
    ConstantColumn(win, c);
    assert MinOf(win) == c && MaxOf(win) == c;
  }

  // ---------------------------------------------------------------------
  // detect_price_anomalies

  /** A z-score: 0 when the column's deviation is 0, else deviation / sqrt(variance) with variance > 0. */
  datatype ZScore = ZeroZ | Scaled(deviation: real, variance: real)

  /** d * d > t * t * v: for t >= 0 and v > 0, the same as |d| / sqrt(v) > t. */
  predicate SquareExceeds(d: real, t: real, v: real)
  {
    d * d > t * t * v
  }

  /** `abs(z) > threshold` */
  predicate Exceeds(z: ZScore, threshold: real)
  {
    match z
    case ZeroZ => threshold < 0.0
    case Scaled(d, v) => threshold < 0.0 || SquareExceeds(d, threshold, v)
  }

  datatype AnomalyRow = AnomalyRow(date: int, price: real, z: Option<ZScore>, isAnomaly: bool)

  datatype AnomalyResult = NoPriceColumn | AnomalyFrame(columns: seq<string>, rows: seq<AnomalyRow>)

  function ZScores(rows: seq<PriceRecord>, mean: real, variance: real, threshold: real): (r: seq<AnomalyRow>)
    ensures |r| == |rows|
    ensures forall i :: 0 <= i < |rows| ==>
      && r[i].date == rows[i].date && r[i].price == rows[i].price && r[i].z.Some?
      && r[i].z.value == (if variance == 0.0 then ZeroZ else Scaled(rows[i].price - mean, variance))
      && (r[i].isAnomaly <==> Exceeds(r[i].z.value, threshold))
  {
    seq(|rows|, i requires 0 <= i < |rows| =>
      var z := if variance == 0.0 then ZeroZ else Scaled(rows[i].price - mean, variance);
      AnomalyRow(rows[i].date, rows[i].price, Some(z), Exceeds(z, threshold)))
  }

  /**
   * `detect_price_anomalies`.  `threshold` None falls back to
   * `defaultThreshold` (ANALYSIS_ANOMALY_ZSCORE_THRESHOLD).
   */
  function DetectPriceAnomalies(df: PriceFrame, threshold: Option<real>, defaultThreshold: real): (r: AnomalyResult)
    ensures PriceColumn !in df.columns <==> r == NoPriceColumn
    ensures r.AnomalyFrame? ==>
      && |r.rows| == |df.rows|
      && (forall i :: 0 <= i < |df.rows| ==> r.rows[i].date == df.rows[i].date && r.rows[i].price == df.rows[i].price)
      && (|df.rows| < 2 ==>
            && r.columns == AddColumn(df.columns, IsAnomalyColumn)
            && forall i :: 0 <= i < |df.rows| ==> !r.rows[i].isAnomaly && r.rows[i].z.None?)
      && (|df.rows| >= 2 ==> r.columns == AddColumn(AddColumn(df.columns, ZScoreColumn), IsAnomalyColumn))
  {
    var t := if threshold.Some? then threshold.value else defaultThreshold;
    if PriceColumn !in df.columns then NoPriceColumn
    else if |df.rows| < 2 then
      AnomalyFrame(AddColumn(df.columns, IsAnomalyColumn),
                   seq(|df.rows|, i requires 0 <= i < |df.rows| => AnomalyRow(df.rows[i].date, df.rows[i].price, None, false)))
    else
      var prices := PriceValues(df.rows);
      AnomalyFrame(AddColumn(AddColumn(df.columns, ZScoreColumn), IsAnomalyColumn),
                   ZScores(df.rows, Mean(prices), SampleVariance(prices).value, t))
  }

  /**
   * With two or more rows and a threshold t >= 0, a row is flagged exactly
   * when its squared deviation from the column mean exceeds t * t times the
   * column variance; a column of equal prices flags nothing.
   */
  lemma AnomalyCriterion(df: PriceFrame, t: real, i: nat)
    requires PriceColumn in df.columns && 2 <= |df.rows| && i < |df.rows| && t >= 0.0
    ensures var prices := PriceValues(df.rows);
      var d := df.rows[i].price - Mean(prices);
      var v := SampleVariance(prices).value;
      DetectPriceAnomalies(df, Some(t), t).rows[i].isAnomaly <==> v != 0.0 && SquareExceeds(d, t, v)
  {
    var prices := PriceValues(df.rows);
    var v := SampleVariance(prices).value;
    var r := DetectPriceAnomalies(df, Some(t), t);
    var d := df.rows[i].price - Mean(prices);
    assert r.rows == ZScores(df.rows, Mean(prices), v, t);
    if v == 0.0 {
      assert r.rows[i].z.value == ZeroZ;
    } else {
      assert r.rows[i].z.value == Scaled(d, v);
      assert r.rows[i].isAnomaly <==> SquareExceeds(d, t, v);
    }
  }

  /** A column of equal prices has no anomaly at any threshold t >= 0. */
  lemma FlatPricesNoAnomaly(df: PriceFrame, t: real)
    requires PriceColumn in df.columns && t >= 0.0
    requires forall i :: 0 <= i < |df.rows| ==> df.rows[i].price == df.rows[0].price
    ensures forall i :: 0 <= i < |df.rows| ==> !DetectPriceAnomalies(df, Some(t), t).rows[i].isAnomaly
  {
    if 2 <= |df.rows| {
      ConstantColumn(PriceValues(df.rows), df.rows[0].price);
    }
  }

  /** Raising the threshold never flags more rows. */
  lemma AnomalyThresholdMonotone(df: PriceFrame, t1: real, t2: real, i: nat)
    requires PriceColumn in df.columns && i < |df.rows| && 0.0 <= t1 <= t2
    ensures DetectPriceAnomalies(df, Some(t2), t2).rows[i].isAnomaly ==>
            DetectPriceAnomalies(df, Some(t1), t1).rows[i].isAnomaly
  {
    if 2 <= |df.rows| {
      AnomalyCriterion(df, t1, i);
      AnomalyCriterion(df, t2, i);
      var prices := PriceValues(df.rows);
      SquareMonotone(df.rows[i].price - Mean(prices), t1, t2, SampleVariance(prices).value);
    }
  }

  lemma SquareMonotone(d: real, t1: real, t2: real, v: real)
    requires 0.0 <= t1 <= t2 && 0.0 <= v
    ensures SquareExceeds(d, t2, v) ==> SquareExceeds(d, t1, v)
  {
    assert t1 * t1 <= t2 * t2 by {
      assert t1 * t1 <= t1 * t2;
      assert t1 * t2 <= t2 * t2;
    }
    assert t1 * t1 * v <= t2 * t2 * v;
  }

  // ---------------------------------------------------------------------
  // calculate_peak_off_peak_ratio

  datatype PeakRatio = RatioNaN | RatioInfinity | RatioOf(value: real)

  /** Peak hours are start <= hour < end (ANALYSIS_PEAK_HOUR_START / _END). */
  predicate IsPeak(t: int, start: int, end: int)
  {
    start <= HourOf(t) < end
  }

  function PeakRows(rows: seq<PriceRecord>, start: int, end: int): (r: seq<PriceRecord>)
    ensures forall x :: x in r ==> x in rows && IsPeak(x.date, start, end)
    ensures forall i :: 0 <= i < |rows| && IsPeak(rows[i].date, start, end) ==> rows[i] in r
  {
    if rows == [] then []
    else (if IsPeak(rows[0].date, start, end) then [rows[0]] else []) + PeakRows(rows[1..], start, end)
  }

  function OffPeakRows(rows: seq<PriceRecord>, start: int, end: int): (r: seq<PriceRecord>)
    ensures forall x :: x in r ==> x in rows && !IsPeak(x.date, start, end)
    ensures forall i :: 0 <= i < |rows| && !IsPeak(rows[i].date, start, end) ==> rows[i] in r
  {
    if rows == [] then []
    else (if IsPeak(rows[0].date, start, end) then [] else [rows[0]]) + OffPeakRows(rows[1..], start, end)
  }

  /** Every row falls in exactly one of the two partitions. */
  lemma {:induction false} PeakPartition(rows: seq<PriceRecord>, start: int, end: int)
    ensures multiset(PeakRows(rows, start, end)) + multiset(OffPeakRows(rows, start, end)) == multiset(rows)
    ensures |PeakRows(rows, start, end)| + |OffPeakRows(rows, start, end)| == |rows|
  {
    if rows != [] {
      PeakPartition(rows[1..], start, end);
      assert rows == [rows[0]] + rows[1..];
    }
  }

  /** `calculate_peak_off_peak_ratio` */
  function CalculatePeakOffPeakRatio(df: PriceFrame, start: int, end: int): (r: PeakRatio)
    ensures !HasDateAndPrice(df) || df.rows == [] ==> r == RatioNaN
    ensures HasDateAndPrice(df) ==>
      var peak := PeakRows(df.rows, start, end);
      var off := OffPeakRows(df.rows, start, end);
      && (r == RatioNaN <==> peak == [] || off == [])
      && (r == RatioInfinity <==> peak != [] && off != [] && Mean(PriceValues(off)) == 0.0)
      && (r.RatioOf? ==> r.value == Mean(PriceValues(peak)) / Mean(PriceValues(off)))
  {
    if !HasDateAndPrice(df) || df.rows == [] then RatioNaN
    else
      var peak := PeakRows(df.rows, start, end);
      var off := OffPeakRows(df.rows, start, end);
      if peak == [] || off == [] then RatioNaN
      else
        var offMean := Mean(PriceValues(off));
        if offMean == 0.0 then RatioInfinity
        else RatioOf(Mean(PriceValues(peak)) / offMean)
  }

  // ---------------------------------------------------------------------
  // fetch_historical_prices

  /** The days the loop visits: start, start + 1 day, ... while not after end. */
  function Days(start: int, end: int): (r: seq<int>)
    ensures |r| == if start <= end then (end - start) / MinutesPerDay + 1 else 0
    ensures forall k :: 0 <= k < |r| ==> r[k] == start + k * 1440 && r[k] <= end
    decreases end - start
  {
    if start > end then []
    else [start] + Days(start + MinutesPerDay, end)
  }

  /** The frames kept, in day order: those returned non-empty; empty ones and raised errors are skipped. */
  function Collected(days: seq<int>, fetch: int -> PriceFetchers.Outcome): (r: seq<PriceFrame>)
    ensures |r| <= |days|
    ensures forall f :: f in r ==> f.rows != [] && exists k :: 0 <= k < |days| && fetch(days[k]) == PriceFetchers.Returned(f)
    ensures forall k :: 0 <= k < |days| && PriceFetchers.NonEmpty(fetch(days[k])) ==> fetch(days[k]).frame in r
  {
    if days == [] then []
    else
      var init := Collected(days[..|days| - 1], fetch);
      var o := fetch(days[|days| - 1]);
      assert forall k :: 0 <= k < |days| - 1 ==> days[..|days| - 1][k] == days[k];
      if PriceFetchers.NonEmpty(o) then init + [o.frame] else init
  }

  /**
   * The frame of a day that returned rows sits right after the frames of
   * the days before it: the kept frames are in day order.
   */
  lemma {:induction false} CollectedPosition(days: seq<int>, fetch: int -> PriceFetchers.Outcome, k: int)
    requires 0 <= k < |days| && PriceFetchers.NonEmpty(fetch(days[k]))
    ensures |Collected(days[..k], fetch)| < |Collected(days, fetch)|
    ensures Collected(days, fetch)[|Collected(days[..k], fetch)|] == fetch(days[k]).frame
  {
    var n := |days|;
    var init := days[..n - 1];
    var before := Collected(init, fetch);
    assert Collected(days, fetch)[..|before|] == before;
    if k < n - 1 {
      assert init[..k] == days[..k] && init[k] == days[k];
      CollectedPosition(init, fetch, k);
    } else {
      assert days[..k] == init;
    }
  }

  /** `pd.concat` columns: those of the first frame, then each new name in order of appearance. */
  function UnionColumns(a: seq<string>, b: seq<string>): (r: seq<string>)
    ensures |a| <= |r| && r[..|a|] == a
    ensures forall c :: c in r <==> c in a || c in b
    decreases |b|
  {
    if b == [] then a
    else if b[0] in a then UnionColumns(a, b[1..])
    else
      var r := UnionColumns(a + [b[0]], b[1..]);
      assert r[..|a|] == r[..|a| + 1][..|a|];
      r
  }

  /** `pd.concat(frames, ignore_index=True)` */
  function Concat(frames: seq<PriceFrame>): (r: PriceFrame)
    ensures |r.rows| == TotalRows(frames)
  {
    if frames == [] then PriceFrame([], [])
    else
      var init := Concat(frames[..|frames| - 1]);
      var last := frames[|frames| - 1];
      PriceFrame(if |frames| == 1 then last.columns else UnionColumns(init.columns, last.columns), init.rows + last.rows)
  }

  /** Row m of frame j lands at the total row count of the frames before j, plus m. */
  lemma {:induction false} ConcatAt(frames: seq<PriceFrame>, j: int, m: int)
    requires 0 <= j < |frames| && 0 <= m < |frames[j].rows|
    ensures TotalRows(frames[..j]) + m < |Concat(frames).rows|
    ensures Concat(frames).rows[TotalRows(frames[..j]) + m] == frames[j].rows[m]
  {
    var n := |frames|;
    var init := frames[..n - 1];
    var head, tail := Concat(init).rows, frames[n - 1].rows;
    assert Concat(frames).rows == head + tail;
    assert |head| == TotalRows(init);
    if j < n - 1 {
      assert init[..j] == frames[..j] && init[j] == frames[j];
      ConcatAt(init, j, m);
      assert TotalRows(init) <= TotalRows(frames);
    } else {
      assert frames[..j] == init;
    }
  }

  function TotalRows(frames: seq<PriceFrame>): nat
  {
    if frames == [] then 0 else TotalRows(frames[..|frames| - 1]) + |frames[|frames| - 1].rows|
  }

  /** What the loop returns for the frames it kept: every kept frame's rows, frame after frame. */
  function HistoricalResult(kept: seq<PriceFrame>): (r: PriceFrame)
    ensures kept == [] ==> r == EmptyPriceFrame()
    ensures kept != [] ==> |kept[0].columns| <= |r.columns| && r.columns[..|kept[0].columns|] == kept[0].columns
    ensures |r.rows| == TotalRows(kept)
    ensures forall j, m :: 0 <= j < |kept| && 0 <= m < |kept[j].rows| ==> PlacedAt(r.rows, kept, j, m)
  {
    if kept == [] then EmptyPriceFrame()
    else
      ConcatRows(kept);
      ConcatColumns(kept);
      Concat(kept)
  }

  /** Row m of frames[j] is at the total row count of the frames before it, plus m. */
  predicate PlacedAt(rows: seq<PriceRecord>, frames: seq<PriceFrame>, j: int, m: int)
    requires 0 <= j < |frames| && 0 <= m < |frames[j].rows|
  {
    var at := TotalRows(frames[..j]) + m;
    at < |rows| && rows[at] == frames[j].rows[m]
  }

  /** Every frame's rows appear in the concatenation, frame after frame. */
  lemma {:induction false} ConcatRows(frames: seq<PriceFrame>)
    ensures forall j, m :: 0 <= j < |frames| && 0 <= m < |frames[j].rows| ==> PlacedAt(Concat(frames).rows, frames, j, m)
  {
    forall j, m | 0 <= j < |frames| && 0 <= m < |frames[j].rows|
      ensures PlacedAt(Concat(frames).rows, frames, j, m)
    {
      ConcatAt(frames, j, m);
    }
  }

  /** The columns of a concatenation start with the first frame's. */
  lemma {:induction false} ConcatColumns(frames: seq<PriceFrame>)
    requires frames != []
    ensures |frames[0].columns| <= |Concat(frames).columns|
    ensures Concat(frames).columns[..|frames[0].columns|] == frames[0].columns
  {
    if |frames| > 1 {
      var init := frames[..|frames| - 1];
      ConcatColumns(init);
      assert init[0] == frames[0];
      var u := UnionColumns(Concat(init).columns, frames[|frames| - 1].columns);
      assert Concat(frames).columns == u;
      assert u[..|frames[0].columns|] == u[..|Concat(init).columns|][..|frames[0].columns|];
    }
  }

  /**
   * `fetch_historical_prices`: calls `fetch` once per day from start to end
   * inclusive, keeps the non-empty frames and concatenates them in day
   * order, or returns the empty two-column frame when none was kept.
   */
  method FetchHistoricalPrices(start: int, end: int, fetch: int -> PriceFetchers.Outcome)
    returns (df: PriceFrame, calls: seq<int>)
    ensures calls == Days(start, end)
    ensures df == HistoricalResult(Collected(calls, fetch))
  {
    var kept: seq<PriceFrame> := [];
    calls := [];
    var current := start;
    while current <= end
      invariant Days(start, end) == calls + Days(current, end)
      invariant kept == Collected(calls, fetch)
      decreases end - current
    {
      var outcome := fetch(current);
      CollectedStep(calls, current, fetch);
      if outcome.Returned? && outcome.frame.rows != [] {
        kept := kept + [outcome.frame];
      }
      DaysStep(start, end, calls, current);
      calls := calls + [current];
      current := current + MinutesPerDay;
    }
    assert Days(current, end) == [];
    assert calls + [] == calls;
    df := HistoricalResult(kept);
  }

  lemma CollectedStep(calls: seq<int>, day: int, fetch: int -> PriceFetchers.Outcome)
    ensures Collected(calls + [day], fetch) ==
      Collected(calls, fetch) + (if PriceFetchers.NonEmpty(fetch(day)) then [fetch(day).frame] else [])
  {
    assert (calls + [day])[..|calls|] == calls;
  }

  lemma DaysStep(start: int, end: int, calls: seq<int>, current: int)
    requires current <= end && Days(start, end) == calls + Days(current, end)
    ensures Days(start, end) == (calls + [current]) + Days(current + MinutesPerDay, end)
  {
    assert Days(current, end) == [current] + Days(current + MinutesPerDay, end);
  }

  // ---------------------------------------------------------------------
  // analyze_seasonal_patterns

  /** `dayofweek >= 5`: Saturday and Sunday. */
  predicate IsWeekend(t: int)
  {
    Weekday(t) >= 5
  }

  function Select(rows: seq<PriceRecord>, keep: PriceRecord -> bool): (r: seq<PriceRecord>)
    ensures |r| <= |rows|
    ensures forall x :: x in r ==> x in rows && keep(x)
    ensures forall i :: 0 <= i < |rows| && keep(rows[i]) ==> rows[i] in r
  {
    if rows == [] then []
    else (if keep(rows[0]) then [rows[0]] else []) + Select(rows[1..], keep)
  }

  /** The mean price of the rows, or NaN (None) when there are none. */
  function MeanOrNaN(rows: seq<PriceRecord>): (r: Option<real>)
    ensures r.None? <==> rows == []
    ensures r.Some? ==> IsMeanOf(r.value, PriceValues(rows))
  {
    if rows == [] then None else Some(Mean(PriceValues(rows)))
  }

  /** m is the mean of a non-empty group: the group's sum over its size, which lies within the group's range. */
  predicate IsMeanOf(m: real, g: seq<real>)
  {
    g != [] && m == Sum(g) / |g| as real && MinOf(g) <= m <= MaxOf(g)
  }

  datatype WeekendVsWeekday = WeekendVsWeekday(weekendAvg: Option<real>, weekdayAvg: Option<real>, ratio: Option<real>)

  datatype Seasonal =
    | NoSeasonalColumns                   // `{}`
    | Seasonal(hourly: map<int, real>, daily: map<string, real>, weekend: WeekendVsWeekday)

  function HoursPresent(rows: seq<PriceRecord>): (r: set<int>)
    ensures forall h :: h in r ==> 0 <= h < 24
    ensures forall h :: h in r <==> exists i :: 0 <= i < |rows| && HourOf(rows[i].date) == h
  {
    set i | 0 <= i < |rows| :: HourOf(rows[i].date)
  }

  function DaysPresent(rows: seq<PriceRecord>): (r: set<string>)
    ensures forall d :: d in r <==> exists i :: 0 <= i < |rows| && DayName(Weekday(rows[i].date)) == d
  {
    set i | 0 <= i < |rows| :: DayName(Weekday(rows[i].date))
  }

  /** The prices of the rows in hour h of the day. */
  function HourPrices(rows: seq<PriceRecord>, h: int): seq<real>
  {
    PriceValues(Select(rows, (x: PriceRecord) => HourOf(x.date) == h))
  }

  /** The prices of the rows on weekday d. */
  function DayPrices(rows: seq<PriceRecord>, d: string): seq<real>
  {
    PriceValues(Select(rows, (x: PriceRecord) => DayName(Weekday(x.date)) == d))
  }

  /** `groupby('hour').mean()`: one entry per hour present, the mean price of that hour's rows. */
  function HourlyPattern(rows: seq<PriceRecord>): (r: map<int, real>)
    ensures r.Keys == HoursPresent(rows)
    ensures forall h :: h in r ==> IsMeanOf(r[h], HourPrices(rows, h))
  {
    map h | h in HoursPresent(rows) :: HourMean(rows, h)
  }

  function HourMean(rows: seq<PriceRecord>, h: int): (m: real)
    requires h in HoursPresent(rows)
    ensures IsMeanOf(m, HourPrices(rows, h))
  {
    HourGroupNonEmpty(rows, h);
    Mean(HourPrices(rows, h))
  }

  /** `groupby('day_name').mean()`: one entry per weekday present, the mean price of that day's rows. */
  function DailyPattern(rows: seq<PriceRecord>): (r: map<string, real>)
    ensures r.Keys == DaysPresent(rows)
    ensures forall d :: d in r ==> IsMeanOf(r[d], DayPrices(rows, d))
  {
    map d | d in DaysPresent(rows) :: DayMean(rows, d)
  }

  function DayMean(rows: seq<PriceRecord>, d: string): (m: real)
    requires d in DaysPresent(rows)
    ensures IsMeanOf(m, DayPrices(rows, d))
  {
    DayGroupNonEmpty(rows, d);
    Mean(DayPrices(rows, d))
  }

  lemma HourGroupNonEmpty(rows: seq<PriceRecord>, h: int)
    requires h in HoursPresent(rows)
    ensures HourPrices(rows, h) != []
  {
    var i :| 0 <= i < |rows| && HourOf(rows[i].date) == h;
    assert rows[i] in Select(rows, (x: PriceRecord) => HourOf(x.date) == h);
  }

  lemma DayGroupNonEmpty(rows: seq<PriceRecord>, d: string)
    requires d in DaysPresent(rows)
    ensures DayPrices(rows, d) != []
  {
    var i :| 0 <= i < |rows| && DayName(Weekday(rows[i].date)) == d;
    assert rows[i] in Select(rows, (x: PriceRecord) => DayName(Weekday(x.date)) == d);
  }

  function WeekendRatio(weekendAvg: Option<real>, weekdayAvg: Option<real>): (r: Option<real>)
    ensures r.Some? <==> weekendAvg.Some? && weekdayAvg.Some? && weekdayAvg.value != 0.0
    ensures r.Some? ==> r.value == weekendAvg.value / weekdayAvg.value
  {
    if weekendAvg.Some? && weekdayAvg.Some? && weekdayAvg.value != 0.0 then
      Some(weekendAvg.value / weekdayAvg.value)
    else None
  }

  /** Every price of rows is c. */
  predicate FlatPrices(rows: seq<PriceRecord>, c: real)
  {
    forall i :: 0 <= i < |rows| ==> rows[i].price == c
  }

  /** The mean of a group all of whose prices are c is c. */
  lemma MeanOfFlat(rows: seq<PriceRecord>, keep: PriceRecord -> bool, m: real, c: real)
    requires FlatPrices(rows, c)
    requires IsMeanOf(m, PriceValues(Select(rows, keep)))
    ensures m == c
  {
    var g := PriceValues(Select(rows, keep));
    forall j | 0 <= j < |g| ensures g[j] == c {
      assert Select(rows, keep)[j] in rows;
    }
  }

  /** Constant prices give a flat seasonal profile: every hourly, daily, weekend and weekday average is that price. */
  lemma {:induction false} FlatPricesFlatPattern(df: PriceFrame, c: real)
    requires HasDateAndPrice(df) && FlatPrices(df.rows, c)
    ensures var r := AnalyzeSeasonalPatterns(df);
      && (forall h :: h in r.hourly ==> r.hourly[h] == c)
      && (forall d :: d in r.daily ==> r.daily[d] == c)
      && (r.weekend.weekendAvg.Some? ==> r.weekend.weekendAvg.value == c)
      && (r.weekend.weekdayAvg.Some? ==> r.weekend.weekdayAvg.value == c)
  {
    var r := AnalyzeSeasonalPatterns(df);
    forall h | h in r.hourly ensures r.hourly[h] == c {
      MeanOfFlat(df.rows, (x: PriceRecord) => HourOf(x.date) == h, r.hourly[h], c);
    }
    forall d | d in r.daily ensures r.daily[d] == c {
      MeanOfFlat(df.rows, (x: PriceRecord) => DayName(Weekday(x.date)) == d, r.daily[d], c);
    }
    if r.weekend.weekendAvg.Some? {
      MeanOfFlat(df.rows, (x: PriceRecord) => IsWeekend(x.date), r.weekend.weekendAvg.value, c);
    }
    if r.weekend.weekdayAvg.Some? {
      MeanOfFlat(df.rows, (x: PriceRecord) => !IsWeekend(x.date), r.weekend.weekdayAvg.value, c);
    }
  }

  /** `analyze_seasonal_patterns` */
  function AnalyzeSeasonalPatterns(df: PriceFrame): (r: Seasonal)
    ensures !HasDateAndPrice(df) <==> r == NoSeasonalColumns
    ensures r.Seasonal? ==>
      var weekend := Select(df.rows, (x: PriceRecord) => IsWeekend(x.date));
      var weekday := Select(df.rows, (x: PriceRecord) => !IsWeekend(x.date));
      && r.hourly.Keys == HoursPresent(df.rows)
      && r.daily.Keys == DaysPresent(df.rows)
      && (forall h :: h in r.hourly ==> IsMeanOf(r.hourly[h], HourPrices(df.rows, h)))
      && (forall d :: d in r.daily ==> IsMeanOf(r.daily[d], DayPrices(df.rows, d)))
      && (r.weekend.weekendAvg.None? <==> weekend == [])
      && (r.weekend.weekdayAvg.None? <==> weekday == [])
      && (r.weekend.weekendAvg.Some? ==> IsMeanOf(r.weekend.weekendAvg.value, PriceValues(weekend)))
      && (r.weekend.weekdayAvg.Some? ==> IsMeanOf(r.weekend.weekdayAvg.value, PriceValues(weekday)))
      && r.weekend.ratio == WeekendRatio(r.weekend.weekendAvg, r.weekend.weekdayAvg)
  {
    if !HasDateAndPrice(df) then NoSeasonalColumns
    else
      var weekendAvg := MeanOrNaN(Select(df.rows, (x: PriceRecord) => IsWeekend(x.date)));
      var weekdayAvg := MeanOrNaN(Select(df.rows, (x: PriceRecord) => !IsWeekend(x.date)));
      Seasonal(HourlyPattern(df.rows), DailyPattern(df.rows),
               WeekendVsWeekday(weekendAvg, weekdayAvg, WeekendRatio(weekendAvg, weekdayAvg)))
  }
}
