/**
 * The risk page's computations: the bounded retry around an API call, simple
 * returns, percentile value-at-risk and its conditional tail mean, maximum
 * drawdown from the running maximum of cumulative returns, the
 * all-or-nothing GARCH family fit, the lowest-AIC model choice and the
 * 14-day limit on the requested range.
 */
module VolatilityRisk {
  import opened Wrappers
  import Rolling
  import opened Calendar
  import opened Reals

  // ---------------------------------------------------------------------
  // safe_api_call

  /** The client call a dataset code selects. */
  datatype Request = ActualTotalLoad | MidPrice | FuelOutturnSummary

  function RequestFor(dataset: string): Request
  {
    if dataset == "ATL" then ActualTotalLoad
    else if dataset == "MID" then MidPrice
    else FuelOutturnSummary
  }

  /** One attempt at a call: the data it returned, or the exception it raised. */
  datatype Attempt<T> = Succeeded(data: T) | Failed(error: string)

  /**
   * At most `maxRetries` attempts of the call the dataset selects; the
   * first success is returned at once, and after the last failure (or with
   * no attempt at all) the result is None. `call(request, k)` is what
   * attempt number k gets back.
   */
  method SafeApiCall<T>(dataset: string, maxRetries: int, call: (Request, nat) -> Attempt<T>)
    returns (r: Option<T>, attempts: nat)
    ensures attempts <= if maxRetries > 0 then maxRetries else 0
    ensures forall k: nat :: k + 1 < attempts ==> call(RequestFor(dataset), k).Failed?
    ensures r.Some? ==> 1 <= attempts && call(RequestFor(dataset), attempts - 1) == Succeeded(r.value)
    ensures r.None? ==> attempts == (if maxRetries > 0 then maxRetries else 0)
    ensures r.None? ==> forall k: nat :: k < attempts ==> call(RequestFor(dataset), k).Failed?
  {
    var request := RequestFor(dataset);
    var attempt: nat := 0;
    attempts := 0;
    while attempt < maxRetries
      invariant attempts == attempt
      invariant attempt <= if maxRetries > 0 then maxRetries else 0
      invariant forall k: nat :: k < attempt ==> call(request, k).Failed?
    {
      attempts := attempts + 1;
      var outcome := call(request, attempt);
      if outcome.Succeeded? {
        return Some(outcome.data), attempts;
      }
      if attempt == maxRetries - 1 {
        return None, attempts;
      }
      attempt := attempt + 1;
    }
    r := None;
  }

  // ---------------------------------------------------------------------
  // calculate_returns, simple branch

  /** A floating-point quotient: a real, or what division by zero gives. */
  datatype Num = Finite(value: real) | NaN | NegInf | PosInf

  /** IEEE division of two reals. */
  function Divide(a: real, b: real): (r: Num)
    ensures r.Finite? <==> b != 0.0
    ensures r.NaN? <==> b == 0.0 && a == 0.0
    ensures r.NegInf? <==> b == 0.0 && a < 0.0
  {
    if b != 0.0 then Finite(a / b)
    else if a == 0.0 then NaN
    else if a < 0.0 then NegInf
    else PosInf
  }

  /** `pct_change` at one step: p / prev - 1, infinite after a zero price and NaN for 0 / 0. */
  function PctChange(prev: real, p: real): Num
  {
    match Divide(p, prev)
    case Finite(q) => Finite(q - 1.0)
    case other => other
  }

  /** `prices.pct_change().dropna()`: one entry per step, NaN steps dropped. */
  function SimpleReturns(prices: seq<real>): (r: seq<Num>)
    ensures |r| <= if |prices| > 0 then |prices| - 1 else 0
    ensures forall i :: 0 <= i < |r| ==> !r[i].NaN?
  {
    if |prices| < 2 then []
    else
      var n := |prices|;
      var step := PctChange(prices[n - 2], prices[n - 1]);
      SimpleReturns(prices[..n - 1]) + if step.NaN? then [] else [step]
  }

  /** Without zero prices every step survives: n prices give n - 1 finite returns p[i+1] / p[i] - 1. */
  lemma {:induction false} ReturnsOfNonZero(prices: seq<real>)
    requires forall i :: 0 <= i < |prices| ==> prices[i] != 0.0
    ensures |SimpleReturns(prices)| == if |prices| > 0 then |prices| - 1 else 0
    ensures forall i :: 0 <= i < |SimpleReturns(prices)| ==>
      SimpleReturns(prices)[i] == Finite(prices[i + 1] / prices[i] - 1.0)
  {
    if |prices| >= 2 {
      var n := |prices|;
      var init := prices[..n - 1];
      ReturnsOfNonZero(init);
      assert forall i :: 0 <= i < |init| ==> init[i] == prices[i];
    }
  }

  // ---------------------------------------------------------------------
  // np.percentile with linear interpolation

  predicate Sorted(s: seq<real>)
  {
    forall i, j :: 0 <= i <= j < |s| ==> s[i] <= s[j]
  }

  function InsertSorted(x: real, s: seq<real>): (r: seq<real>)
    requires Sorted(s)
    ensures Sorted(r) && multiset(r) == multiset(s) + multiset{x}
    ensures forall i :: 0 <= i < |r| ==> r[i] == x || r[i] in s
  {
    if s == [] then [x]
    else if x <= s[0] then [x] + s
    else
      var rest := InsertSorted(x, s[1..]);
      assert s == [s[0]] + s[1..];
      [s[0]] + rest
  }

  /** The ascending rearrangement of a sample. */
  function SortReals(xs: seq<real>): (r: seq<real>)
    ensures Sorted(r) && multiset(r) == multiset(xs)
  {
    if xs == [] then []
    else
      var n := |xs|;
      assert xs == xs[..n - 1] + [xs[n - 1]];
      InsertSorted(xs[n - 1], SortReals(xs[..n - 1]))
  }

  /** The value at fractional position h of s, interpolating between its neighbours. */
  function Interpolate(s: seq<real>, h: real): (r: real)
    requires s != [] && 0.0 <= h <= (|s| - 1) as real
  {
    var lo := h.Floor;
    if lo + 1 < |s| then s[lo] + Scale(h - lo as real, s[lo + 1] - s[lo]) else s[lo]
  }

  /** On a sorted sample the interpolated value lies between the two neighbours. */
  lemma InterpolateBetween(s: seq<real>, h: real)
    requires Sorted(s) && s != [] && 0.0 <= h <= (|s| - 1) as real
    ensures s[h.Floor] <= Interpolate(s, h)
    ensures h.Floor + 1 < |s| ==> Interpolate(s, h) <= s[h.Floor + 1]
  {
    var lo := h.Floor;
    if lo + 1 < |s| {
      ScaleBelow(h - lo as real, s[lo + 1] - s[lo]);
    }
  }

  /** Interpolation in a sorted sample grows with the position. */
  lemma InterpolateMonotone(s: seq<real>, h1: real, h2: real)
    requires Sorted(s) && s != []
    requires 0.0 <= h1 <= h2 <= (|s| - 1) as real
    ensures Interpolate(s, h1) <= Interpolate(s, h2)
  {
    var lo1, lo2 := h1.Floor, h2.Floor;
    InterpolateBetween(s, h1);
    InterpolateBetween(s, h2);
    if lo1 == lo2 {
      if lo1 + 1 < |s| {
        var d := s[lo1 + 1] - s[lo1];
        ScaleMonotone(h1 - lo1 as real, h2 - lo1 as real, d);
        assert Interpolate(s, h1) == s[lo1] + Scale(h1 - lo1 as real, d);
        assert Interpolate(s, h2) == s[lo1] + Scale(h2 - lo1 as real, d);
      }
    } else {
      assert lo1 + 1 <= lo2;
    }
  }

  /** Position of the q-th percentile among n sorted values. */
  function Position(n: nat, q: real): (h: real)
    requires n >= 1 && 0.0 <= q <= 100.0
    ensures 0.0 <= h <= (n - 1) as real
  {
    var f, d := q / 100.0, (n - 1) as real;
    ScaleBelow(f, d);
    Scale(f, d)
  }

  /** `np.percentile(xs, q)` of a non-empty sample: some value lies at or below it and some at or above. */
  function Percentile(xs: seq<real>, q: real): (r: real)
    requires xs != [] && 0.0 <= q <= 100.0
    ensures exists i :: 0 <= i < |xs| && xs[i] <= r
    ensures exists i :: 0 <= i < |xs| && r <= xs[i]
  {
    var s := SortReals(xs);
    assert |s| == |multiset(s)| == |multiset(xs)| == |xs|;
    var h := Position(|xs|, q);
    InterpolateBetween(s, h);
    assert s[0] in multiset(xs) && s[|s| - 1] in multiset(xs);
    Interpolate(s, h)
  }

  lemma PositionMonotone(n: nat, q1: real, q2: real)
    requires n >= 1 && 0.0 <= q1 <= q2 <= 100.0
    ensures Position(n, q1) <= Position(n, q2)
  {
    var d := (n - 1) as real;
    ScaleMonotone(q1 / 100.0, q2 / 100.0, d);
    assert Position(n, q1) == Scale(q1 / 100.0, d);
    assert Position(n, q2) == Scale(q2 / 100.0, d);
  }

  /** A lower percentile of the same sample is never above a higher one. */
  lemma PercentileMonotone(xs: seq<real>, q1: real, q2: real)
    requires xs != [] && 0.0 <= q1 <= q2 <= 100.0
    ensures Percentile(xs, q1) <= Percentile(xs, q2)
  {
    PositionMonotone(|xs|, q1, q2);
    var s := SortReals(xs);
    assert |s| == |multiset(s)| == |multiset(xs)| == |xs|;
    InterpolateMonotone(SortReals(xs), Position(|xs|, q1), Position(|xs|, q2));
  }

  // ---------------------------------------------------------------------
  // Conditional value-at-risk

  /** `returns[returns <= v]`: the returns at or below v, in order. */
  function Tail(xs: seq<real>, v: real): (r: seq<real>)
    ensures forall i :: 0 <= i < |r| ==> r[i] <= v && r[i] in xs
    ensures forall i :: 0 <= i < |xs| && xs[i] <= v ==> xs[i] in r
  {
    if xs == [] then []
    else
      var n := |xs|;
      var init := Tail(xs[..n - 1], v);
      assert forall i :: 0 <= i < n - 1 ==> xs[i] == xs[..n - 1][i];
      init + if xs[n - 1] <= v then [xs[n - 1]] else []
  }

  /** The mean of the tail at or below v; NaN (None) when that tail is empty. */
  function ConditionalVaR(xs: seq<real>, v: real): (r: Option<real>)
    ensures r.Some? <==> exists i :: 0 <= i < |xs| && xs[i] <= v
    ensures r.Some? ==> r.value <= v
  {
    var tail := Tail(xs, v);
    if tail == [] then None
    else
      var top := Rolling.MaxOf(tail);
      assert top <= v;
      Some(Rolling.Mean(tail))
  }

  // ---------------------------------------------------------------------
  // Maximum drawdown

  /** Entry i of `(1 + returns).cumprod()`: the product of 1 + r over steps 0..i. */
  function Compound(rs: seq<real>, i: nat): real
    requires i < |rs|
  {
    (if i == 0 then 1.0 else Compound(rs, i - 1)) * (1.0 + rs[i])
  }

  /** `(1 + returns).cumprod()`. */
  function CumProd(rs: seq<real>): (c: seq<real>)
    ensures |c| == |rs| && forall i :: 0 <= i < |rs| ==> c[i] == Compound(rs, i)
  {
    seq(|rs|, i requires 0 <= i < |rs| => Compound(rs, i))
  }

  lemma ProductPositive(a: real, b: real)
    requires a > 0.0 && b > 0.0
    ensures a * b > 0.0
  {
  }

  /** While every 1 + r stays positive, so does the cumulative product. */
  lemma {:induction false} CompoundPositive(rs: seq<real>, i: nat)
    requires i < |rs|
    requires forall k :: 0 <= k < |rs| ==> 1.0 + rs[k] > 0.0
    ensures Compound(rs, i) > 0.0
  {
    if i > 0 {
      CompoundPositive(rs, i - 1);
      ProductPositive(Compound(rs, i - 1), 1.0 + rs[i]);
    }
  }

  /** Once the cumulative product reaches zero it stays there. */
  lemma {:induction false} CompoundZero(rs: seq<real>, i: nat, j: nat)
    requires i <= j < |rs| && Compound(rs, i) == 0.0
    ensures Compound(rs, j) == 0.0
  {
    if i < j {
      CompoundZero(rs, i, j - 1);
      assert Compound(rs, j) == Compound(rs, j - 1) * (1.0 + rs[j]);
    }
  }

  /** The finite returns of prices without zeros: n - 1 of them, entry i being p[i+1] / p[i] - 1. */
  lemma ReturnValues(prices: seq<real>)
    requires forall k :: 0 <= k < |prices| ==> prices[k] != 0.0
    ensures |Values(SimpleReturns(prices))| == if |prices| > 0 then |prices| - 1 else 0
    ensures forall i :: 0 <= i < |prices| - 1 ==>
      Values(SimpleReturns(prices))[i] == prices[i + 1] / prices[i] - 1.0
  {
    ReturnsOfNonZero(prices);
    var r := SimpleReturns(prices);
    forall i | 0 <= i < |r|
      ensures r[i].Finite?
    {
      assert r[i] == Finite(prices[i + 1] / prices[i] - 1.0);
    }
  }

  /** Simple returns compound back to prices: the cumulative product at step i is p[i+1] / p[0]. */
  lemma CompoundOfReturns(prices: seq<real>, i: nat)
    requires forall k :: 0 <= k < |prices| ==> prices[k] != 0.0
    requires i + 1 < |prices|
    ensures |Values(SimpleReturns(prices))| == |prices| - 1
    ensures Compound(Values(SimpleReturns(prices)), i) == prices[i + 1] / prices[0]
  {
    ReturnValues(prices);
    Telescoping(Values(SimpleReturns(prices)), prices, i);
  }

  /** Compounding the step returns of a series p gives p[i+1] / p[0]. */
  lemma {:induction false} Telescoping(rs: seq<real>, p: seq<real>, i: nat)
    requires |p| == |rs| + 1 && i < |rs|
    requires forall k :: 0 <= k < |p| ==> p[k] != 0.0
    requires forall k :: 0 <= k < |rs| ==> rs[k] == p[k + 1] / p[k] - 1.0
    ensures Compound(rs, i) == p[i + 1] / p[0]
  {
    if i == 0 {
      assert 1.0 * (1.0 + rs[0]) == p[1] / p[0];
    } else {
      Telescoping(rs, p, i - 1);
      TelescopeStep(p[0], p[i], p[i + 1], Compound(rs, i - 1), rs[i]);
    }
  }

  lemma TelescopeStep(p0: real, p: real, next: real, c: real, r: real)
    requires p0 != 0.0 && p != 0.0
    requires c == p / p0 && r == next / p - 1.0
    ensures c * (1.0 + r) == next / p0
  {
    assert 1.0 + r == next / p;
    assert (p / p0) * (next / p) * p0 * p == next * p;
  }

  /** The finite values of a sequence of returns. */
  function Values(rs: seq<Num>): (r: seq<real>)
    ensures |r| <= |rs|
    ensures (forall i :: 0 <= i < |rs| ==> rs[i].Finite?) ==>
      |r| == |rs| && forall i :: 0 <= i < |rs| ==> r[i] == rs[i].value
  {
    if rs == [] then []
    else
      var n := |rs|;
      var init := Values(rs[..n - 1]);
      assert forall i :: 0 <= i < n - 1 ==> rs[..n - 1][i] == rs[i];
      init + if rs[n - 1].Finite? then [rs[n - 1].value] else []
  }

  /** Entry i of `expanding().max()`: the largest of xs[0..i]. */
  function RunMax(xs: seq<real>, i: nat): (m: real)
    requires i < |xs|
    ensures forall j :: 0 <= j <= i ==> xs[j] <= m
    ensures exists j :: 0 <= j <= i && m == xs[j]
  {
    if i == 0 then xs[0]
    else
      var prev := RunMax(xs, i - 1);
      if prev < xs[i] then xs[i] else prev
  }

  /** `(cumulative - running_max) / running_max` at step i of a cumulative series c. */
  function DrawdownAt(c: seq<real>, i: nat): Num
    requires i < |c|
  {
    Divide(c[i] - RunMax(c, i), RunMax(c, i))
  }

  /** The drawdown at every step of a cumulative series c. */
  function DrawdownsOf(c: seq<real>): (d: seq<Num>)
    ensures |d| == |c| && forall i :: 0 <= i < |c| ==> d[i] == DrawdownAt(c, i)
  {
    seq(|c|, i requires 0 <= i < |c| => DrawdownAt(c, i))
  }

  /** The drawdowns of a series of returns. */
  function Drawdowns(rs: seq<real>): (d: seq<Num>)
    ensures |d| == |rs|
  {
    DrawdownsOf(CumProd(rs))
  }

  /** The smaller of two values as pandas' `min` sees them: NaN is skipped. */
  function Lesser(a: Num, b: Num): (r: Num)
    ensures r == a || r == b
    ensures r.NaN? <==> a.NaN? && b.NaN?
    ensures r.NegInf? <==> a.NegInf? || b.NegInf?
    ensures r.PosInf? ==> (a.NaN? || a.PosInf?) && (b.NaN? || b.PosInf?)
    ensures r.Finite? ==> (a.Finite? ==> r.value <= a.value) && (b.Finite? ==> r.value <= b.value)
  {
    if a.NaN? then b
    else if b.NaN? then a
    else if a.NegInf? || b.NegInf? then NegInf
    else if a.PosInf? then b
    else if b.PosInf? then a
    else if a.value <= b.value then a else b
  }

  /** `Series.min()`: NaN only when every entry is NaN, otherwise the least non-NaN entry. */
  function MinSkipNaN(xs: seq<Num>): (r: Num)
    ensures r.NaN? <==> forall i :: 0 <= i < |xs| ==> xs[i].NaN?
    ensures r.NegInf? <==> exists i :: 0 <= i < |xs| && xs[i].NegInf?
    ensures r.PosInf? ==> forall i :: 0 <= i < |xs| ==> xs[i].NaN? || xs[i].PosInf?
    ensures r.Finite? ==> exists i :: 0 <= i < |xs| && xs[i] == r
    ensures r.Finite? ==> forall i :: 0 <= i < |xs| && xs[i].Finite? ==> r.value <= xs[i].value
  {
    if xs == [] then NaN
    else
      var n := |xs|;
      var init := MinSkipNaN(xs[..n - 1]);
      assert forall i :: 0 <= i < n - 1 ==> xs[..n - 1][i] == xs[i];
      Lesser(init, xs[n - 1])
  }

  /** `drawdown.min()`. */
  function MaxDrawdown(rs: seq<real>): Num
  {
    MinSkipNaN(Drawdowns(rs))
  }

  lemma RatioBelowZero(c: real, m: real)
    requires 0.0 < c <= m
    ensures Divide(c - m, m).Finite? && -1.0 < Divide(c - m, m).value <= 0.0
  {
    var q := (c - m) / m;
    assert q * m == c - m;
    if q > 0.0 {
      ProductPositive(q, m);
    }
    if q <= -1.0 {
      ScaleMonotone(q, -1.0, m);
    }
  }

  /** A zero denominator with a non-zero numerator is the only way to an infinite quotient. */
  lemma QuotientNotNegInf(a: real, b: real)
    requires b == 0.0 ==> a == 0.0
    ensures !Divide(a, b).NegInf?
  {
  }

  /** A series that stays at 0 once it reaches 0, as a cumulative product does. */
  predicate ZeroAbsorbing(c: seq<real>)
  {
    forall j, k :: 0 <= j <= k < |c| && c[j] == 0.0 ==> c[k] == 0.0
  }

  lemma CumProdAbsorbsZero(rs: seq<real>)
    ensures ZeroAbsorbing(CumProd(rs))
  {
    forall j, k | 0 <= j <= k < |rs| && CumProd(rs)[j] == 0.0
      ensures CumProd(rs)[k] == 0.0
    {
      CompoundZero(rs, j, k);
    }
  }

  lemma PositiveProducts(rs: seq<real>)
    requires forall i :: 0 <= i < |rs| ==> 1.0 + rs[i] > 0.0
    ensures forall i :: 0 <= i < |rs| ==> CumProd(rs)[i] > 0.0
  {
    forall i | 0 <= i < |rs|
      ensures CumProd(rs)[i] > 0.0
    {
      CompoundPositive(rs, i);
    }
  }

  /** Over a positive series every drawdown is finite and in (-1, 0]. */
  lemma PositiveDrawdowns(c: seq<real>, i: nat)
    requires i < |c| && forall k :: 0 <= k < |c| ==> c[k] > 0.0
    ensures DrawdownsOf(c)[i].Finite? && -1.0 < DrawdownsOf(c)[i].value <= 0.0
  {
    RatioBelowZero(c[i], RunMax(c, i));
  }

  /** With every 1 + r positive, each drawdown is finite and in (-1, 0], and so is the maximum drawdown. */
  lemma DrawdownNonPositive(rs: seq<real>)
    requires rs != []
    requires forall i :: 0 <= i < |rs| ==> 1.0 + rs[i] > 0.0
    ensures forall i :: 0 <= i < |rs| ==>
      Drawdowns(rs)[i].Finite? && -1.0 < Drawdowns(rs)[i].value <= 0.0
    ensures MaxDrawdown(rs).Finite? && -1.0 < MaxDrawdown(rs).value <= 0.0
  {
    var c := CumProd(rs);
    PositiveProducts(rs);
    forall i | 0 <= i < |rs|
      ensures Drawdowns(rs)[i].Finite? && -1.0 < Drawdowns(rs)[i].value <= 0.0
    {
      PositiveDrawdowns(c, i);
    }
  }

  /** The running maximum of a zero-absorbing series is 0 only where the series is 0. */
  lemma RunMaxZero(c: seq<real>, i: nat)
    requires i < |c| && ZeroAbsorbing(c)
    ensures RunMax(c, i) == 0.0 ==> c[i] == 0.0
    ensures c[0] == 0.0 ==> RunMax(c, i) == 0.0 && c[i] == 0.0
  {
    var m := RunMax(c, i);
    var j :| 0 <= j <= i && m == c[j];
    assert c[0] <= m;
  }

  /** No drawdown of a zero-absorbing series is minus infinity, and all are 0 / 0 when it starts at 0. */
  lemma DrawdownOfAbsorbing(c: seq<real>, i: nat)
    requires i < |c| && ZeroAbsorbing(c)
    ensures !DrawdownsOf(c)[i].NegInf?
    ensures c[0] == 0.0 ==> DrawdownsOf(c)[i].NaN?
  {
    RunMaxZero(c, i);
    QuotientNotNegInf(c[i] - RunMax(c, i), RunMax(c, i));
  }

  /** For any non-empty returns the maximum drawdown is NaN or a finite value at most 0: the first drawdown is 0 unless the product starts at 0. */
  lemma MaxDrawdownAtMostZero(rs: seq<real>)
    requires rs != []
    ensures MaxDrawdown(rs).NaN? || (MaxDrawdown(rs).Finite? && MaxDrawdown(rs).value <= 0.0)
  {
    var c := CumProd(rs);
    var d := DrawdownsOf(c);
    CumProdAbsorbsZero(rs);
    forall i | 0 <= i < |rs|
      ensures !d[i].NegInf? && (c[0] == 0.0 ==> d[i].NaN?)
    {
      DrawdownOfAbsorbing(c, i);
    }
    if c[0] != 0.0 {
      assert d[0] == Finite(0.0);
    }
  }

  /** Without the positivity condition a single drawdown can be positive: returns -2 then 1. */
  lemma PositiveDrawdown()
    ensures Drawdowns([-2.0, 1.0])[1] == Finite(1.0)
  {
    var rs := [-2.0, 1.0];
    assert Compound(rs, 0) == -1.0;
    assert Compound(rs, 1) == -2.0;
    var c := CumProd(rs);
    assert RunMax(c, 1) == -1.0;
  }

  // ---------------------------------------------------------------------
  // calculate_volatility_metrics

  /** 365.25 days of 48 half-hours: the factor the variance is annualised by. */
  const PeriodsPerYear: real := 17532.0

  datatype Metrics = Metrics(
    meanReturn: real,
    variance: Option<real>,
    annualizedVariance: Option<real>,
    var95: real,
    var99: real,
    cvar95: Option<real>,
    cvar99: Option<real>,
    maxDrawdown: Num)

  /**
   * The risk metrics of a series of finite returns. An empty series makes
   * `np.percentile` raise; otherwise the 1st percentile is at most the 5th,
   * each conditional tail is non-empty with mean at most its threshold, and
   * the maximum drawdown is never positive.
   */
  function VolatilityMetrics(rets: seq<real>): (r: Result<Metrics, string>)
    ensures r.Err? <==> rets == []
    ensures r.Ok? ==> Rolling.MinOf(rets) <= r.value.meanReturn <= Rolling.MaxOf(rets)
    ensures r.Ok? ==> (r.value.variance.None? <==> |rets| < 2)
    ensures r.Ok? ==> r.value.var99 <= r.value.var95
    ensures r.Ok? ==> r.value.cvar95.Some? && r.value.cvar95.value <= r.value.var95
    ensures r.Ok? ==> r.value.cvar99.Some? && r.value.cvar99.value <= r.value.var99
    ensures r.Ok? ==>
      r.value.maxDrawdown.NaN? || (r.value.maxDrawdown.Finite? && r.value.maxDrawdown.value <= 0.0)
  {
    if rets == [] then Err("IndexError")
    else
      var variance := Rolling.SampleVariance(rets);
      var v95 := Percentile(rets, 5.0);
      var v99 := Percentile(rets, 1.0);
      PercentileMonotone(rets, 1.0, 5.0);
      MaxDrawdownAtMostZero(rets);
      Ok(Metrics(
        Rolling.Mean(rets),
        variance,
        if variance.Some? then Some(variance.value * PeriodsPerYear) else None,
        v95,
        v99,
        ConditionalVaR(rets, v95),
        ConditionalVaR(rets, v99),
        MaxDrawdown(rets)))
  }

  // ---------------------------------------------------------------------
  // fit_garch_models and the lowest-AIC choice

  /** The volatility process and lag orders handed to `arch_model`. */
  datatype GarchSpec = GarchSpec(vol: string, p: nat, o: nat, q: nat)

  const Garch := GarchSpec("Garch", 1, 0, 1)
  const EGarch := GarchSpec("EGARCH", 1, 0, 1)
  const GjrGarch := GarchSpec("GARCH", 1, 1, 1)

  datatype FittedModel = FittedModel(aic: real, bic: real, loglikelihood: real)

  /** `returns.dropna() * 100`, the series the models are fitted to. */
  function Percent(xs: seq<real>): (r: seq<real>)
    ensures |r| == |xs| && forall i :: 0 <= i < |xs| ==> r[i] == 100.0 * xs[i]
  {
    seq(|xs|, i requires 0 <= i < |xs| => 100.0 * xs[i])
  }

  /**
   * The three fits in insertion order, or None when the library is missing
   * or any fit raises; `fit` stands for fitting one specification.
   */
  method FitGarchModels(rets: seq<real>, archAvailable: bool,
                        fit: (seq<real>, GarchSpec) -> Result<FittedModel, string>)
    returns (models: Option<seq<(string, FittedModel)>>)
    ensures models.Some? <==>
      archAvailable && fit(Percent(rets), Garch).Ok? &&
      fit(Percent(rets), EGarch).Ok? && fit(Percent(rets), GjrGarch).Ok?
    ensures models.Some? ==> models.value == [
      ("GARCH", fit(Percent(rets), Garch).value),
      ("EGARCH", fit(Percent(rets), EGarch).value),
      ("GJR-GARCH", fit(Percent(rets), GjrGarch).value)]
  {
    if !archAvailable {
      return None;
    }
    var fitted: seq<(string, FittedModel)> := [];
    var garch := fit(Percent(rets), Garch);
    if garch.Err? {
      return None;
    }
    fitted := fitted + [("GARCH", garch.value)];
    var egarch := fit(Percent(rets), EGarch);
    if egarch.Err? {
      return None;
    }
    fitted := fitted + [("EGARCH", egarch.value)];
    var gjr := fit(Percent(rets), GjrGarch);
    if gjr.Err? {
      return None;
    }
    fitted := fitted + [("GJR-GARCH", gjr.value)];
    models := Some(fitted);
  }

  /** `idxmin`: the first position holding the least value. */
  function FirstMinIndex(xs: seq<real>): (r: nat)
    requires xs != []
    ensures r < |xs|
    ensures forall j :: 0 <= j < |xs| ==> xs[r] <= xs[j]
    ensures forall j :: 0 <= j < r ==> xs[r] < xs[j]
  {
    if |xs| == 1 then 0
    else
      var n := |xs|;
      var i := FirstMinIndex(xs[..n - 1]);
      assert forall j :: 0 <= j < n - 1 ==> xs[..n - 1][j] == xs[j];
      if xs[n - 1] < xs[i] then n - 1 else i
  }

  /** Entry k has the lowest AIC of all the models and a strictly lower one than every earlier entry. */
  predicate IsBestModel(models: seq<(string, FittedModel)>, k: int)
  {
    0 <= k < |models| &&
    (forall j :: 0 <= j < |models| ==> models[k].1.aic <= models[j].1.aic) &&
    (forall j :: 0 <= j < k ==> models[k].1.aic < models[j].1.aic)
  }

  /** The name of the fitted model with the lowest AIC, the earliest on ties. */
  function BestModel(models: seq<(string, FittedModel)>): (name: string)
    requires models != []
    ensures exists k :: IsBestModel(models, k) && models[k].0 == name
  {
    var aics := seq(|models|, j requires 0 <= j < |models| => models[j].1.aic);
    var k := FirstMinIndex(aics);
    assert forall j :: 0 <= j < |models| ==> aics[j] == models[j].1.aic;
    assert IsBestModel(models, k);
    models[k].0
  }

  // ---------------------------------------------------------------------
  // The date range of show

  datatype DateRange = StopPage | Range(start: int, end: int)

  /**
   * Start after end stops the page; a span of more than 14 whole days moves
   * the start to 14 days before the end.
   */
  method LimitDateRange(start: int, end: int) returns (range: DateRange)
    ensures range.StopPage? <==> start > end
    ensures range.Range? ==> range.end == end && start <= range.start <= end
    ensures range.Range? ==> WholeDays(end - range.start) <= 14
    ensures range.Range? && WholeDays(end - start) <= 14 ==> range.start == start
    ensures range.Range? && WholeDays(end - start) > 14 ==> range.start == end - 14 * 1440
  {
    if start > end {
      return StopPage;
    }
    var dtStart := start;
    if WholeDays(end - dtStart) > 14 {
      dtStart := end - 14 * 1440;
    }
    range := Range(dtStart, end);
  }
}
