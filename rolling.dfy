/**
 * Sums, means, extremes and sample variances of price columns, and the
 * trailing windows of `rolling(window=w, min_periods=1)`: the window at
 * row i holds rows max(0, i - w + 1) .. i, so every row has a value.
 * Standard deviations are represented by the variance they are the square
 * root of.
 */
module Rolling {
  import opened Wrappers

  function Sum(xs: seq<real>): real
  {
    if xs == [] then 0.0 else Sum(xs[..|xs| - 1]) + xs[|xs| - 1]
  }

  /** `mean()` of a non-empty column. */
  function Mean(xs: seq<real>): (r: real)
    requires xs != []
    ensures MinOf(xs) <= r <= MaxOf(xs)
  {
    var lo, hi := MinOf(xs), MaxOf(xs);
    SumBounds(xs, lo, hi);
    DivideBetween(Sum(xs), |xs| as real, lo, hi);
    Sum(xs) / |xs| as real
  }

  /** `max()` of a non-empty column. */
  function MaxOf(xs: seq<real>): (r: real)
    requires xs != []
    ensures r in xs && forall i :: 0 <= i < |xs| ==> xs[i] <= r
  {
    if |xs| == 1 then xs[0]
    else
      var m := MaxOf(xs[..|xs| - 1]);
      assert forall i :: 0 <= i < |xs| - 1 ==> xs[i] == xs[..|xs| - 1][i];
      if m < xs[|xs| - 1] then xs[|xs| - 1] else m
  }

  /** `min()` of a non-empty column. */
  function MinOf(xs: seq<real>): (r: real)
    requires xs != []
    ensures r in xs && forall i :: 0 <= i < |xs| ==> r <= xs[i]
  {
    if |xs| == 1 then xs[0]
    else
      var m := MinOf(xs[..|xs| - 1]);
      assert forall i :: 0 <= i < |xs| - 1 ==> xs[i] == xs[..|xs| - 1][i];
      if xs[|xs| - 1] < m then xs[|xs| - 1] else m
  }

  /** n values between lo and hi sum to between n * lo and n * hi. */
  lemma {:induction false} SumBounds(xs: seq<real>, lo: real, hi: real)
    requires forall i :: 0 <= i < |xs| ==> lo <= xs[i] <= hi
    ensures |xs| as real * lo <= Sum(xs) <= |xs| as real * hi
  {
    if xs != [] {
      var init := xs[..|xs| - 1];
      assert forall i :: 0 <= i < |init| ==> init[i] == xs[i];
      SumBounds(init, lo, hi);
      assert |xs| as real * lo == |init| as real * lo + lo;
      assert |xs| as real * hi == |init| as real * hi + hi;
    }
  }

  lemma DivideBetween(s: real, n: real, lo: real, hi: real)
    requires n > 0.0 && n * lo <= s <= n * hi
    ensures lo <= s / n <= hi
  {
    DivideMonotone(n * lo, s, n);
    DivideMonotone(s, n * hi, n);
  }

  lemma DivideMonotone(a: real, b: real, n: real)
    requires n > 0.0 && a <= b
    ensures a / n <= b / n
  {
    assert b / n - a / n == (b - a) / n;
  }

  /** Sum of squared deviations from m. */
  function SquaredDeviations(xs: seq<real>, m: real): (r: real)
    ensures r >= 0.0
  {
    if xs == [] then 0.0
    else
      var d := xs[|xs| - 1] - m;
      SquaredDeviations(xs[..|xs| - 1], m) + d * d
  }

  /**
   * `std()` with pandas' default ddof = 1, as its square: undefined (NaN)
   * for fewer than two values, otherwise the sum of squared deviations from
   * the mean over n - 1.
   */
  function SampleVariance(xs: seq<real>): (r: Option<real>)
    ensures r.None? <==> |xs| < 2
    ensures r.Some? ==> r.value >= 0.0
  {
    if |xs| < 2 then None
    else
      var s := SquaredDeviations(xs, Mean(xs));
      assert s / (|xs| - 1) as real >= 0.0;
      Some(s / (|xs| - 1) as real)
  }

  /** A column whose values are all c has mean c and, with two or more values, variance 0. */
  lemma ConstantColumn(xs: seq<real>, c: real)
    requires xs != [] && forall i :: 0 <= i < |xs| ==> xs[i] == c
    ensures Mean(xs) == c
    ensures |xs| >= 2 ==> SampleVariance(xs) == Some(0.0)
  {
    assert MinOf(xs) == c && MaxOf(xs) == c;
    NoDeviation(xs, c);
  }

  lemma {:induction false} NoDeviation(xs: seq<real>, c: real)
    requires forall i :: 0 <= i < |xs| ==> xs[i] == c
    ensures SquaredDeviations(xs, c) == 0.0
  {
    if xs != [] {
      NoDeviation(xs[..|xs| - 1], c);
    }
  }

  /** First row of the window that ends at row i. */
  function WindowStart(i: int, w: int): (r: int)
    requires 0 <= i && 1 <= w
    ensures 0 <= r <= i && i - r < w
    ensures r == 0 || i - r == w - 1
  {
    if i - w + 1 > 0 then i - w + 1 else 0
  }

  /** The values `rolling(window=w, min_periods=1)` aggregates at row i. */
  function Window(xs: seq<real>, i: int, w: int): (r: seq<real>)
    requires 0 <= i < |xs| && 1 <= w
    ensures 1 <= |r| <= w && r[|r| - 1] == xs[i]
    ensures |r| == if i + 1 < w then i + 1 else w
    ensures forall k :: 0 <= k < |r| ==> r[k] == xs[i + 1 - |r| + k]
  {
    xs[WindowStart(i, w)..i + 1]
  }

  /** A window of width one holds just the row itself. */
  lemma WindowOfOne(xs: seq<real>, i: int)
    requires 0 <= i < |xs|
    ensures Window(xs, i, 1) == [xs[i]]
  {
  }

  /** `rolling(...).max() - rolling(...).min()` at row i. */
  function RollingRange(xs: seq<real>, i: int, w: int): (r: real)
    requires 0 <= i < |xs| && 1 <= w
    ensures r >= 0.0
    ensures |Window(xs, i, w)| == 1 ==> r == 0.0
  {
    var win := Window(xs, i, w);
    MaxOf(win) - MinOf(win)
  }

  /** `rolling(...).mean()` at row i: between the window's extremes, and the row itself for w = 1. */
  function RollingMean(xs: seq<real>, i: int, w: int): (r: real)
    requires 0 <= i < |xs| && 1 <= w
    ensures MinOf(Window(xs, i, w)) <= r <= MaxOf(Window(xs, i, w))
    ensures w == 1 ==> r == xs[i]
  {
    Mean(Window(xs, i, w))
  }
}
