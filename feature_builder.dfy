/**
 * Feature engineering on a price frame: lag columns, trailing rolling mean
 * and standard deviation columns, and calendar columns. Each operation adds
 * columns to the frame it is given, in place, and leaves its rows alone.
 */
module FeatureBuilder {
  import opened Frames
  import Strings
  import Calendar
  import Rolling

  /** A DataFrame by column: the column order and each column's cells. */
  datatype Columns = Columns(names: seq<string>, cells: map<string, seq<Cell>>)

  /**
   * One column per listed name, every column `rows` long, and as many
   * columns as listed names, so no name is listed twice.
   */
  ghost predicate WellFormed(c: Columns, rows: nat)
  {
    (forall n :: n in c.cells <==> n in c.names) &&
    |c.cells.Keys| == |c.names| &&
    (forall n :: n in c.cells ==> |c.cells[n]| == rows)
  }

  /** `df[name] = values`: an existing column is overwritten where it stands, a new one goes last. */
  function Assign(c: Columns, name: string, values: seq<Cell>): Columns
  {
    Columns(if name in c.names then c.names else c.names + [name], c.cells[name := values])
  }

  /** A frame whose columns can be added to in place. */
  class FeatureFrame {
    var names: seq<string>
    var cells: map<string, seq<Cell>>
    var rows: nat

    function View(): Columns
      reads this
    {
      Columns(names, cells)
    }

    ghost predicate Valid()
      reads this
    {
      WellFormed(View(), rows)
    }

    constructor (c: Columns, n: nat)
      requires WellFormed(c, n)
      ensures View() == c && rows == n && Valid()
    {
      names := c.names;
      cells := c.cells;
      rows := n;
    }

    /** `df[name] = values` */
    method Set(name: string, values: seq<Cell>)
      requires Valid() && |values| == rows
      modifies this
      ensures View() == Assign(old(View()), name, values)
      ensures Valid() && rows == old(rows)
    {
      if name !in names {
        names := names + [name];
      }
      cells := cells[name := values];
    }

    /** The inner loop of `add_lag_features`: the lags of one column, in order. */
    method AddLagsOfColumn(col: string, lags: seq<int>)
      requires Valid() && col in cells
      modifies this
      ensures View() == LagsOfColumn(old(View()), col, lags)
      ensures Valid() && rows == old(rows)
    {
      var j := 0;
      while j < |lags|
        invariant 0 <= j <= |lags|
        invariant Valid() && rows == old(rows)
        invariant col in cells && cells[col] == old(cells)[col]
        invariant View() == LagsOfColumn(old(View()), col, lags[..j])
      {
        ghost var before := View();
        LagNameNotColumn(col, lags[j]);
        Set(LagName(col, lags[j]), Shift(cells[col], lags[j]));
        LagsOfColumnStep(old(View()), col, lags, j);
        assert View() == Assign(before, LagName(col, lags[j]), Shift(old(cells)[col], lags[j]));
        j := j + 1;
      }
      assert lags[..j] == lags;
    }

    /** `add_lag_features(df, cols, lags)`: for each column, for each lag, the shifted column. */
    method AddLagFeatures(cols: seq<string>, lags: seq<int>)
      requires Valid() && forall k :: 0 <= k < |cols| ==> cols[k] in cells
      modifies this
      ensures View() == WithLags(old(View()), cols, lags)
      ensures Valid() && rows == old(rows)
    {
      var i := 0;
      while i < |cols|
        invariant 0 <= i <= |cols|
        invariant Valid() && rows == old(rows)
        invariant View() == WithLags(old(View()), cols[..i], lags)
      {
        ghost var before := View();
        AddLagsOfColumn(cols[i], lags);
        WithLagsStep(old(View()), cols, lags, i);
        assert View() == LagsOfColumn(before, cols[i], lags);
        i := i + 1;
      }
      assert cols[..i] == cols;
    }

    /** The loop body of `add_rolling_features`: the mean and std columns of one window. */
    method AddWindow(col: string, w: int)
      requires Valid() && col in cells && w >= 1
      modifies this
      ensures View() == WindowStep(old(View()), old(cells)[col], MeanName(col, w), StdName(col, w), w)
      ensures Valid() && rows == old(rows) && col in cells && cells[col] == old(cells)[col]
    {
      RollingNames(col, w, w);
      Set(MeanName(col, w), MeanColumn(cells[col], w));
      Set(StdName(col, w), StdColumn(cells[col], w));
    }

    /** `add_rolling_features(df, col, windows)`: for each window, the rolling mean and then the rolling std column. */
    method AddRollingFeatures(col: string, windows: seq<int>)
      requires Valid() && col in cells && NumericColumn(cells[col])
      requires forall k :: 0 <= k < |windows| ==> windows[k] >= 1
      modifies this
      ensures View() == WithRolling(old(View()), col, windows)
      ensures Valid() && rows == old(rows)
    {
      var k := 0;
      while k < |windows|
        invariant 0 <= k <= |windows|
        invariant Valid() && rows == old(rows)
        invariant col in cells && cells[col] == old(cells)[col]
        invariant View() == WithRolling(old(View()), col, windows[..k])
      {
        ghost var before := View();
        AddWindow(col, windows[k]);
        WithRollingStep(old(View()), col, windows, k);
        assert View() == WindowStep(before, old(cells)[col], MeanName(col, windows[k]), StdName(col, windows[k]), windows[k]);
        k := k + 1;
      }
      assert windows[..k] == windows;
    }

    /** `add_calendar_features(df, time_col)`: hour, weekday, month and is_weekend columns. */
    method AddCalendarFeatures(timeCol: string)
      requires Valid() && timeCol in cells && TimeCells(cells[timeCol])
      requires timeCol != "hour" && timeCol != "weekday"
      modifies this
      ensures View() == WithCalendar(old(View()), timeCol)
      ensures Valid() && rows == old(rows)
    {
      Set("hour", HourCells(cells[timeCol]));
      Set("weekday", WeekdayCells(cells[timeCol]));
      Set("month", MonthCells(cells[timeCol]));
      Set("is_weekend", WeekendCells(cells["weekday"]));
    }
  }

  // ---------------------------------------------------------------------
  // Lag features

  const DefaultLags: seq<int> := [1, 24]

  /** `f"{col}_lag{lag}"` */
  function LagName(col: string, lag: int): string
  {
    col + "_lag" + Strings.IntToString(lag)
  }

  /** `shift(lag)`: row i takes row i - lag, and is missing where that row does not exist. */
  function Shift(xs: seq<Cell>, lag: int): (r: seq<Cell>)
    ensures |r| == |xs|
    ensures forall i :: 0 <= i < |xs| && 0 <= i - lag < |xs| ==> r[i] == xs[i - lag]
    ensures forall i :: 0 <= i < |xs| && !(0 <= i - lag < |xs|) ==> r[i] == Missing
  {
    seq(|xs|, i requires 0 <= i < |xs| => if 0 <= i - lag < |xs| then xs[i - lag] else Missing)
  }

  /**
   * The frame after the lags of one column, in order. The source column is
   * read once: no lag name is the column's own name, so the column the
   * loop reads again before each lag is the same.
   */
  function LagsOfColumn(c: Columns, col: string, lags: seq<int>): (r: Columns)
    requires col in c.cells
    ensures c.cells.Keys <= r.cells.Keys
  {
    if lags == [] then c
    else
      var m := |lags| - 1;
      Assign(LagsOfColumn(c, col, lags[..m]), LagName(col, lags[m]), Shift(c.cells[col], lags[m]))
  }

  /** One more lag adds its column to the frame the earlier lags left. */
  lemma LagsOfColumnStep(c: Columns, col: string, lags: seq<int>, j: int)
    requires col in c.cells && 0 <= j < |lags|
    ensures LagsOfColumn(c, col, lags[..j + 1])
      == Assign(LagsOfColumn(c, col, lags[..j]), LagName(col, lags[j]), Shift(c.cells[col], lags[j]))
  {
    assert lags[..j + 1][..j] == lags[..j];
  }

  /** One more column adds its lags to the frame the earlier columns left. */
  lemma WithLagsStep(c: Columns, cols: seq<string>, lags: seq<int>, i: int)
    requires forall k :: 0 <= k < |cols| ==> cols[k] in c.cells
    requires 0 <= i < |cols|
    ensures WithLags(c, cols[..i + 1], lags) == LagsOfColumn(WithLags(c, cols[..i], lags), cols[i], lags)
  {
    assert cols[..i + 1][..i] == cols[..i];
  }

  /** The lags of one column are the shifts of its values written under its lag names. */
  lemma {:induction false} LagsOfColumnWrites(c: Columns, col: string, lags: seq<int>)
    requires col in c.cells
    ensures LagsOfColumn(c, col, lags) == AssignShifts(c, c.cells[col], LagNames(col, lags), lags)
  {
    if lags != [] {
      var m := |lags| - 1;
      assert LagNames(col, lags)[..m] == LagNames(col, lags[..m]);
      LagsOfColumnWrites(c, col, lags[..m]);
    }
  }

  /** The frame after the lags of every column, column by column. */
  function WithLags(c: Columns, cols: seq<string>, lags: seq<int>): (r: Columns)
    requires forall k :: 0 <= k < |cols| ==> cols[k] in c.cells
    ensures c.cells.Keys <= r.cells.Keys
  {
    if cols == [] then c
    else
      var prev := WithLags(c, cols[..|cols| - 1], lags);
      LagsOfColumn(prev, cols[|cols| - 1], lags)
  }

  /** The lag column names of one column, in the order of its lags. */
  function LagNames(col: string, lags: seq<int>): (r: seq<string>)
    ensures |r| == |lags|
  {
    seq(|lags|, k requires 0 <= k < |lags| => LagName(col, lags[k]))
  }

  /** The frame after writing, for each k in order, column `names[k]` as `src` shifted by `lags[k]`. */
  function AssignShifts(c: Columns, src: seq<Cell>, names: seq<string>, lags: seq<int>): (r: Columns)
    requires |names| == |lags|
    ensures c.cells.Keys <= r.cells.Keys
  {
    if lags == [] then c
    else
      var m := |lags| - 1;
      Assign(AssignShifts(c, src, names[..m], lags[..m]), names[m], Shift(src, lags[m]))
  }

  /** A column none of the writes names is left alone. */
  lemma {:induction false} ShiftsKeep(c: Columns, src: seq<Cell>, names: seq<string>, lags: seq<int>, n: string)
    requires |names| == |lags| && n in c.cells && n !in names
    ensures AssignShifts(c, src, names, lags).cells[n] == c.cells[n]
  {
    if lags != [] {
      var m := |lags| - 1;
      assert n !in names[..m];
      ShiftsKeep(c, src, names[..m], lags[..m], n);
    }
  }

  /** When a name written twice is written with the same lag, column `names[k]` ends up as `src` shifted by `lags[k]`. */
  lemma {:induction false} ShiftsWrite(c: Columns, src: seq<Cell>, names: seq<string>, lags: seq<int>, k: int)
    requires |names| == |lags| && 0 <= k < |names|
    requires forall j :: 0 <= j < |names| && names[j] == names[k] ==> lags[j] == lags[k]
    ensures names[k] in AssignShifts(c, src, names, lags).cells
    ensures AssignShifts(c, src, names, lags).cells[names[k]] == Shift(src, lags[k])
  {
    var m := |lags| - 1;
    if names[k] != names[m] {
      assert forall j :: 0 <= j < m ==> names[..m][j] == names[j] && lags[..m][j] == lags[j];
      ShiftsWrite(c, src, names[..m], lags[..m], k);
    }
  }

  lemma LagNameInjective(c1: string, l1: int, c2: string, l2: int)
    requires LagName(c1, l1) == LagName(c2, l2)
    ensures c1 == c2 && l1 == l2
  {
    Strings.NumberedNameInjective(c1, l1, c2, l2, "_lag");
  }

  lemma LagNamesDiffer(c1: string, l1: int, c2: string, l2: int)
    requires c1 != c2 || l1 != l2
    ensures LagName(c1, l1) != LagName(c2, l2)
  {
    if LagName(c1, l1) == LagName(c2, l2) {
      LagNameInjective(c1, l1, c2, l2);
    }
  }

  lemma LagNameNotColumn(col: string, lag: int)
    ensures LagName(col, lag) != col
  {
    assert |LagName(col, lag)| > |col|;
  }

  /** A column that is none of one column's lag names is left alone by its lags. */
  lemma LagsOfColumnKeeps(c: Columns, col: string, lags: seq<int>, n: string)
    requires col in c.cells && n in c.cells && n !in LagNames(col, lags)
    ensures LagsOfColumn(c, col, lags).cells[n] == c.cells[n]
  {
    LagsOfColumnWrites(c, col, lags);
    ShiftsKeep(c, c.cells[col], LagNames(col, lags), lags, n);
  }

  /** Each lag column of one column is that column shifted by its lag, whatever lags come before or after it. */
  lemma LagsOfColumnShifts(c: Columns, col: string, lags: seq<int>, k: int)
    requires col in c.cells && 0 <= k < |lags|
    ensures LagName(col, lags[k]) in LagsOfColumn(c, col, lags).cells
    ensures LagsOfColumn(c, col, lags).cells[LagName(col, lags[k])] == Shift(c.cells[col], lags[k])
  {
    var names := LagNames(col, lags);
    forall j | 0 <= j < |lags| && names[j] == names[k]
      ensures lags[j] == lags[k]
    {
      LagNameInjective(col, lags[j], col, lags[k]);
    }
    LagsOfColumnWrites(c, col, lags);
    ShiftsWrite(c, c.cells[col], names, lags, k);
  }

  /** A name no longer than the column's is none of its lag names. */
  lemma ShortNameNoLag(col: string, lags: seq<int>, n: string)
    requires |n| <= |col|
    ensures n !in LagNames(col, lags)
  {
    forall k | 0 <= k < |lags|
      ensures LagNames(col, lags)[k] != n
    {
      assert |LagName(col, lags[k])| > |col|;
    }
  }

  /** No column that is lagged is itself named like a lag column of the same call. */
  predicate NoLagCollision(cols: seq<string>, lags: seq<int>)
  {
    forall i, j :: 0 <= i < |cols| && 0 <= j < |cols| ==> cols[i] !in LagNames(cols[j], lags)
  }

  /** n is none of the lag names of the columns. */
  predicate IsNoLagName(n: string, cols: seq<string>, lags: seq<int>)
  {
    forall i :: 0 <= i < |cols| ==> n !in LagNames(cols[i], lags)
  }

  /** `add_lag_features` leaves every column that is not one of its lag names as it was. */
  lemma {:induction false} WithLagsKeeps(c: Columns, cols: seq<string>, lags: seq<int>, n: string)
    requires forall k :: 0 <= k < |cols| ==> cols[k] in c.cells
    requires n in c.cells && IsNoLagName(n, cols, lags)
    ensures WithLags(c, cols, lags).cells[n] == c.cells[n]
  {
    if cols != [] {
      var m := |cols| - 1;
      var init := cols[..m];
      assert forall i :: 0 <= i < m ==> init[i] == cols[i];
      WithLagsKeeps(c, init, lags, n);
      LagsOfColumnKeeps(WithLags(c, init, lags), cols[m], lags, n);
    }
  }

  /** The lags of the last column, written last, are that column's original values shifted. */
  lemma LastColumnShifts(c: Columns, cols: seq<string>, lags: seq<int>, k: int)
    requires forall j :: 0 <= j < |cols| ==> cols[j] in c.cells
    requires cols != [] && 0 <= k < |lags|
    requires IsNoLagName(cols[|cols| - 1], cols[..|cols| - 1], lags)
    ensures LagName(cols[|cols| - 1], lags[k]) in WithLags(c, cols, lags).cells
    ensures WithLags(c, cols, lags).cells[LagName(cols[|cols| - 1], lags[k])] == Shift(c.cells[cols[|cols| - 1]], lags[k])
  {
    var m := |cols| - 1;
    WithLagsKeeps(c, cols[..m], lags, cols[m]);
    LagsOfColumnShifts(WithLags(c, cols[..m], lags), cols[m], lags, k);
  }

  /** The lags of the last column leave a column that is none of its lag names as the earlier columns left it. */
  lemma LaterColumnKeeps(c: Columns, cols: seq<string>, lags: seq<int>, n: string)
    requires forall j :: 0 <= j < |cols| ==> cols[j] in c.cells
    requires cols != [] && n in WithLags(c, cols[..|cols| - 1], lags).cells
    requires n !in LagNames(cols[|cols| - 1], lags)
    ensures n in WithLags(c, cols, lags).cells
    ensures WithLags(c, cols, lags).cells[n] == WithLags(c, cols[..|cols| - 1], lags).cells[n]
  {
    var m := |cols| - 1;
    LagsOfColumnKeeps(WithLags(c, cols[..m], lags), cols[m], lags, n);
  }

  /** Dropping the last column keeps the lagged columns apart from the lag names. */
  lemma NoLagCollisionPrefix(cols: seq<string>, lags: seq<int>)
    requires cols != [] && NoLagCollision(cols, lags)
    ensures NoLagCollision(cols[..|cols| - 1], lags)
    ensures IsNoLagName(cols[|cols| - 1], cols[..|cols| - 1], lags)
  {
    var m := |cols| - 1;
    forall a, b | 0 <= a < m && 0 <= b < m
      ensures cols[..m][a] !in LagNames(cols[..m][b], lags)
    {
      assert cols[..m][a] == cols[a] && cols[..m][b] == cols[b];
    }
    forall b | 0 <= b < m
      ensures cols[m] !in LagNames(cols[..m][b], lags)
    {
      assert cols[..m][b] == cols[b];
    }
  }

  /** The lag names of different columns are different. */
  lemma OtherColumnLags(col: string, lag: int, other: string, lags: seq<int>)
    requires col != other
    ensures LagName(col, lag) !in LagNames(other, lags)
  {
    forall l | 0 <= l < |lags|
      ensures LagNames(other, lags)[l] != LagName(col, lag)
    {
      LagNamesDiffer(col, lag, other, lags[l]);
    }
  }

  /**
   * `add_lag_features`: unless a lagged column is itself named like one of
   * the lag columns, every `{col}_lag{lag}` it writes is `col` as it was
   * before the call, shifted by `lag`, and the lagged columns keep their values.
   */
  lemma {:induction false} WithLagsShifts(c: Columns, cols: seq<string>, lags: seq<int>, i: int, k: int)
    requires forall k :: 0 <= k < |cols| ==> cols[k] in c.cells
    requires NoLagCollision(cols, lags) && 0 <= i < |cols| && 0 <= k < |lags|
    ensures WithLags(c, cols, lags).cells[cols[i]] == c.cells[cols[i]]
    ensures LagName(cols[i], lags[k]) in WithLags(c, cols, lags).cells
    ensures WithLags(c, cols, lags).cells[LagName(cols[i], lags[k])] == Shift(c.cells[cols[i]], lags[k])
  {
    WithLagsKeeps(c, cols, lags, cols[i]);
    var m := |cols| - 1;
    NoLagCollisionPrefix(cols, lags);
    if i == m || cols[i] == cols[m] {
      LastColumnShifts(c, cols, lags, k);
    } else {
      assert cols[..m][i] == cols[i];
      WithLagsShifts(c, cols[..m], lags, i, k);
      OtherColumnLags(cols[i], lags[k], cols[m], lags);
      LaterColumnKeeps(c, cols, lags, LagName(cols[i], lags[k]));
    }
  }

  // ---------------------------------------------------------------------
  // Rolling features

  const DefaultWindows: seq<int> := [24, 48]

  lemma DefaultWindowsPositive()
    ensures forall k :: 0 <= k < |DefaultWindows| ==> DefaultWindows[k] >= 1
  {
    assert DefaultWindows == [24, 48];
  }

  /** `f"{col}_roll_mean_{w}"` */
  function MeanName(col: string, w: int): string
  {
    col + "_roll_mean_" + Strings.IntToString(w)
  }

  /** `f"{col}_roll_std_{w}"` */
  function StdName(col: string, w: int): string
  {
    col + "_roll_std_" + Strings.IntToString(w)
  }

  /** A column pandas can average: numbers and missing values only. */
  predicate NumericColumn(xs: seq<Cell>)
  {
    forall i :: 0 <= i < |xs| ==> xs[i].Num? || xs[i].Missing?
  }

  /** The numbers of a column, in order, skipping missing cells. */
  function Numbers(xs: seq<Cell>): (r: seq<real>)
    ensures |r| <= |xs|
  {
    if xs == [] then []
    else Numbers(xs[..|xs| - 1]) + if xs[|xs| - 1].Num? then [xs[|xs| - 1].x] else []
  }

  /** Cells of a column holding the given numbers. */
  function NumCells(xs: seq<real>): (r: seq<Cell>)
    ensures |r| == |xs| && forall i :: 0 <= i < |xs| ==> r[i] == Num(xs[i])
  {
    seq(|xs|, i requires 0 <= i < |xs| => Num(xs[i]))
  }

  lemma {:induction false} NumbersOfNumCells(xs: seq<real>)
    ensures Numbers(NumCells(xs)) == xs
  {
    if xs != [] {
      var n := |xs|;
      assert NumCells(xs)[..n - 1] == NumCells(xs[..n - 1]);
      NumbersOfNumCells(xs[..n - 1]);
      assert xs == xs[..n - 1] + [xs[n - 1]];
    }
  }

  /** The cells rolling(window=w, min_periods=1) sees at row i. */
  function WindowCells(xs: seq<Cell>, i: int, w: int): seq<Cell>
    requires 0 <= i < |xs| && 1 <= w
  {
    xs[Rolling.WindowStart(i, w)..i + 1]
  }

  /** Rolling mean at row i: the mean of the window's numbers, missing when it has none. */
  function MeanCell(xs: seq<Cell>, i: int, w: int): Cell
    requires 0 <= i < |xs| && 1 <= w
  {
    var v := Numbers(WindowCells(xs, i, w));
    if v == [] then Missing else Num(Rolling.Mean(v))
  }

  /** Rolling std at row i: the square root of the sample variance, missing below two numbers. */
  function StdCell(xs: seq<Cell>, i: int, w: int): Cell
    requires 0 <= i < |xs| && 1 <= w
  {
    var v := Rolling.SampleVariance(Numbers(WindowCells(xs, i, w)));
    if v.Some? then Root(v.value) else Missing
  }

  /** `rolling(window=w, min_periods=1).mean()` */
  function MeanColumn(xs: seq<Cell>, w: int): (r: seq<Cell>)
    requires 1 <= w
    ensures |r| == |xs|
  {
    seq(|xs|, i requires 0 <= i < |xs| => MeanCell(xs, i, w))
  }

  /** `rolling(window=w, min_periods=1).std()` */
  function StdColumn(xs: seq<Cell>, w: int): (r: seq<Cell>)
    requires 1 <= w
    ensures |r| == |xs|
  {
    seq(|xs|, i requires 0 <= i < |xs| => StdCell(xs, i, w))
  }

  /** On a column without missing values the window's numbers are the window itself. */
  lemma WindowNumbers(xs: seq<real>, i: int, w: int)
    requires 0 <= i < |xs| && 1 <= w
    ensures Numbers(WindowCells(NumCells(xs), i, w)) == Rolling.Window(xs, i, w)
  {
    var win := Rolling.Window(xs, i, w);
    assert WindowCells(NumCells(xs), i, w) == NumCells(win);
    NumbersOfNumCells(win);
  }

  /**
   * On a column without missing values the rolling mean is defined at every
   * row and is the mean of rows max(0, i - w + 1) .. i; its standard
   * deviation is missing exactly where that window holds one row.
   */
  lemma RollingOfNumbers(xs: seq<real>, w: int, i: int)
    requires 0 <= i < |xs| && 1 <= w
    ensures MeanColumn(NumCells(xs), w)[i] == Num(Rolling.RollingMean(xs, i, w))
    ensures StdColumn(NumCells(xs), w)[i].Missing? <==> |Rolling.Window(xs, i, w)| == 1
  {
    WindowNumbers(xs, i, w);
    assert MeanColumn(NumCells(xs), w)[i] == MeanCell(NumCells(xs), i, w);
    assert StdColumn(NumCells(xs), w)[i] == StdCell(NumCells(xs), i, w);
  }

  /** One window: the rolling mean column of `src`, then its rolling std column. */
  function WindowStep(c: Columns, src: seq<Cell>, meanName: string, stdName: string, w: int): (r: Columns)
    requires w >= 1
    ensures c.cells.Keys <= r.cells.Keys
  {
    Assign(Assign(c, meanName, MeanColumn(src, w)), stdName, StdColumn(src, w))
  }

  /**
   * The frame after the mean and std columns of each window, in order. The
   * source column is read once: no feature name is the column's own name,
   * so the column the loop reads again for each window is the same.
   */
  function WithRolling(c: Columns, col: string, windows: seq<int>): (r: Columns)
    requires col in c.cells
    requires forall k :: 0 <= k < |windows| ==> windows[k] >= 1
    ensures c.cells.Keys <= r.cells.Keys
  {
    if windows == [] then c
    else
      var m := |windows| - 1;
      WindowStep(WithRolling(c, col, windows[..m]), c.cells[col], MeanName(col, windows[m]), StdName(col, windows[m]), windows[m])
  }

  /** One more window adds that window's columns to the frame the earlier windows left. */
  lemma WithRollingStep(c: Columns, col: string, windows: seq<int>, k: int)
    requires col in c.cells && 0 <= k < |windows|
    requires forall j :: 0 <= j < |windows| ==> windows[j] >= 1
    ensures WithRolling(c, col, windows[..k + 1])
      == WindowStep(WithRolling(c, col, windows[..k]), c.cells[col], MeanName(col, windows[k]), StdName(col, windows[k]), windows[k])
  {
    assert windows[..k + 1][..k] == windows[..k];
  }

  /** The rolling features of one column are its rolling columns written under their names. */
  lemma {:induction false} WithRollingWrites(c: Columns, col: string, windows: seq<int>)
    requires col in c.cells
    requires forall k :: 0 <= k < |windows| ==> windows[k] >= 1
    ensures WithRolling(c, col, windows) == AssignWindows(c, c.cells[col], MeanNames(col, windows), StdNames(col, windows), windows)
  {
    if windows != [] {
      var m := |windows| - 1;
      assert MeanNames(col, windows)[..m] == MeanNames(col, windows[..m]);
      assert StdNames(col, windows)[..m] == StdNames(col, windows[..m]);
      WithRollingWrites(c, col, windows[..m]);
    }
  }

  /** The rolling mean column names of one column, in the order of its windows. */
  function MeanNames(col: string, windows: seq<int>): (r: seq<string>)
    ensures |r| == |windows|
  {
    seq(|windows|, k requires 0 <= k < |windows| => MeanName(col, windows[k]))
  }

  /** The rolling std column names of one column, in the order of its windows. */
  function StdNames(col: string, windows: seq<int>): (r: seq<string>)
    ensures |r| == |windows|
  {
    seq(|windows|, k requires 0 <= k < |windows| => StdName(col, windows[k]))
  }

  /** The frame after one WindowStep per window, under the given names. */
  function AssignWindows(c: Columns, src: seq<Cell>, meanNames: seq<string>, stdNames: seq<string>, windows: seq<int>): (r: Columns)
    requires |meanNames| == |stdNames| == |windows|
    requires forall k :: 0 <= k < |windows| ==> windows[k] >= 1
    ensures c.cells.Keys <= r.cells.Keys
  {
    if windows == [] then c
    else
      var m := |windows| - 1;
      WindowStep(AssignWindows(c, src, meanNames[..m], stdNames[..m], windows[..m]), src, meanNames[m], stdNames[m], windows[m])
  }

  /** A column none of the writes names is left alone. */
  lemma {:induction false} WindowsKeep(c: Columns, src: seq<Cell>, meanNames: seq<string>, stdNames: seq<string>, windows: seq<int>, n: string)
    requires |meanNames| == |stdNames| == |windows| && n in c.cells
    requires forall k :: 0 <= k < |windows| ==> windows[k] >= 1
    requires n !in meanNames && n !in stdNames
    ensures AssignWindows(c, src, meanNames, stdNames, windows).cells[n] == c.cells[n]
  {
    if windows != [] {
      var m := |windows| - 1;
      assert n !in meanNames[..m] && n !in stdNames[..m];
      WindowsKeep(c, src, meanNames[..m], stdNames[..m], windows[..m], n);
    }
  }

  /**
   * When the mean name of window k is no std name and is written twice only
   * with the same window, it ends up holding the rolling mean of `src` over
   * that window.
   */
  lemma {:induction false} WindowsWriteMean(c: Columns, src: seq<Cell>, meanNames: seq<string>, stdNames: seq<string>, windows: seq<int>, k: int)
    requires |meanNames| == |stdNames| == |windows| && 0 <= k < |windows|
    requires forall j :: 0 <= j < |windows| ==> windows[j] >= 1
    requires meanNames[k] !in stdNames
    requires forall j :: 0 <= j < |windows| && meanNames[j] == meanNames[k] ==> windows[j] == windows[k]
    ensures meanNames[k] in AssignWindows(c, src, meanNames, stdNames, windows).cells
    ensures AssignWindows(c, src, meanNames, stdNames, windows).cells[meanNames[k]] == MeanColumn(src, windows[k])
  {
    var m := |windows| - 1;
    var prev := AssignWindows(c, src, meanNames[..m], stdNames[..m], windows[..m]);
    var mid := Assign(prev, meanNames[m], MeanColumn(src, windows[m]));
    assert meanNames[k] != stdNames[m];
    if meanNames[k] == meanNames[m] {
      assert windows[m] == windows[k];
      assert mid.cells[meanNames[k]] == MeanColumn(src, windows[k]);
    } else {
      assert meanNames[..m][k] == meanNames[k] && windows[..m][k] == windows[k];
      assert meanNames[k] !in stdNames[..m];
      assert forall j :: 0 <= j < m ==> meanNames[..m][j] == meanNames[j] && windows[..m][j] == windows[j];
      WindowsWriteMean(c, src, meanNames[..m], stdNames[..m], windows[..m], k);
      assert prev.cells[meanNames[k]] == MeanColumn(src, windows[k]);
    }
  }

  /**
   * When the std name of window k is no mean name and is written twice only
   * with the same window, it ends up holding the rolling std of `src` over
   * that window.
   */
  lemma {:induction false} WindowsWriteStd(c: Columns, src: seq<Cell>, meanNames: seq<string>, stdNames: seq<string>, windows: seq<int>, k: int)
    requires |meanNames| == |stdNames| == |windows| && 0 <= k < |windows|
    requires forall j :: 0 <= j < |windows| ==> windows[j] >= 1
    requires stdNames[k] !in meanNames
    requires forall j :: 0 <= j < |windows| && stdNames[j] == stdNames[k] ==> windows[j] == windows[k]
    ensures stdNames[k] in AssignWindows(c, src, meanNames, stdNames, windows).cells
    ensures AssignWindows(c, src, meanNames, stdNames, windows).cells[stdNames[k]] == StdColumn(src, windows[k])
  {
    var m := |windows| - 1;
    var prev := AssignWindows(c, src, meanNames[..m], stdNames[..m], windows[..m]);
    var mid := Assign(prev, meanNames[m], MeanColumn(src, windows[m]));
    assert stdNames[k] != meanNames[m];
    if stdNames[k] == stdNames[m] {
      assert windows[m] == windows[k];
    } else {
      assert stdNames[..m][k] == stdNames[k] && windows[..m][k] == windows[k];
      assert stdNames[k] !in meanNames[..m];
      assert forall j :: 0 <= j < m ==> stdNames[..m][j] == stdNames[j] && windows[..m][j] == windows[j];
      WindowsWriteStd(c, src, meanNames[..m], stdNames[..m], windows[..m], k);
      assert mid.cells[stdNames[k]] == prev.cells[stdNames[k]];
    }
  }

  /** The names the rolling features write are all different from each other and from the source column. */
  lemma RollingNames(col: string, w1: int, w2: int)
    ensures MeanName(col, w1) != col && StdName(col, w1) != col
    ensures MeanName(col, w1) != StdName(col, w2)
    ensures MeanName(col, w1) == MeanName(col, w2) ==> w1 == w2
    ensures StdName(col, w1) == StdName(col, w2) ==> w1 == w2
  {
    assert MeanName(col, w1)[|col| + 6] == 'm';
    assert StdName(col, w2)[|col| + 6] == 's';
    if MeanName(col, w1) == MeanName(col, w2) {
      Strings.NumberedNameInjective(col, w1, col, w2, "_roll_mean_");
    }
    if StdName(col, w1) == StdName(col, w2) {
      Strings.NumberedNameInjective(col, w1, col, w2, "_roll_std_");
    }
  }

  /** A name no longer than the column's is none of its rolling feature names. */
  lemma ShortNameNoRolling(col: string, windows: seq<int>, n: string)
    requires |n| <= |col|
    ensures IsNoRollingName(n, col, windows)
  {
    forall k | 0 <= k < |windows|
      ensures MeanNames(col, windows)[k] != n && StdNames(col, windows)[k] != n
    {
      assert |MeanName(col, windows[k])| > |col| && |StdName(col, windows[k])| > |col|;
    }
  }

  /** A lag name of a column is none of its rolling feature names: they part at the letter after the underscore. */
  lemma LagNameNoRolling(col: string, lag: int, windows: seq<int>)
    ensures IsNoRollingName(LagName(col, lag), col, windows)
  {
    var name := LagName(col, lag);
    assert name[|col| + 1] == 'l';
    forall k | 0 <= k < |windows|
      ensures MeanNames(col, windows)[k] != name && StdNames(col, windows)[k] != name
    {
      assert MeanName(col, windows[k])[|col| + 1] == 'r';
      assert StdName(col, windows[k])[|col| + 1] == 'r';
    }
  }

  /** n is none of the rolling feature names of the windows. */
  predicate IsNoRollingName(n: string, col: string, windows: seq<int>)
  {
    n !in MeanNames(col, windows) && n !in StdNames(col, windows)
  }

  /** `add_rolling_features` leaves every column that is not one of its feature names as it was, the source column among them. */
  lemma WithRollingKeeps(c: Columns, col: string, windows: seq<int>, n: string)
    requires col in c.cells && n in c.cells
    requires forall k :: 0 <= k < |windows| ==> windows[k] >= 1
    requires n == col || IsNoRollingName(n, col, windows)
    ensures WithRolling(c, col, windows).cells[n] == c.cells[n]
  {
    forall k | 0 <= k < |windows|
      ensures MeanNames(col, windows)[k] != n && StdNames(col, windows)[k] != n
    {
      RollingNames(col, windows[k], windows[k]);
    }
    WithRollingWrites(c, col, windows);
    WindowsKeep(c, c.cells[col], MeanNames(col, windows), StdNames(col, windows), windows, n);
  }

  /**
   * `add_rolling_features`: for every window w, `{col}_roll_mean_{w}` and
   * `{col}_roll_std_{w}` are the rolling mean and std of the source column
   * as it was before the call.
   */
  lemma WithRollingColumns(c: Columns, col: string, windows: seq<int>, k: int)
    requires col in c.cells && 0 <= k < |windows|
    requires forall j :: 0 <= j < |windows| ==> windows[j] >= 1
    ensures var r := WithRolling(c, col, windows);
      && MeanName(col, windows[k]) in r.cells && r.cells[MeanName(col, windows[k])] == MeanColumn(c.cells[col], windows[k])
      && StdName(col, windows[k]) in r.cells && r.cells[StdName(col, windows[k])] == StdColumn(c.cells[col], windows[k])
  {
    var meanNames, stdNames := MeanNames(col, windows), StdNames(col, windows);
    forall j | 0 <= j < |windows|
      ensures meanNames[k] != stdNames[j] && stdNames[k] != meanNames[j]
      ensures meanNames[j] == meanNames[k] ==> windows[j] == windows[k]
      ensures stdNames[j] == stdNames[k] ==> windows[j] == windows[k]
    {
      RollingNames(col, windows[k], windows[j]);
      RollingNames(col, windows[j], windows[k]);
    }
    WithRollingWrites(c, col, windows);
    WindowsWriteMean(c, c.cells[col], meanNames, stdNames, windows, k);
    WindowsWriteStd(c, c.cells[col], meanNames, stdNames, windows, k);
  }

  // ---------------------------------------------------------------------
  // Calendar features

  /** A column the `.dt` accessor accepts: instants and NaT only. */
  predicate TimeCells(xs: seq<Cell>)
  {
    forall i :: 0 <= i < |xs| ==> xs[i].Stamp? || xs[i].Missing?
  }

  /** `.dt.hour`; NaT gives NaN. */
  function HourCells(xs: seq<Cell>): (r: seq<Cell>)
    ensures |r| == |xs|
  {
    seq(|xs|, i requires 0 <= i < |xs| => if xs[i].Stamp? then Num(Calendar.HourOf(xs[i].t) as real) else Missing)
  }

  /** `.dt.weekday`; NaT gives NaN. */
  function WeekdayCells(xs: seq<Cell>): (r: seq<Cell>)
    ensures |r| == |xs|
  {
    seq(|xs|, i requires 0 <= i < |xs| => if xs[i].Stamp? then Num(Calendar.Weekday(xs[i].t) as real) else Missing)
  }

  /** `.dt.month`; NaT gives NaN. */
  function MonthCells(xs: seq<Cell>): (r: seq<Cell>)
    ensures |r| == |xs|
  {
    seq(|xs|, i requires 0 <= i < |xs| => if xs[i].Stamp? then Num(Calendar.Month(xs[i].t) as real) else Missing)
  }

  /** `df['weekday'] >= 5`; a NaN weekday compares false. */
  function WeekendCells(xs: seq<Cell>): (r: seq<Cell>)
    ensures |r| == |xs|
  {
    seq(|xs|, i requires 0 <= i < |xs| => Flag(xs[i].Num? && xs[i].x >= 5.0))
  }

  /** The frame after the four calendar columns, each read from the frame as it then stands. */
  function WithCalendar(c: Columns, timeCol: string): (r: Columns)
    requires timeCol in c.cells && timeCol != "hour" && timeCol != "weekday"
    ensures c.cells.Keys <= r.cells.Keys
    ensures "hour" in r.cells && "weekday" in r.cells && "month" in r.cells && "is_weekend" in r.cells
  {
    var withHour := Assign(c, "hour", HourCells(c.cells[timeCol]));
    var withWeekday := Assign(withHour, "weekday", WeekdayCells(withHour.cells[timeCol]));
    var withMonth := Assign(withWeekday, "month", MonthCells(withWeekday.cells[timeCol]));
    Assign(withMonth, "is_weekend", WeekendCells(withMonth.cells["weekday"]))
  }

  /**
   * `add_calendar_features`: at every row with an instant t, hour, weekday
   * and month are those of t and is_weekend holds iff the weekday is
   * Saturday or Sunday; a NaT row gets NaN and is_weekend false. Columns
   * other than the four are untouched.
   */
  lemma CalendarValues(c: Columns, timeCol: string, i: int)
    requires timeCol in c.cells && timeCol != "hour" && timeCol != "weekday"
    requires 0 <= i < |c.cells[timeCol]|
    ensures var r, x := WithCalendar(c, timeCol), c.cells[timeCol][i];
      && r.cells["hour"][i] == (if x.Stamp? then Num(Calendar.HourOf(x.t) as real) else Missing)
      && r.cells["weekday"][i] == (if x.Stamp? then Num(Calendar.Weekday(x.t) as real) else Missing)
      && (timeCol != "month" ==>
            r.cells["month"][i] == (if x.Stamp? then Num(Calendar.Month(x.t) as real) else Missing))
      && r.cells["is_weekend"][i] == Flag(x.Stamp? && Calendar.Weekday(x.t) >= 5)
  {
  }

  /** The four calendar columns are as long as the time column. */
  lemma CalendarLengths(c: Columns, timeCol: string)
    requires timeCol in c.cells && timeCol != "hour" && timeCol != "weekday"
    ensures var r, n := WithCalendar(c, timeCol), |c.cells[timeCol]|;
      |r.cells["hour"]| == n && |r.cells["weekday"]| == n && |r.cells["month"]| == n && |r.cells["is_weekend"]| == n
  {
  }

  /** `add_calendar_features` leaves every column other than the four it writes as it was. */
  lemma CalendarKeeps(c: Columns, timeCol: string, n: string)
    requires timeCol in c.cells && timeCol != "hour" && timeCol != "weekday"
    requires n in c.cells && n != "hour" && n != "weekday" && n != "month" && n != "is_weekend"
    ensures WithCalendar(c, timeCol).cells[n] == c.cells[n]
  {
  }
}
